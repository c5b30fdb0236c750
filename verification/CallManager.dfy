/**
 The manager of callManager.cs as the object it is: a table and a pending action
 that its methods reassign, loops that count and collect calls by state, and state
 changes that nest.  Every method is tied to the step of module CallControl that it
 carries out; the order in which the table is enumerated is left open.
 */
module CallManager {
  import opened CallControl
  import opened Wrappers

  function Bit(s: StateId): bv8 {
    match s
    case IDLE => 0x01
    case CONNECTING => 0x02
    case ALERTING => 0x04
    case ACTIVE => 0x08
    case RELEASED => 0x10
    case INCOMING => 0x20
    case HOLDING => 0x40
    case TERMINATED => 0x80
  }

  predicate Masked(states: bv8, s: StateId) {
    states & Bit(s) == Bit(s)
  }

  function StatesOf(states: bv8): set<StateId> {
    set s: StateId | Masked(states, s)
  }

  /** The mask the manager tests before it dials names exactly the two setup states. */
  lemma SetupMask()
    ensures StatesOf(Bit(CONNECTING) | Bit(ALERTING)) == SETUP
  {
    forall s: StateId
      ensures s in StatesOf(Bit(CONNECTING) | Bit(ALERTING)) <==> s in SETUP
    {
      match s
      case IDLE =>
      case _ =>
    }
  }

  lemma CreateInOrder(m: Manager, number: string, env: Env)
    requires InOrder(m)
    ensures InOrder(Create(m, number, env))
  {
    hide Fits, Create;
    StepInOrder(m, CreateOutbound(number), env);
  }

  lemma DiallingSession(serial: nat, number: string, session: int)
    ensures Dialling(serial, number, session).session == session
  {
  }

  method Take<T(==)>(s: set<T>) returns (x: T)
    requires s != {}
    ensures x in s
  {
    x :| x in s;
  }

  class CallManager {
    var calls: map<int, Call>
    var pending: Option<Pending>
    var log: seq<Record>
    var created: nat
    ghost var destroyed: seq<Call>

    ghost function View(): Manager
      reads this
    {
      Manager(calls, pending, log, created, destroyed)
    }

    ghost predicate Valid()
      reads this
    {
      InOrder(View())
    }

    constructor ()
      ensures Valid() && View() == EMPTY
    {
      calls, pending, log, created, destroyed := map[], None, [], 0, [];
      new;
      EmptyFits();
    }

    method GetNoCallsInState(state: StateId) returns (cnt: nat)
      ensures cnt == Count(calls, {state})
    {
      var list := EnumCallsInState(state);
      cnt := |list|;
    }

    /** Counts by the bit mask of several states. */
    method GetNoCallsInStates(states: bv8) returns (cnt: nat)
      ensures cnt == Count(calls, StatesOf(states))
    {
      hide Masked;
      cnt := 0;
      var rest := calls.Keys;
      ghost var seen := map[];
      while rest != {}
        invariant rest <= calls.Keys
        invariant seen == calls - rest
        invariant cnt == Count(seen, StatesOf(states))
        decreases |rest|
      {
        var k := Take(rest);
        if Masked(states, calls[k].state) {
          cnt := cnt + 1;
        }
        CountUpdate(seen, k, calls[k], StatesOf(states));
        rest, seen := rest - {k}, seen[k := calls[k]];
      }
      assert seen == calls;
    }

    /** The sessions in a state, in the order of enumeration: each of them, once. */
    method EnumCallsInState(state: StateId) returns (list: seq<int>)
      ensures forall i :: 0 <= i < |list| ==> list[i] in calls && calls[list[i]].state == state
      ensures forall i, j :: 0 <= i < j < |list| ==> list[i] != list[j]
      ensures |list| == Count(calls, {state})
    {
      list := [];
      var rest := calls.Keys;
      ghost var seen := map[];
      while rest != {}
        invariant rest <= calls.Keys
        invariant seen == calls - rest
        invariant |list| == Count(seen, {state})
        invariant forall i :: 0 <= i < |list| ==> list[i] in seen && calls[list[i]].state == state
        invariant forall i, j :: 0 <= i < j < |list| ==> list[i] != list[j]
        decreases |rest|
      {
        var k := Take(rest);
        if calls[k].state == state {
          list := list + [k];
        }
        CountUpdate(seen, k, calls[k], {state});
        rest, seen := rest - {k}, seen[k := calls[k]];
      }
      assert seen == calls;
    }

    // -- state changes of one call ------------------------------------------------

    method Destroy(c: Call)
      modifies this
      ensures View() == CallControl.Destroy(old(View()), c)
    {
      if (c.kind != Dialed || |c.number| > 0) && c.kind != Undefined {
        log := log + [Record(c.kind, c.number, c.name)];
      }
      calls := calls - {c.session};
      destroyed := destroyed + [c];
    }

    /** RELEASED and TERMINATED: the call stays if its timer starts. */
    method EnterFinal(c: Call, next: StateId, env: Env)
      modifies this
      ensures View() == Finish(old(View()), c, next, env)
    {
      var c' := Move(c, next);
      if env.releasedStarts {
        calls := calls[c'.session := c'.(releasedTimer := true)];
      } else {
        Destroy(c');
      }
    }

    method EnterActive(c: Call)
      modifies this`calls
      ensures View() == Activate(old(View()), c)
    {
      calls := calls[c.session := Move(c, ACTIVE).(counting := true)];
    }

    /** INCOMING: timers start, and a lone call may be answered at once. */
    method EnterIncoming(c: Call, env: Env)
      modifies this`calls
      ensures View() == Ring(old(View()), c, env)
    {
      var c' := Ringing(c, env);
      calls := calls[c'.session := c'];
      if env.autoAnswer && |calls| == 1 {
        EnterActive(c'.(kind := Received));
      }
    }

    method ChangeState(c: Call, next: StateId, env: Env)
      modifies this
      ensures View() == Enter(old(View()), c, next, env)
    {
      hide Finish, Ring, Activate;
      match next {
        case RELEASED => EnterFinal(c, next, env);
        case TERMINATED => EnterFinal(c, next, env);
        case INCOMING => EnterIncoming(c, env);
        case ACTIVE => EnterActive(c);
        case _ => calls := calls[c.session := Move(c, next)];
      }
    }

    method EndCall(c: Call, env: Env)
      requires InTable(View(), c)
      modifies this
      ensures View() == CallControl.EndCall(old(View()), c, env)
    {
      match c.state {
        case IDLE => Destroy(c);
        case RELEASED => Destroy(c);
        case TERMINATED =>
        case _ => ChangeState(c, TERMINATED, env);
      }
    }

    method HoldCall(c: Call)
      requires InTable(View(), c)
      modifies this`calls
      ensures View() == Hold(old(View()), c)
    {
      if c.state == ACTIVE {
        calls := calls[c.session := c.(holdRequested := true)];
      }
    }

    method AcceptCall(c: Call, env: Env)
      requires InTable(View(), c)
      modifies this
      ensures View() == Accept(old(View()), c)
    {
      if c.state == INCOMING {
        ChangeState(c.(kind := Received), ACTIVE, env);
      }
    }

    method RetrieveCall(c: Call, env: Env)
      requires InTable(View(), c)
      modifies this
      ensures View() == Retrieve(old(View()), c)
    {
      if c.state == HOLDING {
        ChangeState(c.(retrieveRequested := true), ACTIVE, env);
      }
    }

    // -- requests of the user -----------------------------------------------------

    method OnUserRelease(session: int, env: Env)
      requires Valid()
      modifies this
      ensures Valid() && View() == Step(old(View()), UserRelease(session), env)
    {
      hide Fits, CallControl.EndCall;
      FitsIsKeyed(View());
      StepInOrder(View(), UserRelease(session), env);
      if session in calls {
        EndCall(calls[session], env);
      }
    }

    /** Dials, unless a call is in setup; an active call is held first. */
    method CreateOutboundCall(number: string, env: Env) returns (ghost pick: int)
      requires Valid()
      modifies this
      ensures Valid() && View() == Create(old(View()), number, env.(pick := pick))
    {
      hide Fits, Create;
      ghost var m := View();
      FitsIsKeyed(m);
      pick := DialOrHold(number, env);
      CreateInOrder(m, number, env.(pick := pick));
    }

    method DialOrHold(number: string, env: Env) returns (ghost pick: int)
      requires Keyed(View())
      modifies this
      ensures View() == Create(old(View()), number, env.(pick := pick))
    {
      hide Dial;
      pick := 0;
      var setup := GetNoCallsInStates(Bit(CONNECTING) | Bit(ALERTING));
      SetupMask();
      if setup > 0 {
        return;
      }
      var active := EnumCallsInState(ACTIVE);
      if active == [] {
        DialNumber(number, env.newSession);
      } else {
        pick := active[0];
        pending := Some(CreateSession(number));
        HoldCall(calls[active[0]]);
      }
    }

    method DialNumber(number: string, session: int)
      requires Keyed(View())
      modifies this
      ensures View() == Dial(old(View()), number, session)
    {
      hide Dialling;
      var c := Dialling(created, number, session);
      assert c.session == session by { DiallingSession(created, number, session); }
      created := created + 1;
      if session != -1 {
        if session in calls {
          Destroy(calls[session]);
        }
        calls := calls[session := c];
      }
    }

    method OnUserAnswer(session: int, env: Env) returns (ghost pick: int)
      requires Valid()
      modifies this
      ensures Valid() && View() == Answer(old(View()), session, env.(pick := pick))
    {
      hide Fits;
      ghost var m := View();
      FitsIsKeyed(m);
      pick := 0;
      var active := EnumCallsInState(ACTIVE);
      if |active| > 0 {
        pick := active[0];
        HoldCall(calls[active[0]]);
        pending := Some(UserAnswer(session));
      } else if session in calls {
        AcceptCall(calls[session], env);
      }
      StepInOrder(m, UserAnswers(session), env.(pick := pick));
    }

    method OnUserHoldRetrieve(session: int, env: Env) returns (ghost pick: int)
      requires Valid()
      modifies this
      ensures Valid() && View() == HoldRetrieve(old(View()), session, env.(pick := pick))
    {
      hide Fits;
      ghost var m := View();
      FitsIsKeyed(m);
      pick := 0;
      if session !in calls {
        return;
      }
      if calls[session].state == ACTIVE {
        HoldCall(calls[session]);
      } else if calls[session].state == HOLDING {
        var active := EnumCallsInState(ACTIVE);
        if |active| > 0 {
          pick := active[0];
          HoldCall(calls[active[0]]);
          pending := Some(UserHold(session));
        } else {
          RetrieveCall(calls[session], env);
        }
      }
      StepInOrder(m, UserHoldRetrieve(session), env.(pick := pick));
    }

    method OnUserConference(env: Env) returns (ghost pick: int)
      requires Valid()
      modifies this
      ensures Valid() && View() == Conference(old(View()), env.(pick := pick))
    {
      hide Fits;
      ghost var m := View();
      FitsIsKeyed(m);
      pick := 0;
      var active := GetNoCallsInState(ACTIVE);
      var held := EnumCallsInState(HOLDING);
      if active == 1 && |held| >= 1 {
        pick := held[0];
        RetrieveCall(calls[held[0]], env);
      }
      StepInOrder(m, UserConference, env.(pick := pick));
    }

    method ActivatePendingAction(env: Env) returns (ghost pick: int)
      requires Valid()
      modifies this
      ensures Valid() && View() == ActivatePending(old(View()), env.(pick := pick))
    {
      hide Fits, Create, Answer, HoldRetrieve;
      ghost var m := View();
      pick := 0;
      if pending.Some? {
        match pending.value {
          case UserAnswer(s) => pick := OnUserAnswer(s, env);
          case CreateSession(n) => pick := CreateOutboundCall(n, env);
          case UserHold(s) => pick := OnUserHoldRetrieve(s, env);
        }
      }
      pending := None;
      PendingInOrder(m, env.(pick := pick));
    }

    // -- callbacks of the stack ---------------------------------------------------

    method OnHoldConfirm(session: int, env: Env) returns (ghost pick: int)
      requires Valid()
      modifies this
      ensures Valid() && View() == Step(old(View()), HoldConfirm(session), env.(pick := pick))
    {
      hide Fits, ActivatePending;
      ghost var m := View();
      FitsIsKeyed(m);
      pick := 0;
      if session in calls && calls[session].state == ACTIVE && calls[session].holdRequested {
        var serial := calls[session].serial;
        ChangeState(calls[session], HOLDING, env);
        assert View() == Put(m, Move(m.calls[session], HOLDING));
        HoldingInOrder(m, m.calls[session]);
        pick := ActivatePendingAction(env);
        if session in calls && calls[session].serial == serial {
          calls := calls[session := calls[session].(holdRequested := false)];
        }
      }
      StepInOrder(m, HoldConfirm(session), env.(pick := pick));
    }

    method OnSessionIncoming(session: int, env: Env)
      requires Valid()
      modifies this
      ensures Valid() && View() == Step(old(View()), SessionIncoming(session), env)
    {
      hide Fits, CallControl.EndCall;
      FitsIsKeyed(View());
      StepInOrder(View(), SessionIncoming(session), env);
      var incall := NewCall(created).(session := session);
      created := created + 1;
      if session in calls {
        EndCall(calls[session], env);
      } else {
        calls := calls[session := incall];
      }
    }

    method OnCallStateChanged(e: Event, env: Env)
      requires e.SessionEarly? || e.SessionConnecting? || e.SessionDisconnected?
      requires Valid()
      modifies this
      ensures Valid() && View() == Step(old(View()), e, env)
    {
      hide Fits;
      FitsIsKeyed(View());
      StepInOrder(View(), e, env);
      if e.session !in calls {
        return;
      }
      var c := calls[e.session];
      match e {
        case SessionEarly(_) =>
          if c.state == CONNECTING { ChangeState(c, ALERTING, env); }
        case SessionConnecting(_) =>
          if c.state == CONNECTING || c.state == ALERTING { ChangeState(c, ACTIVE, env); }
        case SessionDisconnected(_) =>
          match c.state {
            case IDLE =>
            case RELEASED => Destroy(c);
            case TERMINATED => Destroy(c);
            case _ => ChangeState(c, RELEASED, env);
          }
      }
    }

    method OnIncomingCall(session: int, number: string, name: string, env: Env)
      requires Valid()
      modifies this
      ensures Valid() && View() == Step(old(View()), IncomingCall(session, number, name), env)
    {
      hide Fits;
      FitsIsKeyed(View());
      StepInOrder(View(), IncomingCall(session, number, name), env);
      if session in calls && calls[session].state == IDLE {
        var c := calls[session];
        if env.forward || env.doNotDisturb {
          EndCall(c, env);
        } else {
          ChangeState(c.(number := number, name := name), INCOMING, env);
        }
      }
    }

    /** Fails if there is no such call, or if its new session is in use; in that case it is lost. */
    method OnCallReplaced(before: int, after: int) returns (ok: bool)
      requires Valid()
      modifies this`calls
      ensures Valid() && View() == Replace(old(View()), before, after)
      ensures ok <==> CanReplace(old(View()), before, after)
    {
      hide Fits;
      ReplaceFits(View(), before, after);
      ReplaceCounts(View(), before, after);
      ok := before in calls;
      if ok {
        var c := calls[before];
        calls := calls - {before};
        ok := after !in calls;
        if ok {
          calls := calls[after := c.(session := after)];
        }
      }
    }

    // -- timers -------------------------------------------------------------------

    method OnTimer(e: Event, env: Env)
      requires e.ReleasedTimer? || e.NoReplyTimer? || e.NoResponseTimer?
      requires Valid() && Enabled(View(), e)
      modifies this
      ensures Valid() && View() == Step(old(View()), e, env)
    {
      hide Fits;
      FitsIsKeyed(View());
      StepInOrder(View(), e, env);
      var c := calls[e.session];
      match e {
        case ReleasedTimer(_) =>
          c := c.(releasedTimer := false);
          if c.state == RELEASED || c.state == TERMINATED {
            Destroy(c);
          } else {
            calls := calls[c.session := c];
          }
        case NoReplyTimer(_) =>
          calls := calls[c.session := c.(noReplyTimer := false)];
        case NoResponseTimer(_) =>
          c := c.(noResponseTimer := false);
          if c.state == INCOMING {
            EnterFinal(c, TERMINATED, env);
          } else {
            calls := calls[c.session := c];
          }
      }
    }
  }
}
