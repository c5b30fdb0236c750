/**
 The call automaton of callStates.cs and callStateMachine.cs, and the reactions of
 callManager.cs to user requests, stack callbacks and timers, as steps over the
 call table.  A run is any sequence of such steps from the empty table.
 */
module CallControl {
  import opened Wrappers

  datatype StateId = IDLE | CONNECTING | ALERTING | ACTIVE | RELEASED | INCOMING | HOLDING | TERMINATED

  datatype CallType = Dialed | Received | Missed | All | Undefined

  /**
   One state machine.  `serial` numbers the machines in order of creation and
   `visited` records the states entered so far; both are history only, no step
   ever reads them.
   */
  datatype Call = Call(
    serial: nat, session: int, state: StateId, kind: CallType, number: string, name: string,
    incoming: bool, counting: bool, holdRequested: bool, retrieveRequested: bool,
    releasedTimer: bool, noReplyTimer: bool, noResponseTimer: bool,
    visited: set<StateId>)

  datatype Record = Record(kind: CallType, number: string, name: string)

  datatype Pending = UserAnswer(session: int) | CreateSession(number: string) | UserHold(session: int)

  /**
   The manager: call table, pending action and call log.  `created` counts the
   machines and `destroyed` keeps them as they were when destroyed; history again.
   */
  datatype Manager = Manager(calls: map<int, Call>, pending: Option<Pending>,
                             log: seq<Record>, created: nat, destroyed: seq<Call>)

  const EMPTY: Manager := Manager(map[], None, [], 0, [])

  /**
   What the surroundings answer during one step: whether a timer starts, the
   configuration flags, the session number a new call is given, and which of
   several calls in the same state the table enumerates first.
   */
  datatype Env = Env(releasedStarts: bool, noReplyStarts: bool, noResponseStarts: bool,
                     forward: bool, doNotDisturb: bool, noReplyForward: bool, autoAnswer: bool,
                     newSession: int, pick: int)

  datatype Event =
    | CreateOutbound(number: string)
    | UserRelease(session: int)
    | UserAnswers(session: int)
    | UserHoldRetrieve(session: int)
    | UserConference
    | SessionIncoming(session: int)
    | SessionEarly(session: int)
    | SessionConnecting(session: int)
    | SessionDisconnected(session: int)
    | IncomingCall(session: int, number: string, name: string)
    | HoldConfirm(session: int)
    | CallReplaced(before: int, after: int)
    | ReleasedTimer(session: int)
    | NoReplyTimer(session: int)
    | NoResponseTimer(session: int)

  // ---------------------------------------------------------------------------
  // The automaton
  // ---------------------------------------------------------------------------

  function NewCall(serial: nat): Call {
    Call(serial, -1, IDLE, Dialed, "", "", false, false, false, false, false, false, false, {})
  }

  function StopAllTimers(c: Call): Call {
    c.(releasedTimer := false, noReplyTimer := false, noResponseTimer := false)
  }

  /** Exit action of the current state, then the new state. */
  function Move(c: Call, to: StateId): Call {
    var left := if c.state in {RELEASED, TERMINATED, INCOMING} then StopAllTimers(c) else c;
    left.(state := to, visited := left.visited + {to})
  }

  function Put(m: Manager, c: Call): Manager {
    m.(calls := m.calls[c.session := c])
  }

  function Destroy(m: Manager, c: Call): Manager {
    var logged := (c.kind != Dialed || |c.number| > 0) && c.kind != Undefined;
    m.(calls := m.calls - {c.session},
       log := m.log + (if logged then [Record(c.kind, c.number, c.name)] else []),
       destroyed := m.destroyed + [c])
  }

  /** Entering RELEASED or TERMINATED destroys the call at once if its timer does not start. */
  function Finish(m: Manager, c: Call, to: StateId, env: Env): Manager {
    var c' := Move(c, to);
    if env.releasedStarts then Put(m, c'.(releasedTimer := true)) else Destroy(m, c')
  }

  function Activate(m: Manager, c: Call): Manager {
    Put(m, Move(c, ACTIVE).(counting := true))
  }

  function Accept(m: Manager, c: Call): Manager {
    if c.state == INCOMING then Activate(m, c.(kind := Received)) else m
  }

  function Retrieve(m: Manager, c: Call): Manager {
    if c.state == HOLDING then Activate(m, c.(retrieveRequested := true)) else m
  }

  function Hold(m: Manager, c: Call): Manager {
    if c.state == ACTIVE then Put(m, c.(holdRequested := true)) else m
  }

  function Ringing(c: Call, env: Env): Call {
    Move(c, INCOMING).(incoming := true, kind := Missed,
      noResponseTimer := c.noResponseTimer || env.noResponseStarts,
      noReplyTimer := c.noReplyTimer || (env.noReplyForward && env.noReplyStarts))
  }

  function Ring(m: Manager, c: Call, env: Env): Manager {
    var m' := Put(m, Ringing(c, env));
    if env.autoAnswer && |m'.calls| == 1 then Accept(m', Ringing(c, env)) else m'
  }

  /** A change of state with its entry action. */
  function Enter(m: Manager, c: Call, to: StateId, env: Env): Manager {
    match to
    case RELEASED => Finish(m, c, to, env)
    case TERMINATED => Finish(m, c, to, env)
    case ACTIVE => Activate(m, c)
    case INCOMING => Ring(m, c, env)
    case _ => Put(m, Move(c, to))
  }

  function EndCall(m: Manager, c: Call, env: Env): Manager {
    match c.state
    case IDLE => Destroy(m, c)
    case RELEASED => Destroy(m, c)
    case TERMINATED => m
    case _ => Finish(m, c, TERMINATED, env)
  }

  function OnReleased(m: Manager, c: Call, env: Env): Manager {
    match c.state
    case IDLE => m
    case RELEASED => Destroy(m, c)
    case TERMINATED => Destroy(m, c)
    case _ => Finish(m, c, RELEASED, env)
  }

  function OnIncoming(m: Manager, c: Call, number: string, name: string, env: Env): Manager {
    if c.state != IDLE then m
    else if env.forward || env.doNotDisturb then EndCall(m, c, env)
    else Ring(m, c.(number := number, name := name), env)
  }

  // ---------------------------------------------------------------------------
  // The manager
  // ---------------------------------------------------------------------------

  function Sessions(calls: map<int, Call>, states: set<StateId>): set<int> {
    set k | k in calls && calls[k].state in states
  }

  function Count(calls: map<int, Call>, states: set<StateId>): nat {
    |Sessions(calls, states)|
  }

  const SETUP: set<StateId> := {CONNECTING, ALERTING}

  ghost function Any<T>(s: set<T>): (x: T)
    requires s != {}
    ensures x in s
  {
    var x :| x in s;
    x
  }

  /** The first enumerated call in a state: the suggested one, or else any. */
  ghost function First(calls: map<int, Call>, state: StateId, pick: int): (k: int)
    requires Count(calls, {state}) > 0
    ensures k in calls && calls[k].state == state
    ensures pick in calls && calls[pick].state == state ==> k == pick
  {
    if pick in calls && calls[pick].state == state then pick
    else Any(Sessions(calls, {state}))
  }

  function Dialling(serial: nat, number: string, session: int): Call {
    Move(NewCall(serial).(number := number), CONNECTING).(kind := Dialed, session := session)
  }

  /** A call that still occupies the new session is destroyed first. */
  function Dial(m: Manager, number: string, session: int): Manager {
    var c := Dialling(m.created, number, session);
    var m' := m.(created := m.created + 1);
    if session == -1 then m'
    else if session in m'.calls then Put(Destroy(m', m'.calls[session]), c)
    else Put(m', c)
  }

  ghost function Create(m: Manager, number: string, env: Env): Manager {
    if Count(m.calls, SETUP) > 0 then m
    else if Count(m.calls, {ACTIVE}) == 0 then Dial(m, number, env.newSession)
    else
      Hold(m.(pending := Some(CreateSession(number))), m.calls[First(m.calls, ACTIVE, env.pick)])
  }

  ghost function Answer(m: Manager, session: int, env: Env): Manager {
    if Count(m.calls, {ACTIVE}) > 0 then
      Hold(m, m.calls[First(m.calls, ACTIVE, env.pick)]).(pending := Some(UserAnswer(session)))
    else if session in m.calls then Accept(m, m.calls[session])
    else m
  }

  ghost function HoldRetrieve(m: Manager, session: int, env: Env): Manager {
    if session !in m.calls then m
    else if m.calls[session].state == ACTIVE then Hold(m, m.calls[session])
    else if m.calls[session].state == HOLDING then
      if Count(m.calls, {ACTIVE}) > 0 then
        Hold(m, m.calls[First(m.calls, ACTIVE, env.pick)]).(pending := Some(UserHold(session)))
      else Retrieve(m, m.calls[session])
    else m
  }

  ghost function Conference(m: Manager, env: Env): Manager {
    if Count(m.calls, {ACTIVE}) == 1 && Count(m.calls, {HOLDING}) >= 1 then
      Retrieve(m, m.calls[First(m.calls, HOLDING, env.pick)])
    else m
  }

  /** Whatever the action does, the pending slot is empty afterwards. */
  ghost function ActivatePending(m: Manager, env: Env): Manager {
    var m' :=
      match m.pending
      case None => m
      case Some(UserAnswer(s)) => Answer(m, s, env)
      case Some(CreateSession(n)) => Create(m, n, env)
      case Some(UserHold(s)) => HoldRetrieve(m, s, env);
    m'.(pending := None)
  }

  function ClearHold(m: Manager, serial: nat, session: int): Manager {
    if session in m.calls && m.calls[session].serial == serial
    then m.(calls := m.calls[session := m.calls[session].(holdRequested := false)])
    else m
  }

  ghost function OnHoldConfirm(m: Manager, c: Call, env: Env): Manager {
    if c.state != ACTIVE then m
    else if c.holdRequested then
      ClearHold(ActivatePending(Put(m, Move(c, HOLDING)), env), c.serial, c.session)
    else m
  }

  function OnSessionIncoming(m: Manager, session: int, env: Env): Manager {
    var m' := m.(created := m.created + 1);
    if session in m.calls then EndCall(m', m.calls[session], env)
    else Put(m', NewCall(m.created).(session := session))
  }

  predicate CanReplace(m: Manager, before: int, after: int) {
    before in m.calls && (after == before || after !in m.calls)
  }

  /** A call whose new session is in use is lost from the table, and the replacement fails. */
  function Replace(m: Manager, before: int, after: int): Manager {
    if CanReplace(m, before, after) then
      m.(calls := (m.calls - {before})[after := m.calls[before].(session := after)])
    else m.(calls := m.calls - {before})
  }

  ghost function Step(m: Manager, e: Event, env: Env): Manager {
    match e
    case CreateOutbound(n) => Create(m, n, env)
    case UserRelease(s) => if s in m.calls then EndCall(m, m.calls[s], env) else m
    case UserAnswers(s) => Answer(m, s, env)
    case UserHoldRetrieve(s) => HoldRetrieve(m, s, env)
    case UserConference => Conference(m, env)
    case SessionIncoming(s) => OnSessionIncoming(m, s, env)
    case SessionEarly(s) =>
      if s in m.calls && m.calls[s].state == CONNECTING then Put(m, Move(m.calls[s], ALERTING)) else m
    case SessionConnecting(s) =>
      if s in m.calls && m.calls[s].state in SETUP then Activate(m, m.calls[s]) else m
    case SessionDisconnected(s) => if s in m.calls then OnReleased(m, m.calls[s], env) else m
    case IncomingCall(s, n, d) => if s in m.calls then OnIncoming(m, m.calls[s], n, d, env) else m
    case HoldConfirm(s) => if s in m.calls then OnHoldConfirm(m, m.calls[s], env) else m
    case CallReplaced(o, f) => Replace(m, o, f)
    case ReleasedTimer(s) =>
      if s in m.calls then
        var c := m.calls[s].(releasedTimer := false);
        if c.state in {RELEASED, TERMINATED} then Destroy(m, c) else Put(m, c)
      else m
    case NoReplyTimer(s) =>
      if s in m.calls then Put(m, m.calls[s].(noReplyTimer := false)) else m
    case NoResponseTimer(s) =>
      if s in m.calls then
        var c := m.calls[s].(noResponseTimer := false);
        if c.state == INCOMING then Finish(m, c, TERMINATED, env) else Put(m, c)
      else m
  }

  /** Only an armed timer expires, and a replacing session number is not in use. */
  predicate Enabled(m: Manager, e: Event) {
    match e
    case CallReplaced(o, f) => f == o || f !in m.calls
    case ReleasedTimer(s) => s in m.calls && m.calls[s].releasedTimer
    case NoReplyTimer(s) => s in m.calls && m.calls[s].noReplyTimer
    case NoResponseTimer(s) => s in m.calls && m.calls[s].noResponseTimer
    case _ => true
  }

  /** The state a run leads to from `m`. */
  ghost function After(m: Manager, run: seq<(Event, Env)>): Manager {
    if run == [] then m else
      var before := After(m, run[..|run| - 1]);
      Step(before, run[|run| - 1].0, run[|run| - 1].1)
  }

  ghost predicate IsRun(run: seq<(Event, Env)>) {
    forall i :: 0 <= i < |run| ==> Enabled(After(EMPTY, run[..i]), run[i].0)
  }

  ghost predicate NoConference(run: seq<(Event, Env)>) {
    forall i :: 0 <= i < |run| ==> !run[i].0.UserConference?
  }

  // ---------------------------------------------------------------------------
  // How many calls are in which state
  // ---------------------------------------------------------------------------

  function A(m: Manager): nat { Count(m.calls, {ACTIVE}) }

  function S(m: Manager): nat { Count(m.calls, SETUP) }

  function One(b: bool): nat { if b then 1 else 0 }

  lemma CountWithout(calls: map<int, Call>, k: int, states: set<StateId>)
    ensures Count(calls, states) == Count(calls - {k}, states) + One(k in calls && calls[k].state in states)
  {
    if k in calls && calls[k].state in states {
      assert Sessions(calls, states) == Sessions(calls - {k}, states) + {k};
    } else {
      assert Sessions(calls, states) == Sessions(calls - {k}, states);
    }
  }

  lemma CountUpdate(calls: map<int, Call>, k: int, c: Call, states: set<StateId>)
    ensures Count(calls[k := c], states)
         == Count(calls, states) - One(k in calls && calls[k].state in states) + One(c.state in states)
  {
    CountWithout(calls, k, states);
    CountWithout(calls[k := c], k, states);
    assert calls[k := c] - {k} == calls - {k};
  }

  predicate Keyed(m: Manager) {
    forall k :: k in m.calls ==> m.calls[k].session == k
  }

  /** Counts after an entry of the table was rewritten. */
  lemma PutCounts(m: Manager, c: Call)
    ensures A(Put(m, c)) == A(m) - One(c.session in m.calls && m.calls[c.session].state == ACTIVE) + One(c.state == ACTIVE)
    ensures S(Put(m, c)) == S(m) - One(c.session in m.calls && m.calls[c.session].state in SETUP) + One(c.state in SETUP)
  {
    CountUpdate(m.calls, c.session, c, {ACTIVE});
    CountUpdate(m.calls, c.session, c, SETUP);
  }

  lemma DestroyCounts(m: Manager, c: Call)
    ensures A(Destroy(m, c)) == A(m) - One(c.session in m.calls && m.calls[c.session].state == ACTIVE)
    ensures S(Destroy(m, c)) == S(m) - One(c.session in m.calls && m.calls[c.session].state in SETUP)
  {
    CountWithout(m.calls, c.session, {ACTIVE});
    CountWithout(m.calls, c.session, SETUP);
  }

  lemma FinishCounts(m: Manager, c: Call, to: StateId, env: Env)
    requires to in {RELEASED, TERMINATED}
    ensures A(Finish(m, c, to, env)) <= A(m) && S(Finish(m, c, to, env)) <= S(m)
  {
    PutCounts(m, Move(c, to).(releasedTimer := true));
    DestroyCounts(m, Move(c, to));
  }

  lemma EndCallCounts(m: Manager, c: Call, env: Env)
    ensures A(EndCall(m, c, env)) <= A(m) && S(EndCall(m, c, env)) <= S(m)
    ensures A(OnReleased(m, c, env)) <= A(m) && S(OnReleased(m, c, env)) <= S(m)
  {
    DestroyCounts(m, c);
    FinishCounts(m, c, TERMINATED, env);
    FinishCounts(m, c, RELEASED, env);
  }

  /** At most one call is being set up, and the active count does not pass 1 by this step. */
  ghost predicate Calm(m: Manager, m': Manager) {
    && S(m') <= 1
    && A(m') <= (if A(m) > 1 then A(m) else 1)
    && A(m') + S(m') <= A(m) + S(m) + One(A(m) == 0)
  }

  lemma HoldCounts(m: Manager, c: Call)
    requires c.session in m.calls && m.calls[c.session] == c
    ensures A(Hold(m, c)) == A(m) && S(Hold(m, c)) == S(m)
  {
    PutCounts(m, c.(holdRequested := true));
  }

  lemma CreateCounts(m: Manager, number: string, env: Env)
    requires Keyed(m) && S(m) <= 1
    ensures Calm(m, Create(m, number, env))
  {
    if S(m) == 0 && A(m) == 0 && env.newSession != -1 {
      var c := Dialling(m.created, number, env.newSession);
      var m' := m.(created := m.created + 1);
      PutCounts(m', c);
      if env.newSession in m'.calls {
        var d := m'.calls[env.newSession];
        DestroyCounts(m', d);
        PutCounts(Destroy(m', d), c);
      }
    } else if S(m) == 0 && A(m) > 0 {
      HoldCounts(m.(pending := Some(CreateSession(number))), m.calls[First(m.calls, ACTIVE, env.pick)]);
    }
  }

  lemma AnswerCounts(m: Manager, session: int, env: Env)
    requires Keyed(m) && S(m) <= 1
    ensures Calm(m, Answer(m, session, env))
  {
    if A(m) > 0 {
      HoldCounts(m, m.calls[First(m.calls, ACTIVE, env.pick)]);
    } else if session in m.calls {
      AcceptCounts(m, m.calls[session]);
    }
  }

  lemma AcceptCounts(m: Manager, c: Call)
    requires c.session in m.calls && m.calls[c.session] == c
    ensures A(Accept(m, c)) == A(m) + One(c.state == INCOMING) && S(Accept(m, c)) == S(m)
  {
    PutCounts(m, Move(c.(kind := Received), ACTIVE).(counting := true));
  }

  lemma RetrieveCounts(m: Manager, c: Call)
    requires c.session in m.calls && m.calls[c.session] == c
    ensures A(Retrieve(m, c)) == A(m) + One(c.state == HOLDING) && S(Retrieve(m, c)) == S(m)
  {
    PutCounts(m, Move(c.(retrieveRequested := true), ACTIVE).(counting := true));
  }

  lemma HoldRetrieveCounts(m: Manager, session: int, env: Env)
    requires Keyed(m) && S(m) <= 1
    ensures Calm(m, HoldRetrieve(m, session, env))
  {
    if session in m.calls {
      HoldCounts(m, m.calls[session]);
      RetrieveCounts(m, m.calls[session]);
      if A(m) > 0 {
        HoldCounts(m, m.calls[First(m.calls, ACTIVE, env.pick)]);
      }
    }
  }

  lemma HoldConfirmCounts(m: Manager, c: Call, env: Env)
    requires Keyed(m) && S(m) <= 1 && c.session in m.calls && m.calls[c.session] == c
    ensures Calm(m, OnHoldConfirm(m, c, env))
  {
    if c.state == ACTIVE && c.holdRequested {
      var h := Put(m, Move(c, HOLDING));
      PutCounts(m, Move(c, HOLDING));
      match h.pending {
        case None =>
        case Some(UserAnswer(s)) => AnswerCounts(h, s, env);
        case Some(CreateSession(n)) => CreateCounts(h, n, env);
        case Some(UserHold(s)) => HoldRetrieveCounts(h, s, env);
      }
      ClearHoldCounts(ActivatePending(h, env), c.serial, c.session);
    }
  }

  lemma ClearHoldCounts(m: Manager, serial: nat, session: int)
    ensures A(ClearHold(m, serial, session)) == A(m) && S(ClearHold(m, serial, session)) == S(m)
  {
    if session in m.calls {
      var c := m.calls[session].(holdRequested := false);
      CountUpdate(m.calls, session, c, {ACTIVE});
      CountUpdate(m.calls, session, c, SETUP);
    }
  }

  /** Automatic answering needs a table of one, so no other call can be active. */
  lemma RingCounts(m: Manager, c: Call, env: Env)
    requires S(m) <= 1 && c.session in m.calls && m.calls[c.session].state == c.state == IDLE
    ensures Calm(m, Ring(m, c, env))
  {
    var c' := Ringing(c, env);
    var m' := Put(m, c');
    PutCounts(m, c');
    if env.autoAnswer && |m'.calls| == 1 {
      AcceptCounts(m', c');
      OnlyMember(m'.calls.Keys, c.session);
      assert Sessions(m'.calls, {ACTIVE}) == {};
    }
  }

  lemma OnlyMember<T>(s: set<T>, x: T)
    requires x in s && |s| == 1
    ensures s == {x}
  {
    assert |s - {x}| == 0;
  }

  lemma IncomingCounts(m: Manager, c: Call, number: string, name: string, env: Env)
    requires S(m) <= 1 && c.session in m.calls && m.calls[c.session] == c
    ensures Calm(m, OnIncoming(m, c, number, name, env))
  {
    if c.state == IDLE {
      EndCallCounts(m, c, env);
      RingCounts(m, c.(number := number, name := name), env);
    }
  }

  /**
   Answering, retrieving, confirming a hold, running the pending action and
   automatic answering never make a second call active; of all events only a
   connect callback and a conference request can.
   */
  lemma StepIsCalm(m: Manager, e: Event, env: Env)
    requires Keyed(m) && S(m) <= 1 && Enabled(m, e)
    requires !e.SessionConnecting? && !e.UserConference?
    ensures Calm(m, Step(m, e, env))
  {
    hide Create, Answer, HoldRetrieve, OnHoldConfirm, OnIncoming, EndCall, OnReleased, Finish, Replace, Count;
    match e
    case CreateOutbound(n) => CreateCounts(m, n, env);
    case UserRelease(s) => if s in m.calls { EndCallCounts(m, m.calls[s], env); }
    case UserAnswers(s) => AnswerCounts(m, s, env);
    case UserHoldRetrieve(s) => HoldRetrieveCounts(m, s, env);
    case SessionIncoming(s) =>
      var m' := m.(created := m.created + 1);
      if s in m.calls { EndCallCounts(m', m.calls[s], env); }
      PutCounts(m', NewCall(m.created).(session := s));
    case SessionEarly(s) => if s in m.calls { PutCounts(m, Move(m.calls[s], ALERTING)); }
    case SessionDisconnected(s) => if s in m.calls { EndCallCounts(m, m.calls[s], env); }
    case IncomingCall(s, n, d) => if s in m.calls { IncomingCounts(m, m.calls[s], n, d, env); }
    case HoldConfirm(s) => if s in m.calls { HoldConfirmCounts(m, m.calls[s], env); }
    case CallReplaced(o, f) => ReplaceCounts(m, o, f);
    case ReleasedTimer(s) =>
      DestroyCounts(m, m.calls[s].(releasedTimer := false));
      PutCounts(m, m.calls[s].(releasedTimer := false));
    case NoReplyTimer(s) => PutCounts(m, m.calls[s].(noReplyTimer := false));
    case NoResponseTimer(s) =>
      FinishCounts(m, m.calls[s].(noResponseTimer := false), TERMINATED, env);
      PutCounts(m, m.calls[s].(noResponseTimer := false));
  }

  lemma ReplaceCounts(m: Manager, before: int, after: int)
    ensures A(Replace(m, before, after)) <= A(m) && S(Replace(m, before, after)) <= S(m)
    ensures CanReplace(m, before, after) ==>
              A(Replace(m, before, after)) == A(m) && S(Replace(m, before, after)) == S(m)
  {
    CountWithout(m.calls, before, {ACTIVE});
    CountWithout(m.calls, before, SETUP);
    if CanReplace(m, before, after) {
      var c := m.calls[before].(session := after);
      CountUpdate(m.calls - {before}, after, c, {ACTIVE});
      CountUpdate(m.calls - {before}, after, c, SETUP);
    }
  }

  /** Exactly two events raise the active count beyond what it was (or beyond one). */
  lemma ActiveRisesOnlyBy(m: Manager, e: Event, env: Env)
    requires Keyed(m) && S(m) <= 1 && Enabled(m, e)
    ensures A(Step(m, e, env)) > (if A(m) > 1 then A(m) else 1) <==>
            || (e.SessionConnecting? && e.session in m.calls && m.calls[e.session].state in SETUP && A(m) >= 1)
            || (e.UserConference? && A(m) == 1 && Count(m.calls, {HOLDING}) >= 1)
  {
    match e
    case SessionConnecting(s) =>
      if s in m.calls { PutCounts(m, Move(m.calls[s], ACTIVE).(counting := true)); }
    case UserConference =>
      if A(m) == 1 && Count(m.calls, {HOLDING}) >= 1 {
        RetrieveCounts(m, m.calls[First(m.calls, HOLDING, env.pick)]);
      }
    case _ => StepIsCalm(m, e, env);
  }

  /** How one step moves the sum of active calls and calls in setup. */
  lemma StepLoad(m: Manager, e: Event, env: Env)
    requires Keyed(m) && S(m) <= 1 && Enabled(m, e)
    ensures var m' := Step(m, e, env);
            && S(m') <= 1
            && (A(m') + S(m') <= A(m) + S(m) || A(m') + S(m') <= 2
                || (e.UserConference? && A(m') + S(m') <= 3))
  {
    match e
    case SessionConnecting(s) =>
      if s in m.calls { PutCounts(m, Move(m.calls[s], ACTIVE).(counting := true)); }
    case UserConference =>
      if A(m) == 1 && Count(m.calls, {HOLDING}) >= 1 {
        RetrieveCounts(m, m.calls[First(m.calls, HOLDING, env.pick)]);
      }
    case _ => StepIsCalm(m, e, env);
  }

  // ---------------------------------------------------------------------------
  // What the table and the call log say about the past
  // ---------------------------------------------------------------------------

  /** The call type agrees with the states the call went through. */
  predicate Consistent(c: Call) {
    && (c.state == IDLE <==> c.visited == {})
    && (c.state != IDLE ==> c.state in c.visited && (CONNECTING in c.visited || INCOMING in c.visited))
    && !(CONNECTING in c.visited && INCOMING in c.visited)
    && (c.visited == {} ==> c.kind == Dialed && c.number == "")
    && (CONNECTING in c.visited ==> c.kind == Dialed)
    && (INCOMING in c.visited ==> c.kind == if ACTIVE in c.visited then Received else Missed)
    && (c.state == HOLDING ==> ACTIVE in c.visited)
    && (c.state in SETUP ==> CONNECTING in c.visited)
    && (c.state == INCOMING ==> c.visited == {INCOMING})
  }

  predicate TimersFit(c: Call) {
    && (c.releasedTimer <==> c.state in {RELEASED, TERMINATED})
    && (c.noReplyTimer || c.noResponseTimer ==> c.state == INCOMING)
  }

  /** What the log should say of a call with this past. */
  function ExpectedRecord(c: Call): seq<Record> {
    if CONNECTING in c.visited then
      if c.number == "" then [] else [Record(Dialed, c.number, c.name)]
    else if INCOMING in c.visited then
      [Record(if ACTIVE in c.visited then Received else Missed, c.number, c.name)]
    else []
  }

  function ExpectedLog(calls: seq<Call>): seq<Record> {
    if calls == [] then [] else
      ExpectedLog(calls[..|calls| - 1]) + ExpectedRecord(calls[|calls| - 1])
  }

  ghost predicate TableFits(m: Manager) {
    && Keyed(m)
    && (forall k :: k in m.calls ==> Consistent(m.calls[k]) && TimersFit(m.calls[k]))
    && (forall k :: k in m.calls ==> m.calls[k].serial < m.created)
    && (forall j, k :: j in m.calls && k in m.calls && j != k ==> m.calls[j].serial != m.calls[k].serial)
  }

  /** No machine was destroyed twice, none of them is in the table, and each left its record. */
  ghost predicate PastFits(m: Manager) {
    && (forall i :: 0 <= i < |m.destroyed| ==> m.destroyed[i].serial < m.created)
    && (forall i, j :: 0 <= i < j < |m.destroyed| ==> m.destroyed[i].serial != m.destroyed[j].serial)
    && (forall i, k :: 0 <= i < |m.destroyed| && k in m.calls ==> m.destroyed[i].serial != m.calls[k].serial)
    && m.log == ExpectedLog(m.destroyed)
  }

  ghost predicate Fits(m: Manager) { TableFits(m) && PastFits(m) }

  /** `c` is a later condition of the call in the table under its session. */
  predicate Continues(m: Manager, c: Call) {
    c.session in m.calls && m.calls[c.session].serial == c.serial
  }

  lemma PutFits(m: Manager, c: Call)
    requires Fits(m) && Continues(m, c) && Consistent(c) && TimersFit(c)
    ensures Fits(Put(m, c))
  {
  }

  lemma AddFits(m: Manager, c: Call)
    requires Fits(m) && c.session !in m.calls && c.serial == m.created && Consistent(c) && TimersFit(c)
    ensures Fits(Put(m.(created := m.created + 1), c))
  {
  }

  lemma DestroyFits(m: Manager, c: Call)
    requires Fits(m) && Continues(m, c) && Consistent(c)
    ensures Fits(Destroy(m, c))
  {
    var m' := Destroy(m, c);
    assert m'.destroyed[..|m'.destroyed| - 1] == m.destroyed;
    assert m'.log == m.log + ExpectedRecord(c);
  }

  lemma FinishFits(m: Manager, c: Call, to: StateId, env: Env)
    requires Fits(m) && Continues(m, c) && Consistent(c)
    requires c.state !in {IDLE, RELEASED, TERMINATED} && to in {RELEASED, TERMINATED}
    requires c.noReplyTimer || c.noResponseTimer ==> c.state == INCOMING
    ensures Fits(Finish(m, c, to, env))
  {
    hide Fits;
    PutOrDestroyFits(m, Move(c, to), env);
  }

  lemma PutOrDestroyFits(m: Manager, c: Call, env: Env)
    requires Fits(m) && Continues(m, c) && Consistent(c) && c.state in {RELEASED, TERMINATED}
    requires !c.noReplyTimer && !c.noResponseTimer
    ensures Fits(if env.releasedStarts then Put(m, c.(releasedTimer := true)) else Destroy(m, c))
  {
    hide Fits;
    if env.releasedStarts {
      PutFits(m, c.(releasedTimer := true));
    } else {
      DestroyFits(m, c);
    }
  }

  predicate InTable(m: Manager, c: Call) {
    c.session in m.calls && m.calls[c.session] == c
  }

  lemma AcceptFits(m: Manager, c: Call)
    requires Fits(m) && InTable(m, c)
    ensures Fits(Accept(m, c))
  {
    if c.state == INCOMING {
      PutFits(m, Move(c.(kind := Received), ACTIVE).(counting := true));
    }
  }

  lemma RetrieveFits(m: Manager, c: Call)
    requires Fits(m) && InTable(m, c)
    ensures Fits(Retrieve(m, c))
  {
    if c.state == HOLDING {
      PutFits(m, Move(c.(retrieveRequested := true), ACTIVE).(counting := true));
    }
  }

  lemma HoldFits(m: Manager, c: Call)
    requires Fits(m) && InTable(m, c)
    ensures Fits(Hold(m, c))
  {
    if c.state == ACTIVE {
      PutFits(m, c.(holdRequested := true));
    }
  }

  lemma EndCallFits(m: Manager, c: Call, env: Env)
    requires Fits(m) && InTable(m, c)
    ensures Fits(EndCall(m, c, env)) && Fits(OnReleased(m, c, env))
  {
    if c.state in {IDLE, RELEASED, TERMINATED} {
      DestroyFits(m, c);
    } else {
      FinishFits(m, c, TERMINATED, env);
      FinishFits(m, c, RELEASED, env);
    }
  }

  lemma IncomingFits(m: Manager, c: Call, number: string, name: string, env: Env)
    requires Fits(m) && InTable(m, c)
    ensures Fits(OnIncoming(m, c, number, name, env))
  {
    hide Fits, EndCall;
    EndCallFits(m, c, env);
    TableEntry(m, c.session);
    if c.state == IDLE && !env.forward && !env.doNotDisturb {
      var c' := Ringing(c.(number := number, name := name), env);
      PutFits(m, c');
      AcceptFits(Put(m, c'), c');
    }
  }

  /** The pending action and the count of created machines are not part of the history. */
  lemma SlotFits(m: Manager, pending: Option<Pending>, created: nat)
    requires Fits(m) && m.created <= created
    ensures Fits(m.(pending := pending)) && Fits(m.(created := created))
  {
  }

  lemma CreateFits(m: Manager, number: string, env: Env)
    requires Fits(m)
    ensures Fits(Create(m, number, env))
  {
    hide Fits;
    if S(m) == 0 && A(m) == 0 {
      SlotFits(m, None, m.created + 1);
      if env.newSession != -1 {
        var c := Dialling(m.created, number, env.newSession);
        if env.newSession in m.calls {
          var d := m.calls[env.newSession];
          TableEntry(m, env.newSession);
          DestroyFits(m, d);
          AddFits(Destroy(m, d), c);
          assert Put(Destroy(m.(created := m.created + 1), d), c)
              == Put(Destroy(m, d).(created := m.created + 1), c);
        } else {
          AddFits(m, c);
        }
      }
    } else if S(m) == 0 {
      var k := First(m.calls, ACTIVE, env.pick);
      TableEntry(m, k);
      SlotFits(m, Some(CreateSession(number)), m.created);
      HoldFits(m.(pending := Some(CreateSession(number))), m.calls[k]);
    }
  }

  lemma TableEntry(m: Manager, k: int)
    requires Fits(m) && k in m.calls
    ensures InTable(m, m.calls[k]) && m.calls[k].session == k && Consistent(m.calls[k]) && TimersFit(m.calls[k])
  {
  }

  lemma AnswerFits(m: Manager, session: int, env: Env)
    requires Fits(m)
    ensures Fits(Answer(m, session, env))
  {
    hide Fits;
    if A(m) > 0 {
      var k := First(m.calls, ACTIVE, env.pick);
      TableEntry(m, k);
      HoldFits(m, m.calls[k]);
      SlotFits(Hold(m, m.calls[k]), Some(UserAnswer(session)), m.created);
    } else if session in m.calls {
      TableEntry(m, session);
      AcceptFits(m, m.calls[session]);
    }
  }

  lemma HoldRetrieveFits(m: Manager, session: int, env: Env)
    requires Fits(m)
    ensures Fits(HoldRetrieve(m, session, env))
  {
    hide Fits;
    if session in m.calls {
      TableEntry(m, session);
      HoldFits(m, m.calls[session]);
      RetrieveFits(m, m.calls[session]);
      if A(m) > 0 {
        var k := First(m.calls, ACTIVE, env.pick);
        TableEntry(m, k);
        HoldFits(m, m.calls[k]);
        SlotFits(Hold(m, m.calls[k]), Some(UserHold(session)), m.created);
      }
    }
  }

  lemma HoldConfirmFits(m: Manager, c: Call, env: Env)
    requires Fits(m) && InTable(m, c)
    ensures Fits(OnHoldConfirm(m, c, env))
  {
    hide Fits;
    TableEntry(m, c.session);
    if c.state == ACTIVE && c.holdRequested {
      var h := Put(m, Move(c, HOLDING));
      PutFits(m, Move(c, HOLDING));
      PendingFits(h, env);
      var m' := ActivatePending(h, env);
      if c.session in m'.calls && m'.calls[c.session].serial == c.serial {
        TableEntry(m', c.session);
        PutFits(m', m'.calls[c.session].(holdRequested := false));
      }
    }
  }

  lemma PendingFits(m: Manager, env: Env)
    requires Fits(m)
    ensures Fits(ActivatePending(m, env))
  {
    hide Fits, Create, Answer, HoldRetrieve;
    var m' := m;
    match m.pending {
      case None =>
      case Some(UserAnswer(s)) =>
        AnswerFits(m, s, env);
        m' := Answer(m, s, env);
      case Some(CreateSession(n)) =>
        CreateFits(m, n, env);
        m' := Create(m, n, env);
      case Some(UserHold(s)) =>
        HoldRetrieveFits(m, s, env);
        m' := HoldRetrieve(m, s, env);
    }
    SlotFits(m', None, m'.created);
  }

  lemma SessionIncomingFits(m: Manager, session: int, env: Env)
    requires Fits(m)
    ensures Fits(OnSessionIncoming(m, session, env))
  {
    hide Fits;
    if session in m.calls {
      TableEntry(m, session);
      SlotFits(m, None, m.created + 1);
      EndCallFits(m.(created := m.created + 1), m.calls[session], env);
    } else {
      AddFits(m, NewCall(m.created).(session := session));
    }
  }

  lemma ReplaceFits(m: Manager, before: int, after: int)
    requires Fits(m)
    ensures Fits(Replace(m, before, after))
  {
  }

  /** Every step keeps the table and the log in agreement with the past. */
  lemma StepFits(m: Manager, e: Event, env: Env)
    requires Fits(m) && Enabled(m, e)
    ensures Fits(Step(m, e, env))
  {
    hide Fits, Create, Answer, HoldRetrieve, OnHoldConfirm, OnIncoming, EndCall, OnReleased, Finish, Replace,
         OnSessionIncoming, Destroy;
    if !e.CreateOutbound? && !e.UserConference? && !e.CallReplaced? && e.session in m.calls {
      TableEntry(m, e.session);
    }
    match e
    case CreateOutbound(n) => CreateFits(m, n, env);
    case UserRelease(s) => if s in m.calls { EndCallFits(m, m.calls[s], env); }
    case UserAnswers(s) => AnswerFits(m, s, env);
    case UserHoldRetrieve(s) => HoldRetrieveFits(m, s, env);
    case UserConference =>
      if A(m) == 1 && Count(m.calls, {HOLDING}) >= 1 {
        var k := First(m.calls, HOLDING, env.pick);
        TableEntry(m, k);
        RetrieveFits(m, m.calls[k]);
      }
    case SessionIncoming(s) => SessionIncomingFits(m, s, env);
    case SessionEarly(s) =>
      if s in m.calls && m.calls[s].state == CONNECTING { PutFits(m, Move(m.calls[s], ALERTING)); }
    case SessionConnecting(s) =>
      if s in m.calls && m.calls[s].state in SETUP { PutFits(m, Move(m.calls[s], ACTIVE).(counting := true)); }
    case SessionDisconnected(s) => if s in m.calls { EndCallFits(m, m.calls[s], env); }
    case IncomingCall(s, n, d) => if s in m.calls { IncomingFits(m, m.calls[s], n, d, env); }
    case HoldConfirm(s) => if s in m.calls { HoldConfirmFits(m, m.calls[s], env); }
    case CallReplaced(o, f) => ReplaceFits(m, o, f);
    case ReleasedTimer(s) => DestroyFits(m, m.calls[s].(releasedTimer := false));
    case NoReplyTimer(s) => PutFits(m, m.calls[s].(noReplyTimer := false));
    case NoResponseTimer(s) => FinishFits(m, m.calls[s].(noResponseTimer := false), TERMINATED, env);
  }

  /** What every event keeps. */
  ghost predicate InOrder(m: Manager) { Fits(m) && S(m) <= 1 }

  lemma StepInOrder(m: Manager, e: Event, env: Env)
    requires InOrder(m) && Enabled(m, e)
    ensures InOrder(Step(m, e, env))
  {
    hide Step, Fits;
    FitsIsKeyed(m);
    StepFits(m, e, env);
    StepLoad(m, e, env);
  }

  lemma PendingInOrder(m: Manager, env: Env)
    requires InOrder(m)
    ensures InOrder(ActivatePending(m, env))
  {
    hide Fits, Create, Answer, HoldRetrieve;
    FitsIsKeyed(m);
    PendingFits(m, env);
    match m.pending {
      case None =>
      case Some(UserAnswer(s)) => AnswerCounts(m, s, env);
      case Some(CreateSession(n)) => CreateCounts(m, n, env);
      case Some(UserHold(s)) => HoldRetrieveCounts(m, s, env);
    }
  }

  lemma HoldingInOrder(m: Manager, c: Call)
    requires InOrder(m) && InTable(m, c) && c.state == ACTIVE
    ensures InOrder(Put(m, Move(c, HOLDING)))
  {
    hide Fits;
    TableEntry(m, c.session);
    PutFits(m, Move(c, HOLDING));
    PutCounts(m, Move(c, HOLDING));
  }

  // ---------------------------------------------------------------------------
  // Whole runs
  // ---------------------------------------------------------------------------

  /** In every run: table keyed by session, at most one call in setup, load at most three. */
  lemma {:induction false} RunKeepsTable(run: seq<(Event, Env)>)
    requires IsRun(run)
    ensures var m := After(EMPTY, run);
            && Fits(m) && S(m) <= 1 && A(m) + S(m) <= 3
            && (NoConference(run) ==> A(m) + S(m) <= 2)
    decreases |run|
  {
    hide Fits, Step;
    if run == [] {
      EmptyFits();
    } else {
      var n := |run| - 1;
      assert forall i :: 0 <= i < n ==> run[..n][..i] == run[..i];
      RunKeepsTable(run[..n]);
      var m := After(EMPTY, run[..n]);
      StepFits(m, run[n].0, run[n].1);
      assert Keyed(m) by { FitsIsKeyed(m); }
      StepLoad(m, run[n].0, run[n].1);
    }
  }

  lemma EmptyFits()
    ensures Fits(EMPTY) && A(EMPTY) == 0 && S(EMPTY) == 0
  {
    assert Sessions(EMPTY.calls, {ACTIVE}) == {} && Sessions(EMPTY.calls, SETUP) == {};
  }

  lemma FitsIsKeyed(m: Manager)
    requires Fits(m)
    ensures Keyed(m)
  {
  }

  ghost predicate NoRemains(m: Manager) {
    forall k :: k in m.calls ==> m.calls[k].state !in {RELEASED, TERMINATED}
  }

  /** Where timers never start, no released or terminated call stays in the table. */
  lemma {:induction false} NoTimersNoRemains(run: seq<(Event, Env)>)
    requires IsRun(run)
    requires forall i :: 0 <= i < |run| ==> !run[i].1.releasedStarts
    ensures NoRemains(After(EMPTY, run))
    decreases |run|
  {
    hide Step;
    if run != [] {
      var n := |run| - 1;
      assert forall i :: 0 <= i < n ==> run[..n][..i] == run[..i];
      NoTimersNoRemains(run[..n]);
      StepLeavesNoRemains(After(EMPTY, run[..n]), run[n].0, run[n].1);
    }
  }

  lemma CreateLeavesNoRemains(m: Manager, n: string, env: Env)
    requires NoRemains(m)
    ensures NoRemains(Create(m, n, env))
  {
    hide Count;
  }

  lemma AnswerLeavesNoRemains(m: Manager, s: int, env: Env)
    requires NoRemains(m)
    ensures NoRemains(Answer(m, s, env)) && NoRemains(HoldRetrieve(m, s, env))
  {
    hide Count;
  }

  lemma PendingLeavesNoRemains(m: Manager, env: Env)
    requires NoRemains(m)
    ensures NoRemains(ActivatePending(m, env))
  {
    match m.pending
    case None =>
    case Some(CreateSession(n)) => CreateLeavesNoRemains(m, n, env);
    case Some(UserAnswer(s)) => AnswerLeavesNoRemains(m, s, env);
    case Some(UserHold(s)) => AnswerLeavesNoRemains(m, s, env);
  }

  lemma EndCallLeavesNoRemains(m: Manager, c: Call, env: Env)
    requires NoRemains(m) && !env.releasedStarts
    ensures NoRemains(EndCall(m, c, env)) && NoRemains(OnReleased(m, c, env))
    ensures NoRemains(Finish(m, c, TERMINATED, env))
  {
  }

  lemma IncomingLeavesNoRemains(m: Manager, c: Call, number: string, name: string, env: Env)
    requires NoRemains(m) && !env.releasedStarts
    ensures NoRemains(OnIncoming(m, c, number, name, env))
  {
    hide EndCall, Put, NoRemains;
    EndCallLeavesNoRemains(m, c, env);
    var c' := Ringing(c.(number := number, name := name), env);
    PutLeavesNoRemains(m, c');
    PutLeavesNoRemains(Put(m, c'), Move(c'.(kind := Received), ACTIVE).(counting := true));
  }

  lemma PutLeavesNoRemains(m: Manager, c: Call)
    requires NoRemains(m) && c.state !in {RELEASED, TERMINATED}
    ensures NoRemains(Put(m, c))
  {
  }

  lemma HoldConfirmLeavesNoRemains(m: Manager, c: Call, env: Env)
    requires NoRemains(m)
    ensures NoRemains(OnHoldConfirm(m, c, env))
  {
    hide ActivatePending;
    PendingLeavesNoRemains(Put(m, Move(c, HOLDING)), env);
  }

  lemma StepLeavesNoRemains(m: Manager, e: Event, env: Env)
    requires NoRemains(m) && !env.releasedStarts
    ensures NoRemains(Step(m, e, env))
  {
    hide Create, Answer, HoldRetrieve, OnHoldConfirm, OnIncoming, EndCall, OnReleased, Finish, Count;
    match e
    case CreateOutbound(n) => CreateLeavesNoRemains(m, n, env);
    case UserRelease(s) => if s in m.calls { EndCallLeavesNoRemains(m, m.calls[s], env); }
    case UserAnswers(s) => AnswerLeavesNoRemains(m, s, env);
    case UserHoldRetrieve(s) => AnswerLeavesNoRemains(m, s, env);
    case SessionIncoming(s) =>
      if s in m.calls { EndCallLeavesNoRemains(m.(created := m.created + 1), m.calls[s], env); }
    case SessionDisconnected(s) => if s in m.calls { EndCallLeavesNoRemains(m, m.calls[s], env); }
    case IncomingCall(s, n, d) => if s in m.calls { IncomingLeavesNoRemains(m, m.calls[s], n, d, env); }
    case HoldConfirm(s) => if s in m.calls { HoldConfirmLeavesNoRemains(m, m.calls[s], env); }
    case NoResponseTimer(s) =>
      if s in m.calls { EndCallLeavesNoRemains(m, m.calls[s].(noResponseTimer := false), env); }
    case _ =>
  }

  // ---------------------------------------------------------------------------
  // The bounds are reached
  // ---------------------------------------------------------------------------

  /** The run that goes on with one more event. */
  lemma Then(run: seq<(Event, Env)>, e: Event, env: Env) returns (longer: seq<(Event, Env)>)
    requires IsRun(run) && Enabled(After(EMPTY, run), e)
    ensures IsRun(longer) && After(EMPTY, longer) == Step(After(EMPTY, run), e, env)
    ensures NoConference(run) && !e.UserConference? ==> NoConference(longer)
  {
    hide Step;
    longer := run + [(e, env)];
    assert longer[..|run|] == run;
    assert forall i :: 0 <= i < |run| ==> longer[..i] == run[..i];
  }

  function Plain(newSession: int): Env {
    Env(true, true, true, false, false, false, false, newSession, 0)
  }

  /** Nothing is pending and calls 1, 2 and (perhaps) 3 are in these states. */
  ghost predicate Three(m: Manager, s1: StateId, s2: StateId, s3: Option<StateId>) {
    && m.pending == None && Keyed(m)
    && m.calls.Keys == (if s3.Some? then {1, 2, 3} else {1, 2})
    && m.calls[1].state == s1 && m.calls[2].state == s2
    && (s3.Some? ==> m.calls[3].state == s3.value)
  }

  lemma ThreeCounts(m: Manager, s1: StateId, s2: StateId, s3: Option<StateId>, states: set<StateId>)
    requires Three(m, s1, s2, s3)
    ensures Count(m.calls, states) == One(s1 in states) + One(s2 in states) + One(s3.Some? && s3.value in states)
  {
    var rest := m.calls - {1} - {2} - {3};
    CountWithout(m.calls, 1, states);
    CountWithout(m.calls - {1}, 2, states);
    CountWithout(m.calls - {1} - {2}, 3, states);
    assert Sessions(rest, states) == {};
  }

  lemma SessionsIn(env: Env)
    ensures Three(Step(Step(EMPTY, SessionIncoming(1), env), SessionIncoming(2), env), IDLE, IDLE, None)
  {
  }

  lemma RingFirst(m: Manager, env: Env)
    requires Three(m, IDLE, IDLE, None) && !env.forward && !env.doNotDisturb && !env.autoAnswer
    ensures Three(Step(m, IncomingCall(1, "a", ""), env), INCOMING, IDLE, None)
  {
  }

  lemma RingSecond(m: Manager, env: Env)
    requires Three(m, INCOMING, IDLE, None) && !env.forward && !env.doNotDisturb && !env.autoAnswer
    ensures Three(Step(m, IncomingCall(2, "b", ""), env), INCOMING, INCOMING, None)
  {
  }

  lemma AnswerFirst(m: Manager, env: Env)
    requires Three(m, INCOMING, INCOMING, None)
    ensures Three(Step(m, UserAnswers(1), env), ACTIVE, INCOMING, None)
  {
    ThreeCounts(m, INCOMING, INCOMING, None, {ACTIVE});
  }

  lemma HoldFirst(m: Manager, env: Env)
    requires Three(m, ACTIVE, INCOMING, None)
    ensures var m' := Step(m, UserHoldRetrieve(1), env); Three(m', ACTIVE, INCOMING, None) && m'.calls[1].holdRequested
  {
  }

  lemma ConfirmFirst(m: Manager, env: Env)
    requires Three(m, ACTIVE, INCOMING, None) && m.calls[1].holdRequested
    ensures Three(Step(m, HoldConfirm(1), env), HOLDING, INCOMING, None)
  {
  }

  lemma DialThird(m: Manager)
    requires Three(m, HOLDING, INCOMING, None)
    ensures Three(Step(m, CreateOutbound("c"), Plain(3)), HOLDING, INCOMING, Some(CONNECTING))
  {
    ThreeCounts(m, HOLDING, INCOMING, None, {ACTIVE});
    ThreeCounts(m, HOLDING, INCOMING, None, SETUP);
  }

  lemma AnswerSecond(m: Manager, env: Env)
    requires Three(m, HOLDING, INCOMING, Some(CONNECTING))
    ensures Three(Step(m, UserAnswers(2), env), HOLDING, ACTIVE, Some(CONNECTING))
  {
    ThreeCounts(m, HOLDING, INCOMING, Some(CONNECTING), {ACTIVE});
  }

  lemma ConferenceFirst(m: Manager, env: Env)
    requires Three(m, HOLDING, ACTIVE, Some(CONNECTING))
    ensures Three(Step(m, UserConference, env), ACTIVE, ACTIVE, Some(CONNECTING))
  {
    ThreeCounts(m, HOLDING, ACTIVE, Some(CONNECTING), {ACTIVE});
    ThreeCounts(m, HOLDING, ACTIVE, Some(CONNECTING), {HOLDING});
    assert First(m.calls, HOLDING, env.pick) == 1;
  }

  lemma ConnectThird(m: Manager, s1: StateId, env: Env)
    requires Three(m, s1, ACTIVE, Some(CONNECTING))
    ensures Three(Step(m, SessionConnecting(3), env), s1, ACTIVE, Some(ACTIVE))
  {
  }

  /** Two calls ring; the first is answered and held, a third is dialled, the second answered. */
  lemma OneHeldOneActiveOneDialled() returns (run: seq<(Event, Env)>)
    ensures IsRun(run) && NoConference(run)
    ensures Three(After(EMPTY, run), HOLDING, ACTIVE, Some(CONNECTING))
  {
    hide Step, Three, NoConference, After, IsRun;
    var env := Plain(3);
    assert IsRun([]) && NoConference([]) && After(EMPTY, []) == EMPTY by {
      EmptyRun();
    }
    run := Then([], SessionIncoming(1), env);
    run := Then(run, SessionIncoming(2), env);
    SessionsIn(env);
    RingFirst(After(EMPTY, run), env);
    run := Then(run, IncomingCall(1, "a", ""), env);
    RingSecond(After(EMPTY, run), env);
    run := Then(run, IncomingCall(2, "b", ""), env);
    AnswerFirst(After(EMPTY, run), env);
    run := Then(run, UserAnswers(1), env);
    HoldFirst(After(EMPTY, run), env);
    run := Then(run, UserHoldRetrieve(1), env);
    ConfirmFirst(After(EMPTY, run), env);
    run := Then(run, HoldConfirm(1), env);
    DialThird(After(EMPTY, run));
    run := Then(run, CreateOutbound("c"), env);
    AnswerSecond(After(EMPTY, run), env);
    run := Then(run, UserAnswers(2), env);
  }

  lemma EmptyRun()
    ensures IsRun([]) && NoConference([]) && After(EMPTY, []) == EMPTY
  {
  }

  /** The load of three is reached: three calls can be active at once. */
  lemma ThreeActiveReached() returns (run: seq<(Event, Env)>)
    ensures IsRun(run) && A(After(EMPTY, run)) == 3
  {
    hide Step, Three, NoConference, After, IsRun;
    var env := Plain(3);
    run := OneHeldOneActiveOneDialled();
    ConferenceFirst(After(EMPTY, run), env);
    run := Then(run, UserConference, env);
    ConnectThird(After(EMPTY, run), ACTIVE, env);
    run := Then(run, SessionConnecting(3), env);
    ThreeCounts(After(EMPTY, run), ACTIVE, ACTIVE, Some(ACTIVE), {ACTIVE});
  }

  /** Without conferences two calls can be active, although the manager expects at most one. */
  lemma TwoActiveReached() returns (run: seq<(Event, Env)>)
    ensures IsRun(run) && NoConference(run) && A(After(EMPTY, run)) == 2
  {
    hide Step, Three, NoConference, After, IsRun;
    var env := Plain(3);
    run := OneHeldOneActiveOneDialled();
    ConnectThird(After(EMPTY, run), HOLDING, env);
    run := Then(run, SessionConnecting(3), env);
    ThreeCounts(After(EMPTY, run), HOLDING, ACTIVE, Some(ACTIVE), {ACTIVE});
  }
}
