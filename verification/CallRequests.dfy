/**
 What requests come to that take several events: deferred actions, and calls from their first
 event to their record in the log.
 */
module CallRequests {
  import opened CallControl
  import opened Wrappers

  /** The calls of other sessions are as they were. */
  ghost predicate OthersKept(m: Manager, m': Manager, sessions: set<int>) {
    forall j :: j !in sessions ==> (j in m.calls <==> j in m'.calls) && (j in m.calls ==> m'.calls[j] == m.calls[j])
  }

  predicate Unlogged(m: Manager, m': Manager) { m'.log == m.log && m'.destroyed == m.destroyed }

  /** `k` is the one active call. */
  ghost predicate Talking(m: Manager, k: int) { Keyed(m) && Sessions(m.calls, {ACTIVE}) == {k} }

  /** The call is on hold: nothing else about it has changed, and no hold is asked for. */
  predicate OnHold(c: Call, c': Call) {
    && c'.state == HOLDING && !c'.holdRequested
    && c' == c.(state := c'.state, holdRequested := c'.holdRequested, visited := c'.visited)
  }

  /** The call is connected: it is the same call, and its clock runs. */
  predicate Connected(c: Call, c': Call) {
    && c'.state == ACTIVE && c'.counting
    && c'.session == c.session && c'.serial == c.serial && c'.incoming == c.incoming
    && c'.number == c.number && c'.name == c.name && c'.holdRequested == c.holdRequested
  }

  /** A call is being dialled. */
  predicate Dialled(m: Manager, x: int, number: string) {
    && x in m.calls && m.calls[x].state == CONNECTING && m.calls[x].session == x
    && m.calls[x].number == number && m.calls[x].kind == Dialed && !m.calls[x].incoming
  }

  // ---------------------------------------------------------------------------
  // Asking for a hold, and its confirmation
  // ---------------------------------------------------------------------------

  lemma {:induction false} TalkingIs(m: Manager, k: int, pick: int)
    requires Talking(m, k)
    ensures Keyed(m) && k in m.calls && m.calls[k].state == ACTIVE && m.calls[k].session == k
    ensures Count(m.calls, {ACTIVE}) == 1 && First(m.calls, ACTIVE, pick) == k
  {
    assert k in Sessions(m.calls, {ACTIVE});
    assert First(m.calls, ACTIVE, pick) in Sessions(m.calls, {ACTIVE});
  }

  /** The manager with a hold asked for and an action to follow it. */
  function Asked(m: Manager, k: int, action: Pending): Manager
    requires k in m.calls
  {
    m.(pending := Some(action), calls := m.calls[k := m.calls[k].(holdRequested := true)])
  }

  /** The table when the hold was confirmed, before anything pending is done. */
  function Held(m: Manager, k: int): Manager
    requires k in m.calls
  {
    m.(calls := m.calls[k := m.calls[k].(state := HOLDING, visited := m.calls[k].visited + {HOLDING})])
  }

  lemma {:induction false} RequestsAsk(m: Manager, k: int, s: int, number: string, env: Env)
    requires Talking(m, k)
    ensures k in m.calls && Step(m, UserAnswers(s), env) == Asked(m, k, UserAnswer(s))
    ensures s in m.calls && m.calls[s].state == HOLDING ==>
              Step(m, UserHoldRetrieve(s), env) == Asked(m, k, UserHold(s))
    ensures Count(m.calls, SETUP) == 0 ==> Step(m, CreateOutbound(number), env) == Asked(m, k, CreateSession(number))
  {
    hide Count, Sessions, First;
    TalkingIs(m, k, env.pick);
  }

  lemma {:induction false} FewerSessions(m: Manager, m': Manager, k: int, states: set<StateId>)
    requires OthersKept(m, m', {k}) && (k in m'.calls ==> m'.calls[k].state !in states)
    ensures Sessions(m'.calls, states) <= Sessions(m.calls, states) - {k}
  {
    forall j | j in Sessions(m'.calls, states)
      ensures j in Sessions(m.calls, states)
    {
      assert j in m'.calls && j in m.calls;
    }
  }

  /** A confirmed hold leaves no call active, and none in setup if there was none. */
  lemma {:induction false} HeldIs(m: Manager, k: int, action: Pending)
    requires Talking(m, k) && k in m.calls
    ensures var h := Held(Asked(m, k, action), k);
            && Keyed(h) && OthersKept(m, h, {k}) && Unlogged(m, h)
            && k in h.calls && h.calls[k].holdRequested && h.calls[k].serial == m.calls[k].serial
            && OnHold(m.calls[k], h.calls[k].(holdRequested := false))
            && Count(h.calls, {ACTIVE}) == 0 && (Count(m.calls, SETUP) == 0 ==> Count(h.calls, SETUP) == 0)
  {
    var h := Held(Asked(m, k, action), k);
    FewerSessions(m, h, k, {ACTIVE});
    FewerSessions(m, h, k, SETUP);
  }

  lemma {:induction false} Confirms(m: Manager, k: int, action: Pending, env: Env)
    requires Talking(m, k) && k in m.calls
    ensures var h := Held(Asked(m, k, action), k);
            Step(Asked(m, k, action), HoldConfirm(k), env) == ClearHold(ActivatePending(h, env), m.calls[k].serial, k)
  {
    hide ActivatePending, ClearHold, Sessions;
    TalkingIs(m, k, 0);
  }

  lemma {:induction false} ClearHoldIs(m: Manager, serial: nat, k: int)
    requires Keyed(m)
    ensures var m' := ClearHold(m, serial, k);
            && Keyed(m') && OthersKept(m, m', {k}) && Unlogged(m, m') && m'.pending == m.pending
            && (k in m.calls <==> k in m'.calls)
            && (k in m.calls && m.calls[k].serial == serial ==> m'.calls[k] == m.calls[k].(holdRequested := false))
            && (k in m.calls ==> m'.calls[k] == m.calls[k].(holdRequested := m'.calls[k].holdRequested))
  {
  }

  // ---------------------------------------------------------------------------
  // Actions that wait for a hold
  // ---------------------------------------------------------------------------

  /** Connecting call `s` while `k` is on hold. */
  predicate Reconnects(h: Manager, d: Manager, k: int, s: int, kind: CallType)
    requires s in h.calls
  {
    && d.pending == None && Unlogged(h, d) && s != k && s in d.calls
    && d.calls == h.calls[s := d.calls[s]] && Connected(h.calls[s], d.calls[s]) && d.calls[s].kind == kind
  }

  lemma {:induction false} DeferredAnswer(h: Manager, k: int, s: int, env: Env)
    requires Keyed(h) && Count(h.calls, {ACTIVE}) == 0 && h.pending == Some(UserAnswer(s))
    requires s in h.calls && s != k && h.calls[s].state == INCOMING
    ensures Reconnects(h, ActivatePending(h, env), k, s, Received)
  {
    hide Count;
  }

  lemma {:induction false} DeferredRetrieve(h: Manager, k: int, s: int, env: Env)
    requires Keyed(h) && Count(h.calls, {ACTIVE}) == 0 && h.pending == Some(UserHold(s))
    requires s in h.calls && s != k && h.calls[s].state == HOLDING
    ensures Reconnects(h, ActivatePending(h, env), k, s, h.calls[s].kind)
  {
    hide Count;
  }

  /** The call that was talking is held and the other one talks; all other calls and the log are as they were. */
  ghost predicate Swapped(m: Manager, m': Manager, k: int, s: int, kind: CallType) {
    && Keyed(m') && OthersKept(m, m', {k, s}) && Unlogged(m, m') && m'.pending == None
    && k in m.calls && k in m'.calls && OnHold(m.calls[k], m'.calls[k])
    && s in m.calls && s in m'.calls && Connected(m.calls[s], m'.calls[s]) && m'.calls[s].kind == kind
  }

  lemma {:induction false} HoldThenConnect(m: Manager, d: Manager, k: int, s: int, action: Pending, kind: CallType)
    requires Talking(m, k) && k in m.calls && s in m.calls && s != k
    requires Reconnects(Held(Asked(m, k, action), k), d, k, s, kind)
    ensures Swapped(m, ClearHold(d, m.calls[k].serial, k), k, s, kind)
  {
    hide Sessions, ClearHold, Count;
    HeldIs(m, k, action);
    ClearHoldIs(d, m.calls[k].serial, k);
  }

  /** A second call is answered: the first is held, then the second is connected. */
  lemma {:induction false} AnswerWhileTalking(m: Manager, k: int, s: int, env: Env, env': Env)
    requires Talking(m, k) && s in m.calls && m.calls[s].state == INCOMING
    ensures Swapped(m, Step(Step(m, UserAnswers(s), env), HoldConfirm(k), env'), k, s, Received)
  {
    hide Step, Count, Sessions, ActivatePending, ClearHold, Reconnects, Swapped, OthersKept, Talking;
    TalkingIs(m, k, env.pick);
    RequestsAsk(m, k, s, "", env);
    var h := Held(Asked(m, k, UserAnswer(s)), k);
    HeldIs(m, k, UserAnswer(s));
    Confirms(m, k, UserAnswer(s), env');
    DeferredAnswer(h, k, s, env');
    HoldThenConnect(m, ActivatePending(h, env'), k, s, UserAnswer(s), Received);
  }

  /** A held call is retrieved: the first is held, then the other is connected again. */
  lemma {:induction false} RetrieveWhileTalking(m: Manager, k: int, s: int, env: Env, env': Env)
    requires Talking(m, k) && s in m.calls && m.calls[s].state == HOLDING
    ensures Swapped(m, Step(Step(m, UserHoldRetrieve(s), env), HoldConfirm(k), env'), k, s, m.calls[s].kind)
  {
    hide Step, Count, Sessions, ActivatePending, ClearHold, Reconnects, Swapped, OthersKept, Talking;
    TalkingIs(m, k, env.pick);
    RequestsAsk(m, k, s, "", env);
    var h := Held(Asked(m, k, UserHold(s)), k);
    HeldIs(m, k, UserHold(s));
    Confirms(m, k, UserHold(s), env');
    DeferredRetrieve(h, k, s, env');
    HoldThenConnect(m, ActivatePending(h, env'), k, s, UserHold(s), m.calls[s].kind);
  }

  /** Dialling puts one call in setup under the new session, unless there is none; a call in its way is destroyed. */
  ghost predicate Dials(m: Manager, m': Manager, number: string, x: int) {
    && Keyed(m') && OthersKept(m, m', if x == -1 then {} else {x})
    && (x != -1 ==> Dialled(m', x, number))
    && (x != -1 && x in m.calls ==> m'.destroyed == m.destroyed + [m.calls[x]])
    && (x == -1 || x !in m.calls ==> Unlogged(m, m'))
  }

  lemma {:induction false} DialIs(m: Manager, number: string, x: int)
    requires Keyed(m)
    ensures Dials(m, Dial(m, number, x), number, x)
  {
  }

  lemma {:induction false} DeferredDial(h: Manager, number: string, env: Env)
    requires Keyed(h) && h.pending == Some(CreateSession(number))
    requires Count(h.calls, {ACTIVE}) == 0 && Count(h.calls, SETUP) == 0
    ensures var d := ActivatePending(h, env); Dials(h, d, number, env.newSession) && d.pending == None
  {
    hide Count, Dial, Dials;
    DialIs(h, number, env.newSession);
    var d := Dial(h, number, env.newSession);
    assert ActivatePending(h, env) == d.(pending := None);
    DialsPending(h, d, number, env.newSession);
  }

  lemma {:induction false} DialsPending(m: Manager, m': Manager, number: string, x: int)
    requires Dials(m, m', number, x)
    ensures Dials(m, m'.(pending := None), number, x)
  {
  }

  /** The call that was talking is held, and the number is dialled under the new session, if there is one. */
  ghost predicate HeldAndDialled(m: Manager, m': Manager, k: int, number: string, x: int) {
    && Keyed(m') && OthersKept(m, m', if x == -1 then {k} else {k, x}) && m'.pending == None
    && k in m.calls && (x != k || x == -1 ==> k in m'.calls && OnHold(m.calls[k], m'.calls[k]))
    && (x != -1 ==> Dialled(m', x, number))
    && (x == -1 || x !in m.calls ==> Unlogged(m, m'))
  }

  lemma {:induction false} KeptThrough(m: Manager, m1: Manager, m2: Manager, a: set<int>, b: set<int>)
    requires OthersKept(m, m1, a) && OthersKept(m1, m2, b)
    ensures OthersKept(m, m2, a + b)
  {
  }

  lemma {:induction false} OneKept(m: Manager, m': Manager, sessions: set<int>, k: int)
    requires OthersKept(m, m', sessions) && k !in sessions
    ensures k in m.calls <==> k in m'.calls
    ensures k in m.calls ==> m'.calls[k] == m.calls[k]
  {
  }

  lemma {:induction false} HoldThenDial(m: Manager, h: Manager, d: Manager, k: int, number: string, x: int)
    requires OthersKept(m, h, {k}) && Unlogged(m, h) && d.pending == None && Dials(h, d, number, x)
    requires k in m.calls && k in h.calls && h.calls[k].serial == m.calls[k].serial
    requires OnHold(m.calls[k], h.calls[k].(holdRequested := false))
    ensures HeldAndDialled(m, ClearHold(d, m.calls[k].serial, k), k, number, x)
  {
    hide ClearHold, Keyed, OthersKept, OnHold;
    var dialled := if x == -1 then {} else {x};
    var m' := ClearHold(d, m.calls[k].serial, k);
    ClearHoldIs(d, m.calls[k].serial, k);
    KeptThrough(m, h, d, {k}, dialled);
    KeptThrough(m, d, m', {k} + dialled, {k});
    assert {k} + dialled + {k} == if x == -1 then {k} else {k, x};
    if x == -1 || x != k {
      OneKept(h, d, dialled, k);
    }
    if x != -1 && x != k {
      OneKept(d, m', {k}, x);
      OneKept(m, h, {k}, x);
    }
  }

  /** A number is dialled: the first call is held, then the dialled one is under way. */
  lemma {:induction false} DialWhileTalking(m: Manager, k: int, number: string, env: Env, env': Env)
    requires Talking(m, k) && Count(m.calls, SETUP) == 0
    ensures HeldAndDialled(m, Step(Step(m, CreateOutbound(number), env), HoldConfirm(k), env'), k, number,
                           env'.newSession)
  {
    hide Step, Count, Sessions, ActivatePending, ClearHold, Dials, HeldAndDialled, OthersKept, Talking;
    TalkingIs(m, k, env.pick);
    RequestsAsk(m, k, 0, number, env);
    var h := Held(Asked(m, k, CreateSession(number)), k);
    HeldIs(m, k, CreateSession(number));
    Confirms(m, k, CreateSession(number), env');
    DeferredDial(h, number, env');
    HoldThenDial(m, h, ActivatePending(h, env'), k, number, env'.newSession);
  }

  // ---------------------------------------------------------------------------
  // Requests that need not wait
  // ---------------------------------------------------------------------------

  lemma {:induction false} AnswerAtOnce(m: Manager, s: int, env: Env)
    requires Keyed(m) && Count(m.calls, {ACTIVE}) == 0 && s in m.calls && m.calls[s].state == INCOMING
    ensures var m' := Step(m, UserAnswers(s), env);
            && OthersKept(m, m', {s}) && Unlogged(m, m') && m'.pending == m.pending
            && s in m'.calls && Connected(m.calls[s], m'.calls[s]) && m'.calls[s].kind == Received
  {
    hide Count;
  }

  lemma {:induction false} RetrieveAtOnce(m: Manager, s: int, env: Env)
    requires Keyed(m) && Count(m.calls, {ACTIVE}) == 0 && s in m.calls && m.calls[s].state == HOLDING
    ensures var m' := Step(m, UserHoldRetrieve(s), env);
            && OthersKept(m, m', {s}) && Unlogged(m, m') && m'.pending == m.pending
            && s in m'.calls && Connected(m.calls[s], m'.calls[s]) && m'.calls[s].kind == m.calls[s].kind
  {
    hide Count;
  }

  /** A hold that nothing waits for. */
  lemma {:induction false} HoldAndConfirm(m: Manager, s: int, env: Env, env': Env)
    requires Keyed(m) && m.pending == None && s in m.calls && m.calls[s].state == ACTIVE
    ensures var m' := Step(Step(m, UserHoldRetrieve(s), env), HoldConfirm(s), env');
            && OthersKept(m, m', {s}) && Unlogged(m, m') && m'.pending == None
            && s in m'.calls && OnHold(m.calls[s], m'.calls[s])
  {
    hide Count, First, OthersKept, OnHold;
    var m1 := Step(m, UserHoldRetrieve(s), env);
    assert m1 == m.(calls := m.calls[s := m.calls[s].(holdRequested := true)]);
    ConfirmAlone(m, m1, s, env');
  }

  lemma {:induction false} ConfirmAlone(m: Manager, m1: Manager, s: int, env: Env)
    requires Keyed(m) && m.pending == None && s in m.calls && m.calls[s].state == ACTIVE
    requires m1 == m.(calls := m.calls[s := m.calls[s].(holdRequested := true)])
    ensures var m' := Step(m1, HoldConfirm(s), env);
            && OthersKept(m, m', {s}) && Unlogged(m, m') && m'.pending == None
            && s in m'.calls && OnHold(m.calls[s], m'.calls[s])
  {
  }

  // ---------------------------------------------------------------------------
  // Calls from beginning to end
  // ---------------------------------------------------------------------------

  /** The call is gone, and the log has one record more. */
  ghost predicate GoneWith(m: Manager, m': Manager, s: int, r: Record) {
    OthersKept(m, m', {s}) && s !in m'.calls && m'.log == m.log + [r]
  }

  predicate Underway(c: Call) { c.state in {CONNECTING, ALERTING, ACTIVE, INCOMING, HOLDING} }

  /** The call is over: in its last state, with its timer running, and otherwise as it was. */
  ghost predicate Over(m: Manager, m': Manager, s: int, state: StateId) {
    && OthersKept(m, m', {s}) && Unlogged(m, m') && Keyed(m')
    && s in m.calls && s in m'.calls && m'.calls[s].state == state && m'.calls[s].releasedTimer
    && m'.calls[s].kind == m.calls[s].kind && m'.calls[s].number == m.calls[s].number
    && m'.calls[s].name == m.calls[s].name
  }

  lemma {:induction false} UserHangsUp(m: Manager, s: int, env: Env)
    requires Keyed(m) && s in m.calls && Underway(m.calls[s]) && env.releasedStarts
    ensures Over(m, Step(m, UserRelease(s), env), s, TERMINATED)
  {
  }

  lemma {:induction false} OtherHangsUp(m: Manager, s: int, env: Env)
    requires Keyed(m) && s in m.calls && Underway(m.calls[s]) && env.releasedStarts
    ensures Over(m, Step(m, SessionDisconnected(s), env), s, RELEASED)
  {
  }

  lemma {:induction false} TimerRemoves(m: Manager, s: int, env: Env)
    requires Keyed(m) && s in m.calls && m.calls[s].state in {RELEASED, TERMINATED}
    requires m.calls[s].kind != Undefined && (m.calls[s].kind == Dialed ==> m.calls[s].number != "")
    ensures var c := m.calls[s]; GoneWith(m, Step(m, ReleasedTimer(s), env), s, Record(c.kind, c.number, c.name))
  {
  }

  /** Released by the user or by the other side, a call is kept until its timer ends, and then recorded. */
  lemma {:induction false} HangUp(m: Manager, s: int, e: Event, env: Env, env': Env)
    requires Keyed(m) && s in m.calls && Underway(m.calls[s]) && env.releasedStarts
    requires m.calls[s].kind != Undefined && (m.calls[s].kind == Dialed ==> m.calls[s].number != "")
    requires e == UserRelease(s) || e == SessionDisconnected(s)
    ensures var m1, c := Step(m, e, env), m.calls[s];
            && Over(m, m1, s, if e.UserRelease? then TERMINATED else RELEASED)
            && Enabled(m1, ReleasedTimer(s))
            && GoneWith(m, Step(m1, ReleasedTimer(s), env'), s, Record(c.kind, c.number, c.name))
  {
    hide Step, OthersKept, Keyed;
    if e.UserRelease? {
      UserHangsUp(m, s, env);
    } else {
      OtherHangsUp(m, s, env);
    }
    var m1 := Step(m, e, env);
    TimerRemoves(m1, s, env');
    KeptThrough(m, m1, Step(m1, ReleasedTimer(s), env'), {s}, {s});
    assert {s} + {s} == {s};
  }

  /** A number is dialled, the other side rings and answers. */
  lemma {:induction false} OutgoingCall(m: Manager, number: string, env: Env)
    requires Keyed(m) && Count(m.calls, SETUP) == 0 && Count(m.calls, {ACTIVE}) == 0
    requires env.newSession != -1 && env.newSession !in m.calls
    ensures var x := env.newSession;
            var m1 := Step(m, CreateOutbound(number), env);
            var m2 := Step(m1, SessionEarly(x), env);
            var m3 := Step(m2, SessionConnecting(x), env);
            && Dials(m, m1, number, x) && Dialled(m1, x, number)
            && OthersKept(m, m2, {x}) && x in m2.calls && m2.calls[x].state == ALERTING
            && OthersKept(m, m3, {x}) && x in m3.calls && Connected(m1.calls[x], m3.calls[x])
            && m3.calls[x].kind == Dialed && Unlogged(m, m3) && m3.pending == m.pending
  {
    hide Count, Dials, Dialled;
    var x := env.newSession;
    DialIs(m, number, x);
    var m1 := Step(m, CreateOutbound(number), env);
    assert Dials(m, m1, number, x);
    SetupProceeds(m, m1, number, x, env);
  }

  lemma {:induction false} SetupProceeds(m: Manager, m1: Manager, number: string, x: int, env: Env)
    requires Dials(m, m1, number, x) && x != -1 && x !in m.calls
    ensures Dialled(m1, x, number)
    ensures var m2 := Step(m1, SessionEarly(x), env);
            var m3 := Step(m2, SessionConnecting(x), env);
            && OthersKept(m, m2, {x}) && x in m2.calls && m2.calls[x].state == ALERTING
            && OthersKept(m, m3, {x}) && x in m3.calls && Connected(m1.calls[x], m3.calls[x])
            && m3.calls[x].kind == Dialed && Unlogged(m, m3) && m3.pending == m1.pending
  {
  }

  /** The call rings: it counts as missed until it is answered, and its timers run as they were started. */
  ghost predicate Rings(m: Manager, m': Manager, s: int, number: string, name: string, env: Env) {
    && OthersKept(m, m', {s}) && Unlogged(m, m') && Keyed(m') && m'.pending == m.pending && s in m'.calls
    && var c := m'.calls[s];
    && c.state == INCOMING && c.incoming && c.kind == Missed && c.number == number && c.name == name
    && c.noResponseTimer == env.noResponseStarts && c.noReplyTimer == (env.noReplyForward && env.noReplyStarts)
  }

  /** Unless it is answered automatically, which needs an empty table, an incoming call rings. */
  lemma {:induction false} IncomingRings(m: Manager, s: int, number: string, name: string, env: Env)
    requires Keyed(m) && s !in m.calls && !env.forward && !env.doNotDisturb && (env.autoAnswer ==> m.calls != map[])
    ensures Rings(m, Step(Step(m, SessionIncoming(s), env), IncomingCall(s, number, name), env), s, number, name, env)
  {
    var m1 := Step(m, SessionIncoming(s), env);
    var m2 := Put(m1, Ringing(m1.calls[s].(number := number, name := name), env));
    if env.autoAnswer {
      assert m.calls.Keys != {};
      assert m2.calls.Keys == m.calls.Keys + {s};
    }
    assert Step(m1, IncomingCall(s, number, name), env) == m2;
  }

  lemma {:induction false} NotAnsweredInTime(m: Manager, s: int, env: Env)
    requires Keyed(m) && s in m.calls && m.calls[s].state == INCOMING && env.releasedStarts
    ensures Over(m, Step(m, NoResponseTimer(s), env), s, TERMINATED)
  {
  }

  /** A call that rings and is not answered in time is recorded as missed. */
  lemma {:induction false} MissedCall(m: Manager, s: int, number: string, name: string, env: Env)
    requires Keyed(m) && s !in m.calls && env.releasedStarts && env.noResponseStarts
    requires !env.forward && !env.doNotDisturb && (env.autoAnswer ==> m.calls != map[])
    ensures var m1 := Step(Step(m, SessionIncoming(s), env), IncomingCall(s, number, name), env);
            && Enabled(m1, NoResponseTimer(s))
            && var m2 := Step(m1, NoResponseTimer(s), env);
            && Enabled(m2, ReleasedTimer(s))
            && GoneWith(m, Step(m2, ReleasedTimer(s), env), s, Record(Missed, number, name))
  {
    hide Step, OthersKept, Keyed;
    IncomingRings(m, s, number, name, env);
    var m1 := Step(Step(m, SessionIncoming(s), env), IncomingCall(s, number, name), env);
    NotAnsweredInTime(m1, s, env);
    var m2 := Step(m1, NoResponseTimer(s), env);
    TimerRemoves(m2, s, env);
    KeptThrough(m, m1, m2, {s}, {s});
    KeptThrough(m, m2, Step(m2, ReleasedTimer(s), env), {s} + {s}, {s});
    assert {s} + {s} + {s} == {s};
  }

  /** If the timer does not start, a call that is released is recorded at once. */
  lemma {:induction false} HangUpAtOnce(m: Manager, s: int, e: Event, env: Env)
    requires Keyed(m) && s in m.calls && Underway(m.calls[s]) && !env.releasedStarts
    requires m.calls[s].kind != Undefined && (m.calls[s].kind == Dialed ==> m.calls[s].number != "")
    requires e == UserRelease(s) || e == SessionDisconnected(s)
    ensures var c := m.calls[s]; GoneWith(m, Step(m, e, env), s, Record(c.kind, c.number, c.name))
  {
  }

  /** Alone in the table and with automatic answering, a call is answered as it comes in. */
  lemma {:induction false} AnsweredByMachine(m: Manager, s: int, number: string, name: string, env: Env)
    requires m.calls == map[] && env.autoAnswer && !env.forward && !env.doNotDisturb
    ensures var m' := Step(Step(m, SessionIncoming(s), env), IncomingCall(s, number, name), env);
            && m'.calls.Keys == {s} && Unlogged(m, m')
            && var c := m'.calls[s];
               c.state == ACTIVE && c.kind == Received && c.counting && c.number == number && c.name == name
  {
    var m1 := Step(m, SessionIncoming(s), env);
    assert m1.calls.Keys == {s};
    var c := Ringing(m1.calls[s].(number := number, name := name), env);
    assert Put(m1, c).calls.Keys == {s};
  }

  /** Forwarded or turned away, a call leaves neither an entry nor a record. */
  lemma {:induction false} TurnedAway(m: Manager, s: int, number: string, name: string, env: Env)
    requires Keyed(m) && s !in m.calls && (env.forward || env.doNotDisturb)
    ensures var m' := Step(Step(m, SessionIncoming(s), env), IncomingCall(s, number, name), env);
            m'.calls == m.calls && m'.log == m.log && m'.pending == m.pending
  {
  }

  // ---------------------------------------------------------------------------
  // Other events
  // ---------------------------------------------------------------------------

  /** The event does not fit the state of its call, or there is no such call. */
  ghost predicate OutOfPlace(m: Manager, e: Event) {
    match e
    case CreateOutbound(_) => Count(m.calls, SETUP) > 0
    case UserRelease(s) => s !in m.calls || m.calls[s].state == TERMINATED
    case UserAnswers(s) => Count(m.calls, {ACTIVE}) == 0 && (s !in m.calls || m.calls[s].state != INCOMING)
    case UserHoldRetrieve(s) => s !in m.calls || m.calls[s].state !in {ACTIVE, HOLDING}
    case UserConference => Count(m.calls, {ACTIVE}) != 1 || Count(m.calls, {HOLDING}) == 0
    case SessionEarly(s) => s !in m.calls || m.calls[s].state != CONNECTING
    case SessionConnecting(s) => s !in m.calls || m.calls[s].state !in {CONNECTING, ALERTING}
    case SessionDisconnected(s) => s !in m.calls || m.calls[s].state == IDLE
    case IncomingCall(s, _, _) => s !in m.calls || m.calls[s].state != IDLE
    case HoldConfirm(s) => s !in m.calls || m.calls[s].state != ACTIVE || !m.calls[s].holdRequested
    case _ => false
  }

  /** An event out of place changes nothing. */
  lemma {:induction false} IgnoredEvents(m: Manager, e: Event, env: Env)
    requires OutOfPlace(m, e)
    ensures Step(m, e, env) == m
  {
    hide Count, First, Dial, Finish, Ring, ActivatePending, Destroy;
  }

  /** A conference: a held call is connected beside the active one, and nothing else changes. */
  lemma {:induction false} ConferenceJoins(m: Manager, k: int, env: Env)
    requires Talking(m, k) && Count(m.calls, {HOLDING}) > 0
    ensures var m' := Step(m, UserConference, env);
            exists s :: s in m.calls && m.calls[s].state == HOLDING && OthersKept(m, m', {s})
              && s in m'.calls && Connected(m.calls[s], m'.calls[s]) && Unlogged(m, m') && m'.pending == m.pending
  {
    hide Count, Sessions;
    TalkingIs(m, k, env.pick);
    var s := First(m.calls, HOLDING, env.pick);
    ConferenceIs(m, s, env);
  }

  lemma {:induction false} ConferenceIs(m: Manager, s: int, env: Env)
    requires Keyed(m) && Count(m.calls, {ACTIVE}) == 1 && Count(m.calls, {HOLDING}) > 0
    requires s == First(m.calls, HOLDING, env.pick)
    ensures var m' := Step(m, UserConference, env);
            && s in m.calls && m.calls[s].state == HOLDING && OthersKept(m, m', {s})
            && s in m'.calls && Connected(m.calls[s], m'.calls[s]) && Unlogged(m, m') && m'.pending == m.pending
  {
    hide Count;
  }

  /** A renumbered call is the same call under its new session. */
  lemma {:induction false} Renumbered(m: Manager, before: int, after: int, env: Env)
    requires Keyed(m) && before in m.calls && after !in m.calls
    ensures var m' := Step(m, CallReplaced(before, after), env);
            && OthersKept(m, m', {before, after}) && before !in m'.calls && Unlogged(m, m') && Keyed(m')
            && after in m'.calls && m'.calls[after] == m.calls[before].(session := after)
  {
  }

  /** An incoming call under a session in use ends the call that has it. */
  lemma {:induction false} SessionTaken(m: Manager, s: int, env: Env)
    requires s in m.calls
    ensures var m', m'' := Step(m, SessionIncoming(s), env), Step(m, UserRelease(s), env);
            m'.calls == m''.calls && m'.log == m''.log && m'.pending == m.pending
  {
    hide Move;
  }

  /** The timer for unanswered calls by itself changes nothing but that it no longer runs. */
  lemma {:induction false} NoReplyChangesNothing(m: Manager, s: int, env: Env)
    requires Keyed(m) && s in m.calls
    ensures var m' := Step(m, NoReplyTimer(s), env);
            && OthersKept(m, m', {s}) && Unlogged(m, m') && m'.pending == m.pending
            && s in m'.calls && m'.calls[s] == m.calls[s].(noReplyTimer := false)
  {
  }
}
