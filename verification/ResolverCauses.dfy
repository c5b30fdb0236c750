/** Why a request was called back: every call of a run goes back to the event that caused it. */
module ResolverCauses {
  import opened Resolver
  import opened Wrappers

  /** Request `t` waits for pending query `n`: it started the query or joined it. */
  predicate WaitsFor(s: State, n: nat, t: nat) {
    && Asks(s, n)
    && (|| s.nodes[n].cb == Some(t)
        || exists j :: 0 <= j < |s.nodes[n].children| && HasTicket(s, s.nodes[n].children[j], t))
  }

  predicate HasTicket(s: State, n: nat, t: nat) { n < |s.nodes| && s.nodes[n].cb == Some(t) }

  /**
   The event is what the call tells: the response to the query waited for, its last timeout or
   one after which it could not be sent again, the cancellation of the request itself, or an
   answer from the cache.
   */
  predicate Causes(retries: nat, s: State, e: Event, c: Call) {
    match e
    case Start(key, wants, cached, _) => wants && cached.Some? && c == Call(|s.fates|, key, Answered(cached.value))
    case Respond(id, code) =>
      id in s.byId && WaitsFor(s, s.byId[id], c.ticket) && c == Call(c.ticket, s.nodes[s.byId[id]].key, Answered(code))
    case Timeout(n, sends) =>
      && WaitsFor(s, n, c.ticket) && (s.nodes[n].count >= retries || !sends)
      && c == Call(c.ticket, s.nodes[n].key, TimedOut)
    case Cancel(n, notify) =>
      notify && Asks(s, n) && s.nodes[n].cb == Some(c.ticket) && c == Call(c.ticket, s.nodes[n].key, Cancelled)
    case Fire => false
    case Finish => false
  }

  /** The call is the one to be made at place `j` of completion `k`. */
  predicate ToCome(s: State, c: Call, k: nat, j: nat) {
    && k < |s.endings| && s.endings[k].next <= j < |s.endings[k].nodes|
    && HasTicket(s, s.endings[k].nodes[j], c.ticket)
    && c.key == s.endings[k].key && c.status == s.endings[k].status
  }

  // ---------------------------------------------------------------------------
  // One step
  // ---------------------------------------------------------------------------

  /** The nodes of a completion are not touched by what happens to other nodes. */
  lemma {:induction false} LeavingNode(s: State, k: nat, j: nat)
    requires Placed(s) && k < |s.endings| && j < |s.endings[k].nodes|
    ensures s.endings[k].nodes[j] < |s.nodes| && s.places[s.endings[k].nodes[j]] == Leaving(k, j)
  {
    assert EndingPlaced(s, k);
  }

  lemma {:induction false} TookToCome(s: State, s': State, n: nat, p: nat, c: Call, k: nat, j: nat)
    requires Placed(s) && Took(s, s', n, p) && (p == n || (Asks(s, p) && s'.nodes[p].cb == s.nodes[p].cb))
    requires s'.endings == s.endings && ToCome(s', c, k, j)
    ensures ToCome(s, c, k, j)
  {
    hide Placed;
    LeavingNode(s, k, j);
  }

  lemma {:induction false} StartToCome(s: State, e: Event, c: Call, k: nat, j: nat)
    requires Placed(s) && e.Start? && forall key :: key in s.byKey ==> Asks(s, s.byKey[key])
    requires ToCome(Begin(s, e), c, k, j)
    ensures ToCome(s, c, k, j)
  {
    hide Placed, Join, Open, Refuse, ToCome;
    if e.cached.Some? {
      CachedToCome(s, e, c, k, j);
    } else if e.key in s.byKey {
      JoinIs(s, s.byKey[e.key], e.wants);
      TookToCome(s, Begin(s, e), Fresh(s), s.byKey[e.key], c, k, j);
    } else if e.sends {
      OpenIs(s, e.key, e.wants);
      TookToCome(s, Begin(s, e), Fresh(s), Fresh(s), c, k, j);
    } else {
      RefuseIs(s, e.key, e.wants);
      TookToCome(s, Begin(s, e), Fresh(s), Fresh(s), c, k, j);
    }
  }

  lemma {:induction false} CachedToCome(s: State, e: Event, c: Call, k: nat, j: nat)
    requires e.Start? && e.cached.Some? && ToCome(Begin(s, e), c, k, j)
    ensures ToCome(s, c, k, j)
  {
  }

  lemma {:induction false} CloseToCome(s: State, n: nat, status: Status, c: Call, k: nat, j: nat)
    requires |s.places| == |s.nodes| && Asks(s, n) && ToCome(Close(s, n, status), c, k, j)
    ensures ToCome(s, c, k, j) || (WaitsFor(s, n, c.ticket) && c == Call(c.ticket, s.nodes[n].key, status))
  {
    hide Close;
    CloseIs(s, n, status);
    if k == |s.endings| && j > 0 {
      assert HasTicket(s, s.nodes[n].children[j - 1], c.ticket);
    }
  }

  lemma {:induction false} CancelToCome(s: State, n: nat, notify: bool, c: Call, k: nat, j: nat)
    requires n < |s.nodes| && ToCome(DoCancel(s, n, notify), c, k, j)
    ensures ToCome(s, c, k, j)
  {
  }

  lemma {:induction false} ResendToCome(s: State, n: nat, c: Call, k: nat, j: nat)
    requires n < |s.nodes| && ToCome(Resend(s, n), c, k, j)
    ensures ToCome(s, c, k, j)
  {
  }

  /** A call to be made after a step was to be made before it, or is caused by it. */
  lemma {:induction false} StepToCome(retries: nat, s: State, e: Event, c: Call, k: nat, j: nat)
    requires Inv(retries, s) && Enabled(s, e) && ToCome(Step(retries, s, e), c, k, j)
    ensures ToCome(s, c, k, j) || Causes(retries, s, e, c)
  {
    hide TablesAgree, Placed, FatesRight, KeysRight, Counted, Close, Resend, DoCancel, Begin, ToCome, WaitsFor;
    TableAsks(s);
    match e {
      case Start(_, _, _, _) => StartToCome(s, e, c, k, j);
      case Respond(id, code) =>
        if id in s.byId {
          AsksIs(s, s.byId[id]);
          CloseToCome(s, s.byId[id], Answered(code), c, k, j);
        }
      case Timeout(n, sends) =>
        if s.nodes[n].id in s.byId {
          AsksIs(s, n);
          if s.nodes[n].count < retries && sends {
            ResendToCome(s, n, c, k, j);
          } else {
            CloseToCome(s, n, TimedOut, c, k, j);
          }
        }
      case Cancel(n, notify) => CancelToCome(s, n, notify, c, k, j);
      case Fire => FireToCome(s, c, k, j);
      case Finish => FinishToCome(s, c, k, j);
    }
  }

  lemma {:induction false} FireToCome(s: State, c: Call, k: nat, j: nat)
    requires s.endings != [] && ToCome(DoFire(s), c, k, j)
    ensures ToCome(s, c, k, j)
  {
  }

  lemma {:induction false} FinishToCome(s: State, c: Call, k: nat, j: nat)
    requires s.endings != [] && Top(s).nodes != [] && ToCome(DoFinish(s), c, k, j)
    ensures ToCome(s, c, k, j)
  {
  }

  /** A call is made because it was to be made, or is caused by the step; no call is taken back. */
  lemma {:induction false} StepCalls(retries: nat, s: State, e: Event, i: nat)
    requires Inv(retries, s) && Enabled(s, e) && i < |Step(retries, s, e).log|
    ensures var c := Step(retries, s, e).log[i];
            if i < |s.log| then c == s.log[i]
            else Causes(retries, s, e, c) || (exists k, j :: ToCome(s, c, k, j))
  {
    hide TablesAgree, Placed, FatesRight, KeysRight, Counted, Join, Open, Refuse, Close, Resend, DoFire;
    TableAsks(s);
    match e {
      case Start(key, wants, cached, sends) => StartLog(s, e);
      case Respond(id, code) =>
        if id in s.byId {
          AsksIs(s, s.byId[id]);
          CloseIs(s, s.byId[id], Answered(code));
        }
      case Timeout(n, sends) =>
        if s.nodes[n].id in s.byId {
          AsksIs(s, n);
          CloseIs(s, n, TimedOut);
          ResendLog(s, n);
        }
      case Cancel(n, notify) =>
        PendingOwes(s, n);
      case Fire =>
        FireIs(s);
        if i >= |s.log| {
          assert ToCome(s, Step(retries, s, e).log[i], |s.endings| - 1, Top(s).next);
        }
      case Finish =>
    }
  }

  lemma {:induction false} ResendLog(s: State, n: nat)
    requires n < |s.nodes|
    ensures Resend(s, n).log == s.log
  {
  }

  // ---------------------------------------------------------------------------
  // Runs
  // ---------------------------------------------------------------------------

  /** One of the events of the run caused the call, in the state it met. */
  predicate CausedBy(retries: nat, s: State, events: seq<Event>, c: Call)
    requires IsRun(retries, s, events)
    decreases |events|
  {
    events != [] &&
    (Causes(retries, s, events[0], c) || CausedBy(retries, Step(retries, s, events[0]), events[1..], c))
  }

  lemma {:induction false} CausedFrom(retries: nat, s: State, events: seq<Event>, i: nat)
    requires Inv(retries, s) && IsRun(retries, s, events) && i < |After(retries, s, events).log|
    ensures var c := After(retries, s, events).log[i];
            || (i < |s.log| && c == s.log[i])
            || (exists k, j :: ToCome(s, c, k, j))
            || CausedBy(retries, s, events, c)
    decreases |events|
  {
    hide Inv, Step, Enabled, Causes, ToCome;
    if events != [] {
      var s', c := Step(retries, s, events[0]), After(retries, s, events).log[i];
      StepKeeps(retries, s, events[0]);
      CausedFrom(retries, s', events[1..], i);
      if i < |s'.log| && c == s'.log[i] {
        StepCalls(retries, s, events[0], i);
      } else if k, j :| ToCome(s', c, k, j) {
        StepToCome(retries, s, events[0], c, k, j);
      }
    }
  }

  /** After every run, each call made tells what an event of the run did to the request called. */
  lemma {:induction false} EveryCallIsCaused(retries: nat, events: seq<Event>, i: nat)
    requires IsRun(retries, Init(), events) && i < |After(retries, Init(), events).log|
    ensures CausedBy(retries, Init(), events, After(retries, Init(), events).log[i])
  {
    hide IsRun, After, Inv, CausedBy;
    InitInv(retries);
    CausedFrom(retries, Init(), events, i);
  }

  // ---------------------------------------------------------------------------
  // First come, first called
  // ---------------------------------------------------------------------------

  /** The node of pending query `n` itself, and those that joined it. */
  function Member(s: State, n: nat, i: nat): nat
    requires n < |s.nodes| && i <= |s.nodes[n].children|
  {
    if i == 0 then n else s.nodes[n].children[i - 1]
  }

  function TicketOf(s: State, n: nat): Option<nat> { if n < |s.nodes| then s.nodes[n].cb else None }

  /** Whoever asked earlier stands in front. */
  predicate InOrderOf(a: Option<nat>, b: Option<nat>) { a.Some? && b.Some? ==> a.value < b.value }

  ghost predicate QueryRises(s: State, n: nat)
    requires n < |s.nodes|
  {
    forall i, j :: 0 <= i < j <= |s.nodes[n].children| ==>
      InOrderOf(TicketOf(s, Member(s, n, i)), TicketOf(s, Member(s, n, j)))
  }

  ghost predicate Rising(s: State) { forall n :: 0 <= n < |s.nodes| && Asks(s, n) ==> QueryRises(s, n) }

  lemma {:induction false} MembersPlaced(s: State, n: nat, i: nat)
    requires Placed(s) && Asks(s, n) && i <= |s.nodes[n].children|
    ensures var c := Member(s, n, i);
            c < |s.nodes| == |s.places| && s.places[c] == if i == 0 then Asking else Child(n, i - 1)
  {
    if i > 0 {
      assert s.places[s.nodes[n].children[i - 1]] == Child(n, i - 1);
    }
  }

  /** A query is as it was if its node and its tickets are, or tickets were dropped. */
  lemma {:induction false} RisesStill(s: State, s': State, n: nat)
    requires n < |s.nodes| && n < |s'.nodes| && QueryRises(s, n) && s'.nodes[n].children == s.nodes[n].children
    requires forall i :: 0 <= i <= |s.nodes[n].children| ==>
               TicketOf(s', Member(s, n, i)).None? || TicketOf(s', Member(s, n, i)) == TicketOf(s, Member(s, n, i))
    ensures QueryRises(s', n)
  {
    forall i, j | 0 <= i < j <= |s'.nodes[n].children|
      ensures InOrderOf(TicketOf(s', Member(s', n, i)), TicketOf(s', Member(s', n, j)))
    {
      assert Member(s', n, i) == Member(s, n, i) && Member(s', n, j) == Member(s, n, j);
      assert InOrderOf(TicketOf(s, Member(s, n, i)), TicketOf(s, Member(s, n, j)));
    }
  }

  lemma {:induction false} TicketsKnown(s: State, n: nat, i: nat)
    requires Placed(s) && FatesRight(s) && Asks(s, n) && i <= |s.nodes[n].children|
    ensures var t := TicketOf(s, Member(s, n, i)); t.Some? ==> t.value < |s.fates|
  {
    hide Placed;
    MembersPlaced(s, n, i);
    assert Owes(s, Member(s, n, i));
  }

  lemma {:induction false} TookRises(s: State, s': State, n: nat, p: nat, q: nat)
    requires Placed(s) && Rising(s) && Took(s, s', n, p) && Asks(s, q) && q != p && q < |s'.nodes|
    requires p == n || (p < |s.nodes| && s'.nodes[p].cb == s.nodes[p].cb)
    ensures QueryRises(s', q)
  {
    hide Placed, QueryRises;
    MembersPlaced(s, q, 0);
    forall i | 0 <= i <= |s.nodes[q].children|
      ensures TicketOf(s', Member(s, q, i)) == TicketOf(s, Member(s, q, i))
    {
      MembersPlaced(s, q, i);
    }
    RisesStill(s, s', q);
  }

  lemma {:induction false} JoinRises(s: State, p: nat, wants: bool)
    requires Placed(s) && FatesRight(s) && Asks(s, p) && Rising(s)
    ensures Rising(Join(s, p, wants))
  {
    hide Placed, FatesRight, Join, QueryRises;
    JoinIs(s, p, wants);
    var n, s' := Fresh(s), Join(s, p, wants);
    forall q | 0 <= q < |s'.nodes| && Asks(s', q)
      ensures QueryRises(s', q)
    {
      if q == p {
        JoinedRises(s, p, wants);
      } else {
        TookRises(s, s', n, p, q);
      }
    }
  }

  lemma {:induction false} JoinedRises(s: State, p: nat, wants: bool)
    requires Placed(s) && FatesRight(s) && Asks(s, p) && QueryRises(s, p)
    ensures p < |Join(s, p, wants).nodes| && QueryRises(Join(s, p, wants), p)
  {
    hide Placed, FatesRight, Join;
    JoinIs(s, p, wants);
    var n, s', last := Fresh(s), Join(s, p, wants), |s.nodes[p].children|;
    forall i | 0 <= i <= last
      ensures Member(s', p, i) == Member(s, p, i) && TicketOf(s', Member(s', p, i)) == TicketOf(s, Member(s, p, i))
      ensures InOrderOf(TicketOf(s', Member(s', p, i)), TicketOf(s', n))
    {
      MembersPlaced(s, p, i);
      TicketsKnown(s, p, i);
    }
    forall i, j | 0 <= i < j <= last + 1
      ensures InOrderOf(TicketOf(s', Member(s', p, i)), TicketOf(s', Member(s', p, j)))
    {
      if j == last + 1 {
        assert Member(s', p, j) == n;
      } else {
        assert InOrderOf(TicketOf(s, Member(s, p, i)), TicketOf(s, Member(s, p, j)));
      }
    }
  }

  lemma {:induction false} StartRises(s: State, e: Event)
    requires Placed(s) && FatesRight(s) && Rising(s) && e.Start? && forall k :: k in s.byKey ==> Asks(s, s.byKey[k])
    ensures Rising(Begin(s, e))
  {
    hide Placed, FatesRight, Join, Open, Refuse, QueryRises;
    if e.cached.Some? {
      CachedRises(s, e);
    } else if e.key in s.byKey {
      JoinRises(s, s.byKey[e.key], e.wants);
    } else if e.sends {
      OpenRises(s, e.key, e.wants);
    } else {
      RefuseRises(s, e.key, e.wants);
    }
  }

  lemma {:induction false} CachedRises(s: State, e: Event)
    requires Rising(s) && e.Start? && e.cached.Some?
    ensures Rising(Begin(s, e))
  {
    var s' := Begin(s, e);
    forall n | 0 <= n < |s'.nodes| && Asks(s', n)
      ensures QueryRises(s', n)
    {
      assert Asks(s, n);
      RisesStill(s, s', n);
    }
  }

  lemma {:induction false} OpenRises(s: State, key: Key, wants: bool)
    requires Placed(s) && Rising(s)
    ensures Rising(Open(s, key, wants))
  {
    hide Placed, Open;
    OpenIs(s, key, wants);
    NewNodeIs(s, key, wants, true);
    var n, s' := Fresh(s), Open(s, key, wants);
    forall q | 0 <= q < |s'.nodes| && Asks(s', q)
      ensures QueryRises(s', q)
    {
      if q != n {
        TookRises(s, s', n, n, q);
      }
    }
  }

  lemma {:induction false} RefuseRises(s: State, key: Key, wants: bool)
    requires Placed(s) && Rising(s)
    ensures Rising(Refuse(s, key, wants))
  {
    hide Placed, Refuse;
    RefuseIs(s, key, wants);
    var n, s' := Fresh(s), Refuse(s, key, wants);
    forall q | 0 <= q < |s'.nodes| && Asks(s', q)
      ensures QueryRises(s', q)
    {
      TookRises(s, s', n, n, q);
    }
  }

  /** Nodes keep their children; tickets are at most dropped; no query becomes pending. */
  lemma {:induction false} OthersRise(s: State, s': State)
    requires Rising(s) && |s'.nodes| == |s.nodes|
    requires forall n :: 0 <= n < |s.nodes| && Asks(s', n) ==> Asks(s, n)
    requires forall n :: 0 <= n < |s.nodes| ==>
               s'.nodes[n].children == s.nodes[n].children && (s'.nodes[n].cb.None? || s'.nodes[n].cb == s.nodes[n].cb)
    ensures Rising(s')
  {
    hide QueryRises;
    forall n | 0 <= n < |s'.nodes| && Asks(s', n)
      ensures QueryRises(s', n)
    {
      RisesStill(s, s', n);
    }
  }

  lemma {:induction false} CloseRises(s: State, n: nat, status: Status)
    requires Rising(s) && |s.places| == |s.nodes| && Asks(s, n)
    ensures Rising(Close(s, n, status))
  {
    hide Close, Rising;
    CloseIs(s, n, status);
    OthersRise(s, Close(s, n, status));
  }

  lemma {:induction false} ResendRises(s: State, n: nat)
    requires Rising(s) && n < |s.nodes|
    ensures Rising(Resend(s, n))
  {
    hide Rising;
    OthersRise(s, Resend(s, n));
  }

  lemma {:induction false} CancelRises(s: State, n: nat, notify: bool)
    requires Rising(s) && n < |s.nodes|
    ensures Rising(DoCancel(s, n, notify))
  {
    hide Rising;
    OthersRise(s, DoCancel(s, n, notify));
  }

  lemma {:induction false} FinishRises(s: State)
    requires Rising(s) && s.endings != [] && Top(s).nodes != []
    ensures Rising(DoFinish(s))
  {
    hide Rising;
    OthersRise(s, DoFinish(s));
  }

  lemma {:induction false} FireRises(s: State)
    requires Rising(s) && Placed(s) && FatesRight(s) && s.endings != [] && Top(s).next < |Top(s).nodes|
    ensures Rising(DoFire(s))
  {
    hide Rising, Placed, FatesRight, DoFire;
    FireIs(s);
    OthersRise(s, DoFire(s));
  }

  lemma {:induction false} StepRises(retries: nat, s: State, e: Event)
    requires Inv(retries, s) && Rising(s) && Enabled(s, e)
    ensures Rising(Step(retries, s, e))
  {
    hide TablesAgree, Placed, FatesRight, KeysRight, Counted, Close, Resend, DoCancel, DoFire, DoFinish, Begin, Rising;
    TableAsks(s);
    match e {
      case Start(_, _, _, _) => StartRises(s, e);
      case Respond(id, code) =>
        if id in s.byId {
          AsksIs(s, s.byId[id]);
          CloseRises(s, s.byId[id], Answered(code));
        }
      case Timeout(n, sends) =>
        if s.nodes[n].id in s.byId {
          AsksIs(s, n);
          CloseRises(s, n, TimedOut);
          ResendRises(s, n);
        }
      case Cancel(n, notify) => CancelRises(s, n, notify);
      case Fire => FireRises(s);
      case Finish => FinishRises(s);
    }
  }

  lemma {:induction false} RunRises(retries: nat, s: State, events: seq<Event>)
    requires Inv(retries, s) && Rising(s) && IsRun(retries, s, events)
    ensures Rising(After(retries, s, events)) && Inv(retries, After(retries, s, events))
    decreases |events|
  {
    hide Inv, Step, Enabled, Rising;
    if events != [] {
      StepRises(retries, s, events[0]);
      StepKeeps(retries, s, events[0]);
      RunRises(retries, Step(retries, s, events[0]), events[1..]);
    }
  }

  predicate TicketsRise(calls: seq<Call>) { forall i, j :: 0 <= i < j < |calls| ==> calls[i].ticket < calls[j].ticket }

  lemma {:induction false} DueRises(s: State, n: nat, key: Key, status: Status, k: nat)
    requires n < |s.nodes| && QueryRises(s, n) && k <= |s.nodes[n].children| + 1
    ensures var list := ([n] + s.nodes[n].children)[k..];
            && TicketsRise(CallsDue(s.nodes, list, key, status))
            && forall c :: c in CallsDue(s.nodes, list, key, status) ==>
                 exists j :: k <= j <= |s.nodes[n].children| && TicketOf(s, Member(s, n, j)) == Some(c.ticket)
    decreases |s.nodes[n].children| + 1 - k
  {
    var all := [n] + s.nodes[n].children;
    if k <= |s.nodes[n].children| {
      DueRises(s, n, key, status, k + 1);
      assert all[k..][1..] == all[k + 1..] && all[k..][0] == Member(s, n, k);
      var rest := CallsDue(s.nodes, all[k + 1..], key, status);
      var now := CallsDue(s.nodes, all[k..], key, status);
      var t := TicketOf(s, Member(s, n, k));
      assert now == (if t.Some? then [Call(t.value, key, status)] else []) + rest;
      forall i | 0 <= i < |rest|
        ensures InOrderOf(TicketOf(s, Member(s, n, k)), Some(rest[i].ticket))
      {
        assert rest[i] in rest;
        var j :| k + 1 <= j <= |s.nodes[n].children| && TicketOf(s, Member(s, n, j)) == Some(rest[i].ticket);
      }
    }
  }

  /** After every run: when a query ends, those who wait for it are called in the order in which they asked. */
  lemma {:induction false} FirstComeFirstCalled(retries: nat, events: seq<Event>, n: nat, status: Status)
    requires IsRun(retries, Init(), events) && Asks(After(retries, Init(), events), n)
    ensures TicketsRise(DueAt(After(retries, Init(), events), n, status))
  {
    hide IsRun, After, CallsDue, QueryRises;
    InitInv(retries);
    RunRises(retries, Init(), events);
    var s := After(retries, Init(), events);
    var all := [n] + s.nodes[n].children;
    assert all[0..] == all;
    DueRises(s, n, s.nodes[n].key, status, 0);
  }
}
