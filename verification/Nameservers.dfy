/**
 The resolver's name servers: which ones a query is sent to, and what the answers make of
 them.  Times are in milliseconds.
 */
module Nameservers {

  datatype Health = Probing | Active | Bad

  /** A server; `asked` is the id of the query its response time is measured with, or 0. */
  datatype Server = Server(addr: nat, health: Health, expiry: int, delay: int, asked: nat, askedAt: int)

  datatype Settings = Settings(retryCount: nat, retryDelay: nat, goodTtl: nat, badTtl: nat)

  const MAX_SERVERS: nat := 16

  /** How long a server keeps a state, in seconds. */
  function Ttl(c: Settings, h: Health): (ttl: nat) {
    match h
    case Probing => (c.retryCount + 2) * c.retryDelay / 1000
    case Active => c.goodTtl
    case Bad => c.badTtl
  }

  function Mark(c: Settings, s: Server, h: Health, now: int): Server {
    s.(health := h, expiry := now + 1000 * Ttl(c, h))
  }

  // ---------------------------------------------------------------------------
  // Selection
  // ---------------------------------------------------------------------------

  /** The first fastest active server among the first `n`, or -1. */
  function Best(ns: seq<Server>, n: nat): (b: int)
    requires n <= |ns|
    ensures -1 <= b < n
  {
    if n == 0 then -1
    else
      var b := Best(ns, n - 1);
      if ns[n - 1].health != Active then b
      else if b == -1 || ns[n - 1].delay < ns[b].delay then n - 1 else b
  }

  /** What the scan of a selection makes of one server. */
  function Rechecked(c: Settings, s: Server, now: int): Server {
    if s.expiry > now then s
    else Mark(c, s, if s.health == Probing then Bad else Probing, now)
  }

  function Scanned(c: Settings, ns: seq<Server>, now: int): (r: seq<Server>)
    ensures |r| == |ns|
  {
    seq(|ns|, i requires 0 <= i < |ns| => Rechecked(c, ns[i], now))
  }

  /** The probed servers among the first `n` that are not the best one. */
  function Probes(c: Settings, ns: seq<Server>, now: int, best: int, n: nat): (r: seq<nat>)
    requires n <= |ns|
    ensures |r| <= n && forall j :: 0 <= j < |r| ==> r[j] < n
  {
    if n == 0 then []
    else
      var r := Probes(c, ns, now, best, n - 1);
      if n - 1 != best && Rechecked(c, ns[n - 1], now).health == Probing then r + [n - 1] else r
  }

  function Chosen(c: Settings, ns: seq<Server>, now: int): seq<nat> {
    var b := Best(ns, |ns|);
    (if b >= 0 then [b] else []) + Probes(c, ns, now, b, |ns|)
  }

  /** Active, at least as fast as every active server, and faster than those before it. */
  predicate IsFirstFastest(ns: seq<Server>, m: nat) {
    && m < |ns| && ns[m].health == Active
    && forall j :: 0 <= j < |ns| && ns[j].health == Active ==>
         ns[m].delay <= ns[j].delay && (j < m ==> ns[m].delay < ns[j].delay)
  }

  lemma {:induction false} BestIs(ns: seq<Server>, n: nat)
    requires n <= |ns|
    ensures var b := Best(ns, n);
            if b == -1 then forall j :: 0 <= j < n ==> ns[j].health != Active
            else IsFirstFastest(ns[..n], b)
  {
    if n > 0 {
      BestIs(ns, n - 1);
    }
  }

  lemma {:induction false} ProbesAre(c: Settings, ns: seq<Server>, now: int, best: int, n: nat, i: nat)
    requires n <= |ns| && i < |ns|
    ensures i in Probes(c, ns, now, best, n) <==>
            i < n && i != best && Rechecked(c, ns[i], now).health == Probing
  {
    hide Rechecked;
    if n > 0 {
      ProbesAre(c, ns, now, best, n - 1, i);
    }
  }

  predicate Rising(r: seq<nat>) { forall i, j :: 0 <= i < j < |r| ==> r[i] < r[j] }

  lemma {:induction false} RisingMore(r: seq<nat>, n: nat)
    requires Rising(r) && forall i :: 0 <= i < |r| ==> r[i] < n
    ensures Rising(r + [n])
  {
  }

  lemma {:induction false} ProbesRise(c: Settings, ns: seq<Server>, now: int, best: int, n: nat)
    requires n <= |ns|
    ensures Rising(Probes(c, ns, now, best, n))
  {
    hide Rechecked, Rising;
    if n > 0 {
      ProbesRise(c, ns, now, best, n - 1);
      RisingMore(Probes(c, ns, now, best, n - 1), n - 1);
    } else {
      RisingNone();
    }
  }

  lemma {:induction false} RisingNone()
    ensures Rising([])
  {
  }

  /** Its state has expired and it was not being probed, or it is being probed in time. */
  predicate ToProbe(s: Server, now: int) { if s.expiry <= now then s.health != Probing else s.health == Probing }

  /** A probe was left without answer, or the server is bad and not expired. */
  predicate ToAvoid(s: Server, now: int) { if s.expiry <= now then s.health == Probing else s.health == Bad }

  lemma {:induction false} RecheckedIs(c: Settings, s: Server, now: int)
    ensures Rechecked(c, s, now).health == Probing <==> ToProbe(s, now)
    ensures Rechecked(c, s, now).health == Bad <==> ToAvoid(s, now)
  {
  }

  /**
   A selection is the first fastest active server, if there is one, and then in order exactly the
   others whose state has expired without being probed, or that are being probed in time.  It is
   empty if and only if every server is to be avoided.
   */
  lemma {:induction false} SelectionIs(c: Settings, ns: seq<Server>, now: int)
    ensures var r := Chosen(c, ns, now);
            && Distinct(r) && RisesBehindFirst(r)
            && (forall i :: 0 <= i < |ns| ==> (i in r <==> IsFirstFastest(ns, i) || ToProbe(ns[i], now)))
            && ((exists i :: 0 <= i < |ns| && ns[i].health == Active) ==> r != [] && IsFirstFastest(ns, r[0]))
            && (r == [] <==> forall i :: 0 <= i < |ns| ==> ToAvoid(ns[i], now))
            && |r| <= |ns|
  {
    hide Chosen, ToProbe, ToAvoid, IsFirstFastest, Distinct, RisesBehindFirst;
    ChosenOrder(c, ns, now);
    EmptyIff(c, ns, now);
    forall i | 0 <= i < |ns|
      ensures i in Chosen(c, ns, now) <==> IsFirstFastest(ns, i) || ToProbe(ns[i], now)
    {
      ChosenHas(c, ns, now, i);
    }
  }

  lemma {:induction false} BestIsFirst(ns: seq<Server>)
    ensures var b := Best(ns, |ns|);
            if b == -1 then forall j :: 0 <= j < |ns| ==> ns[j].health != Active else IsFirstFastest(ns, b)
  {
    hide Best;
    BestIs(ns, |ns|);
    assert ns[..|ns|] == ns;
  }

  lemma {:induction false} ChosenHas(c: Settings, ns: seq<Server>, now: int, i: nat)
    requires i < |ns|
    ensures i in Chosen(c, ns, now) <==> IsFirstFastest(ns, i) || ToProbe(ns[i], now)
  {
    hide Rechecked, Best, Probes, ToProbe, IsFirstFastest;
    var b := Best(ns, |ns|);
    BestIsFirst(ns);
    ProbesAre(c, ns, now, b, |ns|, i);
    RecheckedIs(c, ns[i], now);
    OnlyFirst(ns, b, i);
  }

  predicate Distinct(r: seq<nat>) { forall i, j :: 0 <= i < j < |r| ==> r[i] != r[j] }

  predicate RisesBehindFirst(r: seq<nat>) { forall i, j :: 0 < i < j < |r| ==> r[i] < r[j] }

  lemma {:induction false} OneInFront(first: seq<nat>, rest: seq<nat>)
    requires |first| <= 1 && Rising(rest) && (first != [] ==> first[0] !in rest)
    ensures Distinct(first + rest) && RisesBehindFirst(first + rest)
  {
    var r := first + rest;
    forall i, j | 0 <= i < j < |r|
      ensures r[i] != r[j] && (i > 0 ==> r[i] < r[j])
    {
      assert r[j] == rest[j - |first|];
      assert r[j] in rest;
      if i >= |first| {
        assert r[i] == rest[i - |first|];
      }
    }
  }

  lemma {:induction false} ChosenOrder(c: Settings, ns: seq<Server>, now: int)
    ensures var r := Chosen(c, ns, now);
            && Distinct(r) && RisesBehindFirst(r) && |r| <= |ns|
            && ((exists i :: 0 <= i < |ns| && ns[i].health == Active) ==> r != [] && IsFirstFastest(ns, r[0]))
  {
    hide Rechecked, Best, Probes, IsFirstFastest, Rising, Distinct, RisesBehindFirst;
    var b, probes := Best(ns, |ns|), Probes(c, ns, now, Best(ns, |ns|), |ns|);
    BestIsFirst(ns);
    ProbesRise(c, ns, now, b, |ns|);
    if b >= 0 {
      ProbesAre(c, ns, now, b, |ns|, b);
      ProbesFewer(c, ns, now, b, |ns|);
      OneInFront([b], probes);
    } else {
      OneInFront([], probes);
    }
  }

  lemma {:induction false} OnlyFirst(ns: seq<Server>, b: int, i: nat)
    requires i < |ns| && -1 <= b < |ns|
    requires if b == -1 then forall j :: 0 <= j < |ns| ==> ns[j].health != Active else IsFirstFastest(ns, b)
    ensures IsFirstFastest(ns, i) <==> i == b
  {
  }

  lemma {:induction false} ProbesFewer(c: Settings, ns: seq<Server>, now: int, best: nat, n: nat)
    requires n <= |ns| && best < |ns|
    ensures |Probes(c, ns, now, best, n)| <= if best < n then n - 1 else n
  {
    hide Rechecked;
    if n > 0 {
      ProbesFewer(c, ns, now, best, n - 1);
    }
  }

  lemma {:induction false} EmptyIff(c: Settings, ns: seq<Server>, now: int)
    ensures Chosen(c, ns, now) == [] <==> forall i :: 0 <= i < |ns| ==> ToAvoid(ns[i], now)
  {
    hide Probes, Best, Rechecked;
    var b, probes := Best(ns, |ns|), Probes(c, ns, now, Best(ns, |ns|), |ns|);
    BestIs(ns, |ns|);
    assert ns[..|ns|] == ns;
    forall i | 0 <= i < |ns|
      ensures i in probes <==> i != b && ToProbe(ns[i], now)
    {
      ProbesAre(c, ns, now, b, |ns|, i);
      RecheckedIs(c, ns[i], now);
    }
    if probes != [] {
      var i := probes[0];
      assert i in probes;
      assert !ToAvoid(ns[i], now);
    }
    if b >= 0 {
      assert !ToAvoid(ns[b], now);
    }
  }

  // ---------------------------------------------------------------------------
  // Answers
  // ---------------------------------------------------------------------------

  /** A response: the id it carries and whether its code speaks for the server; or one that cannot be parsed. */
  datatype Reply = Parsed(id: nat, rcode: nat) | Unreadable

  predicate Good(r: Reply) { r.Parsed? && r.rcode != 2 && r.rcode != 5 && r.rcode != 9 }

  /** The first server with this address, or the number of servers. */
  function Find(ns: seq<Server>, addr: nat, i: nat): (r: nat)
    requires i <= |ns|
    ensures i <= r <= |ns| && (r < |ns| ==> ns[r].addr == addr)
    ensures forall j :: i <= j < r ==> ns[j].addr != addr
    decreases |ns| - i
  {
    if i == |ns| || ns[i].addr == addr then i else Find(ns, addr, i + 1)
  }

  function Judged(c: Settings, s: Server, r: Reply, now: int): Server {
    var s1 := if r.Parsed? && r.id == s.asked then s.(delay := now - s.askedAt, asked := 0) else s;
    Mark(c, s1, if Good(r) then Active else Bad, now)
  }

  function Reported(c: Settings, ns: seq<Server>, addr: nat, r: Reply, now: int): (ns': seq<Server>)
    ensures |ns'| == |ns|
  {
    var i := Find(ns, addr, 0);
    if i < |ns| then ns[i := Judged(c, ns[i], r, now)] else ns
  }

  /** The servers a query was sent to; each measures one query at a time. */
  function SentTo(ns: seq<Server>, servers: seq<nat>, id: nat, now: int): (ns': seq<Server>)
    ensures |ns'| == |ns|
  {
    seq(|ns|, i requires 0 <= i < |ns| =>
      if i in servers && ns[i].asked == 0 then ns[i].(asked := id, askedAt := now) else ns[i])
  }

  datatype Event =
    | Send(id: nat, now: int)
    | Report(addr: nat, reply: Reply, now: int)

  function Step(c: Settings, ns: seq<Server>, e: Event): (ns': seq<Server>)
    ensures |ns'| == |ns|
  {
    match e
    case Send(id, now) => SentTo(Scanned(c, ns, now), Chosen(c, ns, now), id, now)
    case Report(addr, reply, now) => Reported(c, ns, addr, reply, now)
  }

  function After(c: Settings, ns: seq<Server>, events: seq<Event>): (ns': seq<Server>)
    ensures |ns'| == |ns|
    decreases |events|
  {
    if events == [] then ns else After(c, Step(c, ns, events[0]), events[1..])
  }

  /** No event is the answer of `addr` to query `id`. */
  predicate Unanswered(events: seq<Event>, addr: nat, id: nat) {
    forall k :: 0 <= k < |events| ==>
      !(events[k].Report? && events[k].addr == addr && events[k].reply.Parsed? && events[k].reply.id == id)
  }

  /** A server measures one query until its answer comes, whatever else is sent or reported. */
  lemma {:induction false} MeasuringStep(c: Settings, ns: seq<Server>, e: Event, i: nat)
    requires i < |ns| && ns[i].asked != 0 && Unanswered([e], ns[i].addr, ns[i].asked)
    ensures var s := Step(c, ns, e)[i]; s.addr == ns[i].addr && s.asked == ns[i].asked && s.askedAt == ns[i].askedAt
    ensures forall addr :: Find(Step(c, ns, e), addr, 0) == Find(ns, addr, 0)
  {
    hide Chosen, Find;
    assert [e][0] == e;
    forall addr
      ensures Find(Step(c, ns, e), addr, 0) == Find(ns, addr, 0)
    {
      SameAddresses(Step(c, ns, e), ns, addr, 0);
    }
  }

  lemma {:induction false} KeepsMeasuring(c: Settings, ns: seq<Server>, events: seq<Event>, i: nat)
    requires i < |ns| && ns[i].asked != 0 && Unanswered(events, ns[i].addr, ns[i].asked)
    ensures var s := After(c, ns, events)[i];
            s.addr == ns[i].addr && s.asked == ns[i].asked && s.askedAt == ns[i].askedAt
    ensures forall addr :: Find(After(c, ns, events), addr, 0) == Find(ns, addr, 0)
    decreases |events|
  {
    hide Step, Find;
    if events != [] {
      MeasuringStep(c, ns, events[0], i);
      KeepsMeasuring(c, Step(c, ns, events[0]), events[1..], i);
    }
  }

  /**
   The response time of a server is that of the first query sent to it since the last one
   measured, however many events come before its answer.
   */
  lemma {:induction false} DelayMeasured(c: Settings, ns: seq<Server>, i: nat, id: nat, sent: int,
                                         between: seq<Event>, rcode: nat, now: int)
    requires i < |ns| && ns[i].asked == 0 && i in Chosen(c, ns, sent) && Find(ns, ns[i].addr, 0) == i
    requires id != 0 && Unanswered(between, ns[i].addr, id)
    ensures var ns1 := After(c, Step(c, ns, Send(id, sent)), between);
            var ns2 := Step(c, ns1, Report(ns[i].addr, Parsed(id, rcode), now));
            ns2[i].delay == now - sent && ns2[i].asked == 0
  {
    hide Chosen, Find, After;
    var ns0 := Step(c, ns, Send(id, sent));
    assert ns0[i].addr == ns[i].addr && ns0[i].asked == id && ns0[i].askedAt == sent;
    SameAddresses(ns, ns0, ns[i].addr, 0);
    KeepsMeasuring(c, ns0, between, i);
  }

  lemma {:induction false} SameAddresses(a: seq<Server>, b: seq<Server>, addr: nat, i: nat)
    requires |a| == |b| && i <= |a| && forall k :: 0 <= k < |a| ==> a[k].addr == b[k].addr
    ensures Find(a, addr, i) == Find(b, addr, i)
    decreases |a| - i
  {
    if i < |a| {
      SameAddresses(a, b, addr, i + 1);
    }
  }

  /** No event of the run sends anything to server `i`. */
  predicate Unasked(c: Settings, ns: seq<Server>, events: seq<Event>, i: nat)
    decreases |events|
  {
    events == [] ||
    (&& (events[0].Send? ==> i !in Chosen(c, ns, events[0].now))
     && Unasked(c, Step(c, ns, events[0]), events[1..], i))
  }

  /** From `since` on, no event is later than `until` and no good answer comes from `addr`. */
  predicate Silent(events: seq<Event>, addr: nat, since: int, until: int) {
    forall k :: 0 <= k < |events| ==>
      since <= events[k].now < until && !(events[k].Report? && events[k].addr == addr && Good(events[k].reply))
  }

  lemma {:induction false} BadStays(c: Settings, ns: seq<Server>, e: Event, i: nat, since: int)
    requires i < |ns| && ns[i].health == Bad && ns[i].expiry >= since + 1000 * c.badTtl
    requires since <= e.now < since + 1000 * c.badTtl
    requires !(e.Report? && e.addr == ns[i].addr && Good(e.reply))
    ensures var s := Step(c, ns, e)[i];
            s.addr == ns[i].addr && s.health == Bad && s.expiry >= since + 1000 * c.badTtl
    ensures e.Send? ==> i !in Chosen(c, ns, e.now)
  {
    hide Chosen;
    if e.Send? {
      assert Scanned(c, ns, e.now)[i] == ns[i];
      SelectionIs(c, ns, e.now);
    }
  }

  /**
   A server found bad at `since` is sent nothing for as long as it is to be kept out, unless a
   good answer comes from it in the meantime.
   */
  lemma {:induction false} BadStaysOut(c: Settings, ns: seq<Server>, events: seq<Event>, i: nat, since: int)
    requires i < |ns| && ns[i].health == Bad && ns[i].expiry >= since + 1000 * c.badTtl
    requires Silent(events, ns[i].addr, since, since + 1000 * c.badTtl)
    ensures Unasked(c, ns, events, i)
    decreases |events|
  {
    hide Step, Chosen;
    if events != [] {
      BadStays(c, ns, events[0], i, since);
      BadStaysOut(c, Step(c, ns, events[0]), events[1..], i, since);
    }
  }

  const SERVER_FAILURE: nat := 2
  const REFUSED: nat := 5
  const NOT_AUTHORIZED: nat := 9

  /** An answer that can not be parsed or has one of three codes, or a probe left without answer, makes a server bad. */
  lemma {:induction false} BecomesBad(c: Settings, ns: seq<Server>, e: Event, i: nat)
    requires i < |ns|
    requires || (e.Report? && Find(ns, e.addr, 0) == i
                 && (e.reply.Unreadable? || e.reply.rcode in {SERVER_FAILURE, REFUSED, NOT_AUTHORIZED}))
             || (e.Send? && ns[i].health == Probing && ns[i].expiry <= e.now)
    ensures var s := Step(c, ns, e)[i]; s.health == Bad && s.expiry == e.now + 1000 * c.badTtl
    ensures e.Send? ==> i !in Chosen(c, ns, e.now)
  {
    hide Chosen;
    if e.Send? {
      SelectionIs(c, ns, e.now);
      assert Scanned(c, ns, e.now)[i].health == Bad;
    }
  }

  /** Any other answer makes a server active for as long as a good one is trusted. */
  lemma {:induction false} BecomesActive(c: Settings, ns: seq<Server>, e: Event, i: nat)
    requires i < |ns| && e.Report? && Find(ns, e.addr, 0) == i
    requires e.reply.Parsed? && e.reply.rcode !in {SERVER_FAILURE, REFUSED, NOT_AUTHORIZED}
    ensures var s := Step(c, ns, e)[i]; s.health == Active && s.expiry == e.now + 1000 * c.goodTtl
  {
  }

  /** A bad or active server whose time is over is asked, and is on probation for the time of all retransmissions. */
  lemma {:induction false} BecomesProbing(c: Settings, ns: seq<Server>, e: Event, i: nat)
    requires i < |ns| && e.Send? && ns[i].health != Probing && ns[i].expiry <= e.now
    ensures i in Chosen(c, ns, e.now)
    ensures var s := Step(c, ns, e)[i];
            s.health == Probing && s.expiry == e.now + 1000 * ((c.retryCount + 2) * c.retryDelay / 1000)
  {
    hide Chosen;
    ChosenHas(c, ns, e.now, i);
    assert Scanned(c, ns, e.now)[i].health == Probing;
  }

  /** An answer changes no server but the first with its address; asking changes no state before its time. */
  lemma {:induction false} StateKept(c: Settings, ns: seq<Server>, e: Event, i: nat)
    requires i < |ns|
    requires if e.Report? then Find(ns, e.addr, 0) != i else ns[i].expiry > e.now
    ensures var s := Step(c, ns, e)[i]; s.health == ns[i].health && s.expiry == ns[i].expiry && s.delay == ns[i].delay
  {
    hide Chosen, Find;
  }

  // ---------------------------------------------------------------------------
  // The scan, server by server
  // ---------------------------------------------------------------------------

  /** The servers when the first `n` were scanned. */
  function ScannedUpTo(c: Settings, ns: seq<Server>, now: int, n: nat): seq<Server>
    requires n <= |ns|
  {
    Scanned(c, ns[..n], now) + ns[n..]
  }

  /** The choice when the first `n` servers were scanned. */
  function ChosenUpTo(c: Settings, ns: seq<Server>, now: int, n: nat): seq<nat>
    requires n <= |ns|
  {
    var b := Best(ns, |ns|);
    (if b >= 0 then [b] else []) + Probes(c, ns, now, b, n)
  }

  lemma {:induction false} ScanStarts(c: Settings, ns: seq<Server>, now: int)
    ensures ScannedUpTo(c, ns, now, 0) == ns
    ensures var b := Best(ns, |ns|); ChosenUpTo(c, ns, now, 0) == if b != -1 then [b] else []
  {
  }

  lemma {:induction false} ScanStep(c: Settings, ns: seq<Server>, now: int, i: nat)
    requires i < |ns|
    ensures var s, r := ScannedUpTo(c, ns, now, i), Rechecked(c, ns[i], now);
            && |s| == |ns| && s[i] == ns[i] && ScannedUpTo(c, ns, now, i + 1) == s[i := r]
            && ChosenUpTo(c, ns, now, i + 1)
               == ChosenUpTo(c, ns, now, i) + if i != Best(ns, |ns|) && r.health == Probing then [i] else []
  {
    hide Rechecked, Best;
    ScanStepSeq(c, ns, now, i);
  }

  lemma {:induction false} ScanStepSeq(c: Settings, ns: seq<Server>, now: int, i: nat)
    requires i < |ns|
    ensures var s := ScannedUpTo(c, ns, now, i);
            |s| == |ns| && s[i] == ns[i] && ScannedUpTo(c, ns, now, i + 1) == s[i := Rechecked(c, ns[i], now)]
  {
    hide Rechecked;
  }

  lemma {:induction false} ScanEnds(c: Settings, ns: seq<Server>, now: int)
    ensures ScannedUpTo(c, ns, now, |ns|) == Scanned(c, ns, now)
    ensures ChosenUpTo(c, ns, now, |ns|) == Chosen(c, ns, now)
  {
    hide Rechecked, Best, Probes;
    assert ns[..|ns|] == ns && ns[|ns|..] == [];
  }

  // ---------------------------------------------------------------------------
  // The array of servers
  // ---------------------------------------------------------------------------

  class Table {
    const settings: Settings
    var ns: array<Server>

    /** Servers start active, expired, and slow. */
    constructor (settings: Settings, addrs: seq<nat>, now: int)
      requires 0 < |addrs| < MAX_SERVERS
      ensures this.settings == settings && fresh(ns) && ns.Length == |addrs|
      ensures forall i :: 0 <= i < |addrs| ==> ns[i] == Server(addrs[i], Active, now, 10000, 0, 0)
    {
      this.settings := settings;
      ns := new Server[|addrs|](i requires 0 <= i < |addrs| => Server(addrs[i], Active, now, 10000, 0, 0));
    }

    method FindBest() returns (min: int)
      ensures min == Best(ns[..], ns.Length)
    {
      min := -1;
      for i := 0 to ns.Length
        invariant min == Best(ns[..], i)
      {
        if ns[i].health == Active {
          if min == -1 {
            min := i;
          } else if ns[i].delay < ns[min].delay {
            min := i;
          }
        }
      }
    }

    /** Moves one server on if its state has expired; tells whether it is to be probed. */
    method Recheck(i: nat, now: int) returns (probe: bool)
      requires i < ns.Length
      modifies ns
      ensures ns[..] == old(ns[..])[i := Rechecked(settings, old(ns[i]), now)]
      ensures probe <==> Rechecked(settings, old(ns[i]), now).health == Probing
    {
      if ns[i].expiry <= now {
        if ns[i].health == Probing {
          ns[i] := Mark(settings, ns[i], Bad, now);
          probe := false;
        } else {
          ns[i] := Mark(settings, ns[i], Probing, now);
          probe := true;
        }
      } else {
        probe := ns[i].health == Probing;
      }
    }

    /** Chooses the servers for a query and moves the expired ones on. */
    method Select(now: int) returns (servers: seq<nat>)
      modifies ns
      ensures servers == Chosen(settings, old(ns[..]), now)
      ensures ns[..] == Scanned(settings, old(ns[..]), now)
    {
      hide *;
      var min := FindBest();
      ghost var s := ns[..];
      ScanStarts(settings, s, now);
      servers := if min != -1 then [min] else [];
      var i := 0;
      while i < ns.Length
        invariant 0 <= i <= ns.Length
        invariant servers == ChosenUpTo(settings, s, now, i)
        invariant ns[..] == ScannedUpTo(settings, s, now, i)
      {
        ScanStep(settings, s, now, i);
        var probe := Recheck(i, now);
        if probe && i != min {
          servers := servers + [i];
        }
        i := i + 1;
      }
      ScanEnds(settings, s, now);
    }

    /** Notes the answer that came from an address. */
    method ReportStatus(addr: nat, reply: Reply, now: int)
      modifies ns
      ensures ns[..] == Reported(settings, old(ns[..]), addr, reply, now)
    {
      var i := 0;
      while i < ns.Length
        invariant 0 <= i <= ns.Length && ns[..] == old(ns[..])
        invariant Find(ns[..], addr, 0) == Find(ns[..], addr, i)
      {
        if ns[i].addr == addr {
          var s := ns[i];
          if reply.Parsed? && reply.id == s.asked {
            s := s.(delay := now - s.askedAt, asked := 0);
          }
          ns[i] := Mark(settings, s, if Good(reply) then Active else Bad, now);
          return;
        }
        i := i + 1;
      }
    }
  }
}
