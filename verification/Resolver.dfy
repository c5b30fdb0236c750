/**
 The pending queries of the DNS resolver: query nodes that are recycled, the tables by
 transaction id and by resource, questions that join a pending one, timeouts and
 retransmissions, cancellation, and the callbacks.  The steps of one completion are
 separate, so that whatever a callback does to the resolver may come between them.
 */
module Resolver {
  import opened Wrappers

  /** What is asked for: a record type and a name in lower case. */
  datatype Key = Key(qtype: nat, name: string)

  /** A query node; `serial` counts the new queries and stands for the query itself. */
  datatype Node = Node(serial: nat, id: nat, key: Key, count: nat, timer: bool, cb: Option<nat>, children: seq<nat>)

  datatype Status = Answered(code: nat) | TimedOut | Cancelled

  datatype Call = Call(ticket: nat, key: Key, status: Status)

  /** A query whose callbacks are being made: the node, then its children; `next` is the next to be called. */
  datatype Ending = Ending(nodes: seq<nat>, next: nat, key: Key, status: Status)

  /** Where a node is. */
  datatype Place = Free | Asking | Child(parent: nat, pos: nat) | Leaving(ending: nat, index: nat)

  /** What has become of a request that came with a callback. */
  datatype Fate = Waiting(node: nat) | Called(at: nat) | Silenced | Refused

  /** The resolver, with what each request asked for, the calls made and the packets sent (by serial number). */
  datatype State = State(nodes: seq<Node>, places: seq<Place>, free: seq<nat>, byId: map<nat, nat>,
                         byKey: map<Key, nat>, lastId: nat, issued: nat, endings: seq<Ending>,
                         fates: seq<Fate>, asked: seq<Key>, log: seq<Call>, sent: multiset<nat>)

  /** A cached or received response is known by its code. */
  datatype Event =
    | Start(key: Key, wants: bool, cached: Option<nat>, sends: bool)
    | Respond(id: nat, code: nat)
    | Timeout(node: nat, sends: bool)
    | Cancel(node: nat, notify: bool)
    | Fire
    | Finish

  const MAX_ID: nat := 65535

  function Init(): State { State([], [], [], map[], map[], 1, 0, [], [], [], [], multiset{}) }

  // ---------------------------------------------------------------------------
  // Steps
  // ---------------------------------------------------------------------------

  /** The node the next query gets: the oldest free one, or a new one. */
  function Fresh(s: State): nat { if s.free != [] then s.free[0] else |s.nodes| }

  function Put<T>(s: seq<T>, i: nat, x: T): seq<T> { if i < |s| then s[i := x] else s + [x] }

  /** The state with the fresh node taken into use. */
  function Alloc(s: State, node: Node, place: Place): State {
    s.(nodes := Put(s.nodes, Fresh(s), node), places := Put(s.places, Fresh(s), place),
       free := if s.free != [] then s.free[1..] else [])
  }

  function NextId(id: nat): nat { if id == MAX_ID then 1 else id + 1 }

  /** The ticket of a new request, if it wants a callback. */
  function Ticket(s: State, wants: bool): Option<nat> { if wants then Some(|s.fates|) else None }

  function Note(s: State, key: Key, wants: bool, fate: Fate): State {
    if wants then s.(fates := s.fates + [fate], asked := s.asked + [key]) else s
  }

  function Say(s: State, cb: Option<nat>, key: Key, status: Status): State {
    if cb.Some? then s.(log := s.log + [Call(cb.value, key, status)]) else s
  }

  /** A request answered from the cache. */
  function Answer(s: State, key: Key, wants: bool, status: Status): State {
    Note(Say(s, Ticket(s, wants), key, status), key, wants, Called(|s.log|))
  }

  /** A request that joins the pending query `p`. */
  function Join(s: State, p: nat, wants: bool): State
    requires p < |s.nodes|
  {
    var n := Fresh(s);
    var child := Node(0, 0, Key(0, ""), 0, false, Ticket(s, wants), []);
    var s1 := Note(Alloc(s, child, Child(p, |s.nodes[p].children|)), s.nodes[p].key, wants, Waiting(n));
    if p < |s1.nodes| then s1.(nodes := s1.nodes[p := s1.nodes[p].(children := s.nodes[p].children + [n])]) else s1
  }

  function NewNode(s: State, key: Key, wants: bool, sends: bool): Node {
    Node(s.issued, s.lastId, key, if sends then 1 else 0, sends, Ticket(s, wants), [])
  }

  /** The query in node `n` is entered in both tables and sent. */
  function Enter(s: State, key: Key, n: nat): State {
    s.(byId := s.byId[s.lastId := n], byKey := s.byKey[key := n], lastId := NextId(s.lastId),
       issued := s.issued + 1, sent := s.sent + multiset{s.issued})
  }

  /** A new query that could be sent. */
  function Open(s: State, key: Key, wants: bool): State {
    Enter(Note(Alloc(s, NewNode(s, key, wants, true), Asking), key, wants, Waiting(Fresh(s))), key, Fresh(s))
  }

  /** A new query that could not be sent: its node goes back to the end of the free list. */
  function Refuse(s: State, key: Key, wants: bool): State {
    var n := Fresh(s);
    var s1 := Note(Alloc(s, NewNode(s, key, wants, false), Free), key, wants, Refused);
    s1.(free := s1.free + [n], lastId := NextId(s.lastId), issued := s.issued + 1)
  }

  function Begin(s: State, e: Event): State
    requires e.Start?
  {
    if e.cached.Some? then Answer(s, e.key, e.wants, Answered(e.cached.value))
    else if e.key in s.byKey then
      (if s.byKey[e.key] < |s.nodes| then Join(s, s.byKey[e.key], e.wants) else s)
    else if e.sends then Open(s, e.key, e.wants)
    else Refuse(s, e.key, e.wants)
  }

  /** The node and its children on their way out. */
  function Left(place: Place, c: nat, n: nat, k: nat): Place {
    if c == n then Leaving(k, 0)
    else if place.Child? && place.parent == n then Leaving(k, place.pos + 1)
    else place
  }

  /** Removes the query from both tables; its callbacks come next. */
  function Close(s: State, n: nat, status: Status): State
    requires n < |s.nodes|
  {
    var q := s.nodes[n];
    s.(nodes := s.nodes[n := q.(timer := false)], byId := s.byId - {q.id}, byKey := s.byKey - {q.key},
       places := seq(|s.places|, c requires 0 <= c < |s.places| => Left(s.places[c], c, n, |s.endings|)),
       endings := s.endings + [Ending([n] + q.children, 0, q.key, status)])
  }

  function Resend(s: State, n: nat): State
    requires n < |s.nodes|
  {
    var q := s.nodes[n];
    s.(nodes := s.nodes[n := q.(timer := true, count := q.count + 1)], sent := s.sent + multiset{q.serial})
  }

  function OnTimeout(retries: nat, s: State, n: nat, sends: bool): State
    requires n < |s.nodes|
  {
    if s.nodes[n].id !in s.byId then s
    else if s.nodes[n].count < retries && sends then Resend(s, n)
    else Close(s, n, TimedOut)
  }

  function DoCancel(s: State, n: nat, notify: bool): State
    requires n < |s.nodes|
  {
    var cb := s.nodes[n].cb;
    var s1 := s.(nodes := s.nodes[n := s.nodes[n].(cb := None)]);
    if cb.None? || cb.value >= |s.fates| then s1
    else if notify then Say(s1.(fates := s.fates[cb.value := Called(|s.log|)]), cb, s.nodes[n].key, Cancelled)
    else s1.(fates := s.fates[cb.value := Silenced])
  }

  /** The next callback of the innermost completion. */
  function DoFire(s: State): State
    requires s.endings != []
  {
    var k := |s.endings| - 1;
    var e := s.endings[k];
    var cb := if e.next < |e.nodes| && e.nodes[e.next] < |s.nodes| then s.nodes[e.nodes[e.next]].cb else None;
    var s1 := s.(endings := s.endings[k := e.(next := e.next + 1)]);
    if cb.None? || cb.value >= |s.fates| then s1
    else Say(s1.(fates := s.fates[cb.value := Called(|s.log|)]), cb, e.key, e.status)
  }

  function Recycled(place: Place, k: nat): Place {
    if place.Leaving? && place.ending == k then Free else place
  }

  /** The end of the innermost completion: the children's nodes and the query's own become free. */
  function DoFinish(s: State): State
    requires s.endings != [] && s.endings[|s.endings| - 1].nodes != []
  {
    var k := |s.endings| - 1;
    var e := s.endings[k];
    s.(endings := s.endings[..k], free := s.free + e.nodes[1..] + [e.nodes[0]],
       places := seq(|s.places|, c requires 0 <= c < |s.places| => Recycled(s.places[c], k)))
  }

  function Top(s: State): Ending
    requires s.endings != []
  {
    s.endings[|s.endings| - 1]
  }

  predicate Asks(s: State, n: nat) { n < |s.nodes| && n < |s.places| && s.places[n] == Asking }

  /** No query is pending since as many new queries ago as there are ids. */
  predicate Young(s: State) {
    forall n :: 0 <= n < |s.nodes| && Asks(s, n) ==> s.issued < s.nodes[n].serial + MAX_ID
  }

  /**
   When a step can happen.  A new query is sent while all pending ones are young.  A query is
   cancelled through the handle its caller was given, while it is pending, and with notice only
   if it has a callback; a timer runs out while its query is pending, or too late.
   */
  predicate Enabled(s: State, e: Event) {
    match e
    case Start(key, _, cached, sends) => cached.None? && key !in s.byKey && sends ==> Young(s)
    case Respond(_, _) => true
    case Timeout(n, _) => Asks(s, n) || (n < |s.nodes| && s.nodes[n].id !in s.byId)
    case Cancel(n, notify) => Asks(s, n) && (notify ==> s.nodes[n].cb.Some?)
    case Fire => s.endings != [] && Top(s).next < |Top(s).nodes|
    case Finish => s.endings != [] && Top(s).next == |Top(s).nodes| > 0
  }

  function Step(retries: nat, s: State, e: Event): State
    requires Enabled(s, e)
  {
    match e
    case Start(_, _, _, _) => Begin(s, e)
    case Respond(id, code) =>
      if id in s.byId && s.byId[id] < |s.nodes| then Close(s, s.byId[id], Answered(code)) else s
    case Timeout(n, sends) => OnTimeout(retries, s, n, sends)
    case Cancel(n, notify) => DoCancel(s, n, notify)
    case Fire => DoFire(s)
    case Finish => DoFinish(s)
  }

  // ---------------------------------------------------------------------------
  // Invariants
  // ---------------------------------------------------------------------------

  /** Both tables hold exactly the pending queries, each under its own id and key. */
  ghost predicate TablesAgree(s: State) {
    && (forall i :: i in s.byId ==> Asks(s, s.byId[i]) && s.nodes[s.byId[i]].id == i)
    && (forall k :: k in s.byKey ==> Asks(s, s.byKey[k]) && s.nodes[s.byKey[k]].key == k)
    && (forall n :: 0 <= n < |s.nodes| && Asks(s, n) ==> Listed(s, n))
  }

  predicate Listed(s: State, n: nat)
    requires n < |s.nodes|
  {
    var q := s.nodes[n];
    q.id in s.byId && s.byId[q.id] == n && q.key in s.byKey && s.byKey[q.key] == n
  }

  /** Each node is in one place, and each list holds exactly the nodes that are there. */
  ghost predicate Placed(s: State) {
    && |s.places| == |s.nodes|
    && FreePlaced(s) && ChildrenPlaced(s) && EndingsPlaced(s)
  }

  ghost predicate FreePlaced(s: State) { ListsFree(s.free, s.places) }

  /** The list holds each free node, and nothing else, once. */
  ghost predicate ListsFree(free: seq<nat>, places: seq<Place>) {
    && (forall i :: 0 <= i < |free| ==> free[i] < |places| && places[free[i]] == Free)
    && (forall i, j :: 0 <= i < j < |free| ==> free[i] != free[j])
    && (forall n :: 0 <= n < |places| && places[n] == Free ==> n in free)
  }

  ghost predicate ChildrenPlaced(s: State)
    requires |s.places| == |s.nodes|
  {
    && (forall n, j :: 0 <= n < |s.nodes| && Asks(s, n) && 0 <= j < |s.nodes[n].children| ==>
          var c := s.nodes[n].children[j]; c < |s.places| && s.places[c] == Child(n, j))
    && (forall c :: 0 <= c < |s.places| && s.places[c].Child? ==> IsChild(s, c, s.places[c]))
  }

  predicate IsChild(s: State, c: nat, place: Place)
    requires place.Child?
  {
    && Asks(s, place.parent) && place.pos < |s.nodes[place.parent].children|
    && s.nodes[place.parent].children[place.pos] == c
  }

  ghost predicate EndingsPlaced(s: State)
    requires |s.places| == |s.nodes|
  {
    && (forall k :: 0 <= k < |s.endings| ==> EndingPlaced(s, k))
    && (forall n :: 0 <= n < |s.places| && s.places[n].Leaving? ==> IsLeaving(s, n, s.places[n]))
  }

  ghost predicate EndingPlaced(s: State, k: nat)
    requires |s.places| == |s.nodes| && k < |s.endings|
  {
    var e := s.endings[k];
    && e.next <= |e.nodes| && e.nodes != []
    && (forall j :: 0 <= j < |e.nodes| ==> e.nodes[j] < |s.places| && s.places[e.nodes[j]] == Leaving(k, j))
    && e.nodes[0] < |s.nodes| && s.nodes[e.nodes[0]].key == e.key
  }

  predicate IsLeaving(s: State, n: nat, place: Place)
    requires place.Leaving?
  {
    && place.ending < |s.endings| && place.index < |s.endings[place.ending].nodes|
    && s.endings[place.ending].nodes[place.index] == n
  }

  /** The node's callback is still to be made. */
  predicate Owes(s: State, n: nat) {
    n < |s.nodes| && n < |s.places| &&
    (|| s.places[n] == Asking || s.places[n].Child?
     || (s.places[n].Leaving? && s.places[n].ending < |s.endings|
         && s.endings[s.places[n].ending].next <= s.places[n].index))
  }

  /** Each request waits for one node's callback or has had its one call, unless silenced or refused. */
  ghost predicate FatesRight(s: State) {
    && (forall n :: 0 <= n < |s.nodes| && Owes(s, n) && s.nodes[n].cb.Some? ==>
          s.nodes[n].cb.value < |s.fates| && s.fates[s.nodes[n].cb.value] == Waiting(n))
    && (forall t :: 0 <= t < |s.fates| && s.fates[t].Waiting? ==>
          Owes(s, s.fates[t].node) && s.nodes[s.fates[t].node].cb == Some(t))
    && (forall j :: 0 <= j < |s.log| ==>
          s.log[j].ticket < |s.fates| && s.fates[s.log[j].ticket] == Called(j))
    && (forall t :: 0 <= t < |s.fates| && s.fates[t].Called? ==>
          s.fates[t].at < |s.log| && s.log[s.fates[t].at].ticket == t)
  }

  /** What the node's caller asked for. */
  function KeyOf(s: State, n: nat): Key
    requires n < |s.nodes| && n < |s.places|
  {
    match s.places[n]
    case Child(p, _) => if p < |s.nodes| then s.nodes[p].key else s.nodes[n].key
    case Leaving(k, _) => if k < |s.endings| then s.endings[k].key else s.nodes[n].key
    case _ => s.nodes[n].key
  }

  /** Every request waits for, or has been told, what it asked for. */
  ghost predicate KeysRight(s: State) {
    && |s.asked| == |s.fates|
    && (forall n :: 0 <= n < |s.nodes| && Owes(s, n) && s.nodes[n].cb.Some? ==>
          s.nodes[n].cb.value < |s.asked| && s.asked[s.nodes[n].cb.value] == KeyOf(s, n))
    && (forall j :: 0 <= j < |s.log| ==> s.log[j].ticket < |s.asked| && s.asked[s.log[j].ticket] == s.log[j].key)
  }

  function Max(a: nat, b: nat): nat { if a < b then b else a }

  /** Pending queries hold the id of their serial number and a running timer, and were sent as often as they count. */
  ghost predicate Counted(retries: nat, s: State) {
    && s.lastId == s.issued % MAX_ID + 1
    && (forall n :: 0 <= n < |s.nodes| && Asks(s, n) ==> QueryRight(retries, s, s.nodes[n]))
    && (forall x {:trigger s.sent[x]} :: s.sent[x] <= Max(1, retries))
    && (forall x {:trigger s.sent[x]} :: x >= s.issued ==> s.sent[x] == 0)
  }

  predicate QueryRight(retries: nat, s: State, q: Node) {
    && q.serial < s.issued && q.id == q.serial % MAX_ID + 1 && q.timer
    && s.sent[q.serial] == q.count && 1 <= q.count <= Max(1, retries)
  }

  ghost predicate Inv(retries: nat, s: State) {
    TablesAgree(s) && Placed(s) && FatesRight(s) && KeysRight(s) && Counted(retries, s)
  }

  lemma {:induction false} InitInv(retries: nat)
    ensures Inv(retries, Init())
  {
  }

  // ---------------------------------------------------------------------------
  // What each operation changes
  // ---------------------------------------------------------------------------

  lemma {:induction false} PutIs<T>(s: seq<T>, i: nat, x: T)
    requires i <= |s|
    ensures |Put(s, i, x)| == if i < |s| then |s| else |s| + 1
    ensures forall j :: 0 <= j < |Put(s, i, x)| ==> Put(s, i, x)[j] == if j == i then x else s[j]
  {
  }

  lemma {:induction false} FreshIs(s: State)
    requires Placed(s)
    ensures Fresh(s) <= |s.nodes| && (Fresh(s) < |s.nodes| ==> s.places[Fresh(s)] == Free)
  {
  }

  /** All nodes but `n` and `p` are as they were; `n` was free or new. */
  ghost predicate Took(s: State, s': State, n: nat, p: nat) {
    && |s.nodes| == |s.places| && |s'.nodes| == |s'.places|
    && n <= |s.nodes| && n < |s'.nodes| && (n < |s.nodes| ==> s.places[n] == Free)
    && |s'.nodes| == (if n < |s.nodes| then |s.nodes| else |s.nodes| + 1)
    && (forall m :: 0 <= m < |s'.nodes| && m != n ==>
          s'.places[m] == s.places[m] && (m != p ==> s'.nodes[m] == s.nodes[m]))
  }

  lemma {:induction false} JoinIs(s: State, p: nat, wants: bool)
    requires Placed(s) && Asks(s, p)
    ensures var n, s' := Fresh(s), Join(s, p, wants);
            && Took(s, s', n, p) && n != p
            && s'.places[n] == Child(p, |s.nodes[p].children|) && s'.nodes[n].cb == Ticket(s, wants)
            && s'.nodes[p] == s.nodes[p].(children := s.nodes[p].children + [n])
            && s' == s.(nodes := s'.nodes, places := s'.places, free := s'.free, fates := s'.fates, asked := s'.asked)
            && s'.fates == (if wants then s.fates + [Waiting(n)] else s.fates)
            && s'.asked == (if wants then s.asked + [s.nodes[p].key] else s.asked)
            && s'.free == (if s.free != [] then s.free[1..] else [])
  {
    hide Placed, Asks, Put;
    FreshIs(s);
    AsksIs(s, p);
    var n := Fresh(s);
    var child := Node(0, 0, Key(0, ""), 0, false, Ticket(s, wants), []);
    PutIs(s.nodes, n, child);
    PutIs(s.places, n, Child(p, |s.nodes[p].children|));
  }

  lemma {:induction false} AsksIs(s: State, n: nat)
    requires Placed(s)
    ensures |s.places| == |s.nodes|
    ensures Asks(s, n) <==> n < |s.nodes| && s.places[n] == Asking
  {
  }

  lemma {:induction false} OpenIs(s: State, key: Key, wants: bool)
    requires Placed(s)
    ensures var n, s' := Fresh(s), Open(s, key, wants);
            && Took(s, s', n, n) && s'.places[n] == Asking && s'.nodes[n] == NewNode(s, key, wants, true)
            && s' == s.(nodes := s'.nodes, places := s'.places, free := s'.free, fates := s'.fates, asked := s'.asked,
                        byId := s.byId[s.lastId := n], byKey := s.byKey[key := n], lastId := NextId(s.lastId),
                        issued := s.issued + 1, sent := s.sent + multiset{s.issued})
            && s'.fates == (if wants then s.fates + [Waiting(n)] else s.fates)
            && s'.asked == (if wants then s.asked + [key] else s.asked)
            && s'.free == (if s.free != [] then s.free[1..] else [])
  {
    hide Placed, Asks, Put;
    FreshIs(s);
    AsksIs(s, 0);
    PutIs(s.nodes, Fresh(s), NewNode(s, key, wants, true));
    PutIs(s.places, Fresh(s), Asking);
  }

  lemma {:induction false} RefuseIs(s: State, key: Key, wants: bool)
    requires Placed(s)
    ensures var n, s' := Fresh(s), Refuse(s, key, wants);
            && Took(s, s', n, n) && s'.places[n] == Free
            && s' == s.(nodes := s'.nodes, places := s'.places, free := s'.free, fates := s'.fates, asked := s'.asked,
                        lastId := NextId(s.lastId), issued := s.issued + 1)
            && s'.fates == (if wants then s.fates + [Refused] else s.fates)
            && s'.asked == (if wants then s.asked + [key] else s.asked)
            && s'.free == (if s.free != [] then s.free[1..] else []) + [n]
  {
    hide Placed, Asks, Put;
    FreshIs(s);
    AsksIs(s, 0);
    PutIs(s.nodes, Fresh(s), NewNode(s, key, wants, false));
    PutIs(s.places, Fresh(s), Free);
  }

  // ---------------------------------------------------------------------------
  // The tables
  // ---------------------------------------------------------------------------

  lemma {:induction false} TablesKept(s: State, s': State)
    requires TablesAgree(s) && s'.byId == s.byId && s'.byKey == s.byKey
    requires forall n :: 0 <= n < |s'.nodes| && Asks(s', n) ==> Asks(s, n)
    requires forall n :: 0 <= n < |s.nodes| && Asks(s, n) ==>
               Asks(s', n) && s'.nodes[n].id == s.nodes[n].id && s'.nodes[n].key == s.nodes[n].key
    ensures TablesAgree(s')
  {
    forall n | 0 <= n < |s'.nodes| && Asks(s', n)
      ensures Listed(s', n)
    {
      assert Asks(s, n);
      assert Listed(s, n);
    }
  }

  lemma {:induction false} IdsDiffer(a: nat, b: nat)
    requires a < b < a + MAX_ID
    ensures a % MAX_ID != b % MAX_ID
  {
  }

  lemma {:induction false} NewId(retries: nat, s: State)
    requires TablesAgree(s) && Counted(retries, s) && Young(s)
    ensures s.lastId !in s.byId
  {
    if s.lastId in s.byId {
      var n := s.byId[s.lastId];
      assert Asks(s, n) && s.nodes[n].id == s.lastId;
      assert QueryRight(retries, s, s.nodes[n]);
      IdsDiffer(s.nodes[n].serial, s.issued);
      assert false;
    }
  }

  lemma {:induction false} TablesOpen(s: State, s': State, n: nat, key: Key)
    requires TablesAgree(s) && Took(s, s', n, n) && Asks(s', n) && s'.nodes[n].id == s.lastId && s'.nodes[n].key == key
    requires s'.byId == s.byId[s.lastId := n] && s'.byKey == s.byKey[key := n]
    requires s.lastId !in s.byId && key !in s.byKey
    ensures TablesAgree(s')
  {
    forall m | 0 <= m < |s'.nodes| && Asks(s', m)
      ensures Listed(s', m)
    {
      if m != n {
        assert Asks(s, m);
        assert Listed(s, m);
      }
    }
  }

  lemma {:induction false} TablesClose(s: State, n: nat, status: Status)
    requires TablesAgree(s) && |s.places| == |s.nodes| && Asks(s, n)
    ensures TablesAgree(Close(s, n, status))
  {
    var s' := Close(s, n, status);
    CloseIs(s, n, status);
    hide Close;
    assert Listed(s, n);
    forall m | 0 <= m < |s'.nodes| && Asks(s', m)
      ensures Listed(s', m)
    {
      assert Asks(s, m) && m != n;
      assert Listed(s, m);
    }
    forall i | i in s'.byId
      ensures Asks(s', s'.byId[i]) && s'.nodes[s'.byId[i]].id == i
    {
      assert Asks(s, s.byId[i]);
    }
    forall k | k in s'.byKey
      ensures Asks(s', s'.byKey[k]) && s'.nodes[s'.byKey[k]].key == k
    {
      assert Asks(s, s.byKey[k]);
    }
  }

  lemma {:induction false} CloseIs(s: State, n: nat, status: Status)
    requires |s.places| == |s.nodes| && Asks(s, n)
    ensures var q, s' := s.nodes[n], Close(s, n, status);
            && |s'.nodes| == |s'.places| == |s.nodes|
            && s'.nodes == s.nodes[n := q.(timer := false)]
            && s'.endings == s.endings + [Ending([n] + q.children, 0, q.key, status)]
            && s' == s.(nodes := s'.nodes, places := s'.places, byId := s.byId - {q.id}, byKey := s.byKey - {q.key},
                        endings := s'.endings)
            && (forall c :: 0 <= c < |s.places| ==> s'.places[c] == Left(s.places[c], c, n, |s.endings|))
            && (forall c :: 0 <= c < |s.places| ==> (Asks(s', c) <==> Asks(s, c) && c != n))
  {
  }

  // ---------------------------------------------------------------------------
  // The places
  // ---------------------------------------------------------------------------

  lemma {:induction false} FreeKept(s: State, s': State)
    requires FreePlaced(s) && s'.free == s.free && |s'.places| == |s.places|
    requires forall n :: 0 <= n < |s.places| ==> (s'.places[n] == Free <==> s.places[n] == Free)
    ensures FreePlaced(s')
  {
  }

  lemma {:induction false} ListTaken(free: seq<nat>, places: seq<Place>, places': seq<Place>)
    requires ListsFree(free, places) && free != [] && |places'| == |places| && places'[free[0]] != Free
    requires forall n :: 0 <= n < |places| && n != free[0] ==> places'[n] == places[n]
    ensures ListsFree(free[1..], places')
  {
    var rest := free[1..];
    forall i | 0 <= i < |rest|
      ensures rest[i] < |places'| && places'[rest[i]] == Free
    {
      assert rest[i] == free[i + 1] && free[0] != free[i + 1];
    }
    forall i, j | 0 <= i < j < |rest|
      ensures rest[i] != rest[j]
    {
      assert free[i + 1] != free[j + 1];
    }
    forall n | 0 <= n < |places'| && places'[n] == Free
      ensures n in rest
    {
      assert n in free;
      StillIn(free, n);
    }
  }

  lemma {:induction false} ListGrown(places: seq<Place>, places': seq<Place>)
    requires ListsFree([], places) && |places'| == |places| + 1 && places'[|places|] != Free
    requires forall n :: 0 <= n < |places| ==> places'[n] == places[n]
    ensures ListsFree([], places')
  {
    assert forall n :: 0 <= n < |places| ==> places[n] != Free;
  }

  lemma {:induction false} FreeTaken(s: State, s': State, p: nat)
    requires FreePlaced(s) && Took(s, s', Fresh(s), p) && s'.places[Fresh(s)] != Free
    requires s'.free == if s.free != [] then s.free[1..] else []
    ensures FreePlaced(s')
  {
    if s.free != [] {
      ListTaken(s.free, s.places, s'.places);
    } else {
      ListGrown(s.places, s'.places);
    }
  }

  lemma {:induction false} StillIn(list: seq<nat>, n: nat)
    requires n in list && n != list[0]
    ensures n in list[1..]
  {
  }

  lemma {:induction false} FreeAdded(s: State, s': State, n: nat)
    requires FreePlaced(s) && n < |s.places| && s.places[n] != Free
    requires s'.places == s.places[n := Free] && s'.free == s.free + [n]
    ensures FreePlaced(s')
  {
    assert s'.free[|s.free|] == n;
  }

  lemma {:induction false} FreeRefused(s: State, s': State)
    requires FreePlaced(s) && Took(s, s', Fresh(s), Fresh(s)) && s'.places[Fresh(s)] == Free
    requires s'.free == (if s.free != [] then s.free[1..] else []) + [Fresh(s)]
    ensures FreePlaced(s')
  {
    hide FreePlaced;
    var s1 := s'.(free := if s.free != [] then s.free[1..] else [], places := s'.places[Fresh(s) := Asking]);
    FreeTaken(s, s1, Fresh(s));
    assert s'.places == s1.places[Fresh(s) := Free];
    FreeAdded(s1, s', Fresh(s));
  }

  lemma {:induction false} FreeFinished(s: State)
    requires Placed(s) && s.endings != [] && Top(s).next == |Top(s).nodes| > 0
    ensures FreePlaced(DoFinish(s))
  {
    var s', k, e := DoFinish(s), |s.endings| - 1, Top(s);
    assert EndingPlaced(s, k);
    forall n | 0 <= n < |s'.places| && s'.places[n] == Free
      ensures n in s'.free
    {
      if s.places[n] == Free {
        var i :| 0 <= i < |s.free| && s.free[i] == n;
        assert s'.free[i] == n;
      } else {
        assert IsLeaving(s, n, s.places[n]);
        var j := s.places[n].index;
        assert e.nodes[j] == n;
        if j == 0 {
          assert s'.free[|s'.free| - 1] == n;
        } else {
          assert s'.free[|s.free| + j - 1] == n;
        }
      }
    }
  }

  lemma {:induction false} ChildrenKept(s: State, s': State)
    requires |s.places| == |s.nodes| && |s'.places| == |s'.nodes| && ChildrenPlaced(s)
    requires forall n :: 0 <= n < |s.nodes| && Asks(s, n) ==> Asks(s', n) && s'.nodes[n].children == s.nodes[n].children
    requires forall n :: 0 <= n < |s'.nodes| && Asks(s', n) ==> Asks(s, n) || s'.nodes[n].children == []
    requires forall c :: 0 <= c < |s'.places| && s'.places[c].Child? ==> c < |s.places| && s.places[c] == s'.places[c]
    requires forall c :: 0 <= c < |s.places| && s.places[c].Child? ==> c < |s'.places| && s'.places[c] == s.places[c]
    ensures ChildrenPlaced(s')
  {
    forall c | 0 <= c < |s'.places| && s'.places[c].Child?
      ensures IsChild(s', c, s'.places[c])
    {
      assert IsChild(s, c, s.places[c]);
    }
  }

  lemma {:induction false} ChildrenJoined(s: State, s': State, n: nat, p: nat)
    requires |s.places| == |s.nodes| && Asks(s, p) && ChildrenPlaced(s) && Took(s, s', n, p) && n != p
    requires s'.places[n] == Child(p, |s.nodes[p].children|)
    requires s'.nodes[p].children == s.nodes[p].children + [n]
    ensures ChildrenPlaced(s')
  {
    forall c | 0 <= c < |s'.places| && s'.places[c].Child?
      ensures IsChild(s', c, s'.places[c])
    {
      if c != n {
        assert IsChild(s, c, s.places[c]);
      }
    }
    forall m, j | 0 <= m < |s'.nodes| && Asks(s', m) && 0 <= j < |s'.nodes[m].children|
      ensures var c := s'.nodes[m].children[j]; c < |s'.places| && s'.places[c] == Child(m, j)
    {
      assert Asks(s, m);
      if j < |s.nodes[m].children| {
        assert s.places[s.nodes[m].children[j]] == Child(m, j);
      }
    }
  }

  lemma {:induction false} ChildrenClosed(s: State, n: nat, status: Status)
    requires |s.places| == |s.nodes| && Asks(s, n) && ChildrenPlaced(s)
    ensures |Close(s, n, status).places| == |s.nodes| && ChildrenPlaced(Close(s, n, status))
  {
    var s' := Close(s, n, status);
    CloseIs(s, n, status);
    forall c | 0 <= c < |s'.places| && s'.places[c].Child?
      ensures IsChild(s', c, s'.places[c])
    {
      assert IsChild(s, c, s.places[c]);
    }
    forall m, j | 0 <= m < |s'.nodes| && Asks(s', m) && 0 <= j < |s'.nodes[m].children|
      ensures var c := s'.nodes[m].children[j]; c < |s'.places| && s'.places[c] == Child(m, j)
    {
      assert Asks(s, m);
      assert s.places[s.nodes[m].children[j]] == Child(m, j);
    }
  }

  /** Nodes on their way out are left alone. */
  lemma {:induction false} EndingsKept(s: State, s': State)
    requires |s.places| == |s.nodes| && |s'.places| == |s'.nodes| && EndingsPlaced(s) && s'.endings == s.endings
    requires forall n :: 0 <= n < |s'.places| && s'.places[n].Leaving? ==> n < |s.places| && s.places[n] == s'.places[n]
    requires forall n :: 0 <= n < |s.places| && s.places[n].Leaving? ==>
               n < |s'.places| && s'.places[n] == s.places[n] && s'.nodes[n].key == s.nodes[n].key
    ensures EndingsPlaced(s')
  {
    forall k | 0 <= k < |s'.endings|
      ensures EndingPlaced(s', k)
    {
      assert EndingPlaced(s, k);
    }
    forall n | 0 <= n < |s'.places| && s'.places[n].Leaving?
      ensures IsLeaving(s', n, s'.places[n])
    {
      assert IsLeaving(s, n, s.places[n]);
    }
  }

  lemma {:induction false} EndingsClosed(s: State, n: nat, status: Status)
    requires |s.places| == |s.nodes| && Asks(s, n) && ChildrenPlaced(s) && EndingsPlaced(s)
    ensures |Close(s, n, status).places| == |s.nodes| && EndingsPlaced(Close(s, n, status))
  {
    var s' := Close(s, n, status);
    CloseIs(s, n, status);
    hide Close;
    forall k | 0 <= k < |s'.endings|
      ensures EndingPlaced(s', k)
    {
      if k < |s.endings| {
        assert EndingPlaced(s, k);
      } else {
        EndingNew(s, n, status);
      }
    }
    forall c | 0 <= c < |s'.places| && s'.places[c].Leaving?
      ensures IsLeaving(s', c, s'.places[c])
    {
      if s.places[c].Leaving? {
        assert IsLeaving(s, c, s.places[c]);
      } else if c != n {
        assert IsChild(s, c, s.places[c]);
      }
    }
  }

  lemma {:induction false} EndingNew(s: State, n: nat, status: Status)
    requires |s.places| == |s.nodes| && Asks(s, n) && ChildrenPlaced(s)
    ensures |Close(s, n, status).places| == |s.nodes| && |Close(s, n, status).endings| == |s.endings| + 1
    ensures EndingPlaced(Close(s, n, status), |s.endings|)
  {
    var s' := Close(s, n, status);
    var e := s'.endings[|s.endings|];
    forall j | 0 <= j < |e.nodes|
      ensures e.nodes[j] < |s'.places| && s'.places[e.nodes[j]] == Leaving(|s.endings|, j)
    {
      if j > 0 {
        assert s.places[s.nodes[n].children[j - 1]] == Child(n, j - 1);
      }
    }
  }

  lemma {:induction false} EndingsFinished(s: State)
    requires |s.places| == |s.nodes| && EndingsPlaced(s) && s.endings != []
    requires Top(s).next == |Top(s).nodes| > 0
    ensures |DoFinish(s).places| == |s.nodes| && EndingsPlaced(DoFinish(s))
  {
    var s' := DoFinish(s);
    forall k | 0 <= k < |s'.endings|
      ensures EndingPlaced(s', k)
    {
      assert EndingPlaced(s, k);
    }
    forall c | 0 <= c < |s'.places| && s'.places[c].Leaving?
      ensures IsLeaving(s', c, s'.places[c])
    {
      assert IsLeaving(s, c, s.places[c]);
    }
  }

  lemma {:induction false} FireIs(s: State)
    requires Placed(s) && FatesRight(s) && s.endings != [] && Top(s).next < |Top(s).nodes|
    ensures var k, e, s' := |s.endings| - 1, Top(s), DoFire(s);
            var n := e.nodes[e.next];
            && n < |s.nodes| && s.places[n] == Leaving(k, e.next) && Owes(s, n)
            && s'.endings == s.endings[k := e.(next := e.next + 1)]
            && s' == s.(endings := s'.endings, fates := s'.fates, log := s'.log)
            && (s.nodes[n].cb.None? ==> s'.fates == s.fates && s'.log == s.log)
            && (s.nodes[n].cb.Some? ==>
                  && s.nodes[n].cb.value < |s.fates| && s.fates[s.nodes[n].cb.value] == Waiting(n)
                  && s'.fates == s.fates[s.nodes[n].cb.value := Called(|s.log|)]
                  && s'.log == s.log + [Call(s.nodes[n].cb.value, e.key, e.status)])
  {
    assert EndingPlaced(s, |s.endings| - 1);
  }

  lemma {:induction false} EndingsFired(s: State)
    requires Placed(s) && FatesRight(s) && s.endings != [] && Top(s).next < |Top(s).nodes|
    ensures |DoFire(s).places| == |DoFire(s).nodes| && EndingsPlaced(DoFire(s))
  {
    var s' := DoFire(s);
    FireIs(s);
    hide DoFire;
    forall k | 0 <= k < |s'.endings|
      ensures EndingPlaced(s', k)
    {
      assert EndingPlaced(s, k);
    }
    forall c | 0 <= c < |s'.places| && s'.places[c].Leaving?
      ensures IsLeaving(s', c, s'.places[c])
    {
      assert IsLeaving(s, c, s.places[c]);
    }
  }

  // ---------------------------------------------------------------------------
  // The requests
  // ---------------------------------------------------------------------------

  lemma {:induction false} FatesKept(s: State, s': State)
    requires FatesRight(s) && s'.fates == s.fates && s'.log == s.log
    requires forall n :: 0 <= n < |s'.nodes| && Owes(s', n) && s'.nodes[n].cb.Some? ==>
               Owes(s, n) && s.nodes[n].cb == s'.nodes[n].cb
    requires forall n :: 0 <= n < |s.nodes| && Owes(s, n) && s.nodes[n].cb.Some? ==>
               Owes(s', n) && s'.nodes[n].cb == s.nodes[n].cb
    ensures FatesRight(s')
  {
  }

  /** Whoever was owed a call still is, by the same node. */
  lemma {:induction false} OwesKept(s: State, s': State, n: nat, p: nat)
    requires Took(s, s', n, p) && s'.endings == s.endings
    requires p != n ==> p < |s.nodes| && s'.nodes[p].cb == s.nodes[p].cb
    ensures !Owes(s, n) && |s.nodes| <= |s'.nodes|
    ensures forall m :: 0 <= m < |s'.nodes| && m != n ==>
              m < |s.nodes| && (Owes(s', m) <==> Owes(s, m)) && s'.nodes[m].cb == s.nodes[m].cb
  {
  }

  /** A request that waits for the node just taken into use. */
  lemma {:induction false} FatesTaken(s: State, s': State, n: nat, p: nat, wants: bool)
    requires FatesRight(s) && Took(s, s', n, p) && Owes(s', n) && s'.endings == s.endings && s'.log == s.log
    requires s'.nodes[n].cb == Ticket(s, wants) && (p != n ==> p < |s.nodes| && s'.nodes[p].cb == s.nodes[p].cb)
    requires s'.fates == if wants then s.fates + [Waiting(n)] else s.fates
    ensures FatesRight(s')
  {
    OwesKept(s, s', n, p);
    FatesGrow(s, s', n);
  }

  lemma {:induction false} FatesGrow(s: State, s': State, n: nat)
    requires FatesRight(s) && s'.log == s.log && n < |s'.nodes| && !Owes(s, n)
    requires forall m :: 0 <= m < |s'.nodes| && m != n ==>
               m < |s.nodes| && (Owes(s', m) <==> Owes(s, m)) && s'.nodes[m].cb == s.nodes[m].cb
    requires |s.nodes| <= |s'.nodes|
    requires || (s'.fates == s.fates && !(Owes(s', n) && s'.nodes[n].cb.Some?))
             || (s'.fates == s.fates + [Waiting(n)] && Owes(s', n) && s'.nodes[n].cb == Some(|s.fates|))
             || (s'.fates == s.fates + [Refused] && !Owes(s', n))
    ensures FatesRight(s')
  {
    forall t | 0 <= t < |s.fates| && s.fates[t].Waiting?
      ensures s.fates[t].node < |s'.nodes| && Owes(s', s.fates[t].node) && s'.nodes[s.fates[t].node].cb == Some(t)
    {
      assert Owes(s, s.fates[t].node);
    }
  }

  lemma {:induction false} FatesRefused(s: State, s': State, n: nat, wants: bool)
    requires FatesRight(s) && Took(s, s', n, n) && s'.places[n] == Free && s'.endings == s.endings && s'.log == s.log
    requires s'.fates == if wants then s.fates + [Refused] else s.fates
    ensures FatesRight(s')
  {
    OwesKept(s, s', n, n);
    FatesGrow(s, s', n);
  }

  lemma {:induction false} FatesCached(s: State, key: Key, status: Status)
    requires FatesRight(s)
    ensures FatesRight(Answer(s, key, true, status))
  {
    var s' := Answer(s, key, true, status);
    forall m | 0 <= m < |s'.nodes|
      ensures Owes(s', m) <==> Owes(s, m)
    {
    }
  }

  /** One call settles one waiting request: node `n` owes nothing any more. */
  lemma {:induction false} FatesCalled(s: State, s': State, n: nat, key: Key, status: Status)
    requires FatesRight(s) && n < |s.nodes| && Owes(s, n) && s.nodes[n].cb.Some? && |s'.nodes| == |s.nodes|
    requires var t := s.nodes[n].cb.value;
             && s'.fates == s.fates[t := Called(|s.log|)] && s'.log == s.log + [Call(t, key, status)]
    requires forall m :: 0 <= m < |s.nodes| && m != n ==> (Owes(s', m) <==> Owes(s, m)) && s'.nodes[m].cb == s.nodes[m].cb
    requires !(Owes(s', n) && s'.nodes[n].cb.Some?)
    ensures FatesRight(s')
  {
    var t := s.nodes[n].cb.value;
    assert s.fates[t] == Waiting(n);
  }

  lemma {:induction false} FatesSilenced(s: State, s': State, n: nat)
    requires FatesRight(s) && n < |s.nodes| && Owes(s, n) && s.nodes[n].cb.Some? && |s'.nodes| == |s.nodes|
    requires s'.fates == s.fates[s.nodes[n].cb.value := Silenced] && s'.log == s.log
    requires forall m :: 0 <= m < |s.nodes| && m != n ==> (Owes(s', m) <==> Owes(s, m)) && s'.nodes[m].cb == s.nodes[m].cb
    requires !(Owes(s', n) && s'.nodes[n].cb.Some?)
    ensures FatesRight(s')
  {
    assert s.fates[s.nodes[n].cb.value] == Waiting(n);
  }

  lemma {:induction false} FatesClosed(s: State, n: nat, status: Status)
    requires Placed(s) && FatesRight(s) && Asks(s, n)
    ensures FatesRight(Close(s, n, status))
  {
    var s' := Close(s, n, status);
    CloseIs(s, n, status);
    hide Close;
    forall m | 0 <= m < |s'.nodes|
      ensures Owes(s', m) <==> Owes(s, m)
    {
      if s.places[m].Leaving? {
        assert IsLeaving(s, m, s.places[m]);
      }
    }
    FatesKept(s, s');
  }

  lemma {:induction false} FatesFired(s: State)
    requires Placed(s) && FatesRight(s) && s.endings != [] && Top(s).next < |Top(s).nodes|
    ensures FatesRight(DoFire(s))
  {
    var s', k, e := DoFire(s), |s.endings| - 1, Top(s);
    FireIs(s);
    hide DoFire;
    var n := e.nodes[e.next];
    forall m | 0 <= m < |s.nodes|
      ensures Owes(s', m) <==> Owes(s, m) && m != n
    {
      if s.places[m].Leaving? {
        assert IsLeaving(s, m, s.places[m]);
      }
    }
    if s.nodes[n].cb.Some? {
      FatesCalled(s, s', n, e.key, e.status);
    } else {
      FatesKept(s, s');
    }
  }

  lemma {:induction false} FatesFinished(s: State)
    requires Placed(s) && FatesRight(s) && s.endings != [] && Top(s).next == |Top(s).nodes| > 0
    ensures FatesRight(DoFinish(s))
  {
    var s' := DoFinish(s);
    forall m | 0 <= m < |s.nodes|
      ensures Owes(s', m) <==> Owes(s, m)
    {
      if s.places[m].Leaving? {
        assert IsLeaving(s, m, s.places[m]);
      }
    }
    FatesKept(s, s');
  }

  lemma {:induction false} FatesCancelled(s: State, n: nat, notify: bool)
    requires Placed(s) && FatesRight(s) && Asks(s, n)
    ensures FatesRight(DoCancel(s, n, notify))
  {
    var s', cb := DoCancel(s, n, notify), s.nodes[n].cb;
    assert Owes(s, n);
    forall m | 0 <= m < |s.nodes|
      ensures Owes(s', m) <==> Owes(s, m)
    {
    }
    if cb.None? {
      FatesKept(s, s');
    } else if notify {
      FatesCalled(s, s', n, s.nodes[n].key, Cancelled);
    } else {
      FatesSilenced(s, s', n);
    }
  }

  lemma {:induction false} KeysKept(s: State, s': State)
    requires KeysRight(s) && s'.asked == s.asked && |s'.fates| == |s.fates|
    requires forall n :: 0 <= n < |s'.nodes| && Owes(s', n) && s'.nodes[n].cb.Some? ==>
               Owes(s, n) && s.nodes[n].cb == s'.nodes[n].cb && KeyOf(s', n) == KeyOf(s, n)
    requires s'.log == s.log ||
             (exists n, status :: 0 <= n < |s.nodes| && Owes(s, n) && s.nodes[n].cb.Some?
                                  && s'.log == s.log + [Call(s.nodes[n].cb.value, KeyOf(s, n), status)])
    ensures KeysRight(s')
  {
  }

  lemma {:induction false} KeysTaken(s: State, s': State, n: nat, p: nat, wants: bool)
    requires |s.asked| == |s.fates| && |s'.fates| == (if wants then |s.fates| + 1 else |s.fates|)
    requires KeysRight(s) && Took(s, s', n, p) && Owes(s', n) && s'.endings == s.endings && s'.log == s.log
    requires s'.nodes[n].cb == Ticket(s, wants)
    requires p != n ==> p < |s.nodes| && s'.nodes[p].cb == s.nodes[p].cb && s'.nodes[p].key == s.nodes[p].key
    requires forall m :: 0 <= m < |s.places| && s.places[m].Child? ==> s.places[m].parent < |s.nodes| && s.places[m].parent != n
    requires s'.asked == if wants then s.asked + [KeyOf(s', n)] else s.asked
    ensures KeysRight(s')
  {
    forall m | 0 <= m < |s'.nodes| && m != n
      ensures (Owes(s', m) <==> Owes(s, m)) && s'.nodes[m].cb == s.nodes[m].cb && KeyOf(s', m) == KeyOf(s, m)
    {
    }
  }

  lemma {:induction false} KeysSize(s: State)
    requires KeysRight(s)
    ensures |s.asked| == |s.fates|
  {
  }

  lemma {:induction false} ParentsAsk(s: State)
    requires Placed(s)
    ensures forall m :: 0 <= m < |s.places| && s.places[m].Child? ==>
              s.places[m].parent < |s.nodes| && s.places[s.places[m].parent] == Asking
  {
    forall m | 0 <= m < |s.places| && s.places[m].Child?
      ensures s.places[m].parent < |s.nodes| && s.places[s.places[m].parent] == Asking
    {
      assert IsChild(s, m, s.places[m]);
    }
  }

  lemma {:induction false} KeysRefused(s: State, s': State, n: nat, key: Key, wants: bool)
    requires KeysRight(s) && Took(s, s', n, n) && s'.places[n] == Free && s'.endings == s.endings && s'.log == s.log
    requires |s'.fates| == (if wants then |s.fates| + 1 else |s.fates|)
    requires forall m :: 0 <= m < |s.places| && s.places[m].Child? ==> s.places[m].parent < |s.nodes| && s.places[m].parent != n
    requires s'.asked == if wants then s.asked + [key] else s.asked
    ensures KeysRight(s')
  {
    forall m | 0 <= m < |s'.nodes| && m != n
      ensures (Owes(s', m) <==> Owes(s, m)) && s'.nodes[m].cb == s.nodes[m].cb && KeyOf(s', m) == KeyOf(s, m)
    {
    }
  }

  lemma {:induction false} KeysCached(s: State, key: Key, status: Status)
    requires KeysRight(s)
    ensures KeysRight(Answer(s, key, true, status))
  {
    var s' := Answer(s, key, true, status);
    forall m | 0 <= m < |s'.nodes|
      ensures (Owes(s', m) <==> Owes(s, m)) && (m < |s.places| ==> KeyOf(s', m) == KeyOf(s, m))
    {
    }
  }

  lemma {:induction false} KeysClosed(s: State, n: nat, status: Status)
    requires Placed(s) && KeysRight(s) && Asks(s, n)
    ensures KeysRight(Close(s, n, status))
  {
    var s' := Close(s, n, status);
    CloseIs(s, n, status);
    ParentsAsk(s);
    hide Close;
    forall m | 0 <= m < |s'.nodes| && Owes(s', m)
      ensures Owes(s, m) && KeyOf(s', m) == KeyOf(s, m)
    {
      if s.places[m].Leaving? {
        assert IsLeaving(s, m, s.places[m]);
      }
    }
    KeysKept(s, s');
  }

  lemma {:induction false} KeysFired(s: State)
    requires Placed(s) && FatesRight(s) && KeysRight(s) && s.endings != [] && Top(s).next < |Top(s).nodes|
    ensures KeysRight(DoFire(s))
  {
    var s', k, e := DoFire(s), |s.endings| - 1, Top(s);
    FireIs(s);
    hide DoFire;
    var n := e.nodes[e.next];
    assert KeyOf(s, n) == e.key;
    forall m | 0 <= m < |s'.nodes| && Owes(s', m)
      ensures Owes(s, m) && KeyOf(s', m) == KeyOf(s, m)
    {
      if s.places[m].Leaving? {
        assert IsLeaving(s, m, s.places[m]);
      }
    }
    KeysKept(s, s');
  }

  lemma {:induction false} KeysFinished(s: State)
    requires Placed(s) && KeysRight(s) && s.endings != [] && Top(s).next == |Top(s).nodes| > 0
    ensures KeysRight(DoFinish(s))
  {
    var s' := DoFinish(s);
    forall m | 0 <= m < |s'.nodes| && Owes(s', m)
      ensures Owes(s, m) && KeyOf(s', m) == KeyOf(s, m)
    {
      if s.places[m].Leaving? {
        assert IsLeaving(s, m, s.places[m]);
      }
    }
    KeysKept(s, s');
  }

  lemma {:induction false} KeysCancelled(s: State, n: nat, notify: bool)
    requires Placed(s) && KeysRight(s) && Asks(s, n)
    ensures KeysRight(DoCancel(s, n, notify))
  {
    var s' := DoCancel(s, n, notify);
    ParentsAsk(s);
    assert Owes(s, n) && KeyOf(s, n) == s.nodes[n].key;
    forall m | 0 <= m < |s'.nodes|
      ensures (Owes(s', m) <==> Owes(s, m)) && KeyOf(s', m) == KeyOf(s, m)
    {
    }
    KeysKept(s, s');
  }

  // ---------------------------------------------------------------------------
  // Ids, timers and transmissions
  // ---------------------------------------------------------------------------

  lemma {:induction false} CountedKept(retries: nat, s: State, s': State)
    requires Counted(retries, s) && s'.sent == s.sent && s'.lastId == s.lastId && s'.issued == s.issued
    requires forall n :: 0 <= n < |s'.nodes| && Asks(s', n) ==>
               && Asks(s, n) && s'.nodes[n].serial == s.nodes[n].serial && s'.nodes[n].id == s.nodes[n].id
               && s'.nodes[n].timer == s.nodes[n].timer && s'.nodes[n].count == s.nodes[n].count
    ensures Counted(retries, s')
  {
    forall n | 0 <= n < |s'.nodes| && Asks(s', n)
      ensures QueryRight(retries, s', s'.nodes[n])
    {
      assert QueryRight(retries, s, s.nodes[n]);
    }
  }

  lemma {:induction false} NextIdIs(issued: nat)
    ensures NextId(issued % MAX_ID + 1) == (issued + 1) % MAX_ID + 1
  {
  }

  lemma {:induction false} CountedRefused(retries: nat, s: State, s': State, n: nat)
    requires Counted(retries, s) && Took(s, s', n, n) && s'.places[n] == Free
    requires s'.sent == s.sent && s'.lastId == NextId(s.lastId) && s'.issued == s.issued + 1
    ensures Counted(retries, s')
  {
    NextIdIs(s.issued);
    forall m | 0 <= m < |s'.nodes| && Asks(s', m)
      ensures QueryRight(retries, s', s'.nodes[m])
    {
      assert Asks(s, m);
      assert QueryRight(retries, s, s.nodes[m]);
    }
  }

  lemma {:induction false} CountedOpened(retries: nat, s: State, s': State, n: nat, key: Key, wants: bool)
    requires Counted(retries, s) && Took(s, s', n, n) && Asks(s', n) && s'.nodes[n] == NewNode(s, key, wants, true)
    requires s'.sent == s.sent + multiset{s.issued} && s'.lastId == NextId(s.lastId) && s'.issued == s.issued + 1
    ensures Counted(retries, s')
  {
    NextIdIs(s.issued);
    assert s.sent[s.issued] == 0;
    forall m | 0 <= m < |s'.nodes| && Asks(s', m)
      ensures QueryRight(retries, s', s'.nodes[m])
    {
      if m != n {
        assert Asks(s, m);
        assert QueryRight(retries, s, s.nodes[m]);
      }
    }
    forall x: nat
      ensures s'.sent[x] <= Max(1, retries) && (x >= s'.issued ==> s'.sent[x] == 0)
    {
      assert s'.sent[x] == s.sent[x] + if x == s.issued then 1 else 0;
    }
  }

  lemma {:induction false} SameSerial(retries: nat, s: State, n: nat, m: nat)
    requires TablesAgree(s) && Counted(retries, s) && Asks(s, n) && Asks(s, m) && s.nodes[n].serial == s.nodes[m].serial
    ensures n == m
  {
    assert Listed(s, n) && Listed(s, m);
    assert QueryRight(retries, s, s.nodes[n]) && QueryRight(retries, s, s.nodes[m]);
  }

  lemma {:induction false} CountedResent(retries: nat, s: State, n: nat)
    requires TablesAgree(s) && Counted(retries, s) && |s.places| == |s.nodes| && Asks(s, n)
    requires s.nodes[n].count < retries
    ensures Counted(retries, Resend(s, n))
  {
    var s', q := Resend(s, n), s.nodes[n];
    assert QueryRight(retries, s, q);
    forall x: nat
      ensures s'.sent[x] == s.sent[x] + if x == q.serial then 1 else 0
    {
    }
    forall m | 0 <= m < |s'.nodes| && Asks(s', m)
      ensures QueryRight(retries, s', s'.nodes[m])
    {
      assert Asks(s, m);
      assert QueryRight(retries, s, s.nodes[m]);
      if s.nodes[m].serial == q.serial {
        SameSerial(retries, s, n, m);
      }
    }
  }

  // ---------------------------------------------------------------------------
  // Every step keeps the invariant
  // ---------------------------------------------------------------------------

  lemma {:induction false} InvParts(retries: nat, s: State)
    requires Inv(retries, s)
    ensures TablesAgree(s) && Placed(s) && FatesRight(s) && KeysRight(s) && Counted(retries, s)
    ensures |s.places| == |s.nodes| && FreePlaced(s) && ChildrenPlaced(s) && EndingsPlaced(s)
  {
    hide TablesAgree, FreePlaced, ChildrenPlaced, EndingsPlaced, FatesRight, KeysRight, Counted;
  }

  lemma {:induction false} PartsInv(retries: nat, s: State)
    requires TablesAgree(s) && FatesRight(s) && KeysRight(s) && Counted(retries, s)
    requires |s.places| == |s.nodes| && FreePlaced(s) && ChildrenPlaced(s) && EndingsPlaced(s)
    ensures Inv(retries, s)
  {
    hide TablesAgree, FreePlaced, ChildrenPlaced, EndingsPlaced, FatesRight, KeysRight, Counted;
  }

  /** A node taken into use for something else than a query of its own changes no table. */
  lemma {:induction false} TablesTaken(s: State, s': State, n: nat, p: nat)
    requires TablesAgree(s) && Took(s, s', n, p) && s'.places[n] != Asking && s'.byId == s.byId && s'.byKey == s.byKey
    requires p != n ==> p < |s.nodes| && s'.nodes[p].id == s.nodes[p].id && s'.nodes[p].key == s.nodes[p].key
    ensures TablesAgree(s')
  {
    hide TablesAgree, Listed;
    TablesKept(s, s');
  }

  lemma {:induction false} ChildrenTaken(s: State, s': State, n: nat)
    requires |s.places| == |s.nodes| && ChildrenPlaced(s) && Took(s, s', n, n)
    requires s'.places[n] == Free || (s'.places[n] == Asking && s'.nodes[n].children == [])
    ensures |s'.places| == |s'.nodes| && ChildrenPlaced(s')
  {
    hide ChildrenPlaced;
    ChildrenKept(s, s');
  }

  lemma {:induction false} EndingsTaken(s: State, s': State, n: nat, p: nat)
    requires |s.places| == |s.nodes| && EndingsPlaced(s) && Took(s, s', n, p) && s'.endings == s.endings
    requires !s'.places[n].Leaving? && (p != n ==> p < |s.nodes| && !s.places[p].Leaving?)
    ensures |s'.places| == |s'.nodes| && EndingsPlaced(s')
  {
    hide EndingsPlaced;
    EndingsKept(s, s');
  }

  lemma {:induction false} CountedTaken(retries: nat, s: State, s': State, n: nat, p: nat)
    requires Counted(retries, s) && Took(s, s', n, p) && s'.places[n] != Asking
    requires p < |s.nodes| && s'.nodes[p] == s.nodes[p].(children := s'.nodes[p].children)
    requires s'.sent == s.sent && s'.lastId == s.lastId && s'.issued == s.issued
    ensures Counted(retries, s')
  {
    hide Counted;
    CountedKept(retries, s, s');
  }

  lemma {:induction false} ParentKeeps(s: State, s': State, n: nat, p: nat)
    requires Placed(s) && Took(s, s', n, p)
    ensures forall m :: 0 <= m < |s.places| && s.places[m].Child? ==> s.places[m].parent < |s.nodes| && s.places[m].parent != n
  {
    hide Placed;
    ParentsAsk(s);
  }

  lemma {:induction false} TookOwes(s: State, s': State, n: nat, p: nat)
    requires Took(s, s', n, p)
    ensures n < |s'.nodes| == |s'.places| && |s.nodes| <= |s'.nodes|
    ensures s'.places[n] == Asking || s'.places[n].Child? ==> Owes(s', n)
    ensures s'.places[n].Child? && s'.places[n].parent < |s'.nodes| ==> KeyOf(s', n) == s'.nodes[s'.places[n].parent].key
    ensures s'.places[n] == Asking ==> Asks(s', n) && KeyOf(s', n) == s'.nodes[n].key
  {
  }

  lemma {:induction false} JoinKeeps(retries: nat, s: State, p: nat, wants: bool)
    requires Inv(retries, s) && Asks(s, p)
    ensures Inv(retries, Join(s, p, wants))
  {
    hide *;
    InvParts(retries, s);
    AsksIs(s, p);
    JoinIs(s, p, wants);
    var s', n := Join(s, p, wants), Fresh(s);
    TookOwes(s, s', n, p);
    TablesTaken(s, s', n, p);
    FreeTaken(s, s', p);
    ChildrenJoined(s, s', n, p);
    EndingsTaken(s, s', n, p);
    FatesTaken(s, s', n, p, wants);
    ParentKeeps(s, s', n, p);
    KeysSize(s);
    KeysTaken(s, s', n, p, wants);
    CountedTaken(retries, s, s', n, p);
    PartsInv(retries, s');
  }

  lemma {:induction false} NewNodeIs(s: State, key: Key, wants: bool, sends: bool)
    ensures NewNode(s, key, wants, sends)
            == Node(s.issued, s.lastId, key, if sends then 1 else 0, sends, Ticket(s, wants), [])
  {
  }

  lemma {:induction false} OpenKeeps(retries: nat, s: State, key: Key, wants: bool)
    requires Inv(retries, s) && Young(s) && key !in s.byKey
    ensures Inv(retries, Open(s, key, wants))
  {
    hide *;
    InvParts(retries, s);
    OpenIs(s, key, wants);
    NewId(retries, s);
    NewNodeIs(s, key, wants, true);
    var s', n := Open(s, key, wants), Fresh(s);
    TookOwes(s, s', n, n);
    TablesOpen(s, s', n, key);
    FreeTaken(s, s', n);
    ChildrenTaken(s, s', n);
    EndingsTaken(s, s', n, n);
    FatesTaken(s, s', n, n, wants);
    ParentKeeps(s, s', n, n);
    KeysSize(s);
    KeysTaken(s, s', n, n, wants);
    CountedOpened(retries, s, s', n, key, wants);
    PartsInv(retries, s');
  }

  lemma {:induction false} RefuseKeeps(retries: nat, s: State, key: Key, wants: bool)
    requires Inv(retries, s)
    ensures Inv(retries, Refuse(s, key, wants))
  {
    hide *;
    InvParts(retries, s);
    RefuseIs(s, key, wants);
    var s', n := Refuse(s, key, wants), Fresh(s);
    TookOwes(s, s', n, n);
    TablesTaken(s, s', n, n);
    FreeRefused(s, s');
    ChildrenTaken(s, s', n);
    EndingsTaken(s, s', n, n);
    FatesRefused(s, s', n, wants);
    ParentKeeps(s, s', n, n);
    KeysRefused(s, s', n, key, wants);
    CountedRefused(retries, s, s', n);
    PartsInv(retries, s');
  }

  lemma {:induction false} CachedKeeps(retries: nat, s: State, key: Key, wants: bool, status: Status)
    requires Inv(retries, s)
    ensures Inv(retries, Answer(s, key, wants, status))
  {
    hide TablesAgree, FreePlaced, ChildrenPlaced, EndingsPlaced, FatesRight, KeysRight, Counted;
    if wants {
      var s' := Answer(s, key, wants, status);
      TablesKept(s, s');
      FreeKept(s, s');
      ChildrenKept(s, s');
      EndingsKept(s, s');
      FatesCached(s, key, status);
      KeysCached(s, key, status);
      CountedKept(retries, s, s');
    }
  }

  lemma {:induction false} CloseKeeps(retries: nat, s: State, n: nat, status: Status)
    requires Inv(retries, s) && Asks(s, n)
    ensures Inv(retries, Close(s, n, status))
  {
    hide TablesAgree, FreePlaced, ChildrenPlaced, EndingsPlaced, FatesRight, KeysRight, Counted, Close;
    var s' := Close(s, n, status);
    CloseIs(s, n, status);
    TablesClose(s, n, status);
    FreeKept(s, s');
    ChildrenClosed(s, n, status);
    EndingsClosed(s, n, status);
    FatesClosed(s, n, status);
    KeysClosed(s, n, status);
    CountedKept(retries, s, s');
  }

  lemma {:induction false} ResendKeeps(retries: nat, s: State, n: nat)
    requires Inv(retries, s) && Asks(s, n) && s.nodes[n].count < retries
    ensures Inv(retries, Resend(s, n))
  {
    hide TablesAgree, FreePlaced, ChildrenPlaced, EndingsPlaced, FatesRight, KeysRight, Counted;
    var s' := Resend(s, n);
    TablesKept(s, s');
    FreeKept(s, s');
    ChildrenKept(s, s');
    EndingsKept(s, s');
    FatesKept(s, s');
    ParentsAsk(s);
    KeysKept(s, s');
    CountedResent(retries, s, n);
  }

  /** Nothing moves; only a callback may go. */
  ghost predicate Quieter(s: State, s': State) {
    && |s'.nodes| == |s.nodes| && s' == s.(nodes := s'.nodes, fates := s'.fates, log := s'.log)
    && forall m :: 0 <= m < |s.nodes| ==> s'.nodes[m] == s.nodes[m].(cb := s'.nodes[m].cb)
  }

  lemma {:induction false} QuieterKeeps(retries: nat, s: State, s': State)
    requires Inv(retries, s) && Quieter(s, s')
    ensures TablesAgree(s') && Counted(retries, s')
    ensures |s'.places| == |s'.nodes| && FreePlaced(s') && ChildrenPlaced(s') && EndingsPlaced(s')
  {
    hide TablesAgree, FreePlaced, ChildrenPlaced, EndingsPlaced, FatesRight, KeysRight, Counted;
    TablesKept(s, s');
    FreeKept(s, s');
    ChildrenKept(s, s');
    EndingsKept(s, s');
    CountedKept(retries, s, s');
  }

  lemma {:induction false} CancelQuiets(s: State, n: nat, notify: bool)
    requires n < |s.nodes|
    ensures Quieter(s, DoCancel(s, n, notify))
  {
  }

  lemma {:induction false} CancelKeeps(retries: nat, s: State, n: nat, notify: bool)
    requires Inv(retries, s) && Asks(s, n)
    ensures Inv(retries, DoCancel(s, n, notify))
  {
    hide *;
    InvParts(retries, s);
    AsksIs(s, n);
    CancelQuiets(s, n, notify);
    QuieterKeeps(retries, s, DoCancel(s, n, notify));
    FatesCancelled(s, n, notify);
    KeysCancelled(s, n, notify);
    PartsInv(retries, DoCancel(s, n, notify));
  }

  lemma {:induction false} FireKeeps(retries: nat, s: State)
    requires Inv(retries, s) && s.endings != [] && Top(s).next < |Top(s).nodes|
    ensures Inv(retries, DoFire(s))
  {
    hide TablesAgree, FreePlaced, ChildrenPlaced, EndingsPlaced, FatesRight, KeysRight, Counted, DoFire;
    var s' := DoFire(s);
    FireIs(s);
    TablesKept(s, s');
    FreeKept(s, s');
    ChildrenKept(s, s');
    EndingsFired(s);
    FatesFired(s);
    KeysFired(s);
    CountedKept(retries, s, s');
  }

  lemma {:induction false} FinishKeeps(retries: nat, s: State)
    requires Inv(retries, s) && s.endings != [] && Top(s).next == |Top(s).nodes| > 0
    ensures Inv(retries, DoFinish(s))
  {
    hide TablesAgree, FreePlaced, ChildrenPlaced, EndingsPlaced, FatesRight, KeysRight, Counted;
    var s' := DoFinish(s);
    TablesKept(s, s');
    FreeFinished(s);
    ChildrenKept(s, s');
    EndingsFinished(s);
    FatesFinished(s);
    KeysFinished(s);
    CountedKept(retries, s, s');
  }

  lemma {:induction false} TableAsks(s: State)
    requires TablesAgree(s)
    ensures forall i :: i in s.byId ==> Asks(s, s.byId[i]) && s.nodes[s.byId[i]].id == i
    ensures forall k :: k in s.byKey ==> Asks(s, s.byKey[k])
    ensures forall n :: 0 <= n < |s.nodes| && Asks(s, n) ==> s.nodes[n].id in s.byId
  {
    forall n | 0 <= n < |s.nodes| && Asks(s, n)
      ensures s.nodes[n].id in s.byId
    {
      assert Listed(s, n);
    }
  }

  lemma {:induction false} StepKeeps(retries: nat, s: State, e: Event)
    requires Inv(retries, s) && Enabled(s, e)
    ensures Inv(retries, Step(retries, s, e))
  {
    hide TablesAgree, Placed, FatesRight, KeysRight, Counted, Join, Open, Refuse, Close, Resend, DoCancel, DoFire, DoFinish;
    TableAsks(s);
    match e {
      case Start(key, wants, cached, sends) =>
        if cached.Some? {
          CachedKeeps(retries, s, key, wants, Answered(cached.value));
        } else if key in s.byKey {
          JoinKeeps(retries, s, s.byKey[key], wants);
        } else if sends {
          OpenKeeps(retries, s, key, wants);
        } else {
          RefuseKeeps(retries, s, key, wants);
        }
      case Respond(id, code) =>
        if id in s.byId {
          CloseKeeps(retries, s, s.byId[id], Answered(code));
        }
      case Timeout(n, sends) =>
        if s.nodes[n].id in s.byId {
          if s.nodes[n].count < retries && sends {
            ResendKeeps(retries, s, n);
          } else {
            CloseKeeps(retries, s, n, TimedOut);
          }
        }
      case Cancel(n, notify) => CancelKeeps(retries, s, n, notify);
      case Fire => FireKeeps(retries, s);
      case Finish => FinishKeeps(retries, s);
    }
  }

  // ---------------------------------------------------------------------------
  // Runs
  // ---------------------------------------------------------------------------

  /** The events can happen one after the other from `s`. */
  predicate IsRun(retries: nat, s: State, events: seq<Event>)
    decreases |events|
  {
    events == [] || (Enabled(s, events[0]) && IsRun(retries, Step(retries, s, events[0]), events[1..]))
  }

  function After(retries: nat, s: State, events: seq<Event>): State
    requires IsRun(retries, s, events)
    decreases |events|
  {
    if events == [] then s else After(retries, Step(retries, s, events[0]), events[1..])
  }

  lemma {:induction false} RunKeeps(retries: nat, s: State, events: seq<Event>)
    requires Inv(retries, s) && IsRun(retries, s, events)
    ensures Inv(retries, After(retries, s, events))
    decreases |events|
  {
    hide Inv, Step, Enabled;
    if events != [] {
      StepKeeps(retries, s, events[0]);
      RunKeeps(retries, Step(retries, s, events[0]), events[1..]);
    }
  }

  /** Nothing is pending and no callback is under way. */
  predicate Quiet(s: State) { s.byId == map[] && s.endings == [] }

  /** No request is called back twice. */
  predicate OnceAtMost(s: State) {
    forall i, j :: 0 <= i < j < |s.log| ==> s.log[i].ticket != s.log[j].ticket
  }

  predicate WasCalled(s: State, t: nat) { exists j :: 0 <= j < |s.log| && s.log[j].ticket == t }

  /** Every request has been called back, unless it was refused or cancelled without notice. */
  predicate AllTold(s: State) {
    forall t :: 0 <= t < |s.fates| ==> s.fates[t] == Silenced || s.fates[t] == Refused || WasCalled(s, t)
  }

  predicate ToldWhatWasAsked(s: State) {
    forall j :: 0 <= j < |s.log| ==> s.log[j].ticket < |s.asked| && s.asked[s.log[j].ticket] == s.log[j].key
  }

  lemma {:induction false} WaitingIsPending(s: State, t: nat)
    requires TablesAgree(s) && Placed(s) && FatesRight(s) && t < |s.fates| && s.fates[t].Waiting?
    ensures !Quiet(s)
  {
    var n := s.fates[t].node;
    assert Owes(s, n);
    if s.places[n].Child? {
      assert IsChild(s, n, s.places[n]);
      assert Listed(s, s.places[n].parent);
    } else if s.places[n] == Asking {
      assert Listed(s, n);
    }
  }

  lemma {:induction false} InvOnce(retries: nat, s: State)
    requires Inv(retries, s)
    ensures OnceAtMost(s)
    ensures Quiet(s) ==> AllTold(s)
    ensures forall t :: 0 <= t < |s.fates| && (s.fates[t] == Silenced || s.fates[t] == Refused) ==> !WasCalled(s, t)
  {
    forall t | Quiet(s) && 0 <= t < |s.fates|
      ensures s.fates[t] == Silenced || s.fates[t] == Refused || WasCalled(s, t)
    {
      if s.fates[t].Waiting? {
        WaitingIsPending(s, t);
      } else if s.fates[t].Called? {
        assert s.log[s.fates[t].at].ticket == t;
      }
    }
  }

  /** What holds after every run of the resolver. */
  lemma {:induction false} RunFacts(retries: nat, events: seq<Event>)
    requires IsRun(retries, Init(), events)
    ensures var s := After(retries, Init(), events);
            && s.byId.Values == s.byKey.Values
            && (forall j :: 0 <= j < |s.free| ==> !InUse(s, s.free[j]))
            && (forall i :: i in s.byId ==> 1 <= i <= MAX_ID)
            && (forall x {:trigger s.sent[x]} :: s.sent[x] <= Max(1, retries))
            && OnceAtMost(s)
            && ToldWhatWasAsked(s)
            && (Quiet(s) ==> AllTold(s))
  {
    hide IsRun, After;
    InitInv(retries);
    RunKeeps(retries, Init(), events);
    InvOnce(retries, After(retries, Init(), events));
    InvFacts(retries, After(retries, Init(), events));
  }

  /** The node of a pending query, or of a request that joined it, or one whose callback is under way. */
  predicate InUse(s: State, n: nat) {
    || (exists i :: i in s.byId && s.byId[i] < |s.nodes| && n in [s.byId[i]] + s.nodes[s.byId[i]].children)
    || (exists k :: 0 <= k < |s.endings| && n in s.endings[k].nodes)
  }

  lemma {:induction false} FreeIsUnused(s: State, j: nat)
    requires TablesAgree(s) && Placed(s) && j < |s.free|
    ensures !InUse(s, s.free[j])
  {
    var n := s.free[j];
    assert s.places[n] == Free;
    forall i | i in s.byId && s.byId[i] < |s.nodes|
      ensures n !in [s.byId[i]] + s.nodes[s.byId[i]].children
    {
      var p := s.byId[i];
      assert Asks(s, p);
      forall k | 0 <= k < |s.nodes[p].children|
        ensures s.nodes[p].children[k] != n
      {
        assert s.places[s.nodes[p].children[k]] == Child(p, k);
      }
    }
    forall k | 0 <= k < |s.endings|
      ensures n !in s.endings[k].nodes
    {
      assert EndingPlaced(s, k);
    }
  }

  lemma {:induction false} InvFacts(retries: nat, s: State)
    requires Inv(retries, s)
    ensures s.byId.Values == s.byKey.Values
    ensures forall j :: 0 <= j < |s.free| ==> !InUse(s, s.free[j])
    ensures forall i :: i in s.byId ==> 1 <= i <= MAX_ID
    ensures ToldWhatWasAsked(s)
  {
    forall j | 0 <= j < |s.free|
      ensures !InUse(s, s.free[j])
    {
      FreeIsUnused(s, j);
    }
    forall n | n in s.byId.Values
      ensures n in s.byKey.Values
    {
      assert Asks(s, n);
      assert Listed(s, n);
    }
    forall n | n in s.byKey.Values
      ensures n in s.byId.Values
    {
      assert Asks(s, n);
      assert Listed(s, n);
    }
    forall i | i in s.byId
      ensures 1 <= i <= MAX_ID
    {
      assert Asks(s, s.byId[i]);
      assert QueryRight(retries, s, s.nodes[s.byId[i]]);
    }
  }

  /**
   A settled request stays settled; a waiting one is called back, or silenced by a cancellation
   without notice of the query it started; only a query that cannot be sent is refused.
   */
  lemma {:induction false} FateMoves(retries: nat, s: State, e: Event, t: nat)
    requires Inv(retries, s) && Enabled(s, e)
    ensures var s' := Step(retries, s, e);
            && |s.fates| <= |s'.fates|
            && (t < |s.fates| && s'.fates[t] != s.fates[t] ==>
                  s.fates[t].Waiting? && (s'.fates[t].Called? || (s'.fates[t] == Silenced && e == Cancel(s.fates[t].node, false))))
            && (|s.fates| <= t < |s'.fates| ==>
                  && e.Start? && e.wants && t == |s.fates|
                  && (s'.fates[t] == Refused <==> e.cached.None? && e.key !in s.byKey && !e.sends)
                  && (s'.fates[t].Called? <==> e.cached.Some?) && s'.fates[t] != Silenced)
  {
    hide TablesAgree, Placed, FatesRight, KeysRight, Counted, Join, Open, Refuse, Close, Resend, DoCancel, DoFire;
    TableAsks(s);
    match e {
      case Start(key, wants, cached, sends) => NewFate(s, e);
      case Respond(id, code) =>
        if id in s.byId {
          AsksIs(s, s.byId[id]);
          CloseIs(s, s.byId[id], Answered(code));
        }
      case Timeout(n, _) =>
        AsksIs(s, n);
        if s.nodes[n].id in s.byId {
          CloseIs(s, n, TimedOut);
          ResendIs(s, n);
        }
      case Cancel(n, notify) =>
        PendingOwes(s, n);
        CancelIs(s, n, notify);
      case Fire => FireIs(s);
      case Finish =>
    }
  }

  lemma {:induction false} NewFate(s: State, e: Event)
    requires Placed(s) && e.Start? && forall k :: k in s.byKey ==> Asks(s, s.byKey[k])
    ensures var s' := Begin(s, e);
            if !e.wants then s'.fates == s.fates
            else
              && |s'.fates| == |s.fates| + 1 && s'.fates[..|s.fates|] == s.fates
              && var fate := s'.fates[|s.fates|];
                 && (fate == Refused <==> e.cached.None? && e.key !in s.byKey && !e.sends)
                 && (fate.Called? <==> e.cached.Some?) && fate != Silenced
  {
    hide Placed, Join, Open, Refuse;
    if e.cached.None? {
      if e.key in s.byKey {
        JoinIs(s, s.byKey[e.key], e.wants);
      } else if e.sends {
        OpenIs(s, e.key, e.wants);
      } else {
        RefuseIs(s, e.key, e.wants);
      }
    }
  }

  lemma {:induction false} StartLog(s: State, e: Event)
    requires Placed(s) && e.Start? && forall k :: k in s.byKey ==> Asks(s, s.byKey[k])
    ensures Begin(s, e).log
            == s.log + if e.cached.Some? && e.wants then [Call(|s.fates|, e.key, Answered(e.cached.value))] else []
  {
    hide Placed, Join, Open, Refuse;
    if e.cached.None? {
      if e.key in s.byKey {
        JoinIs(s, s.byKey[e.key], e.wants);
      } else if e.sends {
        OpenIs(s, e.key, e.wants);
      } else {
        RefuseIs(s, e.key, e.wants);
      }
    }
  }

  lemma {:induction false} ResendIs(s: State, n: nat)
    requires n < |s.nodes|
    ensures Resend(s, n).fates == s.fates
  {
  }

  lemma {:induction false} CancelIs(s: State, n: nat, notify: bool)
    requires n < |s.nodes|
    ensures var s', cb := DoCancel(s, n, notify), s.nodes[n].cb;
            s'.fates == if cb.None? || cb.value >= |s.fates| then s.fates
                        else s.fates[cb.value := if notify then Called(|s.log|) else Silenced]
  {
  }

  lemma {:induction false} PendingOwes(s: State, n: nat)
    requires FatesRight(s) && Asks(s, n)
    ensures s.nodes[n].cb.Some? ==> s.nodes[n].cb.value < |s.fates| && s.fates[s.nodes[n].cb.value] == Waiting(n)
  {
    assert Owes(s, n);
  }

  /** A cancelled query has no callback left: a second cancellation with notice has nothing to call. */
  lemma {:induction false} CancelledOnce(s: State, n: nat, notify: bool)
    requires Asks(s, n)
    ensures Asks(DoCancel(s, n, notify), n) && !Enabled(DoCancel(s, n, notify), Cancel(n, true))
  {
  }

  /** When the next id still belongs to a pending query, a new query takes that query's entry by id. */
  lemma {:induction false} IdReuse(retries: nat, s: State, key: Key, wants: bool)
    requires Inv(retries, s) && key !in s.byKey
    ensures TablesAgree(Open(s, key, wants)) <==> s.lastId !in s.byId
    ensures s.lastId in s.byId <==>
            exists n :: 0 <= n < |s.nodes| && Asks(s, n) && s.nodes[n].serial % MAX_ID == s.issued % MAX_ID
  {
    hide Open, Placed, FatesRight, KeysRight;
    OpenIs(s, key, wants);
    var s', n := Open(s, key, wants), Fresh(s);
    if s.lastId in s.byId {
      var m := s.byId[s.lastId];
      assert Asks(s, m) && s.nodes[m].id == s.lastId;
      assert QueryRight(retries, s, s.nodes[m]);
      assert Asks(s', m) && !Listed(s', m);
    } else {
      TablesOpen(s, s', n, key);
      forall m | 0 <= m < |s.nodes| && Asks(s, m)
        ensures s.nodes[m].serial % MAX_ID != s.issued % MAX_ID
      {
        assert Listed(s, m);
        assert QueryRight(retries, s, s.nodes[m]);
      }
    }
  }

  lemma {:induction false} RefusedIs(retries: nat, s: State, key: Key)
    requires Inv(retries, s) && key !in s.byKey
    ensures var e := Start(key, false, None, false);
            && Enabled(s, e) && Inv(retries, Step(retries, s, e))
            && var s' := Step(retries, s, e);
               s'.byId == s.byId && s'.byKey == s.byKey && s'.issued == s.issued + 1
  {
    hide Inv;
    StepKeeps(retries, s, Start(key, false, None, false));
  }

  lemma {:induction false} RunNext(retries: nat, s: State, e: Event, rest: seq<Event>)
    requires Enabled(s, e) && IsRun(retries, Step(retries, s, e), rest)
    ensures IsRun(retries, s, [e] + rest)
    ensures After(retries, s, [e] + rest) == After(retries, Step(retries, s, e), rest)
  {
    hide Step, Enabled;
    assert ([e] + rest)[1..] == rest;
  }

  lemma {:induction false} NoEvents(retries: nat, s: State)
    ensures IsRun(retries, s, []) && After(retries, s, []) == s
  {
  }

  /** As many queries as wanted that can not be sent: each uses up an id. */
  lemma {:induction false} RefuseMany(retries: nat, s: State, key: Key, n: nat) returns (run: seq<Event>)
    requires Inv(retries, s) && key !in s.byKey
    ensures IsRun(retries, s, run)
    ensures var s' := After(retries, s, run);
            Inv(retries, s') && s'.byId == s.byId && s'.byKey == s.byKey && s'.issued == s.issued + n
    decreases n
  {
    hide Inv, Step, Enabled, IsRun, After;
    run := [];
    NoEvents(retries, s);
    if n > 0 {
      RefusedIs(retries, s, key);
      var e := Start(key, false, None, false);
      var rest := RefuseMany(retries, Step(retries, s, e), key, n - 1);
      RunNext(retries, s, e, rest);
      run := [e] + rest;
    }
  }

  lemma {:induction false} FirstQuery(retries: nat, key: Key)
    ensures var e := Start(key, true, None, true);
            && Enabled(Init(), e) && Inv(retries, Step(retries, Init(), e))
            && var s := Step(retries, Init(), e);
               s.byId == map[1 := 0] && s.byKey == map[key := 0] && s.issued == 1
  {
    hide Inv;
    InitInv(retries);
    StepKeeps(retries, Init(), Start(key, true, None, true));
  }

  lemma {:induction false} NextIdOf(retries: nat, s: State)
    requires Inv(retries, s)
    ensures s.lastId == s.issued % MAX_ID + 1
  {
  }

  /**
   The reuse happens: one query is sent and stays pending, 65534 others can not be sent, and the
   next query for another key takes the first one's id, after which the tables disagree.
   */
  lemma {:induction false} IdReuseReached(retries: nat, key: Key, other: Key, wants: bool)
    returns (run: seq<Event>)
    requires other != key
    ensures IsRun(retries, Init(), run)
    ensures var s := After(retries, Init(), run);
            && Inv(retries, s) && s.lastId in s.byId && other !in s.byKey
            && !TablesAgree(Open(s, other, wants))
  {
    hide Inv, Step, Enabled, IsRun, After, TablesAgree, Open;
    var e := Start(key, true, None, true);
    FirstQuery(retries, key);
    var s1 := Step(retries, Init(), e);
    var rest := RefuseMany(retries, s1, other, MAX_ID - 1);
    RunNext(retries, Init(), e, rest);
    run := [e] + rest;
    var s := After(retries, Init(), run);
    NextIdOf(retries, s);
    IdReuse(retries, s, other, wants);
  }

  /** Pending query `n` has gone after some of these timeouts, with these outcomes of sending again. */
  predicate GoneBy(retries: nat, s: State, n: nat, sends: seq<bool>)
    decreases |sends|
  {
    !Asks(s, n) || (sends != [] && GoneBy(retries, OnTimeout(retries, s, n, sends[0]), n, sends[1..]))
  }

  /** A query without an answer does not outlive the timeouts it has left. */
  lemma {:induction false} TimeoutsEnd(retries: nat, s: State, n: nat, sends: seq<bool>)
    requires Inv(retries, s) && Asks(s, n) && s.nodes[n].count + |sends| > Max(1, retries)
    ensures GoneBy(retries, s, n, sends)
    decreases |sends|
  {
    hide TablesAgree, Placed, FatesRight, KeysRight, Counted, Close;
    TableAsks(s);
    CountBound(retries, s, n);
    var s' := OnTimeout(retries, s, n, sends[0]);
    StepKeeps(retries, s, Timeout(n, sends[0]));
    if s.nodes[n].count < retries && sends[0] {
      TimeoutsEnd(retries, s', n, sends[1..]);
    } else {
      AsksIs(s, n);
      CloseIs(s, n, TimedOut);
    }
  }

  lemma {:induction false} CountBound(retries: nat, s: State, n: nat)
    requires Counted(retries, s) && Asks(s, n)
    ensures 1 <= s.nodes[n].count <= Max(1, retries)
  {
    assert QueryRight(retries, s, s.nodes[n]);
  }

  // ---------------------------------------------------------------------------
  // A completion during which no callback touches the resolver
  // ---------------------------------------------------------------------------

  /** All the remaining callbacks of the innermost completion, and its end. */
  function Drain(s: State): State
    requires s.endings != [] && Top(s).nodes != []
    decreases |Top(s).nodes| - Top(s).next
  {
    if Top(s).next < |Top(s).nodes| then Drain(DoFire(s)) else DoFinish(s)
  }

  function Calls(k: nat): seq<Event> { if k == 0 then [Finish] else [Fire] + Calls(k - 1) }

  lemma {:induction false} DrainIsRun(retries: nat, s: State, k: nat)
    requires Inv(retries, s) && s.endings != [] && Top(s).next + k == |Top(s).nodes| > 0
    ensures IsRun(retries, s, Calls(k)) && After(retries, s, Calls(k)) == Drain(s)
    decreases k
  {
    hide Inv, DoFire, DoFinish;
    if k == 0 {
      var none: seq<Event> := [Finish][1..];
      assert none == [];
    } else {
      StepKeeps(retries, s, Fire);
      FireMoves(retries, s);
      DrainIsRun(retries, DoFire(s), k - 1);
      assert Calls(k)[1..] == Calls(k - 1);
    }
  }

  lemma {:induction false} DrainEnds(s: State)
    requires s.endings != [] && Top(s).nodes != [] && Top(s).next == |Top(s).nodes|
    ensures Drain(s) == DoFinish(s)
  {
  }

  lemma {:induction false} FireMoves(retries: nat, s: State)
    requires Inv(retries, s) && s.endings != [] && Top(s).next < |Top(s).nodes|
    ensures DoFire(s).endings != [] && Top(DoFire(s)) == Top(s).(next := Top(s).next + 1)
  {
  }

  /** The calls to be made for these nodes, in order. */
  function CallsDue(nodes: seq<Node>, list: seq<nat>, key: Key, status: Status): seq<Call> {
    if list == [] then []
    else
      (if list[0] < |nodes| && nodes[list[0]].cb.Some? then [Call(nodes[list[0]].cb.value, key, status)] else [])
      + CallsDue(nodes, list[1..], key, status)
  }

  lemma {:induction false} FireCalls(retries: nat, s: State)
    requires Inv(retries, s) && s.endings != [] && Top(s).next < |Top(s).nodes|
    ensures var e, s' := Top(s), DoFire(s);
            && s'.nodes == s.nodes && s'.sent == s.sent
            && s.log + CallsDue(s.nodes, e.nodes[e.next..], e.key, e.status)
               == s'.log + CallsDue(s.nodes, e.nodes[e.next + 1..], e.key, e.status)
  {
    FireIs(s);
    hide Inv, DoFire;
    var e := Top(s);
    assert e.nodes[e.next..][1..] == e.nodes[e.next + 1..];
  }

  /** A completion makes exactly the calls due, in order, and sends nothing. */
  lemma {:induction false} DrainCalls(retries: nat, s: State)
    requires Inv(retries, s) && s.endings != [] && Top(s).next <= |Top(s).nodes| && Top(s).nodes != []
    ensures var e := Top(s);
            Drain(s).log == s.log + CallsDue(s.nodes, e.nodes[e.next..], e.key, e.status) && Drain(s).sent == s.sent
    decreases |Top(s).nodes| - Top(s).next
  {
    hide Inv, DoFire, CallsDue;
    if Top(s).next < |Top(s).nodes| {
      FireKeeps(retries, s);
      FireMoves(retries, s);
      FireCalls(retries, s);
      DrainCalls(retries, DoFire(s));
    } else {
      NoCallsDue(s.nodes, Top(s).key, Top(s).status);
      assert Top(s).nodes[Top(s).next..] == [];
      assert s.log + [] == s.log;
    }
  }

  lemma {:induction false} NoCallsDue(nodes: seq<Node>, key: Key, status: Status)
    ensures CallsDue(nodes, [], key, status) == []
  {
  }

  lemma {:induction false} SameCallsDue(a: seq<Node>, b: seq<Node>, list: seq<nat>, key: Key, status: Status)
    requires |a| == |b| && forall i :: 0 <= i < |a| ==> a[i].cb == b[i].cb
    ensures CallsDue(a, list, key, status) == CallsDue(b, list, key, status)
    decreases |list|
  {
    if list != [] {
      SameCallsDue(a, b, list[1..], key, status);
    }
  }

  /** The calls due when pending query `n` ends: to the one who started it, then to those who joined. */
  function DueAt(s: State, n: nat, status: Status): seq<Call> {
    if n < |s.nodes| then CallsDue(s.nodes, [n] + s.nodes[n].children, s.nodes[n].key, status) else []
  }

  /**
   However many requests joined a query, its end calls back the one that started it and then
   those that joined, in the order they did, each with the same status, and sends nothing.
   */
  lemma {:induction false} AllCalledInOrder(retries: nat, s: State, n: nat, status: Status)
    requires Inv(retries, s) && Asks(s, n)
    ensures var s1 := Close(s, n, status);
            && s1.endings != [] && Top(s1).nodes != []
            && Drain(s1).log == s.log + DueAt(s, n, status) && Drain(s1).sent == s.sent
  {
    hide Inv, Close, Drain, CallsDue;
    InvFits(retries, s);
    CloseIs(s, n, status);
    CloseKeeps(retries, s, n, status);
    var q, s1 := s.nodes[n], Close(s, n, status);
    DrainCalls(retries, s1);
    SameCallsDue(s.nodes, s1.nodes, [n] + q.children, q.key, status);
    assert Top(s1).nodes[0..] == [n] + q.children;
  }

  lemma {:induction false} InvFits(retries: nat, s: State)
    requires Inv(retries, s)
    ensures |s.places| == |s.nodes| && |s.asked| == |s.fates|
    ensures Fresh(s) <= |s.nodes| && (Fresh(s) < |s.nodes| ==> s.places[Fresh(s)] == Free)
    ensures forall i :: i in s.byId ==> Asks(s, s.byId[i]) && s.nodes[s.byId[i]].id == i
    ensures forall k :: k in s.byKey ==> Asks(s, s.byKey[k]) && s.nodes[s.byKey[k]].key == k
    ensures forall n :: 0 <= n < |s.nodes| && Asks(s, n) ==> s.nodes[n].id in s.byId
  {
    hide FreePlaced, ChildrenPlaced, EndingsPlaced, FatesRight, Counted;
    TableAsks(s);
    FreshIs(s);
  }

  /** A pending query's callback, and its children's, go to requests on record. */
  lemma {:induction false} CallbackFits(retries: nat, s: State)
    requires Inv(retries, s) && s.endings != [] && Top(s).next < |Top(s).nodes|
    ensures Top(s).nodes[Top(s).next] < |s.nodes|
    ensures var cb := s.nodes[Top(s).nodes[Top(s).next]].cb; cb.Some? ==> cb.value < |s.fates|
  {
    FireIs(s);
  }

  lemma {:induction false} PendingFits(retries: nat, s: State, n: nat)
    requires Inv(retries, s) && Asks(s, n)
    ensures s.nodes[n].cb.Some? ==> s.nodes[n].cb.value < |s.fates|
    ensures forall j :: 0 <= j < |s.nodes[n].children| ==> s.nodes[n].children[j] < |s.nodes|
  {
    PendingOwes(s, n);
  }
}
