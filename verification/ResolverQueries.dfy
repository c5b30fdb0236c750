/**
 The resolver object: the operations as the program makes them, each in one go, proved to
 take the steps of the protocol.
 */
module ResolverQueries {
  import opened Resolver
  import opened Wrappers

  class Queries {
    const retries: nat
    var nodes: seq<Node>
    var free: seq<nat>
    var byId: map<nat, nat>
    var byKey: map<Key, nat>
    var lastId: nat
    var issued: nat
    var tickets: nat
    var log: seq<Call>
    ghost var places: seq<Place>
    ghost var endings: seq<Ending>
    ghost var fates: seq<Fate>
    ghost var asked: seq<Key>
    ghost var sent: multiset<nat>

    ghost function St(): State
      reads this
    {
      State(nodes, places, free, byId, byKey, lastId, issued, endings, fates, asked, log, sent)
    }

    ghost predicate Valid()
      reads this
    {
      Inv(retries, St()) && tickets == |fates|
    }

    constructor (retries: nat)
      ensures Valid() && this.retries == retries && St() == Init()
    {
      this.retries := retries;
      nodes, free, byId, byKey, lastId, issued, tickets, log := [], [], map[], map[], 1, 0, 0, [];
      places, endings, fates, asked, sent := [], [], [], [], multiset{};
      new;
      InitInv(retries);
    }

    /** Takes the oldest free node, or a new one, and fills it in. */
    method AllocNode(node: Node, ghost place: Place) returns (n: nat)
      requires Fresh(St()) <= |nodes| == |places|
      modifies this`nodes, this`free, this`places
      ensures n == old(Fresh(St())) && St() == old(Alloc(St(), node, place))
    {
      if free != [] {
        n := free[0];
        free := free[1..];
      } else {
        n := |nodes|;
      }
      nodes := Put(nodes, n, node);
      places := Put(places, n, place);
    }

    method NewTicket(wants: bool) returns (cb: Option<nat>)
      requires Valid()
      modifies this`tickets
      ensures cb == Ticket(St(), wants) && tickets == old(tickets) + (if wants then 1 else 0)
    {
      if wants {
        cb := Some(tickets);
        tickets := tickets + 1;
      } else {
        cb := None;
      }
    }

    /** Starts a query, joins the pending one for the same key, or answers from the cache. */
    method StartQuery(key: Key, wants: bool, cached: Option<nat>, sends: bool) returns (accepted: bool)
      requires Valid() && Enabled(St(), Start(key, wants, cached, sends))
      modifies this
      ensures Valid() && St() == old(Step(retries, St(), Start(key, wants, cached, sends)))
      ensures accepted <==> cached.Some? || key in old(byKey) || sends
      ensures log == old(log) + if wants && cached.Some? then [Call(old(tickets), key, Answered(cached.value))] else []
    {
      hide Inv, TablesAgree, Placed, FatesRight, KeysRight, Counted, FreePlaced, ChildrenPlaced, EndingsPlaced, Young, Join, Open, Refuse, Answer, Fresh;
      ghost var s := St();
      StepKeeps(retries, s, Start(key, wants, cached, sends));
      InvFits(retries, s);
      InvParts(retries, s);
      NewFate(s, Start(key, wants, cached, sends));
      StartLog(s, Start(key, wants, cached, sends));
      var cb := NewTicket(wants);
      if cached.Some? {
        AnswerFromCache(key, wants, cb, Answered(cached.value));
        return true;
      }
      if key in byKey {
        accepted := true;
        JoinPending(byKey[key], wants, cb);
        return;
      }
      accepted := sends;
      if sends {
        OpenNew(key, wants, cb);
      } else {
        RefuseNew(key, wants, cb);
      }
    }

    ghost method RecordRequest(key: Key, wants: bool, fate: Fate)
      modifies this`fates, this`asked
      ensures St() == old(Note(St(), key, wants, fate))
    {
      if wants {
        fates, asked := fates + [fate], asked + [key];
      }
    }

    method AnswerFromCache(key: Key, wants: bool, cb: Option<nat>, status: Status)
      requires cb == Ticket(St(), wants)
      modifies this`log, this`fates, this`asked
      ensures St() == old(Answer(St(), key, wants, status))
    {
      RecordRequest(key, wants, Called(|log|));
      if cb.Some? {
        log := log + [Call(cb.value, key, status)];
      }
    }

    method JoinPending(p: nat, wants: bool, cb: Option<nat>)
      requires Fresh(St()) <= |nodes| == |places| && p < |nodes| && p != Fresh(St()) && cb == Ticket(St(), wants)
      modifies this`nodes, this`free, this`places, this`fates, this`asked
      ensures St() == old(Join(St(), p, wants))
    {
      hide Put;
      ghost var s := St();
      PutIs(nodes, Fresh(s), Node(0, 0, Key(0, ""), 0, false, cb, []));
      var n := AllocNode(Node(0, 0, Key(0, ""), 0, false, cb, []), Child(p, |nodes[p].children|));
      RecordRequest(s.nodes[p].key, wants, Waiting(n));
      nodes := nodes[p := nodes[p].(children := nodes[p].children + [n])];
    }

    method OpenNew(key: Key, wants: bool, cb: Option<nat>)
      requires Fresh(St()) <= |nodes| == |places| && cb == Ticket(St(), wants)
      modifies this`nodes, this`free, this`places, this`fates, this`asked, this`byId, this`byKey, this`lastId, this`issued, this`sent
      ensures St() == old(Open(St(), key, wants))
    {
      hide Put, Alloc, Note, Enter;
      var n := AllocNode(Node(issued, lastId, key, 1, true, cb, []), Asking);
      RecordRequest(key, wants, Waiting(n));
      EnterTables(key, n);
    }

    method EnterTables(key: Key, n: nat)
      modifies this`byId, this`byKey, this`lastId, this`issued, this`sent
      ensures St() == old(Enter(St(), key, n))
    {
      byId := byId[lastId := n];
      byKey := byKey[key := n];
      lastId := NextId(lastId);
      sent := sent + multiset{issued};
      issued := issued + 1;
    }

    method RefuseNew(key: Key, wants: bool, cb: Option<nat>)
      requires Fresh(St()) <= |nodes| == |places| && cb == Ticket(St(), wants)
      modifies this`nodes, this`free, this`places, this`fates, this`asked, this`lastId, this`issued
      ensures St() == old(Refuse(St(), key, wants))
    {
      hide Put, Alloc, Note;
      var n := AllocNode(Node(issued, lastId, key, 0, false, cb, []), Free);
      RecordRequest(key, wants, Refused);
      free := free + [n];
      lastId := NextId(lastId);
      issued := issued + 1;
    }

    /** Cancels a pending query: its own callback is dropped, the query goes on. */
    method CancelQuery(n: nat, notify: bool)
      requires Valid() && Enabled(St(), Cancel(n, notify))
      modifies this
      ensures Valid() && St() == old(Step(retries, St(), Cancel(n, notify)))
      ensures log == old(log) + if notify then [Call(old(nodes[n]).cb.value, old(nodes[n]).key, Cancelled)] else []
    {
      hide Inv;
      ghost var s := St();
      StepKeeps(retries, s, Cancel(n, notify));
      PendingFits(retries, s, n);
      var cb := nodes[n].cb;
      nodes := nodes[n := nodes[n].(cb := None)];
      if cb.Some? {
        fates := fates[cb.value := if notify then Called(|log|) else Silenced];
        if notify {
          log := log + [Call(cb.value, nodes[n].key, Cancelled)];
        }
      }
    }

    /** The timer of a query has run out: it is sent again, or ends. */
    method OnTimeout(n: nat, sends: bool)
      requires Valid() && Enabled(St(), Timeout(n, sends))
      modifies this
      ensures Valid()
      ensures var s := old(Step(retries, St(), Timeout(n, sends)));
              if |s.endings| > old(|endings|) then s.endings != [] && Top(s).nodes != [] && St() == Drain(s) else St() == s
      ensures var q := old(nodes[n]);
              if q.id !in old(byId) then St() == old(St())
              else if q.count < retries && sends then
                log == old(log) && sent == old(sent) + multiset{q.serial} && nodes[n].count == q.count + 1
              else log == old(log) + old(DueAt(St(), n, TimedOut)) && sent == old(sent)
    {
      hide Inv, Close, DueAt;
      ghost var s := St();
      StepKeeps(retries, s, Timeout(n, sends));
      InvFits(retries, s);
      if nodes[n].id !in byId {
        return;
      }
      CloseIs(s, n, TimedOut);
      if nodes[n].count < retries && sends {
        nodes := nodes[n := nodes[n].(timer := true, count := nodes[n].count + 1)];
        sent := sent + multiset{nodes[n].serial};
        return;
      }
      AllCalledInOrder(retries, s, n, TimedOut);
      End(n, TimedOut);
    }

    /** A response: it ends the query with its id, if there is one, and calls back all who wait for it. */
    method OnResponse(id: nat, code: nat)
      requires Valid()
      modifies this
      ensures Valid()
      ensures var s := old(Step(retries, St(), Respond(id, code)));
              if id in old(byId) then s.endings != [] && Top(s).nodes != [] && St() == Drain(s) else St() == s
      ensures log == old(log) + if id in old(byId) then old(DueAt(St(), byId[id], Answered(code))) else []
    {
      hide Inv, Close, DueAt;
      ghost var s := St();
      StepKeeps(retries, s, Respond(id, code));
      InvFits(retries, s);
      if id in byId {
        CloseIs(s, byId[id], Answered(code));
        AllCalledInOrder(retries, s, byId[id], Answered(code));
        End(byId[id], Answered(code));
      }
    }

    /** Takes the query out of both tables, makes its callbacks and recycles its nodes. */
    method End(n: nat, status: Status)
      requires Valid() && Asks(St(), n)
      modifies this
      ensures Valid()
      ensures var s := old(Close(St(), n, status));
              s.endings != [] && Top(s).nodes != [] && St() == Drain(s)
    {
      hide Inv, Close, Drain, DoFire;
      ghost var s := St();
      InvFits(retries, s);
      CloseIs(s, n, status);
      CloseKeeps(retries, s, n, status);
      var group := [n] + nodes[n].children;
      byId, byKey := byId - {nodes[n].id}, byKey - {nodes[n].key};
      nodes := nodes[n := nodes[n].(timer := false)];
      places, endings := Close(s, n, status).places, Close(s, n, status).endings;
      ghost var s1 := Close(s, n, status);
      assert St() == s1;
      var i := 0;
      while i < |group|
        invariant 0 <= i <= |group| && Valid()
        invariant endings != [] && Top(St()).nodes == group && Top(St()).next == i && Top(St()).status == status
        invariant n < |nodes| && Top(St()).key == nodes[n].key
        invariant Drain(St()) == Drain(s1)
      {
        MakeCall(group[i], n, status);
        i := i + 1;
      }
      DrainEnds(St());
      Recycle(n, group);
    }

    /** One callback of the completion under way. */
    method MakeCall(m: nat, n: nat, status: Status)
      requires Valid() && endings != [] && Top(St()).next < |Top(St()).nodes| && n < |nodes|
      requires m == Top(St()).nodes[Top(St()).next] && Top(St()).status == status && Top(St()).key == nodes[n].key
      modifies this`log, this`fates, this`endings
      ensures Valid() && St() == old(DoFire(St()))
      ensures endings != [] && Top(St()) == old(Top(St()).(next := Top(St()).next + 1))
      ensures Drain(St()) == old(Drain(St()))
    {
      hide Inv;
      ghost var s := St();
      CallbackFits(retries, s);
      FireKeeps(retries, s);
      FireMoves(retries, s);
      var cb := nodes[m].cb;
      ghost var k := |endings| - 1;
      endings := endings[k := endings[k].(next := endings[k].next + 1)];
      if cb.Some? {
        fates := fates[cb.value := Called(|log|)];
        log := log + [Call(cb.value, nodes[n].key, status)];
      }
    }

    /** Puts the children's nodes and then the query's own at the end of the free list. */
    method Recycle(n: nat, group: seq<nat>)
      requires Valid() && endings != [] && Top(St()).nodes == group && Top(St()).next == |group| > 0 && group[0] == n
      modifies this`free, this`places, this`endings
      ensures Valid() && St() == old(DoFinish(St()))
    {
      hide Inv;
      ghost var s := St();
      FinishKeeps(retries, s);
      var i := 1;
      while i < |group|
        invariant 1 <= i <= |group| && free == s.free + group[1..i]
      {
        free := free + [group[i]];
        i := i + 1;
      }
      assert group[1..i] == group[1..];
      free := free + [n];
      places, endings := DoFinish(s).places, DoFinish(s).endings;
    }
  }
}
