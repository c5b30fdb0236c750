/** The call log: a stack of records, listed from its top, one for each number and type of call. */
module CallLog {
  import CallControl
  import opened Wrappers

  type CallType = CallControl.CallType

  datatype Key = Key(number: string, kind: CallType)

  datatype Record = Record(key: Key, name: string, time: int, duration: int, count: nat)

  datatype Event = Call(key: Key, name: string, time: int, duration: int) | Deletion(key: Key)

  // ---------------------------------------------------------------------------
  // Operations
  // ---------------------------------------------------------------------------

  function Find(log: seq<Record>, k: Key): Option<Record> {
    if log == [] then None else if log[0].key == k then Some(log[0]) else Find(log[1..], k)
  }

  function Delete(log: seq<Record>, k: Key): seq<Record> {
    if log == [] then []
    else if log[0].key == k then Delete(log[1..], k)
    else [log[0]] + Delete(log[1..], k)
  }

  function Add(log: seq<Record>, r: Record): seq<Record> {
    var item := Find(log, r.key);
    if item.None? then [r] + log else [r.(count := item.value.count + 1)] + Delete(log, r.key)
  }

  function Step(log: seq<Record>, e: Event): seq<Record> {
    match e
    case Call(key, name, time, duration) => Add(log, Record(key, name, time, duration, 0))
    case Deletion(key) => Delete(log, key)
  }

  /** The log after these events, from an empty one. */
  function After(events: seq<Event>): seq<Record> {
    if events == [] then [] else Step(After(events[..|events| - 1]), events[|events| - 1])
  }

  // ---------------------------------------------------------------------------
  // The history
  // ---------------------------------------------------------------------------

  /** Where the last call with this key is, unless a deletion of the key came later; -1 if there is none. */
  function Last(events: seq<Event>, k: Key): (i: int)
    ensures -1 <= i < |events| && (i >= 0 ==> events[i].Call? && events[i].key == k)
  {
    if events == [] then -1
    else
      var n := |events| - 1;
      if events[n].key == k then (if events[n].Call? then n else -1) else Last(events[..n], k)
  }

  /** How many calls with this key there were since its last deletion. */
  function Calls(events: seq<Event>, k: Key): nat {
    if events == [] then 0
    else
      var n := |events| - 1;
      if events[n].key != k then Calls(events[..n], k)
      else if events[n].Call? then Calls(events[..n], k) + 1 else 0
  }

  /** The record of the last call with this key. */
  function Expected(events: seq<Event>, k: Key): Record
    requires Last(events, k) >= 0
  {
    var e := events[Last(events, k)];
    Record(k, e.name, e.time, e.duration, if Calls(events, k) > 0 then Calls(events, k) - 1 else 0)
  }

  predicate Logged(log: seq<Record>, k: Key) { exists i :: 0 <= i < |log| && log[i].key == k }

  /** Each record is the last call's of its key, and later calls are further up. */
  ghost predicate Right(events: seq<Event>, log: seq<Record>) {
    && (forall i :: 0 <= i < |log| ==> Last(events, log[i].key) >= 0 && log[i] == Expected(events, log[i].key))
    && (forall i, j :: 0 <= i < j < |log| ==> Last(events, log[i].key) > Last(events, log[j].key))
  }

  /** Where a record that is left after a deletion was before it. */
  function Origin(log: seq<Record>, k: Key, i: nat): (j: nat)
    requires i < |Delete(log, k)|
    ensures j < |log| && log[j] == Delete(log, k)[i] && log[j].key != k
  {
    if log[0].key == k then 1 + Origin(log[1..], k, i)
    else if i == 0 then 0 else 1 + Origin(log[1..], k, i - 1)
  }

  lemma {:induction false} OriginRises(log: seq<Record>, k: Key, i: nat, j: nat)
    requires i < j < |Delete(log, k)|
    ensures Origin(log, k, i) < Origin(log, k, j)
    decreases |log|
  {
    if log[0].key == k {
      OriginRises(log[1..], k, i, j);
    } else if i > 0 {
      OriginRises(log[1..], k, i - 1, j - 1);
    }
  }

  lemma {:induction false} DeleteKeeps(events: seq<Event>, log: seq<Record>, k: Key)
    requires Right(events, log)
    ensures Right(events, Delete(log, k))
  {
    hide Last, Expected, Delete, Origin;
    var rest := Delete(log, k);
    forall i | 0 <= i < |rest|
      ensures Last(events, rest[i].key) >= 0 && rest[i] == Expected(events, rest[i].key)
    {
      assert log[Origin(log, k, i)] == rest[i];
    }
    forall i, j | 0 <= i < j < |rest|
      ensures Last(events, rest[i].key) > Last(events, rest[j].key)
    {
      OriginRises(log, k, i, j);
      assert log[Origin(log, k, i)] == rest[i] && log[Origin(log, k, j)] == rest[j];
    }
  }

  lemma {:induction false} LoggedSplits(r: Record, log: seq<Record>, k: Key)
    ensures Logged([r] + log, k) <==> r.key == k || Logged(log, k)
  {
    if r.key == k {
      assert ([r] + log)[0].key == k;
    }
    if Logged(log, k) {
      var i :| 0 <= i < |log| && log[i].key == k;
      assert ([r] + log)[i + 1].key == k;
    }
    if Logged([r] + log, k) && r.key != k {
      var i :| 0 <= i < |[r] + log| && ([r] + log)[i].key == k;
      assert log[i - 1].key == k;
    }
  }

  lemma {:induction false} LoggedNone(k: Key)
    ensures !Logged([], k)
  {
  }

  lemma {:induction false} DeleteLogged(log: seq<Record>, d: Key, k: Key)
    ensures Logged(Delete(log, d), k) <==> Logged(log, k) && k != d
    decreases |log|
  {
    hide Logged;
    if log == [] {
      LoggedNone(k);
    } else {
      DeleteLogged(log[1..], d, k);
      LoggedSplits(log[0], log[1..], k);
      LoggedSplits(log[0], Delete(log[1..], d), k);
      assert log == [log[0]] + log[1..];
    }
  }

  lemma {:induction false} FindIs(log: seq<Record>, k: Key)
    ensures Find(log, k).Some? <==> Logged(log, k)
    ensures Find(log, k).Some? ==> Find(log, k).value.key == k && Find(log, k).value in log
    decreases |log|
  {
    hide Logged;
    if log == [] {
      LoggedNone(k);
    } else {
      FindIs(log[1..], k);
      LoggedSplits(log[0], log[1..], k);
      assert log == [log[0]] + log[1..];
    }
  }

  // ---------------------------------------------------------------------------
  // The log agrees with the history
  // ---------------------------------------------------------------------------

  /** An event leaves the history of other keys as it was. */
  lemma {:induction false} OtherKeys(events: seq<Event>, e: Event, k: Key)
    requires e.key != k
    ensures Last(events + [e], k) == Last(events, k) && Calls(events + [e], k) == Calls(events, k)
    ensures Last(events, k) >= 0 ==> Expected(events + [e], k) == Expected(events, k)
  {
    assert (events + [e])[..|events|] == events;
  }

  lemma {:induction false} OwnKey(events: seq<Event>, e: Event)
    ensures Last(events + [e], e.key) == if e.Call? then |events| else -1
    ensures Calls(events + [e], e.key) == if e.Call? then Calls(events, e.key) + 1 else 0
  {
    assert (events + [e])[..|events|] == events;
  }

  /** The history has a call that counts exactly if it has a last one. */
  lemma {:induction false} CallsAndLast(events: seq<Event>, k: Key)
    ensures Calls(events, k) > 0 <==> Last(events, k) >= 0
    decreases |events|
  {
    if events != [] {
      CallsAndLast(events[..|events| - 1], k);
    }
  }

  lemma {:induction false} RightWithout(events: seq<Event>, e: Event, log: seq<Record>)
    requires Right(events, log) && !Logged(log, e.key)
    ensures Right(events + [e], log)
  {
    hide Last, Expected, Calls;
    forall i | 0 <= i < |log|
      ensures Last(events + [e], log[i].key) == Last(events, log[i].key)
      ensures Last(events, log[i].key) >= 0 && log[i] == Expected(events + [e], log[i].key)
    {
      OtherKeys(events, e, log[i].key);
    }
  }

  lemma {:induction false} RightOnTop(events: seq<Event>, log: seq<Record>, r: Record)
    requires Right(events, log) && Last(events, r.key) == |events| - 1 >= 0 && r == Expected(events, r.key)
    requires !Logged(log, r.key)
    ensures Right(events, [r] + log)
  {
    hide Last, Expected, Calls;
    forall j | 0 <= j < |log|
      ensures Last(events, log[j].key) < |events| - 1
    {
      LastDiffers(events, log[j].key, r.key);
    }
    forall i, j | 0 <= i < j < |[r] + log|
      ensures Last(events, ([r] + log)[i].key) > Last(events, ([r] + log)[j].key)
    {
      assert ([r] + log)[j] == log[j - 1];
      if i > 0 {
        assert ([r] + log)[i] == log[i - 1];
      }
    }
  }

  lemma {:induction false} LastDiffers(events: seq<Event>, k: Key, l: Key)
    requires k != l && Last(events, l) >= 0
    ensures Last(events, k) != Last(events, l)
  {
  }

  lemma {:induction false} CountIs(events: seq<Event>, log: seq<Record>, k: Key)
    requires Right(events, log) && Logged(log, k) && Find(log, k).Some?
    ensures Find(log, k).value.count + 1 == Calls(events, k)
  {
    hide Last, Calls, Find;
    FindIs(log, k);
    CallsAndLast(events, k);
    var r := Find(log, k).value;
    var i :| 0 <= i < |log| && log[i] == r;
  }

  lemma {:induction false} RightStep(events: seq<Event>, log: seq<Record>, e: Event)
    requires Right(events, log) && forall k :: Logged(log, k) <==> Last(events, k) >= 0
    ensures Right(events + [e], Step(log, e)) && forall k :: Logged(Step(log, e), k) <==> Last(events + [e], k) >= 0
  {
    hide Right, Logged, Last, Calls, Find, Delete;
    var rest := Delete(log, e.key);
    DeleteKeeps(events, log, e.key);
    DeleteLogged(log, e.key, e.key);
    RightWithout(events, e, rest);
    OwnKey(events, e);
    FindIs(log, e.key);
    if e.Call? {
      CallsAndLast(events, e.key);
      var r := Expected(events + [e], e.key);
      if Find(log, e.key).Some? {
        CountIs(events, log, e.key);
        assert Step(log, e) == [r] + rest;
      } else {
        NothingDeleted(log, e.key);
        assert Step(log, e) == [r] + rest;
      }
      RightOnTop(events + [e], rest, r);
    }
    forall k
      ensures Logged(Step(log, e), k) <==> Last(events + [e], k) >= 0
    {
      DeleteLogged(log, e.key, k);
      if k != e.key {
        OtherKeys(events, e, k);
      }
      if e.Call? {
        LoggedSplits(Expected(events + [e], e.key), rest, k);
      }
    }
  }

  lemma {:induction false} NothingDeleted(log: seq<Record>, k: Key)
    requires !Logged(log, k)
    ensures Delete(log, k) == log
    decreases |log|
  {
    if log != [] {
      hide Logged;
      LoggedSplits(log[0], log[1..], k);
      assert log == [log[0]] + log[1..];
      NothingDeleted(log[1..], k);
    }
  }

  /**
   After any calls and deletions, the log has a record for exactly the keys called since they
   were last deleted: that of the last such call, counting the ones before it, later calls on
   top of earlier ones.  So there is one record for each key.
   */
  lemma {:induction false} LogIsHistory(events: seq<Event>)
    ensures Right(events, After(events))
    ensures forall k :: Logged(After(events), k) <==> Last(events, k) >= 0
    decreases |events|
  {
    hide Right, Logged, Step;
    if events == [] {
      NothingYet();
    } else {
      var n := |events| - 1;
      LogIsHistory(events[..n]);
      RightStep(events[..n], After(events[..n]), events[n]);
      assert events[..n] + [events[n]] == events;
    }
  }

  lemma {:induction false} NothingYet()
    ensures Right([], []) && forall k :: !Logged([], k) && Last([], k) == -1
  {
  }

  lemma {:induction false} OneEach(events: seq<Event>, i: nat, j: nat)
    requires i < j < |After(events)|
    ensures After(events)[i].key != After(events)[j].key
  {
    hide After;
    LogIsHistory(events);
  }

  // ---------------------------------------------------------------------------
  // The log object
  // ---------------------------------------------------------------------------

  class Calllog {
    var list: seq<Record>

    constructor ()
      ensures list == []
    {
      list := [];
    }

    method FindRecord(k: Key) returns (r: Option<Record>)
      ensures r == Find(list, k)
    {
      var i := 0;
      assert list[0..] == list;
      while i < |list|
        invariant 0 <= i <= |list| && Find(list, k) == Find(list[i..], k)
      {
        if list[i].key == k {
          return Some(list[i]);
        }
        assert list[i..][1..] == list[i + 1..];
        i := i + 1;
      }
      return None;
    }

    /** Empties the stack and pushes back, from the lowest up, the records to keep. */
    method DeleteRecord(k: Key)
      modifies this
      ensures list == Delete(old(list), k)
    {
      var items := list;
      var i := |items|;
      list := [];
      while i > 0
        invariant 0 <= i <= |items| && list == Delete(items[i..], k)
      {
        i := i - 1;
        assert items[i..][1..] == items[i + 1..];
        if items[i].key != k {
          list := [items[i]] + list;
        }
      }
      assert items[0..] == items;
    }

    method AddRecord(r: Record)
      modifies this
      ensures list == Add(old(list), r)
    {
      var item := FindRecord(r.key);
      if item.None? {
        list := [r] + list;
      } else {
        DeleteRecord(r.key);
        list := [r.(count := item.value.count + 1)] + list;
      }
    }

    method AddCall(key: Key, name: string, time: int, duration: int)
      modifies this
      ensures list == Step(old(list), Call(key, name, time, duration))
    {
      AddRecord(Record(key, name, time, duration, 0));
    }
  }
}
