/** What the call log holds after a run of the call manager, which reports every call it destroys. */
module CallHistory {
  import CallControl
  import CallLog

  function KeyOf(r: CallControl.Record): CallLog.Key { CallLog.Key(r.number, r.kind) }

  /** The reports as calls of the log; `times` and `durations` say when and how long they were. */
  function Reports(log: seq<CallControl.Record>, times: nat -> int, durations: nat -> int): seq<CallLog.Event> {
    seq(|log|, i requires 0 <= i < |log| => CallLog.Call(KeyOf(log[i]), log[i].name, times(i), durations(i)))
  }

  /** How many of the destroyed calls were to be reported under this key. */
  function Destroyed(calls: seq<CallControl.Call>, k: CallLog.Key): nat {
    if calls == [] then 0
    else
      var n := |calls| - 1;
      Destroyed(calls[..n], k) + Reported(calls[n], k)
  }

  function Reported(c: CallControl.Call, k: CallLog.Key): nat {
    var r := CallControl.ExpectedRecord(c);
    if r != [] && KeyOf(r[0]) == k then 1 else 0
  }

  lemma {:induction false} ReportsLess(log: seq<CallControl.Record>, times: nat -> int, durations: nat -> int, n: nat)
    requires n <= |log|
    ensures Reports(log, times, durations)[..n] == Reports(log[..n], times, durations)
  {
  }

  /** Each destroyed call is one call of the log. */
  lemma {:induction false} CallsAreDestroyed(calls: seq<CallControl.Call>, times: nat -> int, durations: nat -> int,
                                             k: CallLog.Key)
    ensures CallLog.Calls(Reports(CallControl.ExpectedLog(calls), times, durations), k) == Destroyed(calls, k)
    decreases |calls|
  {
    hide CallControl.ExpectedRecord;
    var log := CallControl.ExpectedLog(calls);
    if calls != [] {
      var n := |calls| - 1;
      CallsAreDestroyed(calls[..n], times, durations, k);
      var before, r := CallControl.ExpectedLog(calls[..n]), CallControl.ExpectedRecord(calls[n]);
      AtMostOne(calls[n]);
      ReportsLess(log, times, durations, |before|);
      assert log[..|before|] == before;
      if r == [] {
        assert log == before;
      }
    }
  }

  lemma {:induction false} AtMostOne(c: CallControl.Call)
    ensures |CallControl.ExpectedRecord(c)| <= 1
  {
  }

  /**
   After every run of the manager, the log it reports to has a record for exactly the numbers and
   types of the calls destroyed, each counting the earlier ones of that number and type.
   */
  lemma {:induction false} RunFillsLog(run: seq<(CallControl.Event, CallControl.Env)>, times: nat -> int,
                                       durations: nat -> int, k: CallLog.Key)
    requires CallControl.IsRun(run)
    ensures var m := CallControl.After(CallControl.EMPTY, run);
            var log := CallLog.After(Reports(m.log, times, durations));
            && (CallLog.Logged(log, k) <==> Destroyed(m.destroyed, k) > 0)
            && (forall i :: 0 <= i < |log| ==> log[i].count + 1 == Destroyed(m.destroyed, log[i].key))
  {
    hide CallControl.After, CallControl.IsRun, CallLog.After, CallLog.Calls, CallLog.Last, CallLog.Logged, Reports, Destroyed;
    var m := CallControl.After(CallControl.EMPTY, run);
    var events := Reports(m.log, times, durations);
    CallControl.RunKeepsTable(run);
    CallLog.LogIsHistory(events);
    CallsAreDestroyed(m.destroyed, times, durations, k);
    CallLog.CallsAndLast(events, k);
    var log := CallLog.After(events);
    forall i | 0 <= i < |log|
      ensures log[i].count + 1 == Destroyed(m.destroyed, log[i].key)
    {
      CallsAreDestroyed(m.destroyed, times, durations, log[i].key);
      CallLog.CallsAndLast(events, log[i].key);
    }
  }
}
