/** The room checks of the packet printer, and what they are worth. */
module DnsRoom {
  import opened Buffers
  import opened DnsName
  import opened DnsPacket
  import opened Wrappers

  // ---------------------------------------------------------------------------
  // The checks
  // ---------------------------------------------------------------------------

  /** What is left of the room behind a name; a pointer is put down without looking. */
  function NameRoom(pkt: seq<Byte>, gap: nat, name: Name, tab: seq<Label>, room: nat): (r: Option<int>)
    requires Within(|pkt|, tab)
    ensures r.Some? && room >= 2 ==> r.value >= 0
  {
    var n := |PrintName(pkt, gap, name, tab).bytes|;
    if FindLabel(pkt, tab, name, 0) < |tab| || n <= room then Some(room - n) else None
  }

  /** Questions: the type and class behind a name must fit but are not taken off the room. */
  function QueriesRoom(pkt: seq<Byte>, queries: seq<Query>, tab: seq<Label>, room: nat): Option<nat>
    requires Within(|pkt|, tab)
    decreases |queries|
  {
    if queries == [] then Some(room)
    else
      var n := PrintName(pkt, 0, queries[0].name, tab);
      var left := NameRoom(pkt, 0, queries[0].name, tab, room);
      if left.None? || left.value < 4 then None
      else QueriesRoom(pkt + (n.bytes + QueryTail(queries[0])), queries[1..], n.tab, left.value)
  }

  function DataRoom(pkt: seq<Byte>, rr: Record, tab: seq<Label>, room: nat): (r: Option<nat>)
    requires Within(|pkt|, tab)
  {
    if rr.rtype == TYPE_A && rr.rdata.Address? then if room < 6 then None else Some(room - 6)
    else if IsHostType(rr.rtype) && rr.rdata.Host? then
      if room < 4 then None
      else
        var left := NameRoom(pkt, 2, rr.rdata.target, tab, room - 2);
        if left.None? then None else Some(left.value)
    else if rr.rtype == TYPE_SRV && rr.rdata.Service? then
      if room < 10 then None
      else
        var left := NameRoom(pkt, 8, rr.rdata.target, tab, room - 8);
        if left.None? then None else Some(left.value)
    else None
  }

  function RecordRoom(pkt: seq<Byte>, rr: Record, tab: seq<Label>, room: nat): Option<nat>
    requires Within(|pkt|, tab)
  {
    var n := PrintName(pkt, 0, rr.name, tab);
    var left := NameRoom(pkt, 0, rr.name, tab, room);
    if left.None? || left.value < 8 then None else DataRoom(pkt + Head(n.bytes, rr), rr, n.tab, left.value - 8)
  }

  function RecordsRoom(pkt: seq<Byte>, records: seq<Record>, tab: seq<Label>, room: nat): (r: Option<nat>)
    requires Within(|pkt|, tab)
    ensures r.Some? ==> PrintRecords(pkt, records, tab).Some?
    decreases |records|
  {
    if records == [] then Some(room)
    else
      var left := RecordRoom(pkt, records[0], tab, room);
      if left.None? then None
      else
        var one := PrintRecord(pkt, records[0], tab).value;
        RecordsRoom(pkt + one.bytes, records[1..], one.tab, left.value)
  }

  /** The room left behind a packet that passes every check of a printer given `size` bytes. */
  function PacketRoom(p: Packet, size: nat): Option<nat> {
    if size < 12 then None
    else
      var head := PutHeader(p);
      var q := PrintQueries(head, p.queries, []);
      var r0 := QueriesRoom(head, p.queries, [], size - 12);
      if r0.None? then None
      else
        var s0 := head + q.bytes;
        var r1 := RecordsRoom(s0, p.answers, q.tab, r0.value);
        if r1.None? then None
        else
          var an := PrintRecords(s0, p.answers, q.tab).value;
          var s1 := s0 + an.bytes;
          var r2 := RecordsRoom(s1, p.authorities, an.tab, r1.value);
          if r2.None? then None
          else
            var ns := PrintRecords(s1, p.authorities, an.tab).value;
            RecordsRoom(s1 + ns.bytes, p.additional, ns.tab, r2.value)
  }

  // ---------------------------------------------------------------------------
  // What passes
  // ---------------------------------------------------------------------------

  lemma {:induction false} NameRoomIs(pkt: seq<Byte>, gap: nat, name: Name, tab: seq<Label>, room: nat, more: nat)
    requires Within(|pkt|, tab)
    ensures var n, r := |PrintName(pkt, gap, name, tab).bytes|, NameRoom(pkt, gap, name, tab, room);
            && (r.Some? ==> r.value == room - n)
            && (r.Some? && r.value >= more <==> n + more <= room)
  {
    hide FindLabel, Wire;
  }

  /** What was printed of the questions, and the four bytes that each leaves out of account. */
  lemma {:induction false} QueriesRoomIs(pkt: seq<Byte>, queries: seq<Query>, tab: seq<Label>, room: nat)
    requires Within(|pkt|, tab)
    ensures var n := |PrintQueries(pkt, queries, tab).bytes|;
            && n >= 5 * |queries|
            && QueriesRoom(pkt, queries, tab, room)
               == if queries != [] && n > room + 4 * (|queries| - 1) then None else Some(room + 4 * |queries| - n)
    decreases |queries|
  {
    hide NameRoom, PrintName;
    if queries != [] {
      var n := PrintName(pkt, 0, queries[0].name, tab);
      NameRoomIs(pkt, 0, queries[0].name, tab, room, 4);
      var one := n.bytes + QueryTail(queries[0]);
      TailSize(queries[0]);
      var left := room - |n.bytes|;
      QueriesRoomIs(pkt + one, queries[1..], n.tab, if left >= 4 then left else 0);
    }
  }

  lemma {:induction false} TailSize(q: Query)
    ensures |QueryTail(q)| == 4
  {
  }

  /** An address of four bytes in a record that has one. */
  predicate Sized(rr: Record) { rr.rtype == TYPE_A && rr.rdata.Address? ==> |rr.rdata.ip| == 4 }

  /** One byte more is asked for where the data ends in a target printed as nothing but the root. */
  function DataSpare(pkt: seq<Byte>, rr: Record, tab: seq<Label>): (r: nat)
    requires Within(|pkt|, tab)
    ensures r <= 1
  {
    if IsHostType(rr.rtype) && rr.rdata.Host? && |PrintName(pkt, 2, rr.rdata.target, tab).bytes| == 1 then 1
    else if rr.rtype == TYPE_SRV && rr.rdata.Service? && |PrintName(pkt, 8, rr.rdata.target, tab).bytes| == 1 then 1
    else 0
  }

  lemma {:induction false} DataRoomIs(pkt: seq<Byte>, rr: Record, tab: seq<Label>, room: nat)
    requires Within(|pkt|, tab) && Sized(rr)
    ensures var d, r := PrintData(pkt, rr, tab), DataRoom(pkt, rr, tab, room);
            && (d.None? ==> r.None?)
            && (d.Some? ==> r == if |d.value.bytes| + DataSpare(pkt, rr, tab) > room then None
                                 else Some(room - |d.value.bytes|))
  {
    hide NameRoom, PrintName, Within;
    if IsHostType(rr.rtype) && rr.rdata.Host? && room >= 4 {
      NameRoomIs(pkt, 2, rr.rdata.target, tab, room - 2, 0);
    } else if rr.rtype == TYPE_SRV && rr.rdata.Service? && room >= 10 {
      NameRoomIs(pkt, 8, rr.rdata.target, tab, room - 8, 0);
    }
  }

  /** The spare byte of a record. */
  function RecordSpare(pkt: seq<Byte>, rr: Record, tab: seq<Label>): (r: nat)
    requires Within(|pkt|, tab)
    ensures r <= 1
  {
    var n := PrintName(pkt, 0, rr.name, tab);
    DataSpare(pkt + Head(n.bytes, rr), rr, n.tab)
  }

  lemma {:induction false} RecordRoomIs(pkt: seq<Byte>, rr: Record, tab: seq<Label>, room: nat)
    requires Within(|pkt|, tab) && Sized(rr)
    ensures var d, r := PrintRecord(pkt, rr, tab), RecordRoom(pkt, rr, tab, room);
            && (d.None? ==> r.None?)
            && (d.Some? ==> |d.value.bytes| >= 9)
            && (d.Some? ==> r == if |d.value.bytes| + RecordSpare(pkt, rr, tab) > room then None
                                 else Some(room - |d.value.bytes|))
  {
    hide NameRoom, PrintName, DataRoom, PrintData, DataSpare, Head;
    var n := PrintName(pkt, 0, rr.name, tab);
    HeadSize(n.bytes, rr);
    NameRoomIs(pkt, 0, rr.name, tab, room, 8);
    if |n.bytes| + 8 <= room {
      DataRoomIs(pkt + Head(n.bytes, rr), rr, n.tab, room - |n.bytes| - 8);
    }
  }

  lemma {:induction false} HeadSize(name: seq<Byte>, rr: Record)
    ensures |Head(name, rr)| == |name| + 8
  {
  }

  /** The spare byte of the record printed last. */
  function LastSpare(pkt: seq<Byte>, records: seq<Record>, tab: seq<Label>): (r: nat)
    requires Within(|pkt|, tab)
    ensures r <= 1
    decreases |records|
  {
    if records == [] then 0
    else
      var one := PrintRecord(pkt, records[0], tab);
      if one.None? then 0
      else if |records| == 1 then RecordSpare(pkt, records[0], tab)
      else LastSpare(pkt + one.value.bytes, records[1..], one.value.tab)
  }

  lemma {:induction false} RecordsRoomIs(pkt: seq<Byte>, records: seq<Record>, tab: seq<Label>, room: nat)
    requires Within(|pkt|, tab) && forall i :: 0 <= i < |records| ==> Sized(records[i])
    ensures var d, r := PrintRecords(pkt, records, tab), RecordsRoom(pkt, records, tab, room);
            && (d.None? ==> r.None?)
            && (d.Some? ==> |d.value.bytes| >= 9 * |records|)
            && (d.Some? ==> r == if |d.value.bytes| + LastSpare(pkt, records, tab) > room then None
                                 else Some(room - |d.value.bytes|))
    decreases |records|
  {
    hide RecordRoom, RecordSpare, PrintRecord, Sized;
    if records != [] {
      RecordRoomIs(pkt, records[0], tab, room);
      var one := PrintRecord(pkt, records[0], tab);
      if one.Some? {
        var left := room - |one.value.bytes|;
        RecordsRoomIs(pkt + one.value.bytes, records[1..], one.value.tab, if left >= 0 then left else 0);
      }
    }
  }

  /** What is printed and what is still to come. */
  function Total(b: seq<Byte>, rest: Option<Printed>): Option<Printed> {
    if rest.None? then None else Some(Printed(b + rest.value.bytes, rest.value.tab))
  }

  lemma {:induction false} TotalNext(b: seq<Byte>, one: seq<Byte>, rest: Option<Printed>)
    ensures Total(b, Total(one, rest)) == Total(b + one, rest)
  {
    if rest.Some? {
      Regroup(b, one, rest.value.bytes);
    }
  }

  lemma {:induction false} Regroup(a: seq<Byte>, b: seq<Byte>, c: seq<Byte>)
    ensures a + (b + c) == a + b + c
  {
  }

  lemma {:induction false} RecordsNext(b: seq<Byte>, records: seq<Record>, tab: seq<Label>)
    requires Within(|b|, tab) && records != []
    ensures var one := PrintRecord(b, records[0], tab);
            if one.None? then PrintRecords(b, records, tab) == None
            else
              var rest := PrintRecords(b + one.value.bytes, records[1..], one.value.tab);
              PrintRecords(b, records, tab) == Total(one.value.bytes, rest)
  {
    hide PrintRecord;
  }

  lemma {:induction false} RecordsNone(b: seq<Byte>, tab: seq<Label>)
    requires Within(|b|, tab)
    ensures PrintRecords(b, [], tab) == Some(Printed([], tab))
  {
  }

  lemma {:induction false} PrintedParts(pkt: seq<Byte>, a: seq<Record>, b: seq<Record>, tab: seq<Label>)
    requires Within(|pkt|, tab)
    ensures var d, all := PrintRecords(pkt, a, tab), PrintRecords(pkt, a + b, tab);
            if d.None? then all == None
            else all == Total(d.value.bytes, PrintRecords(pkt + d.value.bytes, b, d.value.tab))
    decreases |a|
  {
    hide PrintRecord, PrintRecords;
    if a == [] {
      assert a + b == b && pkt + [] == pkt;
      RecordsNone(pkt, tab);
      TotalNone(PrintRecords(pkt, b, tab));
    } else {
      assert (a + b)[1..] == a[1..] + b;
      RecordsNext(pkt, a, tab);
      RecordsNext(pkt, a + b, tab);
      var one := PrintRecord(pkt, a[0], tab);
      if one.Some? {
        var x := one.value.bytes;
        PrintedParts(pkt + x, a[1..], b, one.value.tab);
        var d := PrintRecords(pkt + x, a[1..], one.value.tab);
        if d.Some? {
          Regroup(pkt, x, d.value.bytes);
          TotalNext(x, d.value.bytes, PrintRecords(pkt + x + d.value.bytes, b, d.value.tab));
        }
      }
    }
  }

  lemma {:induction false} TotalNone(rest: Option<Printed>)
    ensures Total([], rest) == rest
  {
    assert rest.Some? ==> [] + rest.value.bytes == rest.value.bytes;
  }

  lemma {:induction false} RoomParts(pkt: seq<Byte>, a: seq<Record>, b: seq<Record>, tab: seq<Label>, room: nat)
    requires Within(|pkt|, tab)
    ensures var r, all := RecordsRoom(pkt, a, tab, room), RecordsRoom(pkt, a + b, tab, room);
            if r.None? then all == None
            else
              var d := PrintRecords(pkt, a, tab).value;
              all == RecordsRoom(pkt + d.bytes, b, d.tab, r.value)
    decreases |a|
  {
    hide PrintRecord, RecordRoom;
    if a == [] {
      assert a + b == b && pkt + [] == pkt;
    } else {
      assert (a + b)[1..] == a[1..] + b;
      var left := RecordRoom(pkt, a[0], tab, room);
      if left.Some? {
        RecordPasses(pkt, a[0], tab, room);
        var one := PrintRecord(pkt, a[0], tab).value;
        RoomParts(pkt + one.bytes, a[1..], b, one.tab, left.value);
        if RecordsRoom(pkt + one.bytes, a[1..], one.tab, left.value).Some? {
          var d := PrintRecords(pkt + one.bytes, a[1..], one.tab).value;
          assert pkt + one.bytes + d.bytes == pkt + (one.bytes + d.bytes);
        }
      }
    }
  }

  lemma {:induction false} RecordPasses(pkt: seq<Byte>, rr: Record, tab: seq<Label>, room: nat)
    requires Within(|pkt|, tab) && RecordRoom(pkt, rr, tab, room).Some?
    ensures PrintRecord(pkt, rr, tab).Some?
  {
  }

  // ---------------------------------------------------------------------------
  // Whole packets
  // ---------------------------------------------------------------------------

  function AllRecords(p: Packet): seq<Record> { p.answers + p.authorities + p.additional }

  predicate SizedPacket(p: Packet) { forall i :: 0 <= i < |AllRecords(p)| ==> Sized(AllRecords(p)[i]) }

  function Printing(p: Packet): (seq<Byte>, seq<Label>) {
    var q := PrintQueries(PutHeader(p), p.queries, []);
    (PutHeader(p) + q.bytes, q.tab)
  }

  lemma {:induction false} PacketPrinting(p: Packet)
    ensures var s := Printing(p);
            && Within(|s.0|, s.1)
            && var d := PrintRecords(s.0, AllRecords(p), s.1);
            PrintPacket(p) == if d.None? then None else Some(s.0 + d.value.bytes)
  {
    hide PutHeader, PrintQueries, PrintRecords;
    var s := Printing(p);
    PrintedParts(s.0, p.answers, p.authorities, s.1);
    PrintedParts(s.0, p.answers + p.authorities, p.additional, s.1);
    var an := PrintRecords(s.0, p.answers, s.1);
    if an.Some? {
      var ns := PrintRecords(s.0 + an.value.bytes, p.authorities, an.value.tab);
      if ns.Some? {
        var s2 := s.0 + an.value.bytes + ns.value.bytes;
        assert s.0 + (an.value.bytes + ns.value.bytes) == s2;
        var ar := PrintRecords(s2, p.additional, ns.value.tab);
        assert ar.Some? ==> s.0 + (an.value.bytes + ns.value.bytes + ar.value.bytes) == s2 + ar.value.bytes;
      }
    }
  }

  lemma {:induction false} PacketRooms(p: Packet, size: nat)
    requires size >= 12
    ensures var s := Printing(p);
            && Within(|s.0|, s.1)
            && var r := QueriesRoom(PutHeader(p), p.queries, [], size - 12);
            PacketRoom(p, size) == if r.None? then None else RecordsRoom(s.0, AllRecords(p), s.1, r.value)
  {
    hide PutHeader, PrintQueries, PrintRecords, QueriesRoom, RecordsRoom;
    var s := Printing(p);
    var r := QueriesRoom(PutHeader(p), p.queries, [], size - 12);
    if r.Some? {
      RoomParts(s.0, p.answers, p.authorities, s.1, r.value);
      RoomParts(s.0, p.answers + p.authorities, p.additional, s.1, r.value);
      PrintedParts(s.0, p.answers, p.authorities, s.1);
      var r1 := RecordsRoom(s.0, p.answers, s.1, r.value);
      if r1.Some? {
        var an := PrintRecords(s.0, p.answers, s.1).value;
        var r2 := RecordsRoom(s.0 + an.bytes, p.authorities, an.tab, r1.value);
        if r2.Some? {
          var ns := PrintRecords(s.0 + an.bytes, p.authorities, an.tab).value;
          assert s.0 + (an.bytes + ns.bytes) == s.0 + an.bytes + ns.bytes;
        }
      }
    }
  }

  /** What the checks let a packet have too much: four bytes for each question that something follows. */
  function Slack(p: Packet): nat {
    if p.queries == [] then 0 else 4 * (|p.queries| - if AllRecords(p) == [] then 1 else 0)
  }

  function PacketSpare(p: Packet): (r: nat)
    ensures r <= 1
  {
    var s := Printing(p);
    LastSpare(s.0, AllRecords(p), s.1)
  }

  /**
   A packet passes the checks of a printer given `size` bytes exactly if it can be printed and its
   bytes, and the spare one, are at most `size` and four for each question that something follows.
   */
  lemma {:induction false} PassesWhenWithinSlack(p: Packet, size: nat)
    requires SizedPacket(p)
    ensures var d := PrintPacket(p);
            && (d.Some? ==> |d.value| >= 12 + Slack(p))
            && (PacketRoom(p, size).Some? <==> d.Some? && |d.value| + PacketSpare(p) <= size + Slack(p))
  {
    hide PutHeader, PrintQueries, PrintRecords, QueriesRoom, RecordsRoom, LastSpare, PrintPacket, PacketRoom, Sized;
    PacketPrinting(p);
    var s := Printing(p);
    QueriesRoomIs(PutHeader(p), p.queries, [], if size >= 12 then size - 12 else 0);
    var r := QueriesRoom(PutHeader(p), p.queries, [], if size >= 12 then size - 12 else 0);
    RecordsRoomIs(s.0, AllRecords(p), s.1, if r.Some? then r.value else 0);
    if size >= 12 {
      PacketRooms(p, size);
    } else {
      NoHeader(p, size);
    }
    if AllRecords(p) == [] {
      NoSpare(s.0, s.1);
    }
  }

  lemma {:induction false} NoHeader(p: Packet, size: nat)
    requires size < 12
    ensures PacketRoom(p, size) == None
  {
  }

  lemma {:induction false} NoSpare(pkt: seq<Byte>, tab: seq<Label>)
    requires Within(|pkt|, tab)
    ensures LastSpare(pkt, [], tab) == 0 && PrintRecords(pkt, [], tab) == Some(Printed([], tab))
  {
  }

  /**
   The checks can be relied on, whatever the size of the buffer, exactly for packets without
   questions and for packets of one question and nothing else.
   */
  lemma {:induction false} PacketChecksAreRight(p: Packet)
    requires SizedPacket(p) && PrintPacket(p).Some?
    ensures (forall size: nat :: PacketRoom(p, size).Some? ==> |PrintPacket(p).value| <= size)
            <==> p.queries == [] || (|p.queries| == 1 && AllRecords(p) == [])
  {
    hide PrintPacket, PacketRoom, PacketSpare, SizedPacket;
    var n := |PrintPacket(p).value|;
    forall size: nat
      ensures Slack(p) == 0 && PacketRoom(p, size).Some? ==> n <= size
    {
      PassesWhenWithinSlack(p, size);
    }
    PassesWhenWithinSlack(p, 0);
    var least := n + PacketSpare(p) - Slack(p);
    PassesWhenWithinSlack(p, least);
    if Slack(p) > 0 {
      assert PacketRoom(p, least).Some? && least < n;
    }
  }

  /** Any two questions pass in a buffer that is four bytes too small for them. */
  lemma {:induction false} TwoQuestionsOverrun(id: Word, flags: Word, a: Name, b: Name)
    ensures var p := TwoQuestions(id, flags, a, b);
            var d := PrintPacket(p);
            d.Some? && |d.value| >= 4 && PacketRoom(p, |d.value| - 4).Some?
  {
    hide PrintPacket, PacketRoom, PrintQueries, PutHeader;
    var p := TwoQuestions(id, flags, a, b);
    TwoQuestionsSize(id, flags, a, b);
    PassesWhenWithinSlack(p, 0);
    PassesWhenWithinSlack(p, |PrintPacket(p).value| - 4);
    NoSpare(Printing(p).0, Printing(p).1);
  }
}
