/** The loops over a DNS message: reading its sections, and writing them into a packet buffer. */
module DnsMessages {
  import opened Buffers
  import opened DnsName
  import opened DnsPacket
  import opened DnsRoom
  import opened Wrappers

  // ---------------------------------------------------------------------------
  // Reading
  // ---------------------------------------------------------------------------

  /** What was read so far, before the outcome of reading the rest. */
  function Behind<T>(done: seq<T>, r: Result<(seq<T>, nat)>): Result<(seq<T>, nat)> {
    if r.Err? then r else Ok((done + r.value.0, r.value.1))
  }

  lemma {:induction false} BehindNext<T>(done: seq<T>, x: T, r: Result<(seq<T>, nat)>)
    ensures Behind(done, Behind([x], r)) == Behind(done + [x], r)
  {
    if r.Ok? {
      assert done + ([x] + r.value.0) == done + [x] + r.value.0;
    }
  }

  lemma {:induction false} BehindNothing<T>(done: seq<T>, r: Result<(seq<T>, nat)>, p: nat)
    ensures Behind([], r) == r && Behind(done, Ok(([], p))) == Ok((done, p))
  {
    if r.Ok? {
      assert [] + r.value.0 == r.value.0;
    }
    assert done + [] == done;
  }

  lemma {:induction false} QueriesStep(m: Memory, max: nat, p: nat, count: nat)
    ensures ParseQueries(m, max, p, 0) == Ok(([], p))
    ensures count > 0 ==>
              var x := ParseQuery(m, max, p);
              ParseQueries(m, max, p, count)
              == if x.Err? then Err(x.error) else Behind([x.value.0], ParseQueries(m, max, x.value.1, count - 1))
  {
    hide ParseQuery;
  }

  lemma {:induction false} RecordsStep(m: Memory, max: nat, p: nat, count: nat)
    ensures ParseRecords(m, max, p, 0) == Ok(([], p))
    ensures count > 0 ==>
              var x := ParseRecord(m, max, p);
              ParseRecords(m, max, p, count)
              == if x.Err? then Err(x.error) else Behind([x.value.0], ParseRecords(m, max, x.value.1, count - 1))
  {
    hide ParseRecord;
  }

  method ReadQueries(m: Memory, max: nat, start: nat, count: nat) returns (r: Result<(seq<Query>, nat)>)
    ensures r == ParseQueries(m, max, start, count)
  {
    hide ParseQueries, ParseQuery, Behind;
    var p, i := start, 0;
    var done: seq<Query> := [];
    BehindNothing(done, ParseQueries(m, max, start, count), p);
    while i < count
      invariant 0 <= i <= count
      invariant ParseQueries(m, max, start, count) == Behind(done, ParseQueries(m, max, p, count - i))
    {
      QueriesStep(m, max, p, count - i);
      var x := ParseQuery(m, max, p);
      if x.Err? {
        BehindErr(done, x.error);
        return Err(x.error);
      }
      BehindNext(done, x.value.0, ParseQueries(m, max, x.value.1, count - i - 1));
      done, p, i := done + [x.value.0], x.value.1, i + 1;
    }
    QueriesStep(m, max, p, 0);
    BehindNothing(done, Ok((done, p)), p);
    return Ok((done, p));
  }

  lemma {:induction false} BehindErr<T>(done: seq<T>, e: Error)
    ensures Behind(done, Err(e)) == Err(e)
  {
  }

  method ReadRecords(m: Memory, max: nat, start: nat, count: nat) returns (r: Result<(seq<Record>, nat)>)
    ensures r == ParseRecords(m, max, start, count)
  {
    hide ParseRecords, ParseRecord, Behind;
    var p, i := start, 0;
    var done: seq<Record> := [];
    BehindNothing(done, ParseRecords(m, max, start, count), p);
    while i < count
      invariant 0 <= i <= count
      invariant ParseRecords(m, max, start, count) == Behind(done, ParseRecords(m, max, p, count - i))
    {
      RecordsStep(m, max, p, count - i);
      var x := ParseRecord(m, max, p);
      if x.Err? {
        BehindErr(done, x.error);
        return Err(x.error);
      }
      BehindNext(done, x.value.0, ParseRecords(m, max, x.value.1, count - i - 1));
      done, p, i := done + [x.value.0], x.value.1, i + 1;
    }
    RecordsStep(m, max, p, 0);
    BehindNothing(done, Ok((done, p)), p);
    return Ok((done, p));
  }

  /** Reads a whole message, section after section. */
  method ReadPacket(m: Memory, size: nat) returns (r: Result<Packet>)
    ensures r == ParsePacket(m, size)
  {
    hide ParseQueries, ParseRecords, WordAt;
    if size < 12 {
      return Err(BadSize);
    }
    var q := ReadQueries(m, size, 12, WordAt(m, 4));
    if q.Err? {
      return Err(q.error);
    }
    var an := ReadRecords(m, size, q.value.1, WordAt(m, 6));
    if an.Err? {
      return Err(an.error);
    }
    var ns := ReadRecords(m, size, an.value.1, WordAt(m, 8));
    if ns.Err? {
      return Err(ns.error);
    }
    var ar := ReadRecords(m, size, ns.value.1, WordAt(m, 10));
    if ar.Err? {
      return Err(ar.error);
    }
    return Ok(Packet(WordAt(m, 0), WordAt(m, 2), q.value.0, an.value.0, ns.value.0, ar.value.0));
  }

  // ---------------------------------------------------------------------------
  // Writing
  // ---------------------------------------------------------------------------

  /** Writes behind the first `p` bytes. */
  method Append(pkt: array<Byte>, p: nat, bytes: seq<Byte>) returns (q: nat)
    requires p + |bytes| <= pkt.Length
    modifies pkt
    ensures q == p + |bytes| && pkt[..q] == old(pkt[..p]) + bytes
  {
    ghost var b := pkt[..];
    q := Put(pkt, p, bytes);
    assert b[..p] == old(pkt[..p]) && pkt[..][..q] == pkt[..q];
  }

  lemma {:induction false} FindInPrefix(a: seq<Byte>, b: seq<Byte>, tab: seq<Label>, name: Name, i: nat)
    requires Within(|a|, tab) && a <= b && i <= |tab|
    ensures FindLabel(b, tab, name, i) == FindLabel(a, tab, name, i)
    decreases |tab| - i
  {
    if i < |tab| {
      assert Raw(a, tab[i]) == Raw(b, tab[i]);
      FindInPrefix(a, b, tab, name, i + 1);
    }
  }

  /** Writes a name at `p`; names in the table lie within the first `base` bytes. */
  method WriteName(pkt: array<Byte>, base: nat, p: nat, name: Name, tab: seq<Label>, room: nat)
    returns (ok: bool, q: nat, tab': seq<Label>)
    requires base <= p && Within(base, tab) && p + room <= pkt.Length && p + 2 <= pkt.Length
    modifies pkt
    ensures ok <==> old(NameRoom(pkt[..base], p - base, name, tab, room)).Some?
    ensures ok ==>
              var r := old(PrintName(pkt[..base], p - base, name, tab));
              q == p + |r.bytes| <= pkt.Length && tab' == r.tab && pkt[..q] == old(pkt[..p]) + r.bytes
  {
    hide FindLabel, Wire, Overwrite;
    assert pkt[..base] <= pkt[..p];
    FindInPrefix(pkt[..base], pkt[..p], tab, name, 0);
    ghost var b := pkt[..];
    ok, q, tab' := AppendName(pkt, p, room, name, tab);
    if ok {
      OverwriteFront(b, p, PrintName(b[..p], 0, name, tab).bytes);
      assert b[..p] == old(pkt[..p]) && pkt[..][..q] == pkt[..q];
    }
  }

  /** Fills in a word that was left open. */
  method Patch(pkt: array<Byte>, p: nat, word: Word, q: nat, ghost whole: seq<Byte>)
    requires p + 2 <= q <= pkt.Length && pkt[..q] == whole
    modifies pkt
    ensures pkt[..q] == whole[..p] + (PutWord(word) + whole[p + 2..])
  {
    pkt[p], pkt[p + 1] := word / 256, word % 256;
  }

  /**
   Writes a record, unless the room runs out or its type is not supported.  A pointer may be
   written in front of the check that fails, so two more bytes can be touched.
   */
  method WriteRecord(pkt: array<Byte>, p: nat, rr: Record, tab: seq<Label>, room: nat)
    returns (ok: bool, q: nat, tab': seq<Label>, left: nat)
    requires Within(p, tab) && p + room + 2 <= pkt.Length && Sized(rr)
    modifies pkt
    ensures ok <==> old(RecordRoom(pkt[..p], rr, tab, room)).Some?
    ensures ok ==>
              && old(PrintRecord(pkt[..p], rr, tab)).Some?
              && var r := old(PrintRecord(pkt[..p], rr, tab)).value;
              && left == old(RecordRoom(pkt[..p], rr, tab, room)).value && p <= q && q + left == p + room
              && q == p + |r.bytes| && tab' == r.tab && pkt[..q] == old(pkt[..p]) + r.bytes
  {
    hide PrintName, PrintData, Head, NameRoom, DataRoom;
    left := 0;
    ghost var b, n := pkt[..p], PrintName(pkt[..p], 0, rr.name, tab);
    ok, q, tab' := WriteHead(pkt, p, rr, tab, room);
    if ok {
      ghost var head := Head(n.bytes, rr);
      HeadSize(n.bytes, rr);
      var rest := room - (q - p);
      ghost var d := PrintData(b + head, rr, n.tab);
      ok, q, tab', left := WriteData(pkt, q, rr, tab', rest);
      if ok {
        Regroup(b, head, d.value.bytes);
      }
    }
  }

  method WriteData(pkt: array<Byte>, p: nat, rr: Record, tab: seq<Label>, room: nat)
    returns (ok: bool, q: nat, tab': seq<Label>, left: nat)
    requires Within(p, tab) && p + room <= pkt.Length && Sized(rr)
    modifies pkt
    ensures ok <==> old(DataRoom(pkt[..p], rr, tab, room)).Some?
    ensures ok ==>
              && old(PrintData(pkt[..p], rr, tab)).Some?
              && var r := old(PrintData(pkt[..p], rr, tab)).value;
              && left == old(DataRoom(pkt[..p], rr, tab, room)).value && p <= q && q + left == p + room
              && q == p + |r.bytes| && tab' == r.tab && pkt[..q] == old(pkt[..p]) + r.bytes
  {
    hide PrintName, PutWord, Numbers, NameRoom;
    ok, q, tab', left := false, p, tab, 0;
    if rr.rtype == TYPE_A && rr.rdata.Address? {
      if room >= 6 {
        WordSize(4);
        q := Append(pkt, q, PutWord(4) + rr.rdata.ip);
        ok, left := true, room - 6;
      }
    } else if IsHostType(rr.rtype) && rr.rdata.Host? {
      if room >= 4 {
        ghost var t := PrintName(pkt[..p], 2, rr.rdata.target, tab);
        WordSize(|t.bytes| % 0x1_0000);
        NoFixed(PutWord(|t.bytes| % 0x1_0000), t.bytes);
        NameRoomIs(pkt[..p], 2, rr.rdata.target, tab, room - 2, 0);
        ok, q, tab' := WriteTarget(pkt, q, [], rr.rdata.target, tab', room - 2);
        left := if ok then room - (q - p) else 0;
      }
    } else if rr.rtype == TYPE_SRV && rr.rdata.Service? {
      if room >= 10 {
        ghost var t := PrintName(pkt[..p], 8, rr.rdata.target, tab);
        NumbersSize(rr.rdata, rr.rdata);
        WordSize((|t.bytes| + 6) % 0x1_0000);
        NameRoomIs(pkt[..p], 8, rr.rdata.target, tab, room - 8, 0);
        ok, q, tab' := WriteTarget(pkt, q, Numbers(rr.rdata), rr.rdata.target, tab', room - 8);
        left := if ok then room - (q - p) else 0;
      }
    }
  }

  lemma {:induction false} NoFixed(word: seq<Byte>, name: seq<Byte>)
    ensures word + [] + name == word + name
  {
  }

  method WriteHead(pkt: array<Byte>, p: nat, rr: Record, tab: seq<Label>, room: nat)
    returns (ok: bool, q: nat, tab': seq<Label>)
    requires Within(p, tab) && p + room + 2 <= pkt.Length
    modifies pkt
    ensures var left := old(NameRoom(pkt[..p], 0, rr.name, tab, room));
            && (ok <==> left.Some? && left.value >= 8)
            && (ok ==>
                  var n := old(PrintName(pkt[..p], 0, rr.name, tab));
                  && p <= q == p + room - left.value + 8 == p + |Head(n.bytes, rr)| <= p + room && tab' == n.tab
                  && pkt[..q] == old(pkt[..p]) + Head(n.bytes, rr))
  {
    hide PrintName, NameRoom;
    ghost var n := PrintName(pkt[..p], 0, rr.name, tab);
    HeadSize(n.bytes, rr);
    NameRoomIs(pkt[..p], 0, rr.name, tab, room, 8);
    ok, q, tab' := WriteName(pkt, p, p, rr.name, tab, room);
    ok := ok && room - (q - p) >= 8;
    if ok {
      q := Append(pkt, q, PutWord(rr.rtype) + PutWord(rr.dnsclass) + PutLong(rr.ttl));
      HeadParts(n.bytes, rr);
    }
  }

  lemma {:induction false} HeadParts(name: seq<Byte>, rr: Record)
    ensures name + (PutWord(rr.rtype) + PutWord(rr.dnsclass) + PutLong(rr.ttl)) == Head(name, rr)
  {
  }

  /** Writes a data length, some fixed data and a name in `room` bytes; the length is filled in last. */
  method WriteTarget(pkt: array<Byte>, p: nat, fixed: seq<Byte>, target: Name, tab: seq<Label>, room: nat)
    returns (ok: bool, q: nat, tab': seq<Label>)
    requires Within(p, tab) && 2 <= room && p + 2 + |fixed| + room <= pkt.Length
    modifies pkt
    ensures ok <==> old(NameRoom(pkt[..p], 2 + |fixed|, target, tab, room)).Some?
    ensures ok ==>
              var t := old(PrintName(pkt[..p], 2 + |fixed|, target, tab));
              && q == p + 2 + |fixed| + |t.bytes| <= pkt.Length && tab' == t.tab
              && pkt[..q] == old(pkt[..p]) + (PutWord((|t.bytes| + |fixed|) % 0x1_0000) + fixed + t.bytes)
  {
    hide PrintName, PutWord, NameRoom;
    ghost var b, open := pkt[..p], pkt[..p + 2];
    var at := Append(pkt, p + 2, fixed);
    ghost var t := PrintName(b, 2 + |fixed|, target, tab);
    OpenIs(b, open, fixed, t.bytes);
    assert pkt[..p] == pkt[..at][..p] == b;
    ok, q, tab' := WriteName(pkt, p, at, target, tab, room);
    if ok {
      Patch(pkt, p, (q - at + |fixed|) % 0x1_0000, q, open + fixed + t.bytes);
      Regroup(PutWord((|t.bytes| + |fixed|) % 0x1_0000), fixed, t.bytes);
    }
  }

  lemma {:induction false} OpenIs(b: seq<Byte>, open: seq<Byte>, fixed: seq<Byte>, t: seq<Byte>)
    requires |open| == |b| + 2 && open[..|b|] == b
    ensures (open + fixed)[..|b|] == b && (open + fixed + t)[..|b|] == b && (open + fixed + t)[|b| + 2..] == fixed + t
  {
  }

  method WriteQuery(pkt: array<Byte>, p: nat, q: Query, tab: seq<Label>, room: nat)
    returns (ok: bool, end: nat, tab': seq<Label>)
    requires Within(p, tab) && p + room + 2 <= pkt.Length
    modifies pkt
    ensures var left := old(NameRoom(pkt[..p], 0, q.name, tab, room));
            && (ok <==> left.Some? && left.value >= 4)
            && (ok ==>
                  var n := old(PrintName(pkt[..p], 0, q.name, tab));
                  && end == p + room - left.value + 4 == p + |n.bytes + QueryTail(q)| <= pkt.Length && tab' == n.tab
                  && pkt[..end] == old(pkt[..p]) + (n.bytes + QueryTail(q)))
  {
    hide PrintName, QueryTail, NameRoom;
    ghost var n := PrintName(pkt[..p], 0, q.name, tab);
    ghost var b := pkt[..p];
    TailSize(q);
    NameRoomIs(pkt[..p], 0, q.name, tab, room, 4);
    ok, end, tab' := WriteName(pkt, p, p, q.name, tab, room);
    ok := ok && room - (end - p) >= 4;
    if ok {
      end := Append(pkt, end, QueryTail(q));
      Regroup(b, n.bytes, QueryTail(q));
    }
  }

  lemma {:induction false} QueriesNext(b: seq<Byte>, queries: seq<Query>, tab: seq<Label>)
    requires Within(|b|, tab) && queries != []
    ensures var n := PrintName(b, 0, queries[0].name, tab);
            var one := n.bytes + QueryTail(queries[0]);
            && Within(|b + one|, n.tab)
            && var rest := PrintQueries(b + one, queries[1..], n.tab);
            PrintQueries(b, queries, tab) == Printed(one + rest.bytes, rest.tab)
  {
    hide PrintName, QueryTail;
  }

  lemma {:induction false} QueriesNone(b: seq<Byte>, tab: seq<Label>)
    requires Within(|b|, tab)
    ensures PrintQueries(b, [], tab) == Printed([], tab)
  {
  }

  lemma {:induction false} QueriesRoomNext(b: seq<Byte>, queries: seq<Query>, tab: seq<Label>, room: nat)
    requires Within(|b|, tab)
    ensures if queries == [] then QueriesRoom(b, queries, tab, room) == Some(room)
            else
              var n := PrintName(b, 0, queries[0].name, tab);
              var one, left := n.bytes + QueryTail(queries[0]), NameRoom(b, 0, queries[0].name, tab, room);
              && Within(|b + one|, n.tab)
              && QueriesRoom(b, queries, tab, room)
                 == if left.None? || left.value < 4 then None else QueriesRoom(b + one, queries[1..], n.tab, left.value)
  {
    hide PrintName, QueryTail, NameRoom;
  }

  /**
   Writes the questions.  The four bytes behind each name must fit but are not taken off the
   room, so that many more can be written.
   */
  method WriteQueries(pkt: array<Byte>, p: nat, queries: seq<Query>, tab: seq<Label>, room: nat)
    returns (ok: bool, q: nat, tab': seq<Label>, left: nat)
    requires Within(p, tab) && p + room + 4 * |queries| + 2 <= pkt.Length
    modifies pkt
    ensures ok <==> old(QueriesRoom(pkt[..p], queries, tab, room)).Some?
    ensures ok ==>
              var r := old(PrintQueries(pkt[..p], queries, tab));
              && left == old(QueriesRoom(pkt[..p], queries, tab, room)).value && q + left + 2 <= pkt.Length
              && q == p + |r.bytes| && tab' == r.tab && pkt[..q] == old(pkt[..p]) + r.bytes
  {
    hide PrintQueries, PrintName, QueryTail, QueriesRoom, NameRoom;
    ok, q, tab', left := true, p, tab, room;
    ghost var r, total := PrintQueries(pkt[..p], queries, tab), pkt[..p] + PrintQueries(pkt[..p], queries, tab).bytes;
    var i := 0;
    assert queries[0..] == queries;
    while i < |queries|
      invariant 0 <= i <= |queries| && p <= q && Within(q, tab') && ok
      invariant q + left + 4 * (|queries| - i) + 2 <= pkt.Length
      invariant old(QueriesRoom(pkt[..p], queries, tab, room)) == QueriesRoom(pkt[..q], queries[i..], tab', left)
      invariant var rest := PrintQueries(pkt[..q], queries[i..], tab');
                pkt[..q] + rest.bytes == total && rest.tab == r.tab
    {
      ghost var b, n := pkt[..q], PrintName(pkt[..q], 0, queries[i].name, tab');
      ghost var one := n.bytes + QueryTail(queries[i]);
      QueriesNext(b, queries[i..], tab');
      QueriesRoomNext(b, queries[i..], tab', left);
      assert queries[i..][1..] == queries[i + 1..];
      Regroup(b, one, PrintQueries(b + one, queries[i + 1..], n.tab).bytes);
      var at := q;
      ok, q, tab' := WriteQuery(pkt, q, queries[i], tab', left);
      if !ok {
        return;
      }
      left := left - (q - 4 - at);
      i := i + 1;
    }
    assert queries[i..] == [];
    QueriesNone(pkt[..q], tab');
    QueriesRoomNext(pkt[..q], [], tab', left);
    assert pkt[..q] + [] == pkt[..q];
  }

  lemma {:induction false} RecordsRoomNext(b: seq<Byte>, records: seq<Record>, tab: seq<Label>, room: nat)
    requires Within(|b|, tab)
    ensures if records == [] then RecordsRoom(b, records, tab, room) == Some(room)
            else
              var one, left := PrintRecord(b, records[0], tab), RecordRoom(b, records[0], tab, room);
              && (left.None? ==> RecordsRoom(b, records, tab, room) == None)
              && (left.Some? && one.Some? ==>
                    RecordsRoom(b, records, tab, room)
                    == RecordsRoom(b + one.value.bytes, records[1..], one.value.tab, left.value))
  {
    hide PrintRecord, RecordRoom;
  }

  method WriteRecords(pkt: array<Byte>, p: nat, records: seq<Record>, tab: seq<Label>, room: nat)
    returns (ok: bool, q: nat, tab': seq<Label>, left: nat)
    requires Within(p, tab) && p + room + 2 <= pkt.Length && forall i :: 0 <= i < |records| ==> Sized(records[i])
    modifies pkt
    ensures ok <==> old(RecordsRoom(pkt[..p], records, tab, room)).Some?
    ensures ok ==> left == old(RecordsRoom(pkt[..p], records, tab, room)).value && q + left + 2 <= pkt.Length
    ensures ok ==> Within(q, tab')
    ensures ok ==> old(Total(pkt[..p], PrintRecords(pkt[..p], records, tab))) == Some(Printed(pkt[..q], tab'))
  {
    hide PrintRecords, PrintRecord, RecordsRoom, RecordRoom, Total, Sized;
    ok, q, tab', left := true, p, tab, room;
    ghost var total := Total(pkt[..p], PrintRecords(pkt[..p], records, tab));
    var i := 0;
    assert records[0..] == records;
    while i < |records|
      invariant 0 <= i <= |records| && q + left + 2 <= pkt.Length && Within(q, tab') && ok
      invariant old(RecordsRoom(pkt[..p], records, tab, room)) == RecordsRoom(pkt[..q], records[i..], tab', left)
      invariant Total(pkt[..q], PrintRecords(pkt[..q], records[i..], tab')) == total
    {
      ghost var b, one := pkt[..q], PrintRecord(pkt[..q], records[i], tab');
      RecordsNext(b, records[i..], tab');
      RecordsRoomNext(b, records[i..], tab', left);
      assert records[i..][1..] == records[i + 1..];
      ok, q, tab', left := WriteRecord(pkt, q, records[i], tab', left);
      if !ok {
        return;
      }
      TotalNext(b, one.value.bytes, PrintRecords(b + one.value.bytes, records[i + 1..], one.value.tab));
      i := i + 1;
    }
    assert records[i..] == [];
    RecordsNone(pkt[..q], tab');
    RecordsRoomNext(pkt[..q], [], tab', left);
    TotalSome(pkt[..q], tab');
  }

  lemma {:induction false} TotalSome(b: seq<Byte>, tab: seq<Label>)
    ensures Total(b, Some(Printed([], tab))) == Some(Printed(b, tab))
  {
    assert b + [] == b;
  }

  /**
   Writes a whole packet into a buffer said to have `size` bytes, with all the checks of the
   printer.  The buffer has to have the bytes that the checks overlook.
   */
  method WritePacket(p: Packet, pkt: array<Byte>, size: nat) returns (ok: bool, used: nat)
    requires SizedPacket(p) && size + 4 * |p.queries| + 2 <= pkt.Length
    modifies pkt
    ensures ok <==> PacketRoom(p, size).Some?
    ensures ok ==> used <= pkt.Length && PrintPacket(p) == Some(pkt[..used])
  {
    hide PutHeader, PrintQueries, PrintRecords, QueriesRoom, RecordsRoom, Sized;
    ok, used := false, 0;
    SizedSections(p);
    if size >= 12 {
      var tab, room;
      assert pkt[..0] == [];
      used := Append(pkt, 0, PutHeader(p));
      assert [] + PutHeader(p) == PutHeader(p);
      ok, used, tab, room := WriteQueries(pkt, used, p.queries, [], size - 12);
      if ok {
        ok, used, tab, room := WriteRecords(pkt, used, p.answers, tab, room);
      }
      if ok {
        ok, used, tab, room := WriteRecords(pkt, used, p.authorities, tab, room);
      }
      if ok {
        ok, used, tab, room := WriteRecords(pkt, used, p.additional, tab, room);
      }
    }
  }

  lemma {:induction false} SizedSections(p: Packet)
    requires SizedPacket(p)
    ensures forall i :: 0 <= i < |p.answers| ==> Sized(p.answers[i])
    ensures forall i :: 0 <= i < |p.authorities| ==> Sized(p.authorities[i])
    ensures forall i :: 0 <= i < |p.additional| ==> Sized(p.additional[i])
  {
    hide Sized;
    var a, b := |p.answers|, |p.answers + p.authorities|;
    forall i | 0 <= i < |p.answers|
      ensures Sized(p.answers[i])
    {
      assert AllRecords(p)[i] == p.answers[i];
    }
    forall i | 0 <= i < |p.authorities|
      ensures Sized(p.authorities[i])
    {
      assert AllRecords(p)[a + i] == p.authorities[i];
    }
    forall i | 0 <= i < |p.additional|
      ensures Sized(p.additional[i])
    {
      assert AllRecords(p)[b + i] == p.additional[i];
    }
  }

  /**
   Writes the resolver's query for one name into a buffer said to have `size` bytes, unless that
   does not pass the size check.  The check overlooks up to two bytes (see `SizeCheckTooWeak`),
   which the buffer has to have.
   */
  method WriteQueryPacket(pkt: array<Byte>, size: nat, id: Word, qtype: Word, name: Name) returns (ok: bool, used: nat)
    requires size + 2 <= pkt.Length
    modifies pkt
    ensures ok <==> PassesSizeCheck(size, name)
    ensures ok ==> used == |MakeQuery(id, qtype, name)| <= pkt.Length && pkt[..used] == MakeQuery(id, qtype, name)
    ensures !ok ==> pkt[..] == old(pkt[..])
  {
    hide Wire, PutWord, QueryHeader, QueryTail, Overwrite, MakeQuery;
    if size < 16 + |name| {
      return false, 0;
    }
    ok := true;
    SizeCheckTooWeak(id, qtype, name, size + 2);
    QueryParts(id, qtype, name);
    ghost var tail := QueryTail(Query(name, qtype, 1));
    assert pkt[..0] == [];
    used := Append(pkt, 0, QueryHeader(id));
    assert [] + QueryHeader(id) == QueryHeader(id);
    ghost var b := pkt[..];
    var fits;
    fits, used := PutName(pkt, 12, pkt.Length - 12, name);
    OverwriteFront(b, 12, Wire(name));
    assert b[..12] == QueryHeader(id) && pkt[..][..used] == pkt[..used];
    used := Append(pkt, used, QueryTail(Query(name, qtype, 1)));
    Regroup(QueryHeader(id), Wire(name), tail);
  }
}
