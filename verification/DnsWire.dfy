/**
 DNS messages as they lie in memory, whoever wrote them: names spelled with compression
 pointers in any way, and records of any type.  The reader reads exactly those.
 */
module DnsWire {
  import opened Buffers
  import opened DnsName
  import opened DnsPacket
  import opened Wrappers

  // ---------------------------------------------------------------------------
  // Names
  // ---------------------------------------------------------------------------

  /** A name as labels, jumps to where it goes on, and its end. */
  datatype Spelling = End | Lab(text: Name, rest: Spelling) | Jump(to: nat, rest: Spelling)

  /** The labels with dots between them; there is a dot in front of a jump to an end, too. */
  function Spelled(sp: Spelling): Name {
    match sp
    case End => []
    case Lab(text, rest) => text + (if rest.End? then [] else [DOT]) + Spelled(rest)
    case Jump(_, rest) => Spelled(rest)
  }

  /** The bytes in front of the first jump, and that jump. */
  function Span(sp: Spelling): nat {
    match sp
    case End => 1
    case Lab(text, rest) => 1 + |text| + Span(rest)
    case Jump(_, _) => 2
  }

  function Jumps(sp: Spelling): nat {
    match sp
    case End => 0
    case Lab(_, rest) => Jumps(rest)
    case Jump(_, rest) => 1 + Jumps(rest)
  }

  /** The spelling is what stands at `p`, with labels that end in front of `max`. */
  predicate Lies(m: Memory, max: nat, p: nat, sp: Spelling)
    decreases sp
  {
    match sp
    case End => m(p) == 0
    case Lab(text, rest) =>
      && 0 < |text| < 0xc0 && Holds(m, p, [|text|] + text)
      && p + 1 + |text| < max && Lies(m, max, p + 1 + |text|, rest)
    case Jump(to, rest) => to < 0x4000 && to < max && Holds(m, p, Pointer(to)) && Lies(m, max, to, rest)
  }

  predicate NameLies(m: Memory, max: nat, p: nat, sp: Spelling) { Lies(m, max, p, sp) && Jumps(sp) <= 10 }

  lemma {:induction false} LabelLies(m: Memory, p: nat, text: Name)
    requires |text| < 0xc0
    ensures Holds(m, p, [|text|] + text) <==> m(p) == |text| && Bytes(m, p + 1, |text|) == text
  {
    var s := [|text|] + text;
    if Holds(m, p, s) {
      assert s[0] == m(p + 0);
      forall i | 0 <= i < |text|
        ensures text[i] == m(p + 1 + i)
      {
        assert s[1 + i] == m(p + (1 + i));
      }
    }
    if m(p) == |text| && Bytes(m, p + 1, |text|) == text {
      forall i | 0 <= i < |s|
        ensures s[i] == m(p + i)
      {
        assert i > 0 ==> Bytes(m, p + 1, |text|)[i - 1] == m(p + 1 + (i - 1));
      }
    }
  }

  lemma {:induction false} PointerLies(m: Memory, p: nat, to: nat)
    requires to < 0x4000
    ensures Holds(m, p, Pointer(to)) <==> m(p) >= 0xc0 && Offset(m, p) == to
  {
    var s := Pointer(to);
    if Holds(m, p, s) {
      PointerIs(m, p, to);
    }
    if m(p) >= 0xc0 && Offset(m, p) == to {
      forall i | 0 <= i < |s|
        ensures s[i] == m(p + i)
      {
      }
    }
  }

  lemma {:induction false} StartLies(m: Memory, max: nat, p: nat, sp: Spelling)
    requires Lies(m, max, p, sp)
    ensures m(p) == 0 <==> sp.End?
  {
    match sp {
      case End =>
      case Lab(text, _) => LabelLies(m, p, text);
      case Jump(to, _) => PointerLies(m, p, to);
    }
  }

  lemma {:induction false} SpellingReads(m: Memory, max: nat, depth: nat, p: nat, sp: Spelling)
    requires Lies(m, max, p, sp) && depth + Jumps(sp) <= 10
    ensures NameLen(m, max, depth, p) == Ok((Span(sp), |Spelled(sp)|))
    ensures GetName(m, max, depth, p) == Ok(Spelled(sp))
    decreases sp
  {
    hide Holds, NameLen, GetName, Offset, Bytes;
    NameStep(m, max, depth, p);
    match sp {
      case End =>
      case Lab(text, rest) =>
        var q := p + 1 + |text|;
        LabelLies(m, p, text);
        StartLies(m, max, q, rest);
        SpellingReads(m, max, depth, q, rest);
        AddLenIs(|text| + 1, |text| + |Dot(m, q)|, Span(rest), |Spelled(rest)|);
      case Jump(to, rest) =>
        PointerLies(m, p, to);
        SpellingReads(m, max, depth + 1, to, rest);
    }
  }

  lemma {:induction false} ReadIsSpelled(m: Memory, max: nat, depth: nat, p: nat) returns (sp: Spelling)
    requires GetName(m, max, depth, p).Ok?
    ensures Lies(m, max, p, sp) && depth + Jumps(sp) <= 10
    decreases 11 - depth, Left(p, max)
  {
    hide Holds, Offset, Bytes;
    if m(p) == 0 {
      return End;
    }
    if m(p) >= 0xc0 {
      OffsetIs(m, p);
      var to := Offset(m, p);
      var rest := ReadIsSpelled(m, max, depth + 1, to);
      PointerLies(m, p, to);
      return Jump(to, rest);
    }
    var q := p + m(p) + 1;
    var rest := ReadIsSpelled(m, max, depth, q);
    var text := Bytes(m, p + 1, m(p));
    BytesSize(m, p + 1, m(p));
    LabelLies(m, p, text);
    return Lab(text, rest);
  }

  lemma {:induction false} OffsetIs(m: Memory, p: nat)
    requires m(p) >= 0xc0
    ensures Offset(m, p) < 0x4000
  {
  }

  lemma {:induction false} BytesSize(m: Memory, p: nat, n: nat)
    ensures |Bytes(m, p, n)| == n
  {
  }

  /** A name is read if and only if it is spelled there with at most ten jumps, and then as it is spelled. */
  lemma {:induction false} NameIsSpelled(m: Memory, max: nat, p: nat)
    ensures NameAt(m, max, p).Ok? <==> exists sp :: NameLies(m, max, p, sp)
    ensures forall sp :: NameLies(m, max, p, sp) ==> NameAt(m, max, p) == Ok((Spelled(sp), p + Span(sp)))
  {
    hide Lies, Span, Spelled, Jumps, NameLen, GetName;
    forall sp | NameLies(m, max, p, sp)
      ensures NameAt(m, max, p) == Ok((Spelled(sp), p + Span(sp)))
    {
      SpellingReads(m, max, 0, p, sp);
    }
    if NameAt(m, max, p).Ok? {
      var sp := ReadIsSpelled(m, max, 0, p);
      assert NameLies(m, max, p, sp);
    }
  }

  // ---------------------------------------------------------------------------
  // Records
  // ---------------------------------------------------------------------------

  /** The fixed fields of a record behind its name. */
  function Fields(rr: Record): seq<Byte> {
    PutWord(rr.rtype) + PutWord(rr.dnsclass) + PutLong(rr.ttl) + PutWord(rr.rdlength)
  }

  /** The data of the record stands at `p`: an address, a name, a service, or as many bytes as its length says. */
  predicate DataLies(m: Memory, max: nat, p: nat, rr: Record, target: Spelling) {
    if rr.rtype == TYPE_A then rr.rdata.Address? && |rr.rdata.ip| == 4 && Holds(m, p, rr.rdata.ip)
    else if rr.rtype == TYPE_AAAA then rr.rdata.Address? && |rr.rdata.ip| == 16 && Holds(m, p, rr.rdata.ip)
    else if IsHostType(rr.rtype) then rr.rdata == Host(Spelled(target)) && NameLies(m, max, p, target)
    else if rr.rtype == TYPE_SRV then
      && rr.rdata.Service? && rr.rdata.target == Spelled(target)
      && Holds(m, p, Numbers(rr.rdata)) && NameLies(m, max, p + 6, target)
    else rr.rdata.Other? && |rr.rdata.data| == rr.rdlength && Holds(m, p, rr.rdata.data)
  }

  function DataSpan(rr: Record, target: Spelling): nat {
    if rr.rtype == TYPE_A then 4
    else if rr.rtype == TYPE_AAAA then 16
    else if IsHostType(rr.rtype) then Span(target)
    else if rr.rtype == TYPE_SRV then 6 + Span(target)
    else rr.rdlength
  }

  /** How the names of a record are spelled; a record without a target has any. */
  datatype Layout = Layout(name: Spelling, target: Spelling)

  function RecordSpan(rr: Record, lay: Layout): nat { Span(lay.name) + 10 + DataSpan(rr, lay.target) }

  /** A record of class IN stands at `p`, and its announced data ends in front of `max`. */
  predicate RecordLies(m: Memory, max: nat, p: nat, rr: Record, lay: Layout) {
    var q := p + Span(lay.name);
    && NameLies(m, max, p, lay.name) && rr.name == Spelled(lay.name) && rr.dnsclass == 1
    && Holds(m, q, Fields(rr)) && q + 10 + rr.rdlength <= max && DataLies(m, max, q + 10, rr, lay.target)
  }

  lemma {:induction false} FieldsLie(m: Memory, q: nat, rr: Record)
    ensures Holds(m, q, Fields(rr)) <==>
            && WordAt(m, q) == rr.rtype && WordAt(m, q + 2) == rr.dnsclass
            && LongAt(m, q + 4) == rr.ttl && WordAt(m, q + 8) == rr.rdlength
  {
    hide Holds, WordAt, LongAt, PutWord, PutLong;
    var a, b, c, d := PutWord(rr.rtype), PutWord(rr.dnsclass), PutLong(rr.ttl), PutWord(rr.rdlength);
    WordSize(rr.rtype);
    WordSize(rr.dnsclass);
    LongSize(rr.ttl);
    JoinLies(m, q, a + b + c, d);
    JoinLies(m, q, a + b, c);
    JoinLies(m, q, a, b);
    WordLies(m, q, rr.rtype);
    WordLies(m, q + 2, rr.dnsclass);
    LongLies(m, q + 4, rr.ttl);
    WordLies(m, q + 8, rr.rdlength);
  }

  lemma {:induction false} LongSize(v: Long)
    ensures |PutLong(v)| == 4
  {
  }

  lemma {:induction false} JoinLies(m: Memory, p: nat, a: seq<Byte>, b: seq<Byte>)
    ensures Holds(m, p, a + b) <==> Holds(m, p, a) && Holds(m, p + |a|, b)
  {
    hide Holds;
    if Holds(m, p, a + b) {
      HoldsParts(m, p, a, b);
    }
    if Holds(m, p, a) && Holds(m, p + |a|, b) {
      HoldsJoin(m, p, a, b);
    }
  }

  lemma {:induction false} WordLies(m: Memory, p: nat, v: Word)
    ensures Holds(m, p, PutWord(v)) <==> WordAt(m, p) == v
  {
    if Holds(m, p, PutWord(v)) {
      WordReads(m, p, v);
    }
  }

  lemma {:induction false} LongLies(m: Memory, p: nat, v: Long)
    ensures Holds(m, p, PutLong(v)) <==> LongAt(m, p) == v
  {
    hide Holds, WordAt, PutWord;
    WordSize(v / 0x1_0000);
    JoinLies(m, p, PutWord(v / 0x1_0000), PutWord(v % 0x1_0000));
    WordLies(m, p, v / 0x1_0000);
    WordLies(m, p + 2, v % 0x1_0000);
  }

  lemma {:induction false} NumbersLie(m: Memory, p: nat, d: RData)
    requires d.Service?
    ensures Holds(m, p, Numbers(d)) <==>
            WordAt(m, p) == d.prio && WordAt(m, p + 2) == d.weight && WordAt(m, p + 4) == d.port
  {
    hide Holds, WordAt, PutWord;
    WordSize(d.prio);
    WordSize(d.weight);
    JoinLies(m, p, PutWord(d.prio) + PutWord(d.weight), PutWord(d.port));
    JoinLies(m, p, PutWord(d.prio), PutWord(d.weight));
    WordLies(m, p, d.prio);
    WordLies(m, p + 2, d.weight);
    WordLies(m, p + 4, d.port);
  }

  lemma {:induction false} BytesLie(m: Memory, p: nat, s: seq<Byte>)
    ensures Holds(m, p, s) <==> Bytes(m, p, |s|) == s
  {
    if Bytes(m, p, |s|) == s {
      assert forall i :: 0 <= i < |s| ==> Bytes(m, p, |s|)[i] == m(p + i);
    }
  }

  /** The data is read if it stands there, and the reader then stands behind it. */
  lemma {:induction false} DataReads(m: Memory, max: nat, p: nat, rr: Record, target: Spelling)
    requires DataLies(m, max, p, rr, target)
    ensures ParseData(m, max, p, rr.rtype, rr.rdlength) == Ok((rr.rdata, p + DataSpan(rr, target)))
  {
    hide Holds, NameAt, NameLies, WordAt, Bytes, Numbers;
    if rr.rdata.Address? {
      BytesLie(m, p, rr.rdata.ip);
    } else if rr.rdata.Host? {
      NameIsSpelled(m, max, p);
    } else if rr.rdata.Service? {
      NumbersLie(m, p, rr.rdata);
      NameIsSpelled(m, max, p + 6);
    } else {
      BytesLie(m, p, rr.rdata.data);
    }
  }

  lemma {:induction false} DataRead(m: Memory, max: nat, p: nat, rr: Record) returns (target: Spelling)
    requires var d := ParseData(m, max, p, rr.rtype, rr.rdlength); d.Ok? && d.value.0 == rr.rdata
    ensures DataLies(m, max, p, rr, target)
  {
    hide Holds, NameAt, NameLies, WordAt, Bytes, Numbers;
    target := End;
    if rr.rdata.Address? {
      BytesSize(m, p, 4);
      BytesSize(m, p, 16);
      BytesLie(m, p, rr.rdata.ip);
    } else if rr.rdata.Host? {
      NameIsSpelled(m, max, p);
      target :| NameLies(m, max, p, target);
    } else if rr.rdata.Service? {
      NumbersLie(m, p, rr.rdata);
      NameIsSpelled(m, max, p + 6);
      target :| NameLies(m, max, p + 6, target);
    } else {
      BytesSize(m, p, rr.rdlength);
      BytesLie(m, p, rr.rdata.data);
    }
  }

  lemma {:induction false} RecordReads(m: Memory, max: nat, p: nat, rr: Record, lay: Layout)
    requires RecordLies(m, max, p, rr, lay)
    ensures ParseRecord(m, max, p) == Ok((rr, p + RecordSpan(rr, lay)))
  {
    hide Holds, NameAt, NameLies, WordAt, LongAt, ParseData, DataLies, Fields;
    var q := p + Span(lay.name);
    NameIsSpelled(m, max, p);
    FieldsLie(m, q, rr);
    DataReads(m, max, q + 10, rr, lay.target);
  }

  lemma {:induction false} RecordRead(m: Memory, max: nat, p: nat) returns (lay: Layout)
    requires ParseRecord(m, max, p).Ok?
    ensures RecordLies(m, max, p, ParseRecord(m, max, p).value.0, lay)
  {
    hide Holds, NameAt, NameLies, WordAt, LongAt, ParseData, DataLies, Fields;
    var rr := ParseRecord(m, max, p).value.0;
    NameIsSpelled(m, max, p);
    var name :| NameLies(m, max, p, name);
    var q := p + Span(name);
    FieldsLie(m, q, rr);
    var target := DataRead(m, max, q + 10, rr);
    lay := Layout(name, target);
  }

  /** A record is read if and only if one stands there, and the reader then stands behind its data. */
  lemma {:induction false} RecordIsThere(m: Memory, max: nat, p: nat)
    ensures ParseRecord(m, max, p).Ok? <==> exists rr, lay :: RecordLies(m, max, p, rr, lay)
    ensures forall rr, lay :: RecordLies(m, max, p, rr, lay) ==>
              ParseRecord(m, max, p) == Ok((rr, p + RecordSpan(rr, lay)))
  {
    hide *;
    forall rr, lay | RecordLies(m, max, p, rr, lay)
      ensures ParseRecord(m, max, p) == Ok((rr, p + RecordSpan(rr, lay)))
    {
      RecordReads(m, max, p, rr, lay);
    }
    if ParseRecord(m, max, p).Ok? {
      var lay := RecordRead(m, max, p);
    }
  }

  /** Why a record is refused whose name is there: its fields or its data are cut off, or its class is not IN. */
  lemma {:induction false} RefusedRecord(m: Memory, max: nat, p: nat, name: Spelling)
    requires NameLies(m, max, p, name)
    ensures var q := p + Span(name);
            && (q + 10 > max ==> ParseRecord(m, max, p) == Err(BadSize))
            && (q + 10 <= max && WordAt(m, q + 2) != 1 ==> ParseRecord(m, max, p) == Err(BadClass))
            && (q + 10 <= max < q + 10 + WordAt(m, q + 8) && WordAt(m, q + 2) == 1 ==>
                  ParseRecord(m, max, p) == Err(BadSize))
  {
    hide NameAt, NameLies, WordAt, LongAt, ParseData;
    NameIsSpelled(m, max, p);
  }

  /** Why a name is refused: a label that reaches the end, a pointer behind it, or too many jumps. */
  lemma {:induction false} RefusedName(m: Memory, max: nat, p: nat)
    ensures 0 < m(p) < 0xc0 && m(p) <= max <= p + m(p) + 1 ==> NameAt(m, max, p) == Err(BadSize)
    ensures m(p) >= 0xc0 && Offset(m, p) >= max ==> NameAt(m, max, p) == Err(BadPointer)
    ensures m(p) >= 0xc0 && Offset(m, p) == p ==> NameAt(m, max, p) == Err(BadPointer)
  {
    if m(p) >= 0xc0 && Offset(m, p) == p {
      Circles(m, max, 0, p);
    }
  }

  lemma {:induction false} Circles(m: Memory, max: nat, depth: nat, p: nat)
    requires m(p) >= 0xc0 && Offset(m, p) == p && depth <= 11
    ensures NameLen(m, max, depth, p) == Err(BadPointer)
    decreases 11 - depth
  {
    if depth <= 10 && p < max {
      Circles(m, max, depth + 1, p);
    }
  }

  // ---------------------------------------------------------------------------
  // Sections and messages
  // ---------------------------------------------------------------------------

  predicate QueriesLie(m: Memory, max: nat, p: nat, queries: seq<Query>, lays: seq<Spelling>)
    decreases |queries|
  {
    |lays| == |queries| &&
    (queries == [] ||
     var q := p + Span(lays[0]);
     && NameLies(m, max, p, lays[0]) && queries[0].name == Spelled(lays[0]) && Holds(m, q, QueryTail(queries[0]))
     && QueriesLie(m, max, q + 4, queries[1..], lays[1..]))
  }

  function QueriesSpan(lays: seq<Spelling>): nat {
    if lays == [] then 0 else Span(lays[0]) + 4 + QueriesSpan(lays[1..])
  }

  /** The records stand one behind the other. */
  predicate RecordsLie(m: Memory, max: nat, p: nat, records: seq<Record>, lays: seq<Layout>)
    decreases |records|
  {
    |lays| == |records| &&
    (records == [] ||
     (&& RecordLies(m, max, p, records[0], lays[0])
      && RecordsLie(m, max, p + RecordSpan(records[0], lays[0]), records[1..], lays[1..])))
  }

  function RecordsSpan(records: seq<Record>, lays: seq<Layout>): nat
    requires |lays| == |records|
  {
    if records == [] then 0 else RecordSpan(records[0], lays[0]) + RecordsSpan(records[1..], lays[1..])
  }

  lemma {:induction false} QueriesRead(m: Memory, max: nat, p: nat, queries: seq<Query>, lays: seq<Spelling>)
    requires QueriesLie(m, max, p, queries, lays)
    ensures ParseQueries(m, max, p, |queries|) == Ok((queries, p + QueriesSpan(lays)))
    decreases |queries|
  {
    hide Holds, NameLies, NameAt, WordAt, QueryTail;
    if queries != [] {
      NameIsSpelled(m, max, p);
      TailLies(m, p + Span(lays[0]), queries[0]);
      QueriesRead(m, max, p + Span(lays[0]) + 4, queries[1..], lays[1..]);
      assert [queries[0]] + queries[1..] == queries;
    }
  }

  lemma {:induction false} TailLies(m: Memory, p: nat, q: Query)
    ensures Holds(m, p, QueryTail(q)) <==> WordAt(m, p) == q.qtype && WordAt(m, p + 2) == q.dnsclass
  {
    hide Holds, WordAt, PutWord;
    WordSize(q.qtype);
    JoinLies(m, p, PutWord(q.qtype), PutWord(q.dnsclass));
    WordLies(m, p, q.qtype);
    WordLies(m, p + 2, q.dnsclass);
  }

  lemma {:induction false} QueriesFound(m: Memory, max: nat, p: nat, count: nat) returns (lays: seq<Spelling>)
    requires ParseQueries(m, max, p, count).Ok?
    ensures |ParseQueries(m, max, p, count).value.0| == count
    ensures QueriesLie(m, max, p, ParseQueries(m, max, p, count).value.0, lays)
    decreases count
  {
    hide Holds, NameLies, NameAt, WordAt, QueryTail;
    lays := [];
    if count > 0 {
      NameIsSpelled(m, max, p);
      var name :| NameLies(m, max, p, name);
      var q := ParseQuery(m, max, p).value.0;
      TailLies(m, p + Span(name), q);
      var rest := QueriesFound(m, max, p + Span(name) + 4, count - 1);
      lays := [name] + rest;
      var queries := ParseQueries(m, max, p, count).value.0;
      assert queries[1..] == ParseQueries(m, max, p + Span(name) + 4, count - 1).value.0 && lays[1..] == rest;
    }
  }

  lemma {:induction false} RecordsRead(m: Memory, max: nat, p: nat, records: seq<Record>, lays: seq<Layout>)
    requires RecordsLie(m, max, p, records, lays)
    ensures ParseRecords(m, max, p, |records|) == Ok((records, p + RecordsSpan(records, lays)))
    decreases |records|
  {
    hide RecordLies, ParseRecord, RecordSpan;
    if records != [] {
      RecordReads(m, max, p, records[0], lays[0]);
      RecordsRead(m, max, p + RecordSpan(records[0], lays[0]), records[1..], lays[1..]);
      assert [records[0]] + records[1..] == records;
    }
  }

  lemma {:induction false} RecordsFound(m: Memory, max: nat, p: nat, count: nat) returns (lays: seq<Layout>)
    requires ParseRecords(m, max, p, count).Ok?
    ensures |ParseRecords(m, max, p, count).value.0| == count
    ensures RecordsLie(m, max, p, ParseRecords(m, max, p, count).value.0, lays)
    decreases count
  {
    hide RecordLies, ParseRecord, RecordSpan;
    lays := [];
    if count > 0 {
      var lay := RecordRead(m, max, p);
      var rr := ParseRecord(m, max, p).value.0;
      RecordReads(m, max, p, rr, lay);
      var rest := RecordsFound(m, max, p + RecordSpan(rr, lay), count - 1);
      lays := [lay] + rest;
      var records := ParseRecords(m, max, p, count).value.0;
      assert records[1..] == ParseRecords(m, max, p + RecordSpan(rr, lay), count - 1).value.0 && lays[1..] == rest;
    }
  }

  /** How all names of a message are spelled. */
  datatype Script = Script(queries: seq<Spelling>, answers: seq<Layout>, authorities: seq<Layout>,
                           additional: seq<Layout>)

  predicate HeaderLies(m: Memory, p: Packet) {
    && WordAt(m, 0) == p.id && WordAt(m, 2) == p.flags && WordAt(m, 4) == |p.queries| && WordAt(m, 6) == |p.answers|
    && WordAt(m, 8) == |p.authorities| && WordAt(m, 10) == |p.additional|
  }

  /** The message stands in the first `size` bytes: its header, and its four sections one behind the other. */
  predicate PacketLies(m: Memory, size: nat, p: Packet, s: Script) {
    && size >= 12 && HeaderLies(m, p) && QueriesLie(m, size, 12, p.queries, s.queries)
    && var p1 := 12 + QueriesSpan(s.queries);
    && RecordsLie(m, size, p1, p.answers, s.answers)
    && var p2 := p1 + RecordsSpan(p.answers, s.answers);
    && RecordsLie(m, size, p2, p.authorities, s.authorities)
    && RecordsLie(m, size, p2 + RecordsSpan(p.authorities, s.authorities), p.additional, s.additional)
  }

  lemma {:induction false} PacketRead(m: Memory, size: nat, p: Packet, s: Script)
    requires PacketLies(m, size, p, s)
    ensures ParsePacket(m, size) == Ok(p)
  {
    hide WordAt, QueriesLie, RecordsLie, ParseQueries, ParseRecords, QueriesSpan, RecordsSpan;
    SameCounts(m, size, p, s);
    var p1 := 12 + QueriesSpan(s.queries);
    var p2 := p1 + RecordsSpan(p.answers, s.answers);
    QueriesRead(m, size, 12, p.queries, s.queries);
    RecordsRead(m, size, p1, p.answers, s.answers);
    RecordsRead(m, size, p2, p.authorities, s.authorities);
    RecordsRead(m, size, p2 + RecordsSpan(p.authorities, s.authorities), p.additional, s.additional);
  }

  lemma {:induction false} SameCounts(m: Memory, size: nat, p: Packet, s: Script)
    requires PacketLies(m, size, p, s)
    ensures |s.queries| == |p.queries| && |s.answers| == |p.answers|
    ensures |s.authorities| == |p.authorities| && |s.additional| == |p.additional|
  {
  }

  lemma {:induction false} SameCount(m: Memory, max: nat, p: nat, records: seq<Record>, lays: seq<Layout>)
    requires RecordsLie(m, max, p, records, lays)
    ensures |lays| == |records|
  {
  }

  lemma {:induction false} PacketFound(m: Memory, size: nat) returns (s: Script)
    requires ParsePacket(m, size).Ok?
    ensures PacketLies(m, size, ParsePacket(m, size).value, s)
  {
    hide WordAt, QueriesLie, RecordsLie, ParseQueries, ParseRecords, QueriesSpan, RecordsSpan;
    var p := ParsePacket(m, size).value;
    var qs := QueriesFound(m, size, 12, WordAt(m, 4));
    QueriesRead(m, size, 12, p.queries, qs);
    var p1 := 12 + QueriesSpan(qs);
    var an := RecordsFound(m, size, p1, WordAt(m, 6));
    SameCount(m, size, p1, p.answers, an);
    RecordsRead(m, size, p1, p.answers, an);
    var p2 := p1 + RecordsSpan(p.answers, an);
    var ns := RecordsFound(m, size, p2, WordAt(m, 8));
    SameCount(m, size, p2, p.authorities, ns);
    RecordsRead(m, size, p2, p.authorities, ns);
    var ar := RecordsFound(m, size, p2 + RecordsSpan(p.authorities, ns), WordAt(m, 10));
    s := Script(qs, an, ns, ar);
  }

  /** For every memory: a message is read if and only if it stands there, with names spelled in some way. */
  lemma {:induction false} ReadsWhatIsThere(m: Memory, size: nat, p: Packet)
    ensures ParsePacket(m, size) == Ok(p) <==> exists s :: PacketLies(m, size, p, s)
  {
    hide *;
    if ParsePacket(m, size) == Ok(p) {
      var s := PacketFound(m, size);
    }
    if s :| PacketLies(m, size, p, s) {
      PacketRead(m, size, p, s);
    }
  }

  // ---------------------------------------------------------------------------
  // Records written out in full, of any type
  // ---------------------------------------------------------------------------

  function WireData(rr: Record): seq<Byte> {
    match rr.rdata
    case Address(ip) => ip
    case Host(target) => Wire(target)
    case Service(_, _, _, target) => Numbers(rr.rdata) + Wire(target)
    case Other(data) => data
  }

  /** Name, type, class, time to live, length and data. */
  function WireRecord(rr: Record): seq<Byte> { Wire(rr.name) + Fields(rr) + WireData(rr) }

  /** A record of class IN with data of its type and its right length. */
  predicate WellFormed(rr: Record) {
    && LegalName(rr.name) && rr.dnsclass == 1 && rr.rdlength == |WireData(rr)|
    && (if rr.rtype == TYPE_A then rr.rdata.Address? && rr.rdlength == 4
        else if rr.rtype == TYPE_AAAA then rr.rdata.Address? && rr.rdlength == 16
        else if IsHostType(rr.rtype) then rr.rdata.Host? && LegalName(rr.rdata.target)
        else if rr.rtype == TYPE_SRV then rr.rdata.Service? && LegalName(rr.rdata.target)
        else rr.rdata.Other?)
  }

  function InFull(name: Name): Spelling
    decreases |name|
  {
    if name == [] then End else Lab(name[..LabelLen(name)], InFull(AfterLabel(name)))
  }

  lemma {:induction false} InFullLies(m: Memory, max: nat, p: nat, name: Name)
    requires LegalName(name) && Holds(m, p, Wire(name)) && p + |Wire(name)| <= max
    ensures var sp := InFull(name);
            Lies(m, max, p, sp) && Spelled(sp) == name && Span(sp) == |Wire(name)| && Jumps(sp) == 0
    decreases |name|
  {
    hide Holds, LabelLen, AfterLabel;
    if name == [] {
      EmptyWire();
      HoldsFirst(m, p, Wire(name));
    } else {
      var n, rest := LabelLen(name), AfterLabel(name);
      LegalStep(name);
      assert Wire(name) == [n] + name[..n] + Wire(rest);
      HoldsParts(m, p, [n] + name[..n], Wire(rest));
      InFullLies(m, max, p + 1 + n, rest);
      NameParts(name);
    }
  }

  lemma {:induction false} LegalStep(name: Name)
    requires LegalName(name) && name != []
    ensures 0 < LabelLen(name) < 0xc0 && LegalName(AfterLabel(name)) && |AfterLabel(name)| < |name|
    ensures AfterLabel(name) == [] <==> LabelLen(name) == |name|
  {
  }

  lemma {:induction false} NameInFull(m: Memory, max: nat, p: nat, name: Name)
    requires LegalName(name) && Holds(m, p, Wire(name)) && p + |Wire(name)| <= max
    ensures var sp := InFull(name); NameLies(m, max, p, sp) && Spelled(sp) == name && Span(sp) == |Wire(name)|
  {
    hide Holds, Wire, LegalName;
    InFullLies(m, max, p, name);
  }

  function LayoutInFull(rr: Record): Layout {
    Layout(InFull(rr.name), if rr.rdata.Host? || rr.rdata.Service? then InFull(rr.rdata.target) else End)
  }

  lemma {:induction false} DataInFull(m: Memory, max: nat, p: nat, rr: Record)
    requires WellFormed(rr) && Holds(m, p, WireData(rr)) && p + |WireData(rr)| <= max
    ensures var target := LayoutInFull(rr).target;
            DataLies(m, max, p, rr, target) && DataSpan(rr, target) == |WireData(rr)|
  {
    hide Holds, Wire, LegalName, NameLies, Spelled, Span, InFull, Numbers;
    if rr.rdata.Host? {
      NameInFull(m, max, p, rr.rdata.target);
    } else if rr.rdata.Service? {
      NumbersSize(rr.rdata, rr.rdata);
      HoldsParts(m, p, Numbers(rr.rdata), Wire(rr.rdata.target));
      NameInFull(m, max, p + 6, rr.rdata.target);
    }
  }

  lemma {:induction false} FieldsSize(rr: Record)
    ensures |Fields(rr)| == 10
  {
  }

  /** A record of any type, written out in full, is read with exactly its data, up to its end. */
  lemma {:induction false} WireRecordReads(m: Memory, max: nat, p: nat, rr: Record)
    requires WellFormed(rr) && Holds(m, p, WireRecord(rr)) && p + |WireRecord(rr)| <= max
    ensures ParseRecord(m, max, p) == Ok((rr, p + |WireRecord(rr)|))
  {
    hide Holds, Wire, LegalName, NameLies, Spelled, Span, InFull, DataLies, DataSpan, WireData, Fields;
    FieldsSize(rr);
    HoldsParts(m, p, Wire(rr.name) + Fields(rr), WireData(rr));
    HoldsParts(m, p, Wire(rr.name), Fields(rr));
    NameInFull(m, max, p, rr.name);
    DataInFull(m, max, p + |Wire(rr.name)| + 10, rr);
    RecordReads(m, max, p, rr, LayoutInFull(rr));
  }

  lemma {:induction false} NameBytes(x: Byte, y: Byte)
    requires x != DOT && y != DOT
    ensures Wire([x, DOT, y]) == [1, x, 1, y, 0]
  {
    hide Wire, LegalName;
    OneLabel([y]);
    TwoLabels([x], [y]);
    assert [x] + [DOT] + [y] == [x, DOT, y];
    assert [1] + [x] + ([1] + [y] + [0]) == [1, x, 1, y, 0];
  }

  /** The bytes of an address record: high bytes first, a length in front of each label. */
  lemma {:induction false} AddressBytes(x: Byte, y: Byte, ttl: Byte, ip: seq<Byte>)
    requires |ip| == 4 && x != DOT && y != DOT
    ensures WireRecord(Record([x, DOT, y], 1, 1, ttl, 4, Address(ip)))
            == [1, x, 1, y, 0] + [0, 1, 0, 1, 0, 0, 0, ttl, 0, 4] + ip
  {
    hide Wire;
    NameBytes(x, y);
    var rr := Record([x, DOT, y], 1, 1, ttl, 4, Address(ip));
    assert Fields(rr) == [0, 1, 0, 1, 0, 0, 0, ttl, 0, 4];
  }

  /** The bytes of a query: one question, with recursion asked for. */
  lemma {:induction false} QueryBytes(x: Byte, y: Byte, id: Word, qtype: Word)
    requires x != DOT && y != DOT
    ensures MakeQuery(id, qtype, [x, DOT, y])
            == [id / 256, id % 256, 1, 0, 0, 1, 0, 0, 0, 0, 0, 0] + [1, x, 1, y, 0] + [qtype / 256, qtype % 256, 0, 1]
  {
    hide Wire, QueryHeader, QueryTail;
    NameBytes(x, y);
    QueryParts(id, qtype, [x, DOT, y]);
    HeaderBytes(id);
    TailBytes(qtype);
  }

  lemma {:induction false} HeaderBytes(id: Word)
    ensures QueryHeader(id) == [id / 256, id % 256, 1, 0, 0, 1, 0, 0, 0, 0, 0, 0]
  {
  }

  lemma {:induction false} TailBytes(qtype: Word)
    ensures forall name: Name :: QueryTail(Query(name, qtype, 1)) == [qtype / 256, qtype % 256, 0, 1]
  {
  }

  // ---------------------------------------------------------------------------
  // Sections with both
  // ---------------------------------------------------------------------------

  /** A record written out in full, or by the printer with its table of names. */
  datatype Piece = Full(rr: Record) | Packed(rr: Record)

  function PrintPiece(pkt: seq<Byte>, piece: Piece, tab: seq<Label>): (r: Option<Printed>)
    requires Within(|pkt|, tab)
    ensures r.Some? ==> Within(|pkt| + |r.value.bytes|, r.value.tab)
  {
    if piece.Full? then Some(Printed(WireRecord(piece.rr), tab)) else PrintRecord(pkt, piece.rr, tab)
  }

  function PrintPieces(pkt: seq<Byte>, pieces: seq<Piece>, tab: seq<Label>): (r: Option<Printed>)
    requires Within(|pkt|, tab)
    decreases |pieces|
  {
    if pieces == [] then Some(Printed([], tab))
    else
      var one := PrintPiece(pkt, pieces[0], tab);
      if one.None? then None
      else
        var rest := PrintPieces(pkt + one.value.bytes, pieces[1..], one.value.tab);
        if rest.None? then None else Some(Printed(one.value.bytes + rest.value.bytes, rest.value.tab))
  }

  /** The records as a reader finds them: those of the printer with their names as its table made them. */
  function ReadPieces(known: seq<Name>, pieces: seq<Piece>): seq<Record>
    decreases |pieces|
  {
    if pieces == [] then []
    else if pieces[0].Full? then [pieces[0].rr] + ReadPieces(known, pieces[1..])
    else [RereadRecord(known, pieces[0].rr)] + ReadPieces(LearnAll(known, NamesOfRecord(pieces[0].rr)), pieces[1..])
  }

  predicate GoodPiece(piece: Piece) { if piece.Full? then WellFormed(piece.rr) else Sendable(piece.rr) }

  lemma {:induction false} PieceReads(m: Memory, pkt: seq<Byte>, piece: Piece, tab: seq<Label>, known: seq<Name>,
                                      max: nat)
    requires Holds(m, 0, pkt) && Sound(m, |pkt|, tab, known) && Within(|pkt|, tab) && GoodPiece(piece)
    requires var r := PrintPiece(pkt, piece, tab);
             r.Some? && Holds(m, |pkt|, r.value.bytes) && |pkt| + |r.value.bytes| <= max <= 0x4000
    ensures var r := PrintPiece(pkt, piece, tab).value;
            var known' := if piece.Full? then known else LearnAll(known, NamesOfRecord(piece.rr));
            && ParseRecord(m, max, |pkt|)
               == Ok((if piece.Full? then piece.rr else RereadRecord(known, piece.rr), |pkt| + |r.bytes|))
            && Sound(m, |pkt| + |r.bytes|, r.tab, known') && Holds(m, 0, pkt + r.bytes)
  {
    hide Holds, Sound, Within, Sendable, WellFormed, PrintRecord, ParseRecord, RereadRecord, NamesOfRecord, LearnAll,
      WireRecord;
    HoldsJoin(m, 0, pkt, PrintPiece(pkt, piece, tab).value.bytes);
    if piece.Full? {
      WireRecordReads(m, max, |pkt|, piece.rr);
      SoundGrows(m, |pkt|, |pkt| + |WireRecord(piece.rr)|, tab, known);
    } else {
      RecordPrinted(m, pkt, piece.rr, tab, known, max);
    }
  }

  /** A section of records of any type, some written out in full and some by the printer, is read back as that list. */
  lemma {:induction false} PiecesRead(m: Memory, pkt: seq<Byte>, pieces: seq<Piece>, tab: seq<Label>,
                                      known: seq<Name>, max: nat)
    requires Holds(m, 0, pkt) && Sound(m, |pkt|, tab, known) && Within(|pkt|, tab)
    requires forall i :: 0 <= i < |pieces| ==> GoodPiece(pieces[i])
    requires var r := PrintPieces(pkt, pieces, tab);
             r.Some? && Holds(m, |pkt|, r.value.bytes) && |pkt| + |r.value.bytes| <= max <= 0x4000
    ensures ParseRecords(m, max, |pkt|, |pieces|)
            == Ok((ReadPieces(known, pieces), |pkt| + |PrintPieces(pkt, pieces, tab).value.bytes|))
    decreases |pieces|
  {
    hide Holds, Sound, GoodPiece, PrintPiece, ParseRecord, RereadRecord, NamesOfRecord, LearnAll;
    if pieces != [] {
      var one := PrintPiece(pkt, pieces[0], tab).value;
      var more := PrintPieces(pkt + one.bytes, pieces[1..], one.tab).value;
      HoldsParts(m, |pkt|, one.bytes, more.bytes);
      PieceReads(m, pkt, pieces[0], tab, known, max);
      var known' := if pieces[0].Full? then known else LearnAll(known, NamesOfRecord(pieces[0].rr));
      PiecesRead(m, pkt + one.bytes, pieces[1..], one.tab, known', max);
    }
  }
}
