/**
 DNS messages: the parser of dns.c and the printers of dns.c and dns_server.c.  A
 printer's result is the bytes it appends to the packet; the table of names already
 written refers to positions in the packet and is searched by the raw bytes there.
 */
module DnsPacket {
  import opened Buffers
  import opened DnsName
  import opened Wrappers

  type Word = x: int | 0 <= x < 0x1_0000
  type Long = x: int | 0 <= x < 0x1_0000_0000

  datatype Query = Query(name: Name, qtype: Word, dnsclass: Word)

  datatype RData =
    | Address(ip: seq<Byte>)
    | Host(target: Name)
    | Service(prio: Word, weight: Word, port: Word, target: Name)
    | Other(data: seq<Byte>)

  datatype Record = Record(name: Name, rtype: Word, dnsclass: Word, ttl: Long, rdlength: Word, rdata: RData)

  datatype Packet = Packet(id: Word, flags: Word, queries: seq<Query>,
                           answers: seq<Record>, authorities: seq<Record>, additional: seq<Record>)

  const TYPE_A: Word := 1
  const TYPE_NS: Word := 2
  const TYPE_CNAME: Word := 5
  const TYPE_PTR: Word := 12
  const TYPE_AAAA: Word := 28
  const TYPE_SRV: Word := 33

  predicate IsHostType(t: Word) { t == TYPE_CNAME || t == TYPE_NS || t == TYPE_PTR }

  // ---------------------------------------------------------------------------
  // Parser
  // ---------------------------------------------------------------------------

  function WordAt(m: Memory, p: nat): Word { m(p) * 256 + m(p + 1) }

  function LongAt(m: Memory, p: nat): Long { WordAt(m, p) * 0x1_0000 + WordAt(m, p + 2) }

  /** A name and the position behind it. */
  function NameAt(m: Memory, max: nat, p: nat): Result<(Name, nat)> {
    var len := NameLen(m, max, 0, p);
    if len.Err? then Err(len.error)
    else
      var name := GetName(m, max, 0, p);
      if name.Err? then Err(name.error) else Ok((name.value, p + len.value.0))
  }

  function ParseQuery(m: Memory, max: nat, p: nat): Result<(Query, nat)> {
    var n := NameAt(m, max, p);
    if n.Err? then Err(n.error)
    else
      var q := n.value.1;
      Ok((Query(n.value.0, WordAt(m, q), WordAt(m, q + 2)), q + 4))
  }

  /** The data of a record of this type at `p`. */
  function ParseData(m: Memory, max: nat, p: nat, rtype: Word, rdlength: Word): Result<(RData, nat)> {
    if rtype == TYPE_A then Ok((Address(Bytes(m, p, 4)), p + 4))
    else if rtype == TYPE_AAAA then Ok((Address(Bytes(m, p, 16)), p + 16))
    else if IsHostType(rtype) then
      var n := NameAt(m, max, p);
      if n.Err? then Err(n.error) else Ok((Host(n.value.0), n.value.1))
    else if rtype == TYPE_SRV then
      var n := NameAt(m, max, p + 6);
      if n.Err? then Err(n.error)
      else Ok((Service(WordAt(m, p), WordAt(m, p + 2), WordAt(m, p + 4), n.value.0), n.value.1))
    else Ok((Other(Bytes(m, p, rdlength)), p + rdlength))
  }

  function ParseRecord(m: Memory, max: nat, p: nat): Result<(Record, nat)> {
    var n := NameAt(m, max, p);
    if n.Err? then Err(n.error)
    else
      var q := n.value.1;
      if q + 10 > max then Err(BadSize)
      else if WordAt(m, q + 2) != 1 then Err(BadClass)
      else if q + 10 + WordAt(m, q + 8) > max then Err(BadSize)
      else
        var d := ParseData(m, max, q + 10, WordAt(m, q), WordAt(m, q + 8));
        if d.Err? then Err(d.error)
        else Ok((Record(n.value.0, WordAt(m, q), 1, LongAt(m, q + 4), WordAt(m, q + 8), d.value.0), d.value.1))
  }

  function ParseQueries(m: Memory, max: nat, p: nat, count: nat): Result<(seq<Query>, nat)>
    decreases count
  {
    if count == 0 then Ok(([], p))
    else
      var x := ParseQuery(m, max, p);
      if x.Err? then Err(x.error)
      else
        var rest := ParseQueries(m, max, x.value.1, count - 1);
        if rest.Err? then rest else Ok(([x.value.0] + rest.value.0, rest.value.1))
  }

  function ParseRecords(m: Memory, max: nat, p: nat, count: nat): Result<(seq<Record>, nat)>
    decreases count
  {
    if count == 0 then Ok(([], p))
    else
      var x := ParseRecord(m, max, p);
      if x.Err? then Err(x.error)
      else
        var rest := ParseRecords(m, max, x.value.1, count - 1);
        if rest.Err? then rest else Ok(([x.value.0] + rest.value.0, rest.value.1))
  }

  function ParsePacket(m: Memory, size: nat): Result<Packet> {
    if size < 12 then Err(BadSize)
    else
      var q := ParseQueries(m, size, 12, WordAt(m, 4));
      if q.Err? then Err(q.error)
      else
        var an := ParseRecords(m, size, q.value.1, WordAt(m, 6));
        if an.Err? then Err(an.error)
        else
          var ns := ParseRecords(m, size, an.value.1, WordAt(m, 8));
          if ns.Err? then Err(ns.error)
          else
            var ar := ParseRecords(m, size, ns.value.1, WordAt(m, 10));
            if ar.Err? then Err(ar.error)
            else Ok(Packet(WordAt(m, 0), WordAt(m, 2), q.value.0, an.value.0, ns.value.0, ar.value.0))
  }

  // ---------------------------------------------------------------------------
  // Printers
  // ---------------------------------------------------------------------------

  function PutWord(v: Word): seq<Byte> { [v / 256, v % 256] }

  function PutLong(v: Long): seq<Byte> { PutWord(v / 0x1_0000) + PutWord(v % 0x1_0000) }

  /** The query for one name, as the resolver sends it. */
  function MakeQuery(id: Word, qtype: Word, name: Name): seq<Byte> {
    PutWord(id) + PutWord(0x0100) + PutWord(1) + PutWord(0) + PutWord(0) + PutWord(0) +
    Wire(name) + PutWord(qtype) + PutWord(1)
  }

  /** Where a name was written, and how long it was. */
  datatype Label = Label(pos: nat, len: nat)

  const MAX_LABEL := 32

  /** Every entry lies within the first `size` bytes. */
  predicate Within(size: nat, tab: seq<Label>) {
    forall i :: 0 <= i < |tab| ==> tab[i].pos + 1 + tab[i].len <= size
  }

  /** The bytes the table takes for the name: from behind the first length byte on. */
  function Raw(pkt: seq<Byte>, e: Label): seq<Byte>
    requires e.pos + 1 + e.len <= |pkt|
  {
    pkt[e.pos + 1..e.pos + 1 + e.len]
  }

  /** The first entry whose raw bytes are this name, or the size of the table. */
  function FindLabel(pkt: seq<Byte>, tab: seq<Label>, name: Name, i: nat): (r: nat)
    requires Within(|pkt|, tab) && i <= |tab|
    ensures i <= r <= |tab| && (r < |tab| ==> Raw(pkt, tab[r]) == name)
    decreases |tab| - i
  {
    if i == |tab| || Raw(pkt, tab[i]) == name then i else FindLabel(pkt, tab, name, i + 1)
  }

  datatype Printed = Printed(bytes: seq<Byte>, tab: seq<Label>)

  /** A name printed `gap` bytes behind the packet, and the table afterwards. */
  function PrintName(pkt: seq<Byte>, gap: nat, name: Name, tab: seq<Label>): (r: Printed)
    requires Within(|pkt|, tab)
    ensures Within(|pkt| + gap + |r.bytes|, r.tab) && |r.bytes| >= 1
  {
    var i := FindLabel(pkt, tab, name, 0);
    if i < |tab| then Printed([0xc0 + tab[i].pos / 256 % 64, tab[i].pos % 256], tab)
    else Printed(Wire(name), if |tab| < MAX_LABEL then tab + [Label(|pkt| + gap, |name|)] else tab)
  }

  /** A record up to its data length, behind its printed name. */
  function Head(name: seq<Byte>, rr: Record): seq<Byte> {
    name + PutWord(rr.rtype) + PutWord(rr.dnsclass) + PutLong(rr.ttl)
  }

  /** The numbers of a service record. */
  function Numbers(d: RData): seq<Byte>
    requires d.Service?
  {
    PutWord(d.prio) + PutWord(d.weight) + PutWord(d.port)
  }

  /** The length and data of a record; only five types are supported. */
  function PrintData(pkt: seq<Byte>, rr: Record, tab: seq<Label>): (r: Option<Printed>)
    requires Within(|pkt|, tab)
    ensures r.Some? ==> Within(|pkt| + |r.value.bytes|, r.value.tab)
  {
    if rr.rtype == TYPE_A && rr.rdata.Address? then Some(Printed(PutWord(4) + rr.rdata.ip, tab))
    else if IsHostType(rr.rtype) && rr.rdata.Host? then
      var t := PrintName(pkt, 2, rr.rdata.target, tab);
      Some(Printed(PutWord(|t.bytes| % 0x1_0000) + t.bytes, t.tab))
    else if rr.rtype == TYPE_SRV && rr.rdata.Service? then
      var t := PrintName(pkt, 8, rr.rdata.target, tab);
      Some(Printed(PutWord((|t.bytes| + 6) % 0x1_0000) + Numbers(rr.rdata) + t.bytes, t.tab))
    else None
  }

  /** A record appended to the packet. */
  function PrintRecord(pkt: seq<Byte>, rr: Record, tab: seq<Label>): (r: Option<Printed>)
    requires Within(|pkt|, tab)
    ensures r.Some? ==> Within(|pkt| + |r.value.bytes|, r.value.tab)
  {
    var n := PrintName(pkt, 0, rr.name, tab);
    var head := Head(n.bytes, rr);
    var d := PrintData(pkt + head, rr, n.tab);
    if d.None? then None else Some(Printed(head + d.value.bytes, d.value.tab))
  }

  function QueryTail(q: Query): seq<Byte> { PutWord(q.qtype) + PutWord(q.dnsclass) }

  function PrintQueries(pkt: seq<Byte>, queries: seq<Query>, tab: seq<Label>): (r: Printed)
    requires Within(|pkt|, tab)
    ensures Within(|pkt| + |r.bytes|, r.tab)
    decreases |queries|
  {
    if queries == [] then Printed([], tab)
    else
      var n := PrintName(pkt, 0, queries[0].name, tab);
      var one := n.bytes + QueryTail(queries[0]);
      var rest := PrintQueries(pkt + one, queries[1..], n.tab);
      Printed(one + rest.bytes, rest.tab)
  }

  function PrintRecords(pkt: seq<Byte>, records: seq<Record>, tab: seq<Label>): (r: Option<Printed>)
    requires Within(|pkt|, tab)
    ensures r.Some? ==> Within(|pkt| + |r.value.bytes|, r.value.tab)
    decreases |records|
  {
    if records == [] then Some(Printed([], tab))
    else
      var one := PrintRecord(pkt, records[0], tab);
      if one.None? then None
      else
        var rest := PrintRecords(pkt + one.value.bytes, records[1..], one.value.tab);
        if rest.None? then None else Some(Printed(one.value.bytes + rest.value.bytes, rest.value.tab))
  }

  function PutHeader(p: Packet): (r: seq<Byte>)
    ensures |r| == 12
  {
    PutWord(p.id) + PutWord(p.flags) + PutWord(|p.queries| % 0x1_0000) + PutWord(|p.answers| % 0x1_0000)
    + PutWord(|p.authorities| % 0x1_0000) + PutWord(|p.additional| % 0x1_0000)
  }

  function PrintPacket(p: Packet): Option<seq<Byte>> {
    var head := PutHeader(p);
    var q := PrintQueries(head, p.queries, []);
    var s0 := head + q.bytes;
    var an := PrintRecords(s0, p.answers, q.tab);
    if an.None? then None
    else
      var s1 := s0 + an.value.bytes;
      var ns := PrintRecords(s1, p.authorities, an.value.tab);
      if ns.None? then None
      else
        var s2 := s1 + ns.value.bytes;
        var ar := PrintRecords(s2, p.additional, ns.value.tab);
        if ar.None? then None else Some(s2 + ar.value.bytes)
  }

  // ---------------------------------------------------------------------------
  // Reading words and names back
  // ---------------------------------------------------------------------------

  lemma {:induction false} WordReads(m: Memory, p: nat, v: Word)
    requires Holds(m, p, PutWord(v))
    ensures WordAt(m, p) == v
  {
    assert PutWord(v)[0] == m(p + 0) && PutWord(v)[1] == m(p + 1);
  }

  lemma {:induction false} LongReads(m: Memory, p: nat, v: Long)
    requires Holds(m, p, PutLong(v))
    ensures LongAt(m, p) == v
  {
    HoldsParts(m, p, PutWord(v / 0x1_0000), PutWord(v % 0x1_0000));
    WordReads(m, p, v / 0x1_0000);
    WordReads(m, p + 2, v % 0x1_0000);
  }

  /** Non-empty labels short enough that their length byte is not taken for a pointer. */
  predicate LegalName(name: Name) { HasLabels(name, 0xc0) }

  lemma {:induction false} LabelsFit(name: Name, limit: nat, more: nat)
    requires HasLabels(name, limit) && limit <= more
    ensures HasLabels(name, more)
    decreases |name|
  {
    if name != [] {
      LabelsFit(AfterLabel(name), limit, more);
    }
  }

  // ---------------------------------------------------------------------------
  // What the printer's table makes of a name
  // ---------------------------------------------------------------------------

  /** The bytes by which the table knows a name: each dot is replaced by the length of the next label. */
  function RawOf(name: Name): Name { Wire(name)[1..1 + |name|] }

  /** The first known name whose raw bytes are this name, or the number of known names. */
  function FindKnown(known: seq<Name>, name: Name, i: nat): (r: nat)
    requires i <= |known|
    ensures i <= r <= |known| && (r < |known| ==> RawOf(known[r]) == name)
    decreases |known| - i
  {
    if i == |known| || RawOf(known[i]) == name then i else FindKnown(known, name, i + 1)
  }

  /** The name a reader finds where this name was printed. */
  function ReadAs(known: seq<Name>, name: Name): Name {
    var i := FindKnown(known, name, 0);
    if i < |known| then known[i] else name
  }

  /** The known names after this one was printed. */
  function Learn(known: seq<Name>, name: Name): seq<Name> {
    if FindKnown(known, name, 0) < |known| || |known| >= MAX_LABEL then known else known + [name]
  }

  function PrintedSize(known: seq<Name>, name: Name): nat {
    if FindKnown(known, name, 0) < |known| then 2 else |Wire(name)|
  }

  /** Each entry of the table is where the corresponding name stands in the packet. */
  ghost predicate Sound(m: Memory, size: nat, tab: seq<Label>, known: seq<Name>) {
    && |tab| == |known|
    && forall i :: 0 <= i < |tab| ==> SoundEntry(m, size, tab[i], known[i])
  }

  predicate SoundEntry(m: Memory, size: nat, e: Label, name: Name) {
    && LegalName(name) && e.len == |name| && e.pos + |Wire(name)| <= size && e.pos < 0x4000
    && Holds(m, e.pos, Wire(name))
  }

  lemma {:induction false} RawIs(m: Memory, pkt: seq<Byte>, e: Label, name: Name)
    requires Holds(m, 0, pkt) && e.pos + 1 + e.len <= |pkt| && SoundEntry(m, |pkt|, e, name)
    ensures Raw(pkt, e) == RawOf(name)
  {
    hide Wire, HasLabels;
    forall j | 0 <= j < e.len
      ensures Raw(pkt, e)[j] == RawOf(name)[j]
    {
      assert pkt[e.pos + 1 + j] == m(0 + (e.pos + 1 + j));
      assert Wire(name)[1 + j] == m(e.pos + (1 + j));
    }
  }

  lemma {:induction false} FindSame(m: Memory, pkt: seq<Byte>, tab: seq<Label>, known: seq<Name>, name: Name, i: nat)
    requires Holds(m, 0, pkt) && Within(|pkt|, tab) && Sound(m, |pkt|, tab, known) && i <= |tab|
    ensures FindLabel(pkt, tab, name, i) == FindKnown(known, name, i)
    decreases |tab| - i
  {
    hide Wire, HasLabels, Holds, Raw, RawOf;
    if i < |tab| {
      RawIs(m, pkt, tab[i], known[i]);
      FindSame(m, pkt, tab, known, name, i + 1);
    }
  }

  lemma {:induction false} NameAtIs(m: Memory, max: nat, p: nat, used: nat, len: nat, name: Name)
    requires NameLen(m, max, 0, p) == Ok((used, len)) && GetName(m, max, 0, p) == Ok(name)
    ensures NameAt(m, max, p) == Ok((name, p + used))
  {
  }

  lemma {:induction false} FullNameReads(m: Memory, max: nat, p: nat, name: Name)
    requires LegalName(name) && Holds(m, p, Wire(name)) && p + |Wire(name)| <= max
    ensures NameAt(m, max, p) == Ok((name, p + |Wire(name)|))
  {
    hide Wire, HasLabels, Holds, NameLen, GetName, NameAt;
    WireReads(m, max, 0, p, name);
    NameAtIs(m, max, p, |Wire(name)|, |name|, name);
  }

  function Pointer(pos: nat): seq<Byte> { [0xc0 + pos / 256 % 64, pos % 256] }

  lemma {:induction false} PointerIs(m: Memory, p: nat, pos: nat)
    requires pos < 0x4000 && Holds(m, p, Pointer(pos))
    ensures m(p) >= 0xc0 && Offset(m, p) == pos
  {
    assert Pointer(pos)[0] == m(p + 0) && Pointer(pos)[1] == m(p + 1);
  }

  lemma {:induction false} PointerReads(m: Memory, max: nat, p: nat, pos: nat, name: Name)
    requires LegalName(name) && Holds(m, pos, Wire(name)) && pos + |Wire(name)| <= max && pos < 0x4000
    requires Holds(m, p, Pointer(pos))
    ensures NameAt(m, max, p) == Ok((name, p + 2))
  {
    hide Wire, HasLabels, Holds, NameLen, GetName, NameAt, Pointer, Offset;
    PointerIs(m, p, pos);
    WireReads(m, max, 1, pos, name);
    NameStep(m, max, 0, p);
    NameAtIs(m, max, p, 2, |name|, name);
  }

  lemma {:induction false} SoundGrows(m: Memory, size: nat, more: nat, tab: seq<Label>, known: seq<Name>)
    requires Sound(m, size, tab, known) && size <= more
    ensures Sound(m, more, tab, known) && Within(more, tab)
  {
    hide Holds, HasLabels, Wire;
  }

  lemma {:induction false} SoundAdds(m: Memory, size: nat, tab: seq<Label>, known: seq<Name>, e: Label, name: Name)
    requires Sound(m, size, tab, known) && SoundEntry(m, size, e, name)
    ensures Sound(m, size, tab + [e], known + [name])
  {
    hide SoundEntry;
  }

  /** A printed name is read as the table made it, whether it was written out or became a pointer. */
  lemma {:induction false} NamePrinted(m: Memory, pkt: seq<Byte>, gap: nat, name: Name, tab: seq<Label>,
                                       known: seq<Name>, max: nat)
    requires Holds(m, 0, pkt) && Sound(m, |pkt|, tab, known) && Within(|pkt|, tab) && LegalName(name)
    requires var r := PrintName(pkt, gap, name, tab);
             Holds(m, |pkt| + gap, r.bytes) && |pkt| + gap + |r.bytes| <= max && |pkt| + gap < 0x4000
    ensures var r := PrintName(pkt, gap, name, tab);
            && |r.bytes| == PrintedSize(known, name)
            && NameAt(m, max, |pkt| + gap) == Ok((ReadAs(known, name), |pkt| + gap + |r.bytes|))
            && Sound(m, |pkt| + gap + |r.bytes|, r.tab, Learn(known, name))
  {
    hide Holds, LegalName, Wire, NameAt, FindLabel, FindKnown, Raw, RawOf, SoundEntry;
    var i, r := FindKnown(known, name, 0), PrintName(pkt, gap, name, tab);
    FindSame(m, pkt, tab, known, name, 0);
    SoundGrows(m, |pkt|, |pkt| + gap + |r.bytes|, tab, known);
    if i < |known| {
      EntryReads(m, |pkt|, tab[i], known[i], max, |pkt| + gap);
    } else {
      FullNameReads(m, max, |pkt| + gap, name);
      EntryIs(m, |pkt| + gap, name);
      SoundAdds(m, |pkt| + gap + |r.bytes|, tab, known, Label(|pkt| + gap, |name|), name);
    }
  }

  lemma {:induction false} EntryIs(m: Memory, p: nat, name: Name)
    requires LegalName(name) && Holds(m, p, Wire(name)) && p < 0x4000
    ensures SoundEntry(m, p + |Wire(name)|, Label(p, |name|), name)
  {
  }

  lemma {:induction false} EntryReads(m: Memory, size: nat, e: Label, name: Name, max: nat, p: nat)
    requires SoundEntry(m, size, e, name) && size <= max && Holds(m, p, Pointer(e.pos))
    ensures NameAt(m, max, p) == Ok((name, p + 2))
  {
    hide Holds, LegalName, Wire, NameAt, Pointer;
    PointerReads(m, max, p, e.pos, name);
  }

  // ---------------------------------------------------------------------------
  // Records
  // ---------------------------------------------------------------------------

  predicate Sendable(rr: Record) {
    && LegalName(rr.name) && rr.dnsclass == 1
    && (|| (rr.rtype == TYPE_A && rr.rdata.Address? && |rr.rdata.ip| == 4)
        || (IsHostType(rr.rtype) && rr.rdata.Host? && LegalName(rr.rdata.target))
        || (rr.rtype == TYPE_SRV && rr.rdata.Service? && LegalName(rr.rdata.target)))
  }

  /** The names of a record in the order they are printed. */
  function NamesOfRecord(rr: Record): seq<Name> {
    if rr.rdata.Host? || rr.rdata.Service? then [rr.name, rr.rdata.target] else [rr.name]
  }

  function LearnAll(known: seq<Name>, names: seq<Name>): seq<Name>
    decreases |names|
  {
    if names == [] then known else LearnAll(Learn(known, names[0]), names[1..])
  }

  /** The record as it is read back; its data length is the printed one. */
  function RereadRecord(known: seq<Name>, rr: Record): Record {
    var rr' := rr.(name := ReadAs(known, rr.name));
    var known' := Learn(known, rr.name);
    match rr.rdata
    case Host(t) =>
      rr'.(rdlength := PrintedSize(known', t) % 0x1_0000, rdata := Host(ReadAs(known', t)))
    case Service(_, _, _, t) =>
      rr'.(rdlength := (PrintedSize(known', t) + 6) % 0x1_0000, rdata := rr.rdata.(target := ReadAs(known', t)))
    case _ => rr'.(rdlength := 4)
  }

  lemma {:induction false} HeadReads(m: Memory, p: nat, name: seq<Byte>, rr: Record)
    requires Holds(m, p, Head(name, rr))
    ensures Holds(m, p, name) && |Head(name, rr)| == |name| + 8
    ensures var q := p + |name|;
            WordAt(m, q) == rr.rtype && WordAt(m, q + 2) == rr.dnsclass && LongAt(m, q + 4) == rr.ttl
  {
    hide Holds, WordAt, LongAt;
    HoldsParts(m, p, name + PutWord(rr.rtype) + PutWord(rr.dnsclass), PutLong(rr.ttl));
    HoldsParts(m, p, name + PutWord(rr.rtype), PutWord(rr.dnsclass));
    HoldsParts(m, p, name, PutWord(rr.rtype));
    WordReads(m, p + |name|, rr.rtype);
    WordReads(m, p + |name| + 2, rr.dnsclass);
    LongReads(m, p + |name| + 4, rr.ttl);
  }

  /** How a record is put together once its name and data were read. */
  lemma {:induction false} RecordStep(m: Memory, max: nat, p: nat, name: Name, q: nat, rtype: Word, len: Word,
                                      data: RData, end: nat)
    requires NameAt(m, max, p) == Ok((name, q)) && WordAt(m, q) == rtype && WordAt(m, q + 2) == 1
    requires WordAt(m, q + 8) == len && q + 10 + len <= max
    requires ParseData(m, max, q + 10, rtype, len) == Ok((data, end))
    ensures ParseRecord(m, max, p) == Ok((Record(name, rtype, 1, LongAt(m, q + 4), len, data), end))
  {
    hide NameAt, WordAt, LongAt, ParseData;
  }

  lemma {:induction false} AddressReads(m: Memory, max: nat, p: nat, ip: seq<Byte>)
    requires |ip| == 4 && Holds(m, p, ip)
    ensures ParseData(m, max, p, TYPE_A, 4) == Ok((Address(ip), p + 4))
  {
    HoldsBytes(m, p, ip);
  }

  lemma {:induction false} HostReads(m: Memory, max: nat, p: nat, rtype: Word, len: Word, name: Name, q: nat)
    requires IsHostType(rtype) && NameAt(m, max, p) == Ok((name, q))
    ensures ParseData(m, max, p, rtype, len) == Ok((Host(name), q))
  {
  }

  lemma {:induction false} ServiceReads(m: Memory, max: nat, p: nat, len: Word, d: RData, q: nat)
    requires d.Service? && NameAt(m, max, p + 6) == Ok((d.target, q))
    requires Holds(m, p, Numbers(d))
    ensures ParseData(m, max, p, TYPE_SRV, len) == Ok((d, q))
  {
    hide Holds, NameAt, WordAt;
    HoldsParts(m, p, PutWord(d.prio) + PutWord(d.weight), PutWord(d.port));
    HoldsParts(m, p, PutWord(d.prio), PutWord(d.weight));
    WordReads(m, p, d.prio);
    WordReads(m, p + 2, d.weight);
    WordReads(m, p + 4, d.port);
  }

  /** A record's name and fixed fields, once printed. */
  lemma {:induction false} RecordHead(m: Memory, pkt: seq<Byte>, rr: Record, tab: seq<Label>, known: seq<Name>,
                                      max: nat)
    requires Holds(m, 0, pkt) && Sound(m, |pkt|, tab, known) && Within(|pkt|, tab) && LegalName(rr.name)
    requires var head := Head(PrintName(pkt, 0, rr.name, tab).bytes, rr);
             Holds(m, |pkt|, head) && |pkt| + |head| <= max <= 0x4000
    ensures var n := PrintName(pkt, 0, rr.name, tab);
            var q := |pkt| + |n.bytes|;
            && |Head(n.bytes, rr)| == |n.bytes| + 8
            && NameAt(m, max, |pkt|) == Ok((ReadAs(known, rr.name), q))
            && WordAt(m, q) == rr.rtype && WordAt(m, q + 2) == rr.dnsclass && LongAt(m, q + 4) == rr.ttl
            && Sound(m, q + 8, n.tab, Learn(known, rr.name)) && Within(q + 8, n.tab)
            && Holds(m, 0, pkt + Head(n.bytes, rr))
  {
    hide *;
    var n := PrintName(pkt, 0, rr.name, tab);
    HeadReads(m, |pkt|, n.bytes, rr);
    NamePrinted(m, pkt, 0, rr.name, tab, known, max);
    SoundGrows(m, |pkt| + |n.bytes|, |pkt| + |n.bytes| + 8, n.tab, Learn(known, rr.name));
    HoldsJoin(m, 0, pkt, Head(n.bytes, rr));
  }

  lemma {:induction false} HoldsJoin(m: Memory, p: nat, a: seq<Byte>, b: seq<Byte>)
    requires Holds(m, p, a) && Holds(m, p + |a|, b)
    ensures Holds(m, p, a + b)
  {
    forall i | 0 <= i < |a + b|
      ensures (a + b)[i] == m(p + i)
    {
      if i >= |a| {
        assert b[i - |a|] == m(p + |a| + (i - |a|));
      }
    }
  }

  lemma {:induction false} WordSize(v: Word)
    ensures |PutWord(v)| == 2
  {
  }

  lemma {:induction false} AddressPrinted(m: Memory, pkt: seq<Byte>, rr: Record, tab: seq<Label>, known: seq<Name>,
                                          max: nat)
    requires Holds(m, 0, pkt) && Sound(m, |pkt|, tab, known) && Within(|pkt|, tab) && LegalName(rr.name)
    requires rr.rtype == TYPE_A && rr.dnsclass == 1 && rr.rdata.Address? && |rr.rdata.ip| == 4
    requires var r := PrintRecord(pkt, rr, tab);
             r.Some? && Holds(m, |pkt|, r.value.bytes) && |pkt| + |r.value.bytes| <= max <= 0x4000
    ensures var r := PrintRecord(pkt, rr, tab).value;
            && ParseRecord(m, max, |pkt|) == Ok((RereadRecord(known, rr), |pkt| + |r.bytes|))
            && Sound(m, |pkt| + |r.bytes|, r.tab, Learn(known, rr.name))
  {
    hide *;
    var n, r := PrintName(pkt, 0, rr.name, tab), PrintRecord(pkt, rr, tab).value;
    var head, q: nat := Head(n.bytes, rr), |pkt| + |n.bytes|;
    AddressParts(pkt, rr, tab, known);
    WordSize(4);
    HoldsParts(m, |pkt|, head, PutWord(4) + rr.rdata.ip);
    RecordHead(m, pkt, rr, tab, known, max);
    HoldsParts(m, q + 8, PutWord(4), rr.rdata.ip);
    WordReads(m, q + 8, 4);
    AddressReads(m, max, q + 10, rr.rdata.ip);
    RecordStep(m, max, |pkt|, ReadAs(known, rr.name), q, TYPE_A, 4, rr.rdata, q + 14);
    SoundGrows(m, q + 8, q + 14, n.tab, Learn(known, rr.name));
  }

  lemma {:induction false} AddressParts(pkt: seq<Byte>, rr: Record, tab: seq<Label>, known: seq<Name>)
    requires Within(|pkt|, tab) && rr.rtype == TYPE_A && rr.rdata.Address?
    ensures var n := PrintName(pkt, 0, rr.name, tab);
            PrintRecord(pkt, rr, tab) == Some(Printed(Head(n.bytes, rr) + (PutWord(4) + rr.rdata.ip), n.tab))
    ensures RereadRecord(known, rr) == rr.(name := ReadAs(known, rr.name), rdlength := 4)
  {
    hide PrintName, PutWord, Head, ReadAs, Learn, PrintedSize, Within;
  }

  lemma {:induction false} HostPrinted(m: Memory, pkt: seq<Byte>, rr: Record, tab: seq<Label>, known: seq<Name>,
                                       max: nat)
    requires Holds(m, 0, pkt) && Sound(m, |pkt|, tab, known) && Within(|pkt|, tab) && LegalName(rr.name)
    requires IsHostType(rr.rtype) && rr.dnsclass == 1 && rr.rdata.Host? && LegalName(rr.rdata.target)
    requires var r := PrintRecord(pkt, rr, tab);
             r.Some? && Holds(m, |pkt|, r.value.bytes) && |pkt| + |r.value.bytes| <= max <= 0x4000
    ensures var r := PrintRecord(pkt, rr, tab).value;
            && ParseRecord(m, max, |pkt|) == Ok((RereadRecord(known, rr), |pkt| + |r.bytes|))
            && Sound(m, |pkt| + |r.bytes|, r.tab, Learn(Learn(known, rr.name), rr.rdata.target))
  {
    hide *;
    var n, r, known' := PrintName(pkt, 0, rr.name, tab), PrintRecord(pkt, rr, tab).value, Learn(known, rr.name);
    var head, q: nat := Head(n.bytes, rr), |pkt| + |n.bytes|;
    HostParts(pkt, rr, tab, known);
    var t := PrintName(pkt + head, 2, rr.rdata.target, n.tab);
    var len: Word := |t.bytes| % 0x1_0000;
    WordSize(len);
    HoldsParts(m, |pkt|, head, PutWord(len) + t.bytes);
    RecordHead(m, pkt, rr, tab, known, max);
    HoldsParts(m, q + 8, PutWord(len), t.bytes);
    WordReads(m, q + 8, len);
    NamePrinted(m, pkt + head, 2, rr.rdata.target, n.tab, known', max);
    HostReads(m, max, q + 10, rr.rtype, len, ReadAs(known', rr.rdata.target), q + 10 + |t.bytes|);
    RecordStep(m, max, |pkt|, ReadAs(known, rr.name), q, rr.rtype, len, Host(ReadAs(known', rr.rdata.target)),
               q + 10 + |t.bytes|);
  }

  lemma {:induction false} HostParts(pkt: seq<Byte>, rr: Record, tab: seq<Label>, known: seq<Name>)
    requires Within(|pkt|, tab) && IsHostType(rr.rtype) && rr.rdata.Host?
    ensures var n := PrintName(pkt, 0, rr.name, tab);
            var head := Head(n.bytes, rr);
            && Within(|pkt + head|, n.tab)
            && var t := PrintName(pkt + head, 2, rr.rdata.target, n.tab);
            PrintRecord(pkt, rr, tab) == Some(Printed(head + (PutWord(|t.bytes| % 0x1_0000) + t.bytes), t.tab))
    ensures var known', t := Learn(known, rr.name), rr.rdata.target;
            RereadRecord(known, rr) == rr.(name := ReadAs(known, rr.name),
                                           rdlength := PrintedSize(known', t) % 0x1_0000,
                                           rdata := Host(ReadAs(known', t)))
  {
    hide PrintName, PutWord, ReadAs, Learn, PrintedSize;
  }

  lemma {:induction false} ServicePrinted(m: Memory, pkt: seq<Byte>, rr: Record, tab: seq<Label>, known: seq<Name>,
                                          max: nat)
    requires Holds(m, 0, pkt) && Sound(m, |pkt|, tab, known) && Within(|pkt|, tab) && LegalName(rr.name)
    requires rr.rtype == TYPE_SRV && rr.dnsclass == 1 && rr.rdata.Service? && LegalName(rr.rdata.target)
    requires var r := PrintRecord(pkt, rr, tab);
             r.Some? && Holds(m, |pkt|, r.value.bytes) && |pkt| + |r.value.bytes| <= max <= 0x4000
    ensures var r := PrintRecord(pkt, rr, tab).value;
            && ParseRecord(m, max, |pkt|) == Ok((RereadRecord(known, rr), |pkt| + |r.bytes|))
            && Sound(m, |pkt| + |r.bytes|, r.tab, Learn(Learn(known, rr.name), rr.rdata.target))
  {
    hide *;
    var n, r, known' := PrintName(pkt, 0, rr.name, tab), PrintRecord(pkt, rr, tab).value, Learn(known, rr.name);
    var head, q: nat := Head(n.bytes, rr), |pkt| + |n.bytes|;
    ServiceParts(pkt, rr, tab, known);
    var t := PrintName(pkt + head, 8, rr.rdata.target, n.tab);
    var len: Word, d' := (|t.bytes| + 6) % 0x1_0000, rr.rdata.(target := ReadAs(known', rr.rdata.target));
    WordSize(len);
    NumbersSize(rr.rdata, d');
    HoldsParts(m, |pkt|, head, PutWord(len) + Numbers(rr.rdata) + t.bytes);
    RecordHead(m, pkt, rr, tab, known, max);
    HoldsParts(m, q + 8, PutWord(len) + Numbers(rr.rdata), t.bytes);
    HoldsParts(m, q + 8, PutWord(len), Numbers(rr.rdata));
    WordReads(m, q + 8, len);
    NamePrinted(m, pkt + head, 8, rr.rdata.target, n.tab, known', max);
    ServiceReads(m, max, q + 10, len, d', q + 16 + |t.bytes|);
    RecordStep(m, max, |pkt|, ReadAs(known, rr.name), q, rr.rtype, len, d', q + 16 + |t.bytes|);
  }

  lemma {:induction false} NumbersSize(d: RData, d': RData)
    requires d.Service? && d'.Service? && d' == d.(target := d'.target)
    ensures |Numbers(d)| == 6 && Numbers(d') == Numbers(d)
  {
  }

  lemma {:induction false} ServiceParts(pkt: seq<Byte>, rr: Record, tab: seq<Label>, known: seq<Name>)
    requires Within(|pkt|, tab) && rr.rtype == TYPE_SRV && rr.rdata.Service?
    ensures var n := PrintName(pkt, 0, rr.name, tab);
            var head := Head(n.bytes, rr);
            && Within(|pkt + head|, n.tab)
            && var t := PrintName(pkt + head, 8, rr.rdata.target, n.tab);
            PrintRecord(pkt, rr, tab)
            == Some(Printed(head + (PutWord((|t.bytes| + 6) % 0x1_0000) + Numbers(rr.rdata) + t.bytes), t.tab))
    ensures var known', t := Learn(known, rr.name), rr.rdata.target;
            RereadRecord(known, rr) == rr.(name := ReadAs(known, rr.name),
                                           rdlength := (PrintedSize(known', t) + 6) % 0x1_0000,
                                           rdata := rr.rdata.(target := ReadAs(known', t)))
  {
    hide PrintName, PutWord, ReadAs, Learn, PrintedSize, Numbers;
  }

  lemma {:induction false} LearnSingle(known: seq<Name>, name: Name)
    ensures LearnAll(known, [name]) == Learn(known, name)
  {
    var none: seq<Name> := [name][1..];
    assert none == [];
  }

  lemma {:induction false} LearnOne(known: seq<Name>, rr: Record)
    ensures LearnAll(known, NamesOfRecord(rr))
            == if rr.rdata.Host? || rr.rdata.Service? then Learn(Learn(known, rr.name), rr.rdata.target)
               else Learn(known, rr.name)
  {
    hide Learn;
    var names := NamesOfRecord(rr);
    if |names| == 2 {
      assert names[1..] == [rr.rdata.target];
      LearnSingle(Learn(known, rr.name), rr.rdata.target);
    } else {
      LearnSingle(known, rr.name);
    }
  }

  /** A printed record of a supported type is read as `RereadRecord` says. */
  lemma {:induction false} RecordPrinted(m: Memory, pkt: seq<Byte>, rr: Record, tab: seq<Label>, known: seq<Name>,
                                         max: nat)
    requires Holds(m, 0, pkt) && Sound(m, |pkt|, tab, known) && Within(|pkt|, tab) && Sendable(rr)
    requires var r := PrintRecord(pkt, rr, tab);
             r.Some? && Holds(m, |pkt|, r.value.bytes) && |pkt| + |r.value.bytes| <= max <= 0x4000
    ensures var r := PrintRecord(pkt, rr, tab).value;
            && ParseRecord(m, max, |pkt|) == Ok((RereadRecord(known, rr), |pkt| + |r.bytes|))
            && Sound(m, |pkt| + |r.bytes|, r.tab, LearnAll(known, NamesOfRecord(rr)))
  {
    hide Holds, Sound, Within, LegalName, PrintRecord, ParseRecord, RereadRecord, Learn, LearnAll, NamesOfRecord;
    LearnOne(known, rr);
    if rr.rtype == TYPE_A {
      AddressPrinted(m, pkt, rr, tab, known, max);
    } else if rr.rtype == TYPE_SRV {
      ServicePrinted(m, pkt, rr, tab, known, max);
    } else {
      HostPrinted(m, pkt, rr, tab, known, max);
    }
  }

  // ---------------------------------------------------------------------------
  // Sections
  // ---------------------------------------------------------------------------

  function NamesOfRecords(records: seq<Record>): seq<Name> {
    if records == [] then [] else NamesOfRecord(records[0]) + NamesOfRecords(records[1..])
  }

  function RereadRecords(known: seq<Name>, records: seq<Record>): (r: seq<Record>)
    ensures |r| == |records|
    decreases |records|
  {
    if records == [] then []
    else
      [RereadRecord(known, records[0])]
      + RereadRecords(LearnAll(known, NamesOfRecord(records[0])), records[1..])
  }

  lemma {:induction false} LearnParts(known: seq<Name>, a: seq<Name>, b: seq<Name>)
    ensures LearnAll(known, a + b) == LearnAll(LearnAll(known, a), b)
    decreases |a|
  {
    hide Learn;
    if a == [] {
      assert a + b == b;
    } else {
      LearnParts(Learn(known, a[0]), a[1..], b);
      assert (a + b)[1..] == a[1..] + b;
    }
  }

  predicate AllSendable(records: seq<Record>) {
    forall i :: 0 <= i < |records| ==> Sendable(records[i])
  }

  lemma {:induction false} RecordsPrinted(m: Memory, pkt: seq<Byte>, records: seq<Record>, tab: seq<Label>,
                                          known: seq<Name>, max: nat)
    requires Holds(m, 0, pkt) && Sound(m, |pkt|, tab, known) && Within(|pkt|, tab) && AllSendable(records)
    requires var r := PrintRecords(pkt, records, tab);
             r.Some? && Holds(m, |pkt|, r.value.bytes) && |pkt| + |r.value.bytes| <= max <= 0x4000
    ensures var r := PrintRecords(pkt, records, tab).value;
            && ParseRecords(m, max, |pkt|, |records|)
               == Ok((RereadRecords(known, records), |pkt| + |r.bytes|))
            && Sound(m, |pkt| + |r.bytes|, r.tab, LearnAll(known, NamesOfRecords(records)))
            && Holds(m, 0, pkt + r.bytes)
    decreases |records|
  {
    hide Holds, Sound, Within, Sendable, PrintRecord, ParseRecord, RereadRecord, NamesOfRecord, LearnAll;
    if records == [] {
      assert pkt + [] == pkt;
      NothingLearnt(known);
    } else {
      var one, rest := PrintRecord(pkt, records[0], tab).value, records[1..];
      var pkt', known' := pkt + one.bytes, LearnAll(known, NamesOfRecord(records[0]));
      var more := PrintRecords(pkt', rest, one.tab).value;
      HoldsParts(m, |pkt|, one.bytes, more.bytes);
      RecordPrinted(m, pkt, records[0], tab, known, max);
      HoldsJoin(m, 0, pkt, one.bytes);
      RecordsPrinted(m, pkt', rest, one.tab, known', max);
      LearnParts(known, NamesOfRecord(records[0]), NamesOfRecords(rest));
      assert pkt + (one.bytes + more.bytes) == pkt' + more.bytes;
    }
  }

  lemma {:induction false} NothingLearnt(known: seq<Name>)
    ensures LearnAll(known, []) == known
  {
  }

  function NamesOfQueries(queries: seq<Query>): seq<Name> {
    if queries == [] then [] else [queries[0].name] + NamesOfQueries(queries[1..])
  }

  function RereadQueries(known: seq<Name>, queries: seq<Query>): (r: seq<Query>)
    ensures |r| == |queries|
    decreases |queries|
  {
    if queries == [] then []
    else [queries[0].(name := ReadAs(known, queries[0].name))]
         + RereadQueries(Learn(known, queries[0].name), queries[1..])
  }

  predicate LegalQueries(queries: seq<Query>) {
    forall i :: 0 <= i < |queries| ==> LegalName(queries[i].name)
  }

  lemma {:induction false} QueryPrinted(m: Memory, pkt: seq<Byte>, q: Query, tab: seq<Label>, known: seq<Name>,
                                        max: nat)
    requires Holds(m, 0, pkt) && Sound(m, |pkt|, tab, known) && Within(|pkt|, tab) && LegalName(q.name)
    requires var one := PrintName(pkt, 0, q.name, tab).bytes + QueryTail(q);
             Holds(m, |pkt|, one) && |pkt| + |one| <= max <= 0x4000
    ensures var n := PrintName(pkt, 0, q.name, tab);
            var end := |pkt| + |n.bytes + QueryTail(q)|;
            && ParseQuery(m, max, |pkt|) == Ok((q.(name := ReadAs(known, q.name)), end))
            && Sound(m, end, n.tab, Learn(known, q.name)) && Within(end, n.tab)
            && Holds(m, 0, pkt + (n.bytes + QueryTail(q)))
  {
    hide *;
    var n := PrintName(pkt, 0, q.name, tab);
    var end := |pkt| + |n.bytes + QueryTail(q)|;
    QueryTailReads(m, |pkt|, n.bytes, q);
    NamePrinted(m, pkt, 0, q.name, tab, known, max);
    QueryStep(m, max, |pkt|, ReadAs(known, q.name), |pkt| + |n.bytes|);
    SoundGrows(m, |pkt| + |n.bytes|, end, n.tab, Learn(known, q.name));
    HoldsJoin(m, 0, pkt, n.bytes + QueryTail(q));
  }

  lemma {:induction false} QueryTailReads(m: Memory, p: nat, name: seq<Byte>, q: Query)
    requires Holds(m, p, name + QueryTail(q))
    ensures Holds(m, p, name) && |name + QueryTail(q)| == |name| + 4
    ensures WordAt(m, p + |name|) == q.qtype && WordAt(m, p + |name| + 2) == q.dnsclass
  {
    hide Holds, WordAt;
    HoldsParts(m, p, name, QueryTail(q));
    HoldsParts(m, p + |name|, PutWord(q.qtype), PutWord(q.dnsclass));
    WordReads(m, p + |name|, q.qtype);
    WordReads(m, p + |name| + 2, q.dnsclass);
  }

  lemma {:induction false} QueryStep(m: Memory, max: nat, p: nat, name: Name, q: nat)
    requires NameAt(m, max, p) == Ok((name, q))
    ensures ParseQuery(m, max, p) == Ok((Query(name, WordAt(m, q), WordAt(m, q + 2)), q + 4))
  {
    hide NameAt, WordAt;
  }

  lemma {:induction false} QueriesPrinted(m: Memory, pkt: seq<Byte>, queries: seq<Query>, tab: seq<Label>,
                                          known: seq<Name>, max: nat)
    requires Holds(m, 0, pkt) && Sound(m, |pkt|, tab, known) && Within(|pkt|, tab) && LegalQueries(queries)
    requires var r := PrintQueries(pkt, queries, tab);
             Holds(m, |pkt|, r.bytes) && |pkt| + |r.bytes| <= max <= 0x4000
    ensures var r := PrintQueries(pkt, queries, tab);
            && ParseQueries(m, max, |pkt|, |queries|)
               == Ok((RereadQueries(known, queries), |pkt| + |r.bytes|))
            && Sound(m, |pkt| + |r.bytes|, r.tab, LearnAll(known, NamesOfQueries(queries)))
            && Holds(m, 0, pkt + r.bytes)
    decreases |queries|
  {
    hide Holds, Sound, LegalName, PrintName, ParseQuery, ReadAs, Learn, QueryTail;
    if queries == [] {
      assert pkt + [] == pkt;
    } else {
      var q, rest := queries[0], queries[1..];
      var n := PrintName(pkt, 0, q.name, tab);
      var one := n.bytes + QueryTail(q);
      var pkt', known' := pkt + one, Learn(known, q.name);
      var more := PrintQueries(pkt', rest, n.tab);
      HoldsParts(m, |pkt|, one, more.bytes);
      QueryPrinted(m, pkt, q, tab, known, max);
      QueriesPrinted(m, pkt', rest, n.tab, known', max);
      assert pkt + (one + more.bytes) == pkt' + more.bytes;
      assert NamesOfQueries(queries)[1..] == NamesOfQueries(rest);
    }
  }

  // ---------------------------------------------------------------------------
  // Packets
  // ---------------------------------------------------------------------------

  predicate SendablePacket(p: Packet) {
    && LegalQueries(p.queries) && AllSendable(p.answers) && AllSendable(p.authorities) && AllSendable(p.additional)
    && |p.queries| < 0x1_0000 && |p.answers| < 0x1_0000 && |p.authorities| < 0x1_0000 && |p.additional| < 0x1_0000
  }

  /** The packet a reader finds where this one was printed. */
  function Reread(p: Packet): Packet {
    var k0 := LearnAll([], NamesOfQueries(p.queries));
    var k1 := LearnAll(k0, NamesOfRecords(p.answers));
    var k2 := LearnAll(k1, NamesOfRecords(p.authorities));
    Packet(p.id, p.flags, RereadQueries([], p.queries), RereadRecords(k0, p.answers),
           RereadRecords(k1, p.authorities), RereadRecords(k2, p.additional))
  }

  lemma {:induction false} SmallCount(n: nat)
    requires n < 0x1_0000
    ensures n % 0x1_0000 == n
  {
  }

  lemma {:induction false} SixWords(m: Memory, p: nat, a: Word, b: Word, c: Word, d: Word, e: Word, f: Word)
    requires Holds(m, p, PutWord(a) + PutWord(b) + PutWord(c) + PutWord(d) + PutWord(e) + PutWord(f))
    ensures WordAt(m, p) == a && WordAt(m, p + 2) == b && WordAt(m, p + 4) == c
    ensures WordAt(m, p + 6) == d && WordAt(m, p + 8) == e && WordAt(m, p + 10) == f
  {
    hide Holds, WordAt;
    HoldsParts(m, p, PutWord(a) + PutWord(b) + PutWord(c) + PutWord(d) + PutWord(e), PutWord(f));
    HoldsParts(m, p, PutWord(a) + PutWord(b) + PutWord(c) + PutWord(d), PutWord(e));
    HoldsParts(m, p, PutWord(a) + PutWord(b) + PutWord(c), PutWord(d));
    HoldsParts(m, p, PutWord(a) + PutWord(b), PutWord(c));
    HoldsParts(m, p, PutWord(a), PutWord(b));
    WordReads(m, p, a);
    WordReads(m, p + 2, b);
    WordReads(m, p + 4, c);
    WordReads(m, p + 6, d);
    WordReads(m, p + 8, e);
    WordReads(m, p + 10, f);
  }

  lemma {:induction false} HeaderReads(m: Memory, p: Packet)
    requires Holds(m, 0, PutHeader(p)) && SendablePacket(p)
    ensures WordAt(m, 0) == p.id && WordAt(m, 2) == p.flags && WordAt(m, 4) == |p.queries|
    ensures WordAt(m, 6) == |p.answers| && WordAt(m, 8) == |p.authorities| && WordAt(m, 10) == |p.additional|
  {
    hide Holds, WordAt, PutWord, LegalQueries, AllSendable;
    SixWords(m, 0, p.id, p.flags, |p.queries| % 0x1_0000, |p.answers| % 0x1_0000,
             |p.authorities| % 0x1_0000, |p.additional| % 0x1_0000);
    SmallCount(|p.queries|);
    SmallCount(|p.answers|);
    SmallCount(|p.authorities|);
    SmallCount(|p.additional|);
  }

  lemma {:induction false} RecordsPrint(pkt: seq<Byte>, records: seq<Record>, tab: seq<Label>)
    requires Within(|pkt|, tab) && AllSendable(records)
    ensures PrintRecords(pkt, records, tab).Some?
    decreases |records|
  {
    hide Within, PrintName, LegalName, Head, Numbers, PutWord;
    if records != [] {
      var one := PrintRecord(pkt, records[0], tab);
      RecordsPrint(pkt + one.value.bytes, records[1..], one.value.tab);
    }
  }

  /** The printed sections of a packet, each behind what was printed before it. */
  datatype Sections = Sections(q: Printed, an: Printed, ns: Printed, ar: Printed)

  function Upto(p: Packet, s: Sections, k: nat): seq<Byte> {
    if k == 0 then PutHeader(p)
    else if k == 1 then PutHeader(p) + s.q.bytes
    else if k == 2 then PutHeader(p) + s.q.bytes + s.an.bytes
    else if k == 3 then PutHeader(p) + s.q.bytes + s.an.bytes + s.ns.bytes
    else PutHeader(p) + s.q.bytes + s.an.bytes + s.ns.bytes + s.ar.bytes
  }

  ghost predicate AreSections(p: Packet, s: Sections) {
    && s.q == PrintQueries(Upto(p, s, 0), p.queries, [])
    && Within(|Upto(p, s, 1)|, s.q.tab)
    && PrintRecords(Upto(p, s, 1), p.answers, s.q.tab) == Some(s.an)
    && Within(|Upto(p, s, 2)|, s.an.tab)
    && PrintRecords(Upto(p, s, 2), p.authorities, s.an.tab) == Some(s.ns)
    && Within(|Upto(p, s, 3)|, s.ns.tab)
    && PrintRecords(Upto(p, s, 3), p.additional, s.ns.tab) == Some(s.ar)
  }

  lemma {:induction false} PacketSections(p: Packet) returns (s: Sections)
    requires SendablePacket(p)
    ensures AreSections(p, s) && PrintPacket(p) == Some(Upto(p, s, 4))
  {
    hide PutHeader, PrintQueries, PrintRecords, AllSendable, LegalQueries;
    var head := PutHeader(p);
    var q := PrintQueries(head, p.queries, []);
    RecordsPrint(head + q.bytes, p.answers, q.tab);
    var an := PrintRecords(head + q.bytes, p.answers, q.tab).value;
    RecordsPrint(head + q.bytes + an.bytes, p.authorities, an.tab);
    var ns := PrintRecords(head + q.bytes + an.bytes, p.authorities, an.tab).value;
    RecordsPrint(head + q.bytes + an.bytes + ns.bytes, p.additional, ns.tab);
    var ar := PrintRecords(head + q.bytes + an.bytes + ns.bytes, p.additional, ns.tab).value;
    s := Sections(q, an, ns, ar);
  }

  lemma {:induction false} UptoStep(p: Packet, s: Sections)
    ensures Upto(p, s, 1) == Upto(p, s, 0) + s.q.bytes && Upto(p, s, 2) == Upto(p, s, 1) + s.an.bytes
    ensures Upto(p, s, 3) == Upto(p, s, 2) + s.ns.bytes && Upto(p, s, 4) == Upto(p, s, 3) + s.ar.bytes
    ensures |Upto(p, s, 0)| == 12 && Upto(p, s, 0) == PutHeader(p)
  {
    hide PutHeader;
  }

  /** How a packet is put together once its sections were read. */
  lemma {:induction false} PacketStep(m: Memory, size: nat, q: seq<Query>, an: seq<Record>, ns: seq<Record>,
                                      ar: seq<Record>, p1: nat, p2: nat, p3: nat, p4: nat)
    requires size >= 12
    requires ParseQueries(m, size, 12, WordAt(m, 4)) == Ok((q, p1))
    requires ParseRecords(m, size, p1, WordAt(m, 6)) == Ok((an, p2))
    requires ParseRecords(m, size, p2, WordAt(m, 8)) == Ok((ns, p3))
    requires ParseRecords(m, size, p3, WordAt(m, 10)) == Ok((ar, p4))
    ensures ParsePacket(m, size) == Ok(Packet(WordAt(m, 0), WordAt(m, 2), q, an, ns, ar))
  {
    hide ParseQueries, ParseRecords, WordAt;
  }

  lemma {:induction false} RereadIs(p: Packet)
    ensures var k0 := LearnAll([], NamesOfQueries(p.queries));
            var k1 := LearnAll(k0, NamesOfRecords(p.answers));
            var k2 := LearnAll(k1, NamesOfRecords(p.authorities));
            Reread(p) == Packet(p.id, p.flags, RereadQueries([], p.queries), RereadRecords(k0, p.answers),
                                RereadRecords(k1, p.authorities), RereadRecords(k2, p.additional))
  {
    hide LearnAll, NamesOfQueries, NamesOfRecords, RereadQueries, RereadRecords;
  }

  lemma {:induction false} SectionsAre(p: Packet, s: Sections)
    requires AreSections(p, s)
    ensures s.q == PrintQueries(Upto(p, s, 0), p.queries, [])
    ensures Within(|Upto(p, s, 1)|, s.q.tab) && PrintRecords(Upto(p, s, 1), p.answers, s.q.tab) == Some(s.an)
    ensures Within(|Upto(p, s, 2)|, s.an.tab) && PrintRecords(Upto(p, s, 2), p.authorities, s.an.tab) == Some(s.ns)
    ensures Within(|Upto(p, s, 3)|, s.ns.tab) && PrintRecords(Upto(p, s, 3), p.additional, s.ns.tab) == Some(s.ar)
  {
    hide Upto, PrintQueries, PrintRecords, Within;
  }

  lemma {:induction false} PartsSendable(p: Packet)
    requires SendablePacket(p)
    ensures LegalQueries(p.queries) && AllSendable(p.answers) && AllSendable(p.authorities)
    ensures AllSendable(p.additional)
  {
  }

  lemma {:induction false} NothingSound(m: Memory, size: nat)
    ensures Sound(m, size, [], []) && Within(size, [])
  {
  }

  /** Parsing a printed packet gives the packet as the printer's table made it. */
  lemma {:induction false} PacketReads(m: Memory, p: Packet)
    requires SendablePacket(p) && PrintPacket(p).Some? && |PrintPacket(p).value| <= 0x4000
    requires Holds(m, 0, PrintPacket(p).value)
    ensures ParsePacket(m, |PrintPacket(p).value|) == Ok(Reread(p))
  {
    hide *;
    var s := PacketSections(p);
    var size := |PrintPacket(p).value|;
    UptoStep(p, s);
    SectionsAre(p, s);
    PartsSendable(p);
    HoldsParts(m, 0, Upto(p, s, 3), s.ar.bytes);
    HoldsParts(m, 0, Upto(p, s, 2), s.ns.bytes);
    HoldsParts(m, 0, Upto(p, s, 1), s.an.bytes);
    HoldsParts(m, 0, Upto(p, s, 0), s.q.bytes);
    HeaderReads(m, p);
    NothingSound(m, 12);
    var k0 := LearnAll([], NamesOfQueries(p.queries));
    var k1 := LearnAll(k0, NamesOfRecords(p.answers));
    var k2 := LearnAll(k1, NamesOfRecords(p.authorities));
    QueriesPrinted(m, Upto(p, s, 0), p.queries, [], [], size);
    RecordsPrinted(m, Upto(p, s, 1), p.answers, s.q.tab, k0, size);
    RecordsPrinted(m, Upto(p, s, 2), p.authorities, s.an.tab, k1, size);
    RecordsPrinted(m, Upto(p, s, 3), p.additional, s.ns.tab, k2, size);
    PacketStep(m, size, RereadQueries([], p.queries), RereadRecords(k0, p.answers), RereadRecords(k1, p.authorities),
               RereadRecords(k2, p.additional), |Upto(p, s, 1)|, |Upto(p, s, 2)|, |Upto(p, s, 3)|, |Upto(p, s, 4)|);
    RereadIs(p);
  }

  // ---------------------------------------------------------------------------
  // When the packet comes back unchanged
  // ---------------------------------------------------------------------------

  function NamesOf(p: Packet): seq<Name> {
    NamesOfQueries(p.queries) + NamesOfRecords(p.answers) + NamesOfRecords(p.authorities)
    + NamesOfRecords(p.additional)
  }

  /** No name in the list is taken by the table for another one before it. */
  predicate Faithful(known: seq<Name>, names: seq<Name>)
    decreases |names|
  {
    names == [] ||
    (var i := FindKnown(known, names[0], 0);
     (i < |known| ==> known[i] == names[0]) && Faithful(Learn(known, names[0]), names[1..]))
  }

  /** The data length is not copied from the record but computed while printing. */
  predicate SameRecord(a: Record, b: Record) { a == b.(rdlength := a.rdlength) }

  predicate SameRecords(a: seq<Record>, b: seq<Record>) {
    |a| == |b| && forall i :: 0 <= i < |a| ==> SameRecord(a[i], b[i])
  }

  predicate SamePacket(a: Packet, b: Packet) {
    && a.id == b.id && a.flags == b.flags && a.queries == b.queries && SameRecords(a.answers, b.answers)
    && SameRecords(a.authorities, b.authorities) && SameRecords(a.additional, b.additional)
  }

  lemma {:induction false} FaithfulParts(known: seq<Name>, a: seq<Name>, b: seq<Name>)
    ensures Faithful(known, a + b) <==> Faithful(known, a) && Faithful(LearnAll(known, a), b)
    decreases |a|
  {
    hide Learn, FindKnown;
    if a == [] {
      assert a + b == b;
    } else {
      FaithfulParts(Learn(known, a[0]), a[1..], b);
      assert (a + b)[1..] == a[1..] + b;
    }
  }

  lemma {:induction false} FaithfulSingle(known: seq<Name>, name: Name)
    ensures Faithful(known, [name]) <==> ReadAs(known, name) == name
  {
    hide Learn, FindKnown;
  }

  lemma {:induction false} FaithfulRecord(known: seq<Name>, rr: Record)
    ensures Faithful(known, NamesOfRecord(rr)) <==> SameRecord(RereadRecord(known, rr), rr)
  {
    hide Learn, Faithful, ReadAs, PrintedSize, LearnAll;
    FaithfulSingle(known, rr.name);
    if rr.rdata.Host? || rr.rdata.Service? {
      FaithfulSingle(Learn(known, rr.name), rr.rdata.target);
      FaithfulParts(known, [rr.name], [rr.rdata.target]);
      LearnSingle(known, rr.name);
      assert [rr.name] + [rr.rdata.target] == NamesOfRecord(rr);
    }
  }

  lemma {:induction false} SameRest(a: seq<Record>, b: seq<Record>)
    requires |a| == |b| > 0
    ensures SameRecords(a, b) <==> SameRecord(a[0], b[0]) && SameRecords(a[1..], b[1..])
  {
    hide SameRecord;
    if SameRecord(a[0], b[0]) && SameRecords(a[1..], b[1..]) {
      forall i | 0 <= i < |a|
        ensures SameRecord(a[i], b[i])
      {
        if i > 0 {
          assert a[1..][i - 1] == a[i] && b[1..][i - 1] == b[i];
        }
      }
    }
  }

  lemma {:induction false} FaithfulRecords(known: seq<Name>, records: seq<Record>)
    ensures Faithful(known, NamesOfRecords(records)) <==> SameRecords(RereadRecords(known, records), records)
    decreases |records|
  {
    hide Faithful, RereadRecord, NamesOfRecord, SameRecord, LearnAll;
    if records == [] {
      FaithfulNone(known);
    } else {
      var names, known' := NamesOfRecord(records[0]), LearnAll(known, NamesOfRecord(records[0]));
      FaithfulParts(known, names, NamesOfRecords(records[1..]));
      FaithfulRecord(known, records[0]);
      FaithfulRecords(known', records[1..]);
      var r := RereadRecords(known, records);
      SameRest(r, records);
      assert r[1..] == RereadRecords(known', records[1..]);
    }
  }

  lemma {:induction false} FaithfulNone(known: seq<Name>)
    ensures Faithful(known, [])
  {
  }

  lemma {:induction false} FaithfulQueries(known: seq<Name>, queries: seq<Query>)
    ensures Faithful(known, NamesOfQueries(queries)) <==> RereadQueries(known, queries) == queries
    decreases |queries|
  {
    hide Faithful, ReadAs, Learn;
    if queries == [] {
      FaithfulNone(known);
    } else {
      var q, rest := queries[0], queries[1..];
      FaithfulParts(known, [q.name], NamesOfQueries(rest));
      FaithfulSingle(known, q.name);
      LearnSingle(known, q.name);
      FaithfulQueries(Learn(known, q.name), rest);
      var r := RereadQueries(known, queries);
      assert r[1..] == RereadQueries(Learn(known, q.name), rest);
      assert r[0] == q.(name := ReadAs(known, q.name));
      assert r == [r[0]] + r[1..] && queries == [q] + rest;
    }
  }

  lemma {:induction false} FaithfulPacket(p: Packet)
    ensures Faithful([], NamesOf(p)) <==> SamePacket(Reread(p), p)
  {
    hide Faithful, LearnAll, NamesOfQueries, NamesOfRecords, RereadQueries, RereadRecords, SameRecords;
    var a, b, c, d := NamesOfQueries(p.queries), NamesOfRecords(p.answers), NamesOfRecords(p.authorities),
                      NamesOfRecords(p.additional);
    FaithfulParts([], a + b + c, d);
    FaithfulParts([], a + b, c);
    FaithfulParts([], a, b);
    LearnParts([], a + b, c);
    LearnParts([], a, b);
    FaithfulQueries([], p.queries);
    FaithfulRecords(LearnAll([], a), p.answers);
    FaithfulRecords(LearnAll([], a + b), p.authorities);
    FaithfulRecords(LearnAll([], a + b + c), p.additional);
  }

  /**
   Parsing what was printed gives the packet back, up to the data lengths, if and only if no
   name's raw bytes are another name of the packet that the table then takes for it.
   */
  lemma {:induction false} PacketRoundTrip(m: Memory, p: Packet)
    requires SendablePacket(p) && PrintPacket(p).Some? && |PrintPacket(p).value| <= 0x4000
    requires Holds(m, 0, PrintPacket(p).value)
    ensures var r := ParsePacket(m, |PrintPacket(p).value|);
            r.Ok? && (SamePacket(r.value, p) <==> Faithful([], NamesOf(p)))
  {
    hide *;
    PacketReads(m, p);
    FaithfulPacket(p);
  }

  /** Labels shorter than every character of the name: no length byte can pass for one. */
  predicate HostName(name: Name) {
    HasLabels(name, 45) && forall i :: 0 <= i < |name| ==> name[i] >= 45
  }

  lemma {:induction false} WireOpens(name: Name, limit: nat)
    requires HasLabels(name, limit) && name != [] && limit <= 0xc0
    ensures Wire(name)[0] < limit && HasLabels(AfterLabel(name), limit) && LabelLen(name) <= |name|
    ensures LabelLen(name) < |name| <==> AfterLabel(name) != []
  {
    LabelsFit(name, limit, 0xc0);
    WireParts(name);
  }

  lemma {:induction false} RawStart(name: Name, j: nat)
    requires name != [] && LegalName(name) && j <= LabelLen(name) && j < |name|
    ensures RawOf(name)[j] == if j < LabelLen(name) then name[j] else Wire(AfterLabel(name))[0]
  {
    hide Wire, LabelLen, AfterLabel, HasLabels;
    WireParts(name);
    var n, rest := LabelLen(name), AfterLabel(name);
    assert Wire(name)[1 + j] == RawOf(name)[j];
  }

  /** Raw bytes that are a host name are the name itself, which then has a single label. */
  lemma {:induction false} HostNamesDiffer(written: Name, name: Name)
    requires HostName(written) && HostName(name) && RawOf(written) == name
    ensures written == name
  {
    hide Wire, LabelLen, HasLabels, AfterLabel, RawOf;
    RawSize(written);
    if written != [] {
      var n := LabelLen(written);
      LabelsFit(written, 45, 0xc0);
      WireOpens(written, 45);
      if n < |written| {
        WireOpens(AfterLabel(written), 45);
        RawStart(written, n);
        assert false;
      } else {
        forall j | 0 <= j < n
          ensures name[j] == written[j]
        {
          RawStart(written, j);
        }
      }
    }
  }

  lemma {:induction false} RawSize(name: Name)
    ensures |RawOf(name)| == |name|
  {
  }

  predicate AllHostNames(names: seq<Name>) { forall i :: 0 <= i < |names| ==> HostName(names[i]) }

  /** Packets of host names with labels of at most 44 characters always come back. */
  lemma {:induction false} HostNamesFaithful(known: seq<Name>, names: seq<Name>)
    requires AllHostNames(known) && AllHostNames(names)
    ensures Faithful(known, names)
    decreases |names|
  {
    hide HostName, RawOf;
    if names != [] {
      var i := FindKnown(known, names[0], 0);
      if i < |known| {
        HostNamesDiffer(known[i], names[0]);
      }
      HostNamesFaithful(Learn(known, names[0]), names[1..]);
    }
  }

  lemma {:induction false} OneLabel(name: Name)
    requires 0 < |name| < 0xc0 && forall i :: 0 <= i < |name| ==> name[i] != DOT
    ensures LegalName(name) && Wire(name) == [|name|] + name + [0]
  {
    hide Wire, LabelLen;
    LabelEnds(name, |name|);
    LegalLabel(name);
    WireParts(name);
    EmptyWire();
    assert name[..|name|] == name;
  }

  lemma {:induction false} LegalLabel(name: Name)
    requires 0 < |name| < 0xc0 && LabelLen(name) == |name|
    ensures LegalName(name) && AfterLabel(name) == []
  {
  }

  lemma {:induction false} TwoLabels(x: Name, y: Name)
    requires 0 < |x| < 0xc0 && forall i :: 0 <= i < |x| ==> x[i] != DOT
    requires y != [] && LegalName(y)
    ensures LegalName(x + [DOT] + y) && Wire(x + [DOT] + y) == [|x|] + x + Wire(y)
  {
    hide Wire, LabelLen;
    var name := x + [DOT] + y;
    LabelEnds(name, |x|);
    assert name[|x| + 1..] == y && name[..|x|] == x;
    LegalName2(name, y);
    WireParts(name);
  }

  lemma {:induction false} LegalName2(name: Name, y: Name)
    requires 0 < LabelLen(name) < 0xc0 && LabelLen(name) < |name| && name[LabelLen(name) + 1..] == y
    requires y != [] && LegalName(y)
    ensures LegalName(name) && AfterLabel(name) == y
  {
  }

  /** Two labels that make one label when they are joined. */
  predicate Joinable(x: Name, y: Name) {
    0 < |x| && 0 < |y| && |x| + |y| + 1 < 0xc0 && DOT !in x && DOT !in y
  }

  /** A name of two labels. */
  function Dotted(x: Name, y: Name): Name { x + [DOT] + y }

  /** The same name with the length of its second label for the dot. */
  function Joined(x: Name, y: Name): Name
    requires Joinable(x, y)
  {
    x + [|y|] + y
  }

  lemma {:induction false} JoinableNames(x: Name, y: Name)
    requires Joinable(x, y)
    ensures LegalName(Dotted(x, y)) && LegalName(Joined(x, y)) && RawOf(Dotted(x, y)) == Joined(x, y)
    ensures Dotted(x, y) == Joined(x, y) <==> |y| == DOT
  {
    hide Wire, LegalName;
    var a, b := Dotted(x, y), Joined(x, y);
    OneLabel(y);
    TwoLabels(x, y);
    assert Wire(a) == [|x|] + b + [0];
    assert a[|x|] == DOT && b[|x|] == |y|;
    if |y| != DOT {
      OneLabel(b);
    }
  }

  /**
   Two names that differ only in that one has a dot where the other has the character whose
   code is the length of the label behind it: asked for together, the second is printed as a
   pointer to the first and read as the first.
   */
  lemma {:induction false} MistakenName(x: Name, y: Name)
    requires Joinable(x, y)
    ensures var a, b := Dotted(x, y), Joined(x, y);
            && LegalName(a) && LegalName(b) && ReadAs([a], b) == a
            && (Faithful([], [a, b]) <==> |y| == DOT)
  {
    hide Wire, LegalName, Faithful, ReadAs, Learn, Dotted, Joined, RawOf, Joinable;
    var a, b := Dotted(x, y), Joined(x, y);
    JoinableNames(x, y);
    FirstKnown(a, b);
    FaithfulParts([], [a], [b]);
    FaithfulSingle([], a);
    LearnSingle([], a);
    FaithfulSingle([a], b);
    assert [a] + [b] == [a, b];
  }

  /** A packet that asks for two names. */
  function TwoQuestions(id: Word, flags: Word, a: Name, b: Name): Packet {
    Packet(id, flags, [Query(a, TYPE_A, 1), Query(b, TYPE_A, 1)], [], [], [])
  }

  lemma {:induction false} TwoNames(id: Word, flags: Word, a: Name, b: Name)
    ensures var p := TwoQuestions(id, flags, a, b);
            && NamesOfQueries(p.queries) == [a] + [b] && NamesOf(p) == [a, b]
            && (LegalName(a) && LegalName(b) ==> SendablePacket(p))
  {
    hide LegalName;
    var queries := TwoQuestions(id, flags, a, b).queries;
    assert queries[1..] == [queries[1]] && queries[1..][1..] == [];
    assert NamesOfQueries(queries[1..]) == [b];
    assert [a] + [b] == [a, b];
  }

  lemma {:induction false} TwoQuestionsSize(id: Word, flags: Word, a: Name, b: Name)
    ensures var d := PrintPacket(TwoQuestions(id, flags, a, b));
            d.Some? && |d.value| <= |a| + |b| + 24
  {
    hide Wire, FindLabel;
    var p := TwoQuestions(id, flags, a, b);
    var head, queries := PutHeader(p), p.queries;
    assert queries[1..] == [queries[1]] && queries[1..][1..] == [];
    WireSize(a);
    WireSize(b);
    var n := PrintName(head, 0, a, []);
    var one := n.bytes + QueryTail(queries[0]);
    var m := PrintName(head + one, 0, b, n.tab);
    assert |PrintQueries(head + one, queries[1..], n.tab).bytes| == |m.bytes| + 4;
  }

  /** A packet that asks for two such names is read back as asking for the first one twice. */
  lemma {:induction false} MistakenPacket(m: Memory, id: Word, flags: Word, x: Name, y: Name)
    requires Joinable(x, y)
    requires var d := PrintPacket(TwoQuestions(id, flags, Dotted(x, y), Joined(x, y))); d.Some? && Holds(m, 0, d.value)
    ensures var p := TwoQuestions(id, flags, Dotted(x, y), Joined(x, y));
            var r := ParsePacket(m, |PrintPacket(p).value|);
            && SendablePacket(p) && r == Ok(TwoQuestions(id, flags, Dotted(x, y), Dotted(x, y)))
            && (SamePacket(r.value, p) <==> |y| == DOT)
  {
    hide *;
    var a, b := Dotted(x, y), Joined(x, y);
    var p := TwoQuestions(id, flags, a, b);
    MistakenName(x, y);
    JoinableNames(x, y);
    TwoNames(id, flags, a, b);
    TwoQuestionsSize(id, flags, a, b);
    JoinableSize(x, y);
    PacketReads(m, p);
    FaithfulPacket(p);
    RereadTwo(id, flags, a, b);
  }

  lemma {:induction false} RereadTwo(id: Word, flags: Word, a: Name, b: Name)
    requires RawOf(a) == b
    ensures Reread(TwoQuestions(id, flags, a, b)) == TwoQuestions(id, flags, a, a)
  {
    hide RawOf, Learn, ReadAs, LearnAll;
    FirstKnown(a, b);
    var queries := TwoQuestions(id, flags, a, b).queries;
    assert queries[1..] == [queries[1]] && queries[1..][1..] == [];
    assert RereadQueries([a], queries[1..]) == [Query(a, TYPE_A, 1)];
  }

  lemma {:induction false} JoinableSize(x: Name, y: Name)
    requires Joinable(x, y)
    ensures |Dotted(x, y)| == |Joined(x, y)| < 0xc0
  {
  }

  /** A hyphen is the length of a label of 45 letters: two ordinary host names, of which one is lost. */
  lemma {:induction false} HyphenForDot()
    ensures var x, y := [97], seq(45, _ => 98);
            && Joinable(x, y) && Dotted(x, y) == x + [DOT] + y && Joined(x, y) == x + [45] + y
            && !Faithful([], [Dotted(x, y), Joined(x, y)])
  {
    var x: Name, y: Name := [97], seq(45, _ => 98);
    MistakenName(x, y);
  }

  lemma {:induction false} FirstKnown(a: Name, b: Name)
    requires RawOf(a) == b
    ensures ReadAs([a], b) == a && Learn([], a) == [a] && ReadAs([], a) == a
  {
    hide RawOf;
    assert FindKnown([a], b, 0) == 0;
    assert [] + [a] == [a];
  }

  // ---------------------------------------------------------------------------
  // The resolver's query
  // ---------------------------------------------------------------------------

  function QueryHeader(id: Word): seq<Byte> {
    PutWord(id) + PutWord(0x0100) + PutWord(1) + PutWord(0) + PutWord(0) + PutWord(0)
  }

  lemma {:induction false} QueryParts(id: Word, qtype: Word, name: Name)
    ensures MakeQuery(id, qtype, name) == QueryHeader(id) + (Wire(name) + QueryTail(Query(name, qtype, 1)))
    ensures |QueryHeader(id)| == 12
  {
    hide Wire;
  }

  lemma {:induction false} OneQuery(m: Memory, max: nat, p: nat, q: Query, end: nat)
    requires ParseQuery(m, max, p) == Ok((q, end))
    ensures ParseQueries(m, max, p, 1) == Ok(([q], end))
    ensures ParseRecords(m, max, end, 0) == Ok(([], end))
  {
    hide ParseQuery;
    assert [q] + [] == [q];
  }

  lemma {:induction false} NoDotInLabel(name: Name, i: nat)
    requires i < LabelLen(name)
    ensures name[i] != DOT
    decreases i
  {
    if i > 0 {
      NoDotInLabel(name[1..], i - 1);
    }
  }

  lemma {:induction false} WireSize(name: Name)
    ensures |Wire(name)| == |name| + if name == [] || name[|name| - 1] == DOT then 1 else 2
    decreases |name|
  {
    if name != [] {
      var n := LabelLen(name);
      WireStep(name);
      WireSize(AfterLabel(name));
      if n == |name| {
        NoDotInLabel(name, n - 1);
      }
    }
  }

  /** The size check of the query maker. */
  predicate PassesSizeCheck(room: nat, name: Name) { room >= 16 + |name| }

  /**
   The check lets every buffer pass that holds the query, and one or two sizes that do not:
   a buffer that passes holds the query exactly from the size of the name and 18 bytes on, or
   17 if the name is empty or ends with a dot.
   */
  lemma {:induction false} SizeCheckTooWeak(id: Word, qtype: Word, name: Name, room: nat)
    ensures |MakeQuery(id, qtype, name)| <= room ==> PassesSizeCheck(room, name)
    ensures PassesSizeCheck(room, name) ==>
              (|MakeQuery(id, qtype, name)| <= room <==>
               room >= |name| + if name == [] || name[|name| - 1] == DOT then 17 else 18)
  {
    hide Wire;
    WireSize(name);
  }

  /** A name of one letter and a buffer of 17 bytes, which passes; the query takes 19. */
  lemma {:induction false} ShortBufferPasses(id: Word, qtype: Word)
    ensures PassesSizeCheck(17, [97]) && |MakeQuery(id, qtype, [97])| == 19
  {
    hide Wire;
    WireSize([97]);
  }

  /** A query is read back as one recursive question of class 1, whose size follows from the name's. */
  lemma {:induction false} QueryRoundTrip(m: Memory, id: Word, qtype: Word, name: Name)
    requires LegalName(name) && Holds(m, 0, MakeQuery(id, qtype, name))
    ensures var size := |MakeQuery(id, qtype, name)|;
            && size == |name| + (if name == [] then 17 else 18)
            && ParsePacket(m, size) == Ok(Packet(id, 0x0100, [Query(name, qtype, 1)], [], [], []))
  {
    hide *;
    var q, size := Query(name, qtype, 1), |MakeQuery(id, qtype, name)|;
    QueryParts(id, qtype, name);
    LegalSize(name);
    HoldsParts(m, 0, QueryHeader(id), Wire(name) + QueryTail(q));
    QueryWords(m, id);
    QueryTailReads(m, 12, Wire(name), q);
    FullNameReads(m, size, 12, name);
    QueryStep(m, size, 12, name, 12 + |Wire(name)|);
    OneQuery(m, size, 12, q, size);
    PacketStep(m, size, [q], [], [], [], size, size, size, size);
  }

  lemma {:induction false} QueryWords(m: Memory, id: Word)
    requires Holds(m, 0, QueryHeader(id))
    ensures WordAt(m, 0) == id && WordAt(m, 2) == 0x0100 && WordAt(m, 4) == 1
    ensures WordAt(m, 6) == WordAt(m, 8) == WordAt(m, 10) == 0
  {
    hide Holds, WordAt, PutWord;
    SixWords(m, 0, id, 0x0100, 1, 0, 0, 0);
  }

  lemma {:induction false} LegalSize(name: Name)
    requires LegalName(name)
    ensures |Wire(name)| == if name == [] then 1 else |name| + 2
  {
    hide HasLabels, Wire;
    WireLength(name, 0xc0);
  }

  /** The table's search loop: the entry of the first equal label, compared in the packet itself. */
  method FindEntry(pkt: array<Byte>, size: nat, tab: seq<Label>, name: Name) returns (i: nat)
    requires size <= pkt.Length && Within(size, tab)
    ensures i == FindLabel(pkt[..size], tab, name, 0)
  {
    i := 0;
    while i < |tab|
      invariant i <= |tab| && FindLabel(pkt[..size], tab, name, 0) == FindLabel(pkt[..size], tab, name, i)
    {
      var e := tab[i];
      assert Raw(pkt[..size], e) == pkt[e.pos + 1..e.pos + 1 + e.len];
      if pkt[e.pos + 1..e.pos + 1 + e.len] == name {
        break;
      }
      i := i + 1;
    }
  }

  /** The name printer: a pointer to an equal label, or the name itself, noted if the table has room. */
  method AppendName(pkt: array<Byte>, p: nat, room: nat, name: Name, tab: seq<Label>)
    returns (ok: bool, q: nat, tab': seq<Label>)
    requires p + room <= pkt.Length && Within(p, tab)
    requires FindLabel(pkt[..p], tab, name, 0) < |tab| ==> p + 2 <= pkt.Length
    modifies pkt
    ensures var r := PrintName(old(pkt[..p]), 0, name, tab);
            && (ok <==> |r.bytes| <= room || FindLabel(old(pkt[..p]), tab, name, 0) < |tab|) && tab' == r.tab
            && (ok ==> q == p + |r.bytes| && pkt[..] == Overwrite(old(pkt[..]), p, r.bytes))
  {
    hide Wire, FindLabel, Overwrite;
    tab' := tab;
    var i := FindEntry(pkt, p, tab, name);
    if i != |tab| {
      q := Put(pkt, p, Pointer(tab[i].pos));
      ok := true;
    } else {
      if |tab| < MAX_LABEL {
        tab' := tab + [Label(p, |name|)];
      }
      ok, q := PutName(pkt, p, room, name);
    }
  }
}
