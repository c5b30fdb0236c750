/**
 The resolver's response cache: keys, times to live, and the copies it keeps.  Times are in
 milliseconds, times to live in seconds.
 */
module ResolverCache {
  import opened Buffers
  import opened DnsName
  import opened DnsPacket
  import opened Wrappers

  // ---------------------------------------------------------------------------
  // Letter case and keys
  // ---------------------------------------------------------------------------

  function Lower(b: Byte): Byte { if 65 <= b <= 90 then b + 32 else b }

  function LowerName(name: Name): (r: Name)
    ensures |r| == |name|
  {
    seq(|name|, i requires 0 <= i < |name| => Lower(name[i]))
  }

  predicate SameName(a: Name, b: Name) { LowerName(a) == LowerName(b) }

  const MAX_HOSTNAME: nat := 128

  /** A key is compared as a whole, with the name in an array filled up with zeros. */
  datatype CacheKey = CacheKey(qtype: Word, name: Name)

  function KeyOf(qtype: Word, name: Name): (k: CacheKey)
    ensures k.qtype == qtype && |k.name| == MAX_HOSTNAME
  {
    CacheKey(qtype, seq(MAX_HOSTNAME, i requires 0 <= i => if i < |name| then Lower(name[i]) else 0))
  }

  /** The name without zeros at its end. */
  function Trimmed(name: Name): (r: Name)
    ensures r <= name && (r != [] ==> r[|r| - 1] != 0)
    decreases |name|
  {
    if name != [] && name[|name| - 1] == 0 then Trimmed(name[..|name| - 1]) else name
  }

  /** What a key holds of a name. */
  function Held(name: Name): (r: Name)
    ensures |r| <= MAX_HOSTNAME && (r != [] ==> r[|r| - 1] != 0)
  {
    Trimmed(if |name| > MAX_HOSTNAME then name[..MAX_HOSTNAME] else name)
  }

  lemma {:induction false} TrimmedKey(t: Word, name: Name)
    ensures KeyOf(t, Trimmed(name)) == KeyOf(t, name)
    decreases |name|
  {
    if name != [] && name[|name| - 1] == 0 {
      var shorter := name[..|name| - 1];
      TrimmedKey(t, shorter);
      assert KeyOf(t, shorter).name == KeyOf(t, name).name;
    }
  }

  lemma {:induction false} HeldKey(t: Word, name: Name)
    ensures KeyOf(t, Held(name)) == KeyOf(t, name)
  {
    hide Trimmed;
    if |name| > MAX_HOSTNAME {
      TrimmedKey(t, name[..MAX_HOSTNAME]);
      assert KeyOf(t, name[..MAX_HOSTNAME]).name == KeyOf(t, name).name;
    } else {
      TrimmedKey(t, name);
    }
  }

  lemma {:induction false} SameKeyHeld(t: Word, a: Name, u: Word, b: Name)
    requires |a| <= MAX_HOSTNAME && |b| <= MAX_HOSTNAME
    requires (a != [] ==> a[|a| - 1] != 0) && (b != [] ==> b[|b| - 1] != 0)
    ensures KeyOf(t, a) == KeyOf(u, b) <==> t == u && SameName(a, b)
  {
    var k, l := KeyOf(t, a).name, KeyOf(u, b).name;
    if t == u && SameName(a, b) {
      forall i | 0 <= i < MAX_HOSTNAME
        ensures k[i] == l[i]
      {
        if i < |a| {
          assert LowerName(a)[i] == LowerName(b)[i];
        }
      }
    } else if k == l {
      if |a| < |b| {
        assert k[|b| - 1] == l[|b| - 1];
      } else if |b| < |a| {
        assert k[|a| - 1] == l[|a| - 1];
      } else {
        forall i | 0 <= i < |a|
          ensures LowerName(a)[i] == LowerName(b)[i]
        {
          assert k[i] == l[i];
        }
      }
    }
  }

  /**
   Two names have the same key exactly if they are asked for with the same type and differ in
   letter case only, in what a key holds of them: 128 bytes, and no zeros at the end.
   */
  lemma {:induction false} SameKey(t: Word, a: Name, u: Word, b: Name)
    ensures KeyOf(t, a) == KeyOf(u, b) <==> t == u && SameName(Held(a), Held(b))
  {
    hide Held, KeyOf, SameName;
    HeldKey(t, a);
    HeldKey(u, b);
    SameKeyHeld(t, Held(a), u, Held(b));
  }

  // ---------------------------------------------------------------------------
  // Copies
  // ---------------------------------------------------------------------------

  const MAX_NAMES: nat := 16

  datatype Copy<T> = Copy(value: T, tab: seq<Name>)

  /**
   The comparison of names: equal lengths, and equal up to letter case as far as the first zero
   that both have in one place, if they have one.
   */
  predicate Alike(a: Name, b: Name) { |a| == |b| && AlikeFrom(a, b, 0) }

  predicate AlikeFrom(a: Name, b: Name, i: nat)
    requires i <= |a| == |b|
    decreases |a| - i
  {
    i == |a| || (Lower(a[i]) == Lower(b[i]) && (a[i] == 0 || AlikeFrom(a, b, i + 1)))
  }

  /** What stands in front of the first zero. */
  function Visible(name: Name): (r: Name)
    ensures r <= name && 0 !in r && (r == name <==> 0 !in name)
  {
    if name == [] || name[0] == 0 then [] else [name[0]] + Visible(name[1..])
  }

  lemma {:induction false} SameNameNext(x: Byte, a: Name, y: Byte, b: Name)
    ensures SameName([x] + a, [y] + b) <==> Lower(x) == Lower(y) && SameName(a, b)
  {
    var l, r := LowerName([x] + a), LowerName([y] + b);
    assert l == [Lower(x)] + LowerName(a) && r == [Lower(y)] + LowerName(b);
    assert l[1..] == LowerName(a) && r[1..] == LowerName(b);
  }

  lemma {:induction false} AlikeIsVisible(a: Name, b: Name, i: nat)
    requires i <= |a| == |b|
    ensures AlikeFrom(a, b, i) <==> SameName(Visible(a[i..]), Visible(b[i..]))
    decreases |a| - i
  {
    hide SameName;
    if i == |a| {
      assert a[i..] == b[i..];
      SameNameReflexive(Visible(a[i..]));
    } else {
      assert a[i..][1..] == a[i + 1..] && b[i..][1..] == b[i + 1..];
      AlikeIsVisible(a, b, i + 1);
      if a[i] == 0 || b[i] == 0 {
        SameNameEmpty(Visible(a[i..]), Visible(b[i..]));
      } else {
        SameNameNext(a[i], Visible(a[i + 1..]), b[i], Visible(b[i + 1..]));
      }
    }
  }

  lemma {:induction false} SameNameReflexive(a: Name)
    ensures SameName(a, a)
  {
  }

  lemma {:induction false} SameNameEmpty(a: Name, b: Name)
    requires a == [] || b == []
    ensures SameName(a, b) <==> a == b
  {
    if SameName(a, b) {
      assert |LowerName(a)| == |LowerName(b)|;
    }
  }

  lemma {:induction false} SameNameAlike(a: Name, b: Name, i: nat)
    requires SameName(a, b) && i <= |a|
    ensures |a| == |b| && AlikeFrom(a, b, i)
    decreases |a| - i
  {
    assert |LowerName(a)| == |LowerName(b)|;
    if i < |a| {
      assert LowerName(a)[i] == LowerName(b)[i];
      SameNameAlike(a, b, i + 1);
    }
  }

  /**
   Two names compare as equal exactly if they are equally long and the same, up to letter case,
   in front of their first zeros.  Without zeros that is all of them.
   */
  lemma {:induction false} AlikeMeans(a: Name, b: Name)
    ensures Alike(a, b) <==> |a| == |b| && SameName(Visible(a), Visible(b))
    ensures SameName(a, b) ==> Alike(a, b)
    ensures Alike(a, b) && 0 !in b ==> SameName(a, b)
  {
    if |a| == |b| {
      assert a[0..] == a && b[0..] == b;
      AlikeIsVisible(a, b, 0);
      if Alike(a, b) && 0 !in b {
        assert |LowerName(Visible(a))| == |LowerName(b)|;
        assert Visible(a) == a;
      }
    }
    if SameName(a, b) {
      SameNameAlike(a, b, 0);
    }
  }

  function FindName(tab: seq<Name>, name: Name, i: nat): (r: nat)
    requires i <= |tab|
    ensures i <= r <= |tab| && (r < |tab| ==> Alike(tab[r], name))
    ensures forall j :: i <= j < r ==> !Alike(tab[j], name)
    decreases |tab| - i
  {
    if i == |tab| || Alike(tab[i], name) then i else FindName(tab, name, i + 1)
  }

  /** A name is shared with one copied before that compares as equal. */
  function CopyName(tab: seq<Name>, name: Name): Copy<Name> {
    var i := FindName(tab, name, 0);
    if i < |tab| then Copy(tab[i], tab)
    else Copy(name, if |tab| < MAX_NAMES then tab + [name] else tab)
  }

  function CopyRecord(tab: seq<Name>, rr: Record): Copy<Record> {
    var n := CopyName(tab, rr.name);
    var rr' := rr.(name := n.value);
    if rr.rtype == TYPE_SRV && rr.rdata.Service? then
      var t := CopyName(n.tab, rr.rdata.target);
      Copy(rr'.(rdata := rr.rdata.(target := t.value)), t.tab)
    else Copy(rr', n.tab)
  }

  function CopyQueries(tab: seq<Name>, queries: seq<Query>): Copy<seq<Query>>
    decreases |queries|
  {
    if queries == [] then Copy([], tab)
    else
      var n := CopyName(tab, queries[0].name);
      var rest := CopyQueries(n.tab, queries[1..]);
      Copy([queries[0].(name := n.value)] + rest.value, rest.tab)
  }

  function CopyRecords(tab: seq<Name>, records: seq<Record>): Copy<seq<Record>>
    decreases |records|
  {
    if records == [] then Copy([], tab)
    else
      var one := CopyRecord(tab, records[0]);
      var rest := CopyRecords(one.tab, records[1..]);
      Copy([one.value] + rest.value, rest.tab)
  }

  /** The copy of a packet for the cache: without its authority and additional sections. */
  function CopyPacket(p: Packet): Packet {
    var q := CopyQueries([], p.queries);
    Packet(p.id, p.flags, q.value, CopyRecords(q.tab, p.answers).value, [], [])
  }

  predicate QueryIsCopy(a: Query, b: Query) { SameName(a.name, b.name) && a == b.(name := a.name) }

  /** The same record, up to the letter case of its owner and of a service's target. */
  predicate RecordIsCopy(a: Record, b: Record) {
    && SameName(a.name, b.name) && a == b.(name := a.name, rdata := a.rdata)
    && (|| a.rdata == b.rdata
        || (a.rdata.Service? && b.rdata.Service? && SameName(a.rdata.target, b.rdata.target)
            && a.rdata == b.rdata.(target := a.rdata.target)))
  }

  predicate QueriesAreCopies(a: seq<Query>, b: seq<Query>) {
    |a| == |b| && forall i :: 0 <= i < |a| ==> QueryIsCopy(a[i], b[i])
  }

  predicate RecordsAreCopies(a: seq<Record>, b: seq<Record>) {
    |a| == |b| && forall i :: 0 <= i < |a| ==> RecordIsCopy(a[i], b[i])
  }

  /** `a` is `b` without its authority and additional sections, up to the letter case of names. */
  predicate IsCopy(a: Packet, b: Packet) {
    && a.id == b.id && a.flags == b.flags
    && QueriesAreCopies(a.queries, b.queries) && RecordsAreCopies(a.answers, b.answers)
    && a.authorities == [] && a.additional == []
  }

  // ---------------------------------------------------------------------------
  // When the copy is a copy
  // ---------------------------------------------------------------------------

  /** The names of a record that go through the name table. */
  function SharedNames(rr: Record): seq<Name> {
    if rr.rtype == TYPE_SRV && rr.rdata.Service? then [rr.name, rr.rdata.target] else [rr.name]
  }

  function SharedNamesOf(records: seq<Record>): seq<Name> {
    if records == [] then [] else SharedNames(records[0]) + SharedNamesOf(records[1..])
  }

  function CopiedNames(p: Packet): seq<Name> { NamesOfQueries(p.queries) + SharedNamesOf(p.answers) }

  /** The name table when these names were copied. */
  function Tabled(tab: seq<Name>, names: seq<Name>): seq<Name>
    decreases |names|
  {
    if names == [] then tab else Tabled(CopyName(tab, names[0]).tab, names[1..])
  }

  /** No name in the list is taken for an entry of the table that differs from it behind a zero. */
  predicate Unmistaken(tab: seq<Name>, names: seq<Name>)
    decreases |names|
  {
    names == [] ||
    (var i := FindName(tab, names[0], 0);
     (i < |tab| ==> SameName(tab[i], names[0])) && Unmistaken(CopyName(tab, names[0]).tab, names[1..]))
  }

  lemma {:induction false} UnmistakenNext(tab: seq<Name>, name: Name, rest: seq<Name>)
    ensures var c := CopyName(tab, name);
            && (Unmistaken(tab, [name] + rest) <==> SameName(c.value, name) && Unmistaken(c.tab, rest))
            && Tabled(tab, [name] + rest) == Tabled(c.tab, rest)
  {
    assert ([name] + rest)[1..] == rest;
  }

  lemma {:induction false} UnmistakenParts(tab: seq<Name>, a: seq<Name>, b: seq<Name>)
    ensures Unmistaken(tab, a + b) <==> Unmistaken(tab, a) && Unmistaken(Tabled(tab, a), b)
    ensures Tabled(tab, a + b) == Tabled(Tabled(tab, a), b)
    decreases |a|
  {
    hide CopyName, SameName, FindName;
    if a == [] {
      assert a + b == b;
    } else {
      UnmistakenParts(CopyName(tab, a[0]).tab, a[1..], b);
      assert (a + b)[1..] == a[1..] + b;
    }
  }

  lemma {:induction false} QueriesCopied(tab: seq<Name>, queries: seq<Query>)
    ensures var c, names := CopyQueries(tab, queries), NamesOfQueries(queries);
            c.tab == Tabled(tab, names) && (QueriesAreCopies(c.value, queries) <==> Unmistaken(tab, names))
    decreases |queries|
  {
    hide SameName, CopyName, Unmistaken;
    if queries == [] {
      NothingMistaken(tab);
    } else {
      var n, rest := CopyName(tab, queries[0].name), queries[1..];
      QueriesCopied(n.tab, rest);
      UnmistakenNext(tab, queries[0].name, NamesOfQueries(rest));
      QueriesPrepend(queries[0].(name := n.value), CopyQueries(n.tab, rest).value, queries);
    }
  }

  lemma {:induction false} NothingMistaken(tab: seq<Name>)
    ensures Unmistaken(tab, []) && Tabled(tab, []) == tab
  {
  }

  lemma {:induction false} QueriesPrepend(q: Query, copies: seq<Query>, queries: seq<Query>)
    requires queries != []
    ensures QueriesAreCopies([q] + copies, queries)
            <==> QueryIsCopy(q, queries[0]) && QueriesAreCopies(copies, queries[1..])
  {
    hide QueryIsCopy;
    var all := [q] + copies;
    if QueriesAreCopies(all, queries) {
      forall i | 0 <= i < |copies|
        ensures QueryIsCopy(copies[i], queries[1..][i])
      {
        assert QueryIsCopy(all[i + 1], queries[i + 1]);
      }
    }
    if QueryIsCopy(q, queries[0]) && QueriesAreCopies(copies, queries[1..]) {
      forall i | 0 <= i < |all|
        ensures QueryIsCopy(all[i], queries[i])
      {
        assert i > 0 ==> QueryIsCopy(copies[i - 1], queries[1..][i - 1]);
      }
    }
  }

  lemma {:induction false} RecordCopied(tab: seq<Name>, rr: Record)
    ensures var c, names := CopyRecord(tab, rr), SharedNames(rr);
            c.tab == Tabled(tab, names) && (RecordIsCopy(c.value, rr) <==> Unmistaken(tab, names))
  {
    hide SameName, CopyName, Unmistaken, Tabled;
    var n := CopyName(tab, rr.name);
    if rr.rtype == TYPE_SRV && rr.rdata.Service? {
      var target := rr.rdata.target;
      var t := CopyName(n.tab, target);
      assert [rr.name] + [target] == SharedNames(rr) && [target] + [] == [target];
      UnmistakenNext(tab, rr.name, [target]);
      UnmistakenNext(n.tab, target, []);
      NothingMistaken(t.tab);
      SameNameReflexive(target);
    } else {
      assert [rr.name] + [] == [rr.name];
      UnmistakenNext(tab, rr.name, []);
      NothingMistaken(n.tab);
    }
  }

  lemma {:induction false} RecordsCopied(tab: seq<Name>, records: seq<Record>)
    ensures var c, names := CopyRecords(tab, records), SharedNamesOf(records);
            c.tab == Tabled(tab, names) && (RecordsAreCopies(c.value, records) <==> Unmistaken(tab, names))
    decreases |records|
  {
    hide SameName, CopyName, CopyRecord, RecordIsCopy, SharedNames, Unmistaken;
    if records == [] {
      NothingMistaken(tab);
    } else {
      var one, rest := CopyRecord(tab, records[0]), records[1..];
      RecordCopied(tab, records[0]);
      RecordsCopied(one.tab, rest);
      UnmistakenParts(tab, SharedNames(records[0]), SharedNamesOf(rest));
      RecordsPrepend(one.value, CopyRecords(one.tab, rest).value, records);
    }
  }

  lemma {:induction false} RecordsPrepend(rr: Record, copies: seq<Record>, records: seq<Record>)
    requires records != []
    ensures RecordsAreCopies([rr] + copies, records)
            <==> RecordIsCopy(rr, records[0]) && RecordsAreCopies(copies, records[1..])
  {
    hide RecordIsCopy;
    var all := [rr] + copies;
    if RecordsAreCopies(all, records) {
      forall i | 0 <= i < |copies|
        ensures RecordIsCopy(copies[i], records[1..][i])
      {
        assert RecordIsCopy(all[i + 1], records[i + 1]);
      }
    }
    if RecordIsCopy(rr, records[0]) && RecordsAreCopies(copies, records[1..]) {
      forall i | 0 <= i < |all|
        ensures RecordIsCopy(all[i], records[i])
      {
        assert i > 0 ==> RecordIsCopy(copies[i - 1], records[1..][i - 1]);
      }
    }
  }

  /**
   The packet kept is a copy exactly if no name is taken for another one, copied before it, that
   differs from it behind a zero.
   */
  lemma {:induction false} PacketCopied(p: Packet)
    ensures IsCopy(CopyPacket(p), p) <==> Unmistaken([], CopiedNames(p))
  {
    hide CopyQueries, CopyRecords, QueriesAreCopies, RecordsAreCopies, Unmistaken, NamesOfQueries, SharedNamesOf;
    QueriesCopied([], p.queries);
    RecordsCopied(CopyQueries([], p.queries).tab, p.answers);
    UnmistakenParts([], NamesOfQueries(p.queries), SharedNamesOf(p.answers));
  }

  /** Names without zeros are never mistaken. */
  lemma {:induction false} ZeroFreeUnmistaken(tab: seq<Name>, names: seq<Name>)
    requires forall i :: 0 <= i < |names| ==> 0 !in names[i]
    ensures Unmistaken(tab, names)
    decreases |names|
  {
    hide SameName, Alike;
    if names != [] {
      var i := FindName(tab, names[0], 0);
      if i < |tab| {
        AlikeMeans(tab[i], names[0]);
      }
      ZeroFreeUnmistaken(CopyName(tab, names[0]).tab, names[1..]);
    }
  }

  lemma {:induction false} ZeroFreeCopied(p: Packet)
    requires forall i :: 0 <= i < |CopiedNames(p)| ==> 0 !in CopiedNames(p)[i]
    ensures IsCopy(CopyPacket(p), p)
  {
    hide *;
    ZeroFreeUnmistaken([], CopiedNames(p));
    PacketCopied(p);
  }

  lemma {:induction false} TwoNamesCopied(a: Name, b: Name)
    ensures var p := TwoQuestions(0, 0, a, b); IsCopy(CopyPacket(p), p) <==> (Alike(a, b) ==> SameName(a, b))
  {
    hide SameName, Alike, IsCopy, CopyPacket;
    var p := TwoQuestions(0, 0, a, b);
    PacketCopied(p);
    TwoNames(0, 0, a, b);
    assert CopiedNames(p) == [a] + [b];
    UnmistakenNext([], a, [b]);
    UnmistakenNext([a], b, []);
    assert [b] + [] == [b];
    assert CopyName([], a) == Copy(a, [a]);
    SameNameReflexive(a);
    SameNameReflexive(b);
    NothingMistaken(CopyName([a], b).tab);
  }

  /** Two names that differ only behind a zero: the copy asks for the first one twice. */
  lemma {:induction false} MistakenCopy()
    ensures var a, b := [97, 0, 98], [97, 0, 99];
            var p := TwoQuestions(0, 0, a, b);
            && LegalName(a) && LegalName(b)
            && CopyPacket(p) == TwoQuestions(0, 0, a, a) && !IsCopy(CopyPacket(p), p)
  {
    var a, b: Name := [97, 0, 98], [97, 0, 99];
    var p := TwoQuestions(0, 0, a, b);
    TwoNamesCopied(a, b);
    OneLabel(a);
    OneLabel(b);
    assert AlikeFrom(a, b, 1);
    assert LowerName(a)[2] == 98 && LowerName(b)[2] == 99;
    var rest := p.queries[1..];
    assert rest == [Query(b, TYPE_A, 1)] && rest[1..] == [];
    assert CopyName([], a) == Copy(a, [a]) && CopyName([a], b) == Copy(a, [a]);
    assert CopyQueries([a], rest).value == [Query(a, TYPE_A, 1)];
  }

  /** The search of the name table, and its growth. */
  method ApplyNameTable(tab: seq<Name>, name: Name) returns (c: Copy<Name>)
    ensures c == CopyName(tab, name)
  {
    var i := 0;
    while i < |tab| && !Alike(tab[i], name)
      invariant 0 <= i <= |tab| && FindName(tab, name, 0) == FindName(tab, name, i)
    {
      i := i + 1;
    }
    if i < |tab| {
      return Copy(tab[i], tab);
    }
    return Copy(name, if |tab| < MAX_NAMES then tab + [name] else tab);
  }

  method DupRecord(tab: seq<Name>, rr: Record) returns (c: Copy<Record>)
    ensures c == CopyRecord(tab, rr)
  {
    hide CopyName;
    var n := ApplyNameTable(tab, rr.name);
    c := Copy(rr.(name := n.value), n.tab);
    if rr.rtype == TYPE_SRV && rr.rdata.Service? {
      var t := ApplyNameTable(n.tab, rr.rdata.target);
      c := Copy(rr.(name := n.value, rdata := rr.rdata.(target := t.value)), t.tab);
    }
  }

  /** What was copied so far, in front of the copy of the rest. */
  function InFront<T>(done: seq<T>, rest: Copy<seq<T>>): Copy<seq<T>> { Copy(done + rest.value, rest.tab) }

  lemma {:induction false} InFrontNext<T>(done: seq<T>, x: T, rest: Copy<seq<T>>)
    ensures InFront(done, InFront([x], rest)) == InFront(done + [x], rest)
  {
    assert done + ([x] + rest.value) == done + [x] + rest.value;
  }

  lemma {:induction false} InFrontStart<T>(rest: Copy<seq<T>>)
    ensures InFront([], rest) == rest
  {
    assert [] + rest.value == rest.value;
  }

  lemma {:induction false} InFrontEnd<T>(done: seq<T>, tab: seq<Name>)
    ensures InFront(done, Copy([], tab)) == Copy(done, tab)
  {
    assert done + [] == done;
  }

  lemma {:induction false} CopyNextQuery(tab: seq<Name>, queries: seq<Query>, i: nat)
    requires i <= |queries|
    ensures CopyQueries(tab, queries[0..]) == CopyQueries(tab, queries)
    ensures if i == |queries| then CopyQueries(tab, queries[i..]) == Copy([], tab)
            else
              var n := CopyName(tab, queries[i].name);
              CopyQueries(tab, queries[i..])
              == InFront([queries[i].(name := n.value)], CopyQueries(n.tab, queries[i + 1..]))
  {
    hide CopyName;
    assert queries[0..] == queries;
    if i < |queries| {
      assert queries[i..][1..] == queries[i + 1..];
    }
  }

  lemma {:induction false} CopyNextRecord(tab: seq<Name>, records: seq<Record>, i: nat)
    requires i <= |records|
    ensures CopyRecords(tab, records[0..]) == CopyRecords(tab, records)
    ensures if i == |records| then CopyRecords(tab, records[i..]) == Copy([], tab)
            else
              var one := CopyRecord(tab, records[i]);
              CopyRecords(tab, records[i..]) == InFront([one.value], CopyRecords(one.tab, records[i + 1..]))
  {
    hide CopyRecord;
    assert records[0..] == records;
    if i < |records| {
      assert records[i..][1..] == records[i + 1..];
    }
  }

  /** Copies a packet section by section with one name table. */
  method DupPacket(p: Packet) returns (r: Packet)
    ensures r == CopyPacket(p)
  {
    hide CopyQueries, CopyRecords, CopyName, CopyRecord, InFront;
    var tab: seq<Name> := [];
    var queries: seq<Query> := [];
    CopyNextQuery(tab, p.queries, 0);
    InFrontStart(CopyQueries(tab, p.queries));
    for i := 0 to |p.queries|
      invariant CopyQueries([], p.queries) == InFront(queries, CopyQueries(tab, p.queries[i..]))
    {
      CopyNextQuery(tab, p.queries, i);
      var n := ApplyNameTable(tab, p.queries[i].name);
      InFrontNext(queries, p.queries[i].(name := n.value), CopyQueries(n.tab, p.queries[i + 1..]));
      queries, tab := queries + [p.queries[i].(name := n.value)], n.tab;
    }
    CopyNextQuery(tab, p.queries, |p.queries|);
    InFrontEnd(queries, tab);
    var answers: seq<Record> := [];
    ghost var start := tab;
    CopyNextRecord(tab, p.answers, 0);
    InFrontStart(CopyRecords(tab, p.answers));
    for i := 0 to |p.answers|
      invariant CopyRecords(start, p.answers) == InFront(answers, CopyRecords(tab, p.answers[i..]))
    {
      CopyNextRecord(tab, p.answers, i);
      var one := DupRecord(tab, p.answers[i]);
      InFrontNext(answers, one.value, CopyRecords(one.tab, p.answers[i + 1..]));
      answers, tab := answers + [one.value], one.tab;
    }
    CopyNextRecord(tab, p.answers, |p.answers|);
    InFrontEnd(answers, tab);
    return Packet(p.id, p.flags, queries, answers, [], []);
  }

  // ---------------------------------------------------------------------------
  // Times to live
  // ---------------------------------------------------------------------------

  const INVALID_TTL: nat := 60
  const NO_TTL: nat := 0xFFFF_FFFF
  const FAR: int := 0x7FFF_FFFF * 1000

  function Min(a: nat, b: nat): nat { if b < a then b else a }

  function MinTtl(answers: seq<Record>, n: nat): (r: nat)
    requires n <= |answers|
    ensures r <= NO_TTL && forall i :: 0 <= i < n ==> r <= answers[i].ttl
    ensures n > 0 ==> exists i :: 0 <= i < n && r == answers[i].ttl
  {
    if n == 0 then NO_TTL
    else
      var r := MinTtl(answers, n - 1);
      var r' := Min(r, answers[n - 1].ttl);
      assert r' == answers[n - 1].ttl || (n > 1 && r' == r);
      r'
  }

  /** How long a packet may be kept; `expires` is false for entries put in to stay. */
  function Ttl(maxTtl: nat, p: Packet, failed: bool, expires: bool): nat {
    Min(if !expires then NO_TTL
        else if p.answers == [] || failed then INVALID_TTL
        else MinTtl(p.answers, |p.answers|),
        maxTtl)
  }

  datatype Entry = Entry(pkt: Packet, expiry: int)

  /** A packet put in; `failed` says that it carried an error code. */
  datatype Store = Store(key: CacheKey, pkt: Packet, failed: bool, expires: bool, now: int)

  type Cache = map<CacheKey, Entry>

  function Expiry(maxTtl: nat, e: Store): int {
    if e.expires then e.now + 1000 * Ttl(maxTtl, e.pkt, e.failed, true) else FAR
  }

  /** The cache after a response, or a packet of the application, was put in. */
  function Update(maxTtl: nat, c: Cache, e: Store): Cache {
    if Ttl(maxTtl, e.pkt, e.failed, e.expires) == 0 then c - {e.key}
    else c[e.key := Entry(CopyPacket(e.pkt), Expiry(maxTtl, e))]
  }

  datatype Event = Put(store: Store) | Look(key: CacheKey, now: int)

  function Time(e: Event): int { if e.Put? then e.store.now else e.now }

  function Served(c: Cache, key: CacheKey, now: int): Option<Packet> {
    if key in c && c[key].expiry > now then Some(c[key].pkt) else None
  }

  /** An expired entry that is looked for is removed. */
  function Step(maxTtl: nat, c: Cache, e: Event): Cache {
    match e
    case Put(s) => Update(maxTtl, c, s)
    case Look(key, now) => if key in c && c[key].expiry <= now then c - {key} else c
  }

  function After(maxTtl: nat, events: seq<Event>): Cache {
    if events == [] then map[] else Step(maxTtl, After(maxTtl, events[..|events| - 1]), events[|events| - 1])
  }

  /** What was put in last under this key. */
  function Latest(events: seq<Event>, key: CacheKey): Option<Store> {
    if events == [] then None
    else
      var e := events[|events| - 1];
      if e.Put? && e.store.key == key then Some(e.store) else Latest(events[..|events| - 1], key)
  }

  /** Time never goes back, up to `now`. */
  predicate InOrder(events: seq<Event>, now: int) {
    && (forall i, j :: 0 <= i < j < |events| ==> Time(events[i]) <= Time(events[j]))
    && (forall i :: 0 <= i < |events| ==> Time(events[i]) <= now)
  }

  lemma {:induction false} EntryIsLatest(maxTtl: nat, events: seq<Event>, key: CacheKey)
    requires key in After(maxTtl, events)
    ensures var s := Latest(events, key);
            && s.Some? && s.value.key == key
            && Ttl(maxTtl, s.value.pkt, s.value.failed, s.value.expires) > 0
            && After(maxTtl, events)[key] == Entry(CopyPacket(s.value.pkt), Expiry(maxTtl, s.value))
    decreases |events|
  {
    hide Ttl, CopyPacket, Expiry;
    var before, e := events[..|events| - 1], events[|events| - 1];
    if !(e.Put? && e.store.key == key) {
      EntryIsLatest(maxTtl, before, key);
    }
  }

  /** A live latest entry is not lost. */
  lemma {:induction false} LatestIsKept(maxTtl: nat, events: seq<Event>, key: CacheKey, now: int)
    requires InOrder(events, now) && Latest(events, key).Some?
    requires var s := Latest(events, key).value;
             Ttl(maxTtl, s.pkt, s.failed, s.expires) > 0 && Expiry(maxTtl, s) > now
    ensures key in After(maxTtl, events)
    decreases |events|
  {
    hide Ttl, CopyPacket, Expiry;
    var before, e := events[..|events| - 1], events[|events| - 1];
    if !(e.Put? && e.store.key == key) {
      LatestIsKept(maxTtl, before, key, now);
      EntryIsLatest(maxTtl, before, key);
    }
  }

  /**
   The packet is younger than the cache keeps anything, and than each of its answers may be
   kept, or than failed and empty responses are kept.  A packet put in to stay has no age.
   */
  predicate Young(maxTtl: nat, s: Store, now: int) {
    && maxTtl > 0
    && (if !s.expires then now < FAR
        else
          && now < s.now + 1000 * maxTtl
          && (if s.failed || s.pkt.answers == [] then now < s.now + 1000 * INVALID_TTL
              else forall i :: 0 <= i < |s.pkt.answers| ==> now < s.now + 1000 * s.pkt.answers[i].ttl))
  }

  lemma {:induction false} LiveIsYoung(maxTtl: nat, s: Store, now: int)
    requires s.now <= now
    ensures Ttl(maxTtl, s.pkt, s.failed, s.expires) > 0 && Expiry(maxTtl, s) > now <==> Young(maxTtl, s, now)
  {
    var answers := s.pkt.answers;
    var least := MinTtl(answers, |answers|);
    if answers != [] {
      var i :| 0 <= i < |answers| && least == answers[i].ttl;
    }
  }

  lemma {:induction false} LatestIsPast(events: seq<Event>, key: CacheKey, now: int)
    requires InOrder(events, now) && Latest(events, key).Some?
    ensures Latest(events, key).value.now <= now
    decreases |events|
  {
    var e := events[|events| - 1];
    if !(e.Put? && e.store.key == key) {
      LatestIsPast(events[..|events| - 1], key, now);
    }
  }

  /**
   What is served for a key, after any use of the cache in order of time, is exactly what was
   made of the packet last put in under it, for as long as that is young; and that is a copy of
   the packet exactly if none of its names was mistaken for another.
   */
  lemma {:induction false} ServedIsLatest(maxTtl: nat, events: seq<Event>, key: CacheKey, now: int)
    requires InOrder(events, now)
    ensures var s, r := Latest(events, key), Served(After(maxTtl, events), key, now);
            && (r.Some? <==> s.Some? && Young(maxTtl, s.value, now))
            && (r.Some? ==> r.value == CopyPacket(s.value.pkt))
            && (r.Some? ==> (IsCopy(r.value, s.value.pkt) <==> Unmistaken([], CopiedNames(s.value.pkt))))
  {
    hide Ttl, CopyPacket, Expiry, IsCopy, Latest, After, InOrder, Young, Unmistaken, CopiedNames;
    var s := Latest(events, key);
    if s.Some? {
      LatestIsPast(events, key, now);
      LiveIsYoung(maxTtl, s.value, now);
    }
    if key in After(maxTtl, events) {
      EntryIsLatest(maxTtl, events, key);
      PacketCopied(s.value.pkt);
    } else if s.Some? && Young(maxTtl, s.value, now) {
      LatestIsKept(maxTtl, events, key, now);
    }
  }

  // ---------------------------------------------------------------------------
  // The cache object
  // ---------------------------------------------------------------------------

  class Responses {
    const maxTtl: nat
    var entries: Cache

    constructor (maxTtl: nat)
      ensures this.maxTtl == maxTtl && entries == map[]
    {
      this.maxTtl := maxTtl;
      entries := map[];
    }

    method SmallestTtl(answers: seq<Record>) returns (ttl: nat)
      ensures ttl == MinTtl(answers, |answers|)
    {
      ttl := NO_TTL;
      for i := 0 to |answers|
        invariant ttl == MinTtl(answers, i)
      {
        if answers[i].ttl < ttl {
          ttl := answers[i].ttl;
        }
      }
    }

    /** Puts a packet in, or clears its key when it may not be kept. */
    method UpdateCache(e: Store)
      modifies this
      ensures entries == Update(maxTtl, old(entries), e)
    {
      hide MinTtl, CopyPacket;
      if e.failed {
        entries := entries - {e.key};
      }
      var ttl := NO_TTL;
      if e.expires {
        if e.pkt.answers == [] || e.failed {
          ttl := INVALID_TTL;
        } else {
          ttl := SmallestTtl(e.pkt.answers);
        }
      }
      if ttl > maxTtl {
        ttl := maxTtl;
      }
      if ttl == 0 {
        entries := entries - {e.key};
        return;
      }
      var copy := DupPacket(e.pkt);
      entries := entries[e.key := Entry(copy, if e.expires then e.now + 1000 * ttl else FAR)];
    }

    /** Looks for a live response, removing an expired one. */
    method LookUp(key: CacheKey, now: int) returns (r: Option<Packet>)
      modifies this
      ensures r == Served(old(entries), key, now) && entries == Step(maxTtl, old(entries), Look(key, now))
    {
      r := None;
      if key in entries {
        if entries[key].expiry > now {
          return Some(entries[key].pkt);
        }
        entries := entries - {key};
      }
    }
  }
}
