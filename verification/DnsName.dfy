/**
 Domain names in DNS messages: how dns.c measures and copies a name that may jump
 through compression pointers, and how names are written label by label.
 */
module DnsName {
  import opened Buffers

  type Name = seq<Byte>

  /** The packet and whatever lies behind it: the reader is not confined to the packet. */
  type Memory = nat -> Byte

  datatype Error = BadPointer | BadSize | BadClass

  datatype Result<+T> = Ok(value: T) | Err(error: Error)

  const DOT: Byte := '.' as int

  /** The 14-bit offset of a compression pointer. */
  function Offset(m: Memory, p: nat): nat
    requires m(p) >= 0xc0
  {
    (m(p) - 0xc0) * 256 + m(p + 1)
  }

  function Left(p: nat, max: nat): nat { if p < max then max - p else 0 }

  /** Bytes used up at `p`, and length of the dotted name. */
  function NameLen(m: Memory, max: nat, depth: nat, p: nat): (r: Result<(nat, nat)>)
    decreases 11 - depth, Left(p, max)
  {
    if depth > 10 then Err(BadPointer)
    else if m(p) == 0 then Ok((1, 0))
    else if m(p) >= 0xc0 then
      if Offset(m, p) >= max then Err(BadPointer)
      else
        var r := NameLen(m, max, depth + 1, Offset(m, p));
        if r.Err? then r else Ok((2, r.value.1))
    else if m(p) > max then Err(BadPointer)
    else
      var q := p + m(p) + 1;
      if q >= max then Err(BadSize)
      else
        var r := NameLen(m, max, depth, q);
        if r.Err? then r else Ok((m(p) + 1 + r.value.0, m(p) + (if m(q) != 0 then 1 else 0) + r.value.1))
  }

  function Bytes(m: Memory, p: nat, n: nat): seq<Byte> {
    seq(n, i requires 0 <= i => m(p + i))
  }

  /** The dotted name at `p`. */
  function GetName(m: Memory, max: nat, depth: nat, p: nat): (r: Result<Name>)
    decreases 11 - depth, Left(p, max)
  {
    if depth > 10 then Err(BadPointer)
    else if m(p) == 0 then Ok([])
    else if m(p) >= 0xc0 then
      if Offset(m, p) >= max then Err(BadPointer) else GetName(m, max, depth + 1, Offset(m, p))
    else if m(p) > max then Err(BadPointer)
    else
      var q := p + m(p) + 1;
      if q >= max then Err(BadSize)
      else
        var r := GetName(m, max, depth, q);
        if r.Err? then r else Ok(Bytes(m, p + 1, m(p)) + (if m(q) != 0 then [DOT] else []) + r.value)
  }

  /**
   For every memory, pointer cycles included: measuring and copying fail together and
   with the same error, and a name that was measured is copied in exactly that length.
   */
  lemma {:induction false} LengthIsExact(m: Memory, max: nat, depth: nat, p: nat)
    ensures NameLen(m, max, depth, p).Ok? <==> GetName(m, max, depth, p).Ok?
    ensures NameLen(m, max, depth, p).Err? ==> GetName(m, max, depth, p) == Err(NameLen(m, max, depth, p).error)
    ensures NameLen(m, max, depth, p).Ok? ==> |GetName(m, max, depth, p).value| == NameLen(m, max, depth, p).value.1
    decreases 11 - depth, Left(p, max)
  {
    if depth <= 10 && m(p) != 0 {
      if m(p) >= 0xc0 {
        if Offset(m, p) < max { LengthIsExact(m, max, depth + 1, Offset(m, p)); }
      } else if p + m(p) + 1 < max {
        LengthIsExact(m, max, depth, p + m(p) + 1);
      }
    }
  }

  // ---------------------------------------------------------------------------
  // Writing names
  // ---------------------------------------------------------------------------

  /** Length of the first label. */
  function LabelLen(name: Name): (n: nat)
    ensures n <= |name| && (n < |name| ==> name[n] == DOT)
  {
    if name == [] || name[0] == DOT then 0 else 1 + LabelLen(name[1..])
  }

  function AfterLabel(name: Name): Name {
    var n := LabelLen(name);
    if n < |name| then name[n + 1..] else []
  }

  /** Every label with its length in front, and a zero behind the last; a trailing dot adds nothing. */
  function Wire(name: Name): (w: seq<Byte>)
    ensures |w| >= |name| + 1
    decreases |name|
  {
    if name == [] then [0]
    else
      var n := LabelLen(name);
      [n % 256] + name[..n] + Wire(AfterLabel(name))
  }

  /** Labels of 1 to `limit` - 1 bytes with single dots between them. */
  predicate HasLabels(name: Name, limit: nat)
    decreases |name|
  {
    name == [] ||
    (var n := LabelLen(name);
     1 <= n < limit && (n < |name| ==> AfterLabel(name) != []) && HasLabels(AfterLabel(name), limit))
  }

  predicate Holds(m: Memory, p: nat, s: seq<Byte>) {
    forall i :: 0 <= i < |s| ==> s[i] == m(p + i)
  }

  lemma {:induction false} HoldsParts(m: Memory, p: nat, a: seq<Byte>, b: seq<Byte>)
    requires Holds(m, p, a + b)
    ensures Holds(m, p, a) && Holds(m, p + |a|, b)
  {
    forall i | 0 <= i < |a|
      ensures a[i] == m(p + i)
    {
      assert (a + b)[i] == a[i];
    }
    forall i | 0 <= i < |b|
      ensures b[i] == m(p + |a| + i)
    {
      assert (a + b)[|a| + i] == b[i];
    }
  }

  lemma {:induction false} HoldsBytes(m: Memory, p: nat, s: seq<Byte>)
    requires Holds(m, p, s)
    ensures Bytes(m, p, |s|) == s
  {
  }

  lemma {:induction false} WireLength(name: Name, limit: nat)
    requires HasLabels(name, limit)
    ensures |Wire(name)| == if name == [] then 1 else |name| + 2
    decreases |name|
  {
    if name != [] {
      WireLength(AfterLabel(name), limit);
    }
  }

  /** A name is its first label, a dot unless that was all, and the rest. */
  lemma {:induction false} NameParts(name: Name)
    requires name != []
    ensures var n := LabelLen(name);
            name == name[..n] + (if n < |name| then [DOT] else []) + AfterLabel(name)
  {
    var n := LabelLen(name);
    if n < |name| {
      assert name == name[..n] + [name[n]] + name[n + 1..];
    }
  }

  /** Where the pieces of a written name stand. */
  lemma {:induction false} HoldsWire(m: Memory, p: nat, name: Name)
    requires name != [] && HasLabels(name, 0xc0) && Holds(m, p, Wire(name))
    ensures var n, rest := LabelLen(name), AfterLabel(name);
            && 0 < m(p) == n < 0xc0 && |Wire(name)| == 1 + n + |Wire(rest)| && |rest| < |name|
            && Bytes(m, p + 1, n) == name[..n] && Holds(m, p + 1 + n, Wire(rest))
            && HasLabels(rest, 0xc0) && |Wire(rest)| >= 1 && (m(p + 1 + n) != 0 <==> n < |name|)
  {
    hide *;
    var n, rest := LabelLen(name), AfterLabel(name);
    WireParts(name);
    WireStart(rest);
    HoldsParts(m, p, [n] + name[..n], Wire(rest));
    HoldsParts(m, p, [n], name[..n]);
    HoldsBytes(m, p + 1, name[..n]);
    HoldsFirst(m, p, [n]);
    HoldsFirst(m, p + 1 + n, Wire(rest));
  }

  lemma {:induction false} WireParts(name: Name)
    requires name != [] && HasLabels(name, 0xc0)
    ensures var n, rest := LabelLen(name), AfterLabel(name);
            && 0 < n < 0xc0 && n <= |name| && (n < |name| <==> rest != []) && |rest| < |name| && HasLabels(rest, 0xc0)
            && Wire(name) == [n] + name[..n] + Wire(rest)
  {
    var n: Byte := LabelLen(name);
    assert n % 256 == n by { SmallMod(n); }
  }

  lemma {:induction false} SmallMod(n: nat)
    requires n < 256
    ensures n % 256 == n
  {
  }

  lemma {:induction false} HoldsFirst(m: Memory, p: nat, s: seq<Byte>)
    requires s != [] && Holds(m, p, s)
    ensures m(p) == s[0]
  {
    assert s[0] == m(p + 0);
  }

  /** A written name is measured and read back, at any depth of the search. */
  lemma {:induction false} WireReads(m: Memory, max: nat, depth: nat, p: nat, name: Name)
    requires depth <= 10 && HasLabels(name, 0xc0) && Holds(m, p, Wire(name)) && p + |Wire(name)| <= max
    ensures NameLen(m, max, depth, p) == Ok((|Wire(name)|, |name|))
    ensures GetName(m, max, depth, p) == Ok(name)
    decreases |name|
  {
    hide *;
    NameStep(m, max, depth, p);
    if name == [] {
      EmptyWire();
      HoldsFirst(m, p, Wire(name));
    } else {
      var n, rest := LabelLen(name), AfterLabel(name);
      HoldsWire(m, p, name);
      WireReads(m, max, depth, p + 1 + n, rest);
      NameParts(name);
      DotIs(m, p + 1 + n);
      AddLenIs(n + 1, n + |Dot(m, p + 1 + n)|, |Wire(rest)|, |rest|);
    }
  }

  lemma {:induction false} EmptyWire()
    ensures Wire([]) == [0]
  {
  }

  lemma {:induction false} DotIs(m: Memory, q: nat)
    ensures Dot(m, q) == if m(q) != 0 then [DOT] else []
  {
  }

  lemma {:induction false} AddLenIs(parsed: nat, len: nat, p: nat, n: nat)
    ensures AddLen(parsed, len, Ok((p, n))) == Ok((parsed + p, len + n))
  {
  }

  lemma {:induction false} WireStart(name: Name)
    requires HasLabels(name, 0xc0)
    ensures |Wire(name)| >= 1 && (Wire(name)[0] == 0 <==> name == [])
  {
  }

  // ---------------------------------------------------------------------------
  // The loops
  // ---------------------------------------------------------------------------

  /** One turn of either loop. */
  lemma {:induction false} NameStep(m: Memory, max: nat, depth: nat, p: nat)
    requires depth <= 10
    ensures m(p) == 0 ==> NameLen(m, max, depth, p) == Ok((1, 0)) && GetName(m, max, depth, p) == Ok([])
    ensures m(p) >= 0xc0 ==>
              if Offset(m, p) >= max then NameLen(m, max, depth, p) == Err(BadPointer)
              else
                var r := NameLen(m, max, depth + 1, Offset(m, p));
                && NameLen(m, max, depth, p) == (if r.Err? then r else Ok((2, r.value.1)))
                && GetName(m, max, depth, p) == GetName(m, max, depth + 1, Offset(m, p))
    ensures 0 < m(p) < 0xc0 ==>
              if m(p) > max then NameLen(m, max, depth, p) == Err(BadPointer)
              else
                var q := p + m(p) + 1;
                if q >= max then NameLen(m, max, depth, p) == Err(BadSize)
                else
                  && NameLen(m, max, depth, p) == AddLen(m(p) + 1, m(p) + |Dot(m, q)|, NameLen(m, max, depth, q))
                  && (GetName(m, max, depth, q).Ok? ==>
                        GetName(m, max, depth, p)
                        == Ok(Bytes(m, p + 1, m(p)) + Dot(m, q) + GetName(m, max, depth, q).value))
  {
  }

  /** A dot follows a label unless the name ends there. */
  function Dot(m: Memory, q: nat): Name { if m(q) != 0 then [DOT] else [] }

  function AddLen(parsed: nat, len: nat, r: Result<(nat, nat)>): Result<(nat, nat)> {
    if r.Err? then r else Ok((parsed + r.value.0, len + r.value.1))
  }

  method MeasureName(m: Memory, max: nat, depth: nat, start: nat) returns (r: Result<(nat, nat)>)
    ensures r == NameLen(m, max, depth, start)
    decreases 11 - depth
  {
    if depth > 10 {
      return Err(BadPointer);
    }
    r := MeasureLabels(m, max, depth, start);
  }

  method MeasureLabels(m: Memory, max: nat, depth: nat, start: nat) returns (r: Result<(nat, nat)>)
    requires depth <= 10
    ensures r == NameLen(m, max, depth, start)
    decreases 11 - depth, 0
  {
    hide NameLen, GetName, Offset;
    var p: nat, parsed: nat, len: nat := start, 0, 0;
    while m(p) != 0
      invariant AddLen(parsed, len, NameLen(m, max, depth, p)) == NameLen(m, max, depth, start)
      decreases Left(p, max), p
    {
      NameStep(m, max, depth, p);
      if m(p) >= 0xc0 {
        if Offset(m, p) >= max {
          return Err(BadPointer);
        }
        var t := MeasureName(m, max, depth + 1, Offset(m, p));
        return AddLen(parsed, len, if t.Err? then t else Ok((2, t.value.1)));
      }
      var labelLen := m(p);
      if labelLen > max {
        return Err(BadPointer);
      }
      p := p + labelLen + 1;
      parsed := parsed + labelLen + 1;
      len := len + labelLen + (if m(p) != 0 then 1 else 0);
      if p >= max {
        return Err(BadSize);
      }
    }
    NameStep(m, max, depth, p);
    return Ok((parsed + 1, len));
  }

  /**
   Copies the name into the buffer behind `slen`.  A buffer of the measured length
   is enough: nothing else of it changes.
   */
  method CopyName(m: Memory, max: nat, depth: nat, start: nat, buf: array<Byte>, slen: nat)
    returns (slen': nat)
    requires NameLen(m, max, depth, start).Ok?
    requires slen + NameLen(m, max, depth, start).value.1 <= buf.Length
    modifies buf
    ensures GetName(m, max, depth, start).Ok?
    ensures slen' == slen + |GetName(m, max, depth, start).value| <= buf.Length
    ensures buf[..] == Overwrite(old(buf[..]), slen, GetName(m, max, depth, start).value)
    decreases 11 - depth
  {
    hide NameLen, GetName, Offset, Overwrite, Bytes;
    DepthInRange(m, max, depth, start);
    LengthIsExact(m, max, depth, start);
    var p: nat := start;
    slen' := slen;
    ghost var done: Name := [];
    OverwriteNothing(buf[..], slen);
    while m(p) != 0
      invariant NameLen(m, max, depth, p).Ok? && GetName(m, max, depth, p).Ok?
      invariant slen' == slen + |done| && slen' + |GetName(m, max, depth, p).value| <= buf.Length
      invariant done + GetName(m, max, depth, p).value == GetName(m, max, depth, start).value
      invariant buf[..] == Overwrite(old(buf[..]), slen, done)
      decreases Left(p, max), p
    {
      NameStep(m, max, depth, p);
      if m(p) >= 0xc0 {
        LengthIsExact(m, max, depth + 1, Offset(m, p));
        slen' := CopyName(m, max, depth + 1, Offset(m, p), buf, slen');
        OverwriteTwice(old(buf[..]), slen, done, GetName(m, max, depth, p).value);
        return;
      }
      ghost var q := p + m(p) + 1;
      LengthIsExact(m, max, depth, q);
      ghost var piece, rest := Bytes(m, p + 1, m(p)) + Dot(m, q), GetName(m, max, depth, q).value;
      assert done + (piece + rest) == done + piece + rest;
      slen' := CopyLabel(m, p, buf, slen');
      OverwriteTwice(old(buf[..]), slen, done, piece);
      p := p + m(p) + 1;
      done := done + piece;
    }
    NameStep(m, max, depth, p);
    assert done + [] == done;
  }

  lemma {:induction false} DepthInRange(m: Memory, max: nat, depth: nat, p: nat)
    requires NameLen(m, max, depth, p).Ok?
    ensures depth <= 10
  {
  }

  /** A label, and the dot that separates it from the next one. */
  method CopyLabel(m: Memory, p: nat, buf: array<Byte>, at: nat) returns (at': nat)
    requires at + |Bytes(m, p + 1, m(p)) + Dot(m, p + m(p) + 1)| <= buf.Length
    modifies buf
    ensures at' == at + |Bytes(m, p + 1, m(p)) + Dot(m, p + m(p) + 1)|
    ensures buf[..] == Overwrite(old(buf[..]), at, Bytes(m, p + 1, m(p)) + Dot(m, p + m(p) + 1))
  {
    hide Overwrite;
    var labelLen := m(p);
    ghost var b := buf[..];
    at' := Put(buf, at, Bytes(m, p + 1, labelLen));
    if m(p + labelLen + 1) != 0 {
      at' := Put(buf, at', [DOT]);
      OverwriteTwice(b, at, Bytes(m, p + 1, labelLen), [DOT]);
    } else {
      assert Bytes(m, p + 1, labelLen) + [] == Bytes(m, p + 1, labelLen);
    }
  }

  lemma {:induction false} LabelEnds(name: Name, n: nat)
    requires n <= |name| && (forall i :: 0 <= i < n ==> name[i] != DOT) && (n < |name| ==> name[n] == DOT)
    ensures LabelLen(name) == n
  {
    if n > 0 {
      LabelEnds(name[1..], n - 1);
    }
  }

  lemma {:induction false} WireStep(name: Name)
    requires name != []
    ensures var n := LabelLen(name);
            Wire(name) == [n % 256] + name[..n] + Wire(AfterLabel(name)) && |AfterLabel(name)| < |name|
  {
  }

  /** Where the label that starts at `start` ends. */
  method ScanLabel(name: Name, start: nat) returns (end: nat)
    requires start <= |name|
    ensures start <= end <= |name| && end - start == LabelLen(name[start..])
  {
    end := start;
    while end != |name| && name[end] != DOT
      invariant start <= end <= |name| && forall i :: start <= i < end ==> name[i] != DOT
      decreases |name| - end
    {
      end := end + 1;
    }
    LabelEnds(name[start..], end - start);
  }

  /**
   Writes the name at `p`, label by label, into at most `room` bytes.  It gives up
   exactly when the wire form does not fit, and changes nothing outside that room.
   */
  method PutName(buf: array<Byte>, p: nat, room: nat, name: Name) returns (ok: bool, q: nat)
    requires p + room <= buf.Length
    modifies buf
    ensures ok <==> |Wire(name)| <= room
    ensures ok ==> q == p + |Wire(name)| && buf[..] == Overwrite(old(buf[..]), p, Wire(name))
    ensures forall i :: 0 <= i < buf.Length && !(p <= i < p + room) ==> buf[i] == old(buf[i])
  {
    hide Wire, LabelLen, AfterLabel, Overwrite;
    var start: nat := 0;
    q := p;
    ghost var done: seq<Byte> := [];
    OverwriteNothing(buf[..], p);
    WholeName(name);
    while start != |name|
      invariant start <= |name| && q == p + |done| && |done| <= room
      invariant done + Wire(name[start..]) == Wire(name)
      invariant buf[..] == Overwrite(old(buf[..]), p, done)
      decreases |name| - start
    {
      var end := ScanLabel(name, start);
      WireStep(name[start..]);
      var piece: seq<Byte> := [(end - start) % 256] + name[start..end];
      PutPiece(name, start, end);
      if room - (q - p) < end - start + 1 {
        OverwriteOutside(old(buf[..]), p, done);
        return false, q;
      }
      q := Put(buf, q, piece);
      OverwriteTwice(old(buf[..]), p, done, piece);
      assert done + (piece + Wire(AfterLabel(name[start..]))) == done + piece + Wire(AfterLabel(name[start..]));
      done := done + piece;
      RestOf(name, start, end);
      start := if end != |name| then end + 1 else end;
    }
    EmptyWire();
    assert name[start..] == [];
    if q - p == room {
      OverwriteOutside(old(buf[..]), p, done);
      return false, q;
    }
    q := Put(buf, q, [0]);
    OverwriteTwice(old(buf[..]), p, done, [0]);
    OverwriteOutside(old(buf[..]), p, Wire(name));
    return true, q;
  }

  lemma {:induction false} WholeName(name: Name)
    ensures [] + Wire(name[0..]) == Wire(name)
  {
    assert name[0..] == name;
  }

  lemma {:induction false} PutPiece(name: Name, start: nat, end: nat)
    requires start <= end <= |name|
    ensures name[start..][..end - start] == name[start..end]
  {
  }

  lemma {:induction false} RestOf(name: Name, start: nat, end: nat)
    requires start <= end <= |name| && end - start == LabelLen(name[start..])
    ensures AfterLabel(name[start..]) == name[if end != |name| then end + 1 else end..]
  {
  }

  lemma {:induction false} OverwriteOutside<T>(b: seq<T>, p: nat, s: seq<T>)
    requires p + |s| <= |b|
    ensures |Overwrite(b, p, s)| == |b|
    ensures forall i :: 0 <= i < |b| && !(p <= i < p + |s|) ==> Overwrite(b, p, s)[i] == b[i]
  {
  }
}
