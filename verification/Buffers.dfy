/** Writing into the middle of a buffer. */
module Buffers {
  type Byte = x: int | 0 <= x < 256

  /** `b` with `s` written over it from `p` on. */
  function Overwrite<T>(b: seq<T>, p: nat, s: seq<T>): seq<T>
    requires p + |s| <= |b|
  {
    b[..p] + s + b[p + |s|..]
  }

  lemma {:induction false} OverwriteTwice<T>(b: seq<T>, p: nat, s: seq<T>, t: seq<T>)
    requires p + |s| + |t| <= |b|
    ensures |Overwrite(b, p, s)| == |b|
    ensures Overwrite(Overwrite(b, p, s), p + |s|, t) == Overwrite(b, p, s + t)
  {
  }

  lemma {:induction false} OverwriteNothing<T>(b: seq<T>, p: nat)
    requires p <= |b|
    ensures Overwrite(b, p, []) == b
  {
  }

  lemma {:induction false} OverwriteFront<T>(b: seq<T>, p: nat, s: seq<T>)
    requires p + |s| <= |b|
    ensures |Overwrite(b, p, s)| == |b| && Overwrite(b, p, s)[..p + |s|] == b[..p] + s
  {
  }

  lemma {:induction false} OverwriteKeeps<T>(b: seq<T>, p: nat, s: seq<T>)
    requires p + |s| <= |b|
    ensures var o := Overwrite(b, p, s); |o| == |b| && forall i :: 0 <= i < p ==> o[i] == b[i]
  {
    assert forall i :: 0 <= i < p ==> b[..p][i] == b[i];
  }

  method Put<T>(buf: array<T>, p: nat, s: seq<T>) returns (q: nat)
    requires p + |s| <= buf.Length
    modifies buf
    ensures q == p + |s| && buf[..] == Overwrite(old(buf[..]), p, s)
    ensures forall i :: 0 <= i < p ==> buf[i] == old(buf[i])
  {
    for i := 0 to |s|
      invariant forall k :: 0 <= k < i ==> buf[p + k] == s[k]
      invariant forall k :: 0 <= k < buf.Length && !(p <= k < p + i) ==> buf[k] == old(buf[k])
    {
      buf[p + i] := s[i];
    }
    assert buf[..] == Overwrite(old(buf[..]), p, s);
    return p + |s|;
  }
}
