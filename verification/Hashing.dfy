/** What MD5 and SHA-1 have in common: padding, the fold over blocks, and the bit counter. */
module Hashing {
  import opened Buffers

  type Word = x: int | 0 <= x < 0x1_0000_0000

  const BLOCK: nat := 64
  const TWO32: nat := 0x1_0000_0000
  const TWO64: nat := 0x1_0000_0000_0000_0000

  // ---------------------------------------------------------------------------
  // Blocks
  // ---------------------------------------------------------------------------

  /** The state after every whole block of the data. */
  function Fold<S>(f: (S, seq<Byte>) -> S, s: S, data: seq<Byte>): S
    decreases |data|
  {
    if |data| < BLOCK then s else Fold(f, f(s, data[..BLOCK]), data[BLOCK..])
  }

  /** The data behind the last whole block. */
  function Rest(data: seq<Byte>): (r: seq<Byte>)
    ensures |r| == |data| % BLOCK
    decreases |data|
  {
    if |data| < BLOCK then data else Rest(data[BLOCK..])
  }

  /** Folding may stop anywhere and go on with what is left over. */
  lemma {:induction false} FoldMore<S>(f: (S, seq<Byte>) -> S, s: S, a: seq<Byte>, b: seq<Byte>)
    ensures Fold(f, s, a + b) == Fold(f, Fold(f, s, a), Rest(a) + b) && Rest(a + b) == Rest(Rest(a) + b)
    decreases |a|
  {
    if |a| >= BLOCK {
      FoldMore(f, f(s, a[..BLOCK]), a[BLOCK..], b);
      assert (a + b)[..BLOCK] == a[..BLOCK] && (a + b)[BLOCK..] == a[BLOCK..] + b;
    }
  }

  lemma {:induction false} FoldBlock<S>(f: (S, seq<Byte>) -> S, s: S, block: seq<Byte>, more: seq<Byte>)
    requires |block| == BLOCK
    ensures Fold(f, s, block + more) == Fold(f, f(s, block), more) && Rest(block + more) == Rest(more)
  {
    assert (block + more)[..BLOCK] == block && (block + more)[BLOCK..] == more;
  }

  lemma {:induction false} FoldShort<S>(f: (S, seq<Byte>) -> S, s: S, data: seq<Byte>)
    requires |data| < BLOCK
    ensures Fold(f, s, data) == s && Rest(data) == data
  {
  }

  // ---------------------------------------------------------------------------
  // Padding
  // ---------------------------------------------------------------------------

  function Zeros(n: nat): (r: seq<Byte>)
    ensures |r| == n
  {
    seq(n, _ => 0)
  }

  /** How many zeros bring a message and the byte 0x80 to 56 bytes in its last block. */
  function Gap(len: nat): nat { (119 - len % BLOCK) % BLOCK }

  /** The padding of a message of this length, given the form of its bit count. */
  function Padding(len: nat, count: nat -> seq<Byte>): seq<Byte> {
    [0x80] + Zeros(Gap(len)) + count(8 * len % TWO64)
  }

  function LittleWord(w: Word): (r: seq<Byte>)
    ensures |r| == 4
  {
    [w % 256, w / 0x100 % 256, w / 0x1_0000 % 256, w / 0x100_0000]
  }

  function BigWord(w: Word): (r: seq<Byte>)
    ensures |r| == 4
  {
    [w / 0x100_0000, w / 0x1_0000 % 256, w / 0x100 % 256, w % 256]
  }

  /** 64 bits, lowest byte first. */
  function Little(n: nat): (r: seq<Byte>)
    ensures |r| == 8
  {
    LittleWord(n % TWO32) + LittleWord(n / TWO32 % TWO32)
  }

  /** 64 bits, highest byte first. */
  function Big(n: nat): (r: seq<Byte>)
    ensures |r| == 8
  {
    BigWord(n / TWO32 % TWO32) + BigWord(n % TWO32)
  }

  /**
   Padding fills up the last block with as little as it can: the byte 0x80, zeros, and the number
   of bits modulo 2^64.
   */
  lemma {:induction false} PaddingIsRight(len: nat, count: nat -> seq<Byte>)
    requires |count(8 * len % TWO64)| == 8
    ensures var p := Padding(len, count);
            && (len + |p|) % BLOCK == 0 && 9 <= |p| < 9 + BLOCK && p[0] == 0x80
            && (forall i :: 0 < i < |p| - 8 ==> p[i] == 0) && p[|p| - 8..] == count(8 * len % TWO64)
  {
    GapFills(len);
  }

  lemma {:induction false} GapFills(len: nat)
    ensures Gap(len) < BLOCK && (len + 1 + Gap(len) + 8) % BLOCK == 0
  {
  }

  /** A number in bytes, the lowest one first. */
  function LittleNumber(s: seq<Byte>): nat {
    if s == [] then 0 else s[0] + 256 * LittleNumber(s[1..])
  }

  function BigNumber(s: seq<Byte>): nat {
    if s == [] then 0 else 256 * BigNumber(s[..|s| - 1]) + s[|s| - 1]
  }

  lemma {:induction false} FourBytes(a: Byte, b: Byte, c: Byte, d: Byte)
    ensures LittleNumber([a, b, c, d]) == a + 0x100 * b + 0x1_0000 * c + 0x100_0000 * d
    ensures BigNumber([d, c, b, a]) == a + 0x100 * b + 0x1_0000 * c + 0x100_0000 * d
  {
    var l: seq<Byte>, g: seq<Byte> := [a, b, c, d], [d, c, b, a];
    assert l[1..] == [b, c, d] && l[1..][1..] == [c, d] && l[1..][1..][1..] == [d] && l[1..][1..][1..][1..] == [];
    assert LittleNumber([d]) == d && LittleNumber([c, d]) == c + 256 * d;
    assert g[..3] == [d, c, b] && g[..3][..2] == [d, c] && g[..3][..2][..1] == [d] && g[..3][..2][..1][..0] == [];
    assert BigNumber([d]) == d && BigNumber([d, c]) == 256 * d + c;
  }

  lemma {:induction false} WordParts(w: Word)
    ensures w == w % 256 + 0x100 * (w / 0x100 % 256) + 0x1_0000 * (w / 0x1_0000 % 256) + 0x100_0000 * (w / 0x100_0000)
  {
    var q1, q2 := w / 0x100, w / 0x1_0000;
    assert q2 == q1 / 0x100;
    assert w / 0x100_0000 == q2 / 0x100;
  }

  /** The four bytes of a word are its value. */
  lemma {:induction false} WordsAreNumbers(w: Word)
    ensures LittleNumber(LittleWord(w)) == w && BigNumber(BigWord(w)) == w
  {
    hide LittleNumber, BigNumber;
    WordParts(w);
    FourBytes(w % 256, w / 0x100 % 256, w / 0x1_0000 % 256, w / 0x100_0000);
  }

  // ---------------------------------------------------------------------------
  // The bit counter
  // ---------------------------------------------------------------------------

  /** The counter's words after `len` more bytes: the low word may carry once, the rest is added to the high word. */
  function AddBits(low: Word, high: Word, len: nat): (Word, Word) {
    var low' := (low + len * 8 % TWO32) % TWO32;
    (low', (high + (if low' < low then 1 else 0) + len / 0x2000_0000) % TWO32)
  }

  /** Both words together count the bits modulo 2^64, whatever the carry. */
  lemma {:induction false} AddBitsRight(low: Word, high: Word, len: nat, before: nat)
    requires low + TWO32 * high == 8 * before % TWO64
    ensures var (l, h) := AddBits(low, high, len); l + TWO32 * h == 8 * (before + len) % TWO64
  {
    var (l, h) := AddBits(low, high, len);
    var part, over: nat := len * 8 % TWO32, len / 0x2000_0000;
    assert len * 8 == part + TWO32 * over by { ShiftSplits(len); }
    var carry: nat := if l < low then 1 else 0;
    assert low + part == l + TWO32 * carry by { CarryRight(low, part); }
    var sum: nat := high + carry + over;
    assert low + TWO32 * high + 8 * len == l + TWO32 * sum;
    HighWraps(l, sum);
    WrapsTogether(8 * before, 8 * len);
  }

  lemma {:induction false} ShiftSplits(len: nat)
    ensures len * 8 == len * 8 % TWO32 + TWO32 * (len / 0x2000_0000)
  {
  }

  lemma {:induction false} CarryRight(low: Word, part: nat)
    requires part < TWO32
    ensures var l := (low + part) % TWO32; low + part == l + TWO32 * (if l < low then 1 else 0)
  {
  }

  lemma {:induction false} HighWraps(l: Word, sum: nat)
    ensures (l + TWO32 * sum) % TWO64 == l + TWO32 * (sum % TWO32)
  {
    var q, r := sum / TWO32, sum % TWO32;
    assert l + TWO32 * sum == (l + TWO32 * r) + TWO64 * q;
    ModAdds(l + TWO32 * r, q);
  }

  lemma {:induction false} ModAdds(x: nat, q: nat)
    requires x < TWO64
    ensures (x + TWO64 * q) % TWO64 == x
  {
  }

  lemma {:induction false} WrapsTogether(a: nat, b: nat)
    ensures (a % TWO64 + b) % TWO64 == (a + b) % TWO64
  {
  }

  /** The number of bytes in the block under way, from the low word. */
  lemma {:induction false} FillIsKnown(low: Word, high: Word, len: nat)
    requires low + TWO32 * high == 8 * len % TWO64
    ensures low / 8 % BLOCK == len % BLOCK && low == 8 * len % TWO32 && high == 8 * len % TWO64 / TWO32
  {
    var q := 8 * len / TWO64;
    assert 8 * len == low + TWO32 * (high + TWO32 * q);
    LowIs(low, high + TWO32 * q, len);
  }

  lemma {:induction false} LowIs(low: Word, k: nat, len: nat)
    requires 8 * len == low + TWO32 * k
    ensures low / 8 % BLOCK == len % BLOCK && low == 8 * len % TWO32
  {
    var m: nat := low / 8;
    assert low == 8 * m && len == m + BLOCK * (0x80_0000 * k);
    SameFill(m, 0x80_0000 * k);
    LowPart(low, k);
  }

  lemma {:induction false} SameFill(m: nat, j: nat)
    ensures (m + BLOCK * j) % BLOCK == m % BLOCK
  {
  }

  lemma {:induction false} LowPart(low: Word, k: nat)
    ensures (low + TWO32 * k) % TWO32 == low
  {
  }

  lemma {:induction false} AddsTwice(a: nat, b: nat, c: nat)
    ensures ((a + b) % TWO32 + c) % TWO32 == (a + b + c) % TWO32
  {
  }

  lemma {:induction false} LowOfBoth(n: nat)
    ensures n % TWO64 % TWO32 == n % TWO32 && n % TWO64 / TWO32 % TWO32 == n % TWO64 / TWO32
  {
    var q, r: nat := n / TWO64, n % TWO64;
    var h, l: nat := r / TWO32, r % TWO32;
    assert n == l + TWO32 * (h + TWO32 * q);
    LowPart(l, h + TWO32 * q);
  }

  // ---------------------------------------------------------------------------
  // Messages in pieces
  // ---------------------------------------------------------------------------

  /** The pieces of a message put together. */
  function Joined(pieces: seq<seq<Byte>>): seq<Byte> {
    if pieces == [] then [] else Joined(pieces[..|pieces| - 1]) + pieces[|pieces| - 1]
  }

  lemma {:induction false} JoinedMore(pieces: seq<seq<Byte>>, i: nat)
    requires i < |pieces|
    ensures Joined(pieces[..i + 1]) == Joined(pieces[..i]) + pieces[i]
  {
    assert pieces[..i + 1][..i] == pieces[..i];
  }

  lemma {:induction false} NoPieces(pieces: seq<seq<Byte>>)
    ensures Joined(pieces[..0]) == [] && pieces[..|pieces|] == pieces
  {
  }

  lemma {:induction false} OnePiece(a: seq<Byte>)
    ensures Joined([a]) == a
  {
    assert [a][..0] == [];
  }

  lemma {:induction false} TwoPieces(a: seq<Byte>, b: seq<Byte>)
    ensures Joined([a, b]) == a + b
  {
    assert [a, b][..1] == [a];
    OnePiece(a);
  }
}
