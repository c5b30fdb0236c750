/**
 SHA-1, with the transformation of one block left open (section 4 of RFC 3174).  The
 transformation works in the memory of the block, and leaves something else there.
 */
module Sha1 {
  import opened Buffers
  import opened Hashing

  datatype State = State(a: Word, b: Word, c: Word, d: Word, e: Word)

  type Block = s: seq<Byte> | |s| == BLOCK witness Zeros(BLOCK)

  type Transform = (State, seq<Byte>) -> State

  /** What a transformed block's memory holds afterwards. */
  type Leavings = Block -> Block

  const INIT := State(0x67452301, 0xEFCDAB89, 0x98BADCFE, 0x10325476, 0xC3D2E1F0)

  function Output(s: State): (r: seq<Byte>)
    ensures |r| == 20
  {
    BigWord(s.a) + BigWord(s.b) + BigWord(s.c) + BigWord(s.d) + BigWord(s.e)
  }

  function Digest(f: Transform, msg: seq<Byte>): (r: seq<Byte>)
    ensures |r| == 20
  {
    Output(Fold(f, INIT, msg + Padding(|msg|, Big)))
  }

  /** The bytes of the caller's data that are transformed in place: whole blocks behind the first `start`. */
  predicate InBlocks(start: nat, size: nat, i: nat) { start <= i < start + (size - start) / BLOCK * BLOCK }

  class Context {
    const transform: Transform
    const leavings: Leavings
    var state: State
    var low: Word
    var high: Word
    const buffer: array<Byte>
    ghost var msg: seq<Byte>

    ghost predicate Valid()
      reads this, buffer
    {
      && buffer.Length == BLOCK
      && state == Fold(transform, INIT, msg)
      && buffer[..|msg| % BLOCK] == Rest(msg)
      && low + TWO32 * high == 8 * |msg| % TWO64
    }

    constructor (transform: Transform, leavings: Leavings)
      ensures Valid() && fresh(buffer) && this.transform == transform && msg == []
    {
      this.transform, this.leavings := transform, leavings;
      state, low, high, msg := INIT, 0, 0, [];
      buffer := new Byte[BLOCK](_ => 0);
    }

    /** Counts `len` more bytes; the carry is told from the added part. */
    method Count(len: nat)
      requires len < TWO32
      modifies this`low, this`high
      ensures (low, high) == AddBits(old(low), old(high), len)
    {
      ghost var t := low;
      CarryEitherWay(low, len * 8 % TWO32);
      low := (low + len * 8 % TWO32) % TWO32;
      AddsTwice(high, if low < t then 1 else 0, len / 0x2000_0000);
      if low < len * 8 % TWO32 {
        high := (high + 1) % TWO32;
      }
      high := (high + len / 0x2000_0000) % TWO32;
    }

    /**
     Takes more of the message.  Of the caller's data, whole blocks behind the one that
     completes the buffer are transformed where they are; all the rest is left as it was.
     */
    method Update(data: array<Byte>)
      requires Valid() && data.Length < TWO32 && data != buffer
      modifies this, buffer, data
      ensures Valid() && msg == old(msg) + old(data[..])
      ensures var start := BLOCK - old(|msg|) % BLOCK;
              forall i :: 0 <= i < data.Length && (data.Length < start || !InBlocks(start, data.Length, i)) ==>
                data[i] == old(data[i])
    {
      hide Fold, Rest, AddBits, InBlocks;
      AddBitsRight(low, high, data.Length, |msg|);
      FillIsKnown(low, high, |msg|);
      FoldMore(transform, INIT, msg, data[..]);
      var j: nat := low / 8 % BLOCK;
      Count(data.Length);
      Absorb(j, data, Rest(msg));
      msg := msg + old(data[..]);
    }

    method Absorb(j: nat, data: array<Byte>, ghost rest: seq<Byte>)
      requires buffer.Length == BLOCK && j < BLOCK && buffer[..j] == rest && data != buffer
      modifies this`state, buffer, data
      ensures state == old(Fold(transform, state, rest + data[..]))
      ensures buffer[..|Rest(rest + old(data[..]))|] == Rest(rest + old(data[..]))
      ensures forall i :: 0 <= i < data.Length && (data.Length < BLOCK - j || !InBlocks(BLOCK - j, data.Length, i)) ==>
                data[i] == old(data[i])
    {
      hide Fold, Rest, InBlocks;
      if j + data.Length <= 63 {
        FoldShort(transform, state, rest + data[..]);
        Store(j, data[..]);
        return;
      }
      var start := BLOCK - j;
      ghost var d := data[..];
      assert rest + d == rest + d[..start] + d[start..];
      FoldBlock(transform, state, rest + d[..start], d[start..]);
      Store(j, data[..start]);
      assert buffer[..] == buffer[..BLOCK];
      TransformBuffer();
      var i := Blocks(data, start);
      FoldShort(transform, state, d[i..]);
      Store(0, data[i..]);
    }

    /** Copies data into the buffer behind what it holds. */
    method Store(j: nat, data: seq<Byte>)
      requires j + |data| <= buffer.Length
      modifies buffer
      ensures buffer[..j + |data|] == old(buffer[..j]) + data
    {
      ghost var b := buffer[..];
      var _ := Put(buffer, j, data);
      assert b[..j] == old(buffer[..j]) && buffer[..][..j + |data|] == buffer[..j + |data|];
    }

    method TransformBuffer()
      requires buffer.Length == BLOCK
      modifies this`state, buffer
      ensures state == old(transform(state, buffer[..]))
    {
      var block: Block := buffer[..];
      state := transform(state, block);
      var _ := Put(buffer, 0, leavings(block));
    }

    /** Takes more of the message from a copy. */
    method UpdateCopy(data: seq<Byte>)
      requires Valid() && |data| < TWO32
      modifies this, buffer
      ensures Valid() && msg == old(msg) + data
    {
      hide Fold, Rest, InBlocks;
      var copy := new Byte[|data|](i requires 0 <= i < |data| => data[i]);
      assert copy[..] == data;
      Update(copy);
    }

    method UpdateByte(b: Byte)
      requires Valid()
      modifies this, buffer
      ensures Valid() && msg == old(msg) + [b]
    {
      var data := new Byte[1][b];
      assert data[..] == [b];
      Update(data);
    }

    /** Pads the message byte by byte and gives its digest. */
    method Final() returns (digest: seq<Byte>)
      requires Valid()
      modifies this, buffer
      ensures digest == Digest(transform, old(msg))
    {
      hide Fold, Rest, Zeros, Gap, BigWord, InBlocks;
      ghost var m := msg;
      var finalcount := BigWord(high) + BigWord(low);
      FillIsKnown(low, high, |m|);
      BigIs(|m|, low, high);
      UpdateByte(0x80);
      ghost var k: nat := 0;
      assert [0x80] + Zeros(0) == [0x80];
      FillIsKnown(low, high, |msg|);
      while low / 8 % BLOCK != 56
        invariant Valid() && k <= Gap(|m|) && msg == m + ([0x80] + Zeros(k))
        invariant low / 8 % BLOCK == |msg| % BLOCK
        decreases Gap(|m|) - k
      {
        GapEnds(|m|, k);
        OneMoreZero(k);
        assert m + ([0x80] + Zeros(k)) + [0] == m + ([0x80] + (Zeros(k) + [0]));
        UpdateByte(0);
        k := k + 1;
        FillIsKnown(low, high, |msg|);
      }
      GapEnds(|m|, k);
      var last := new Byte[8](i requires 0 <= i < 8 => finalcount[i]);
      assert last[..] == finalcount;
      assert m + ([0x80] + Zeros(k)) + finalcount == m + ([0x80] + Zeros(k) + finalcount);
      Update(last);
      digest := Output(state);
    }

    /** The whole blocks of the data from `start` on, transformed where they are. */
    method Blocks(data: array<Byte>, start: nat) returns (i: nat)
      requires start <= data.Length
      modifies this`state, data
      ensures start <= i <= data.Length < i + BLOCK
      ensures Fold(transform, state, old(data[..])[i..]) == old(Fold(transform, state, data[..][start..]))
      ensures Rest(old(data[..])[i..]) == Rest(old(data[..])[start..])
      ensures data[i..] == old(data[..])[i..]
      ensures forall k :: 0 <= k < data.Length && !InBlocks(start, data.Length, k) ==> data[k] == old(data[k])
    {
      hide Fold, Rest;
      ghost var d := data[..];
      i := start;
      while i + 63 < data.Length
        invariant start <= i <= data.Length && (i - start) % BLOCK == 0
        invariant Fold(transform, state, d[i..]) == old(Fold(transform, state, data[..][start..]))
        invariant Rest(d[i..]) == Rest(d[start..])
        invariant forall k :: 0 <= k < data.Length && !(start <= k < i) ==> data[k] == d[k]
      {
        var block: Block := data[i..i + BLOCK];
        assert d[i..] == block + d[i + BLOCK..];
        FoldBlock(transform, state, block, d[i + BLOCK..]);
        state := transform(state, block);
        Leave(data, i, leavings(block));
        i := i + BLOCK;
      }
      EndIs(start, data.Length, i);
      assert data[i..] == d[i..];
    }

    method Leave(data: array<Byte>, i: nat, block: Block)
      requires i + BLOCK <= data.Length
      modifies data
      ensures forall k :: 0 <= k < data.Length && !(i <= k < i + BLOCK) ==> data[k] == old(data[k])
    {
      var _ := Put(data, i, block);
      assert forall k :: 0 <= k < data.Length ==> data[k] == data[..][k];
    }
  }

  /** The digest of some data, of which all but the first block is transformed where it is. */
  method HashInPlace(f: Transform, leavings: Leavings, data: array<Byte>) returns (digest: seq<Byte>)
    requires data.Length < TWO32
    modifies data
    ensures digest == Digest(f, old(data[..]))
    ensures forall i :: 0 <= i < data.Length && (data.Length < BLOCK || !InBlocks(BLOCK, data.Length, i)) ==>
              data[i] == old(data[i])
  {
    hide Fold, Rest, Digest, InBlocks;
    var ctx := new Context(f, leavings);
    ctx.Update(data);
    assert [] + old(data[..]) == old(data[..]);
    digest := ctx.Final();
  }

  /** The digest of a message that comes in pieces. */
  method DigestOf(f: Transform, leavings: Leavings, pieces: seq<seq<Byte>>) returns (digest: seq<Byte>)
    requires forall i :: 0 <= i < |pieces| ==> |pieces[i]| < TWO32
    ensures digest == Digest(f, Joined(pieces))
  {
    hide Digest, Joined;
    var ctx := new Context(f, leavings);
    NoPieces(pieces);
    for i := 0 to |pieces|
      invariant ctx.Valid() && ctx.transform == f && ctx.msg == Joined(pieces[..i]) && fresh(ctx) && fresh(ctx.buffer)
    {
      JoinedMore(pieces, i);
      ctx.UpdateCopy(pieces[i]);
    }
    digest := ctx.Final();
  }

  /** Before the padding is complete there are zeros to go, and not afterwards. */
  lemma {:induction false} GapEnds(len: nat, k: nat)
    requires k <= Gap(len)
    ensures (len + 1 + k) % BLOCK == 56 <==> k == Gap(len)
  {
  }

  lemma {:induction false} OneMoreZero(k: nat)
    ensures Zeros(k) + [0] == Zeros(k + 1)
  {
  }

  lemma {:induction false} CarryEitherWay(low: Word, part: nat)
    requires part < TWO32
    ensures (low + part) % TWO32 < low <==> (low + part) % TWO32 < part
  {
  }

  lemma {:induction false} EndIs(start: nat, size: nat, i: nat)
    requires start <= i <= size < i + BLOCK && (i - start) % BLOCK == 0
    ensures i == start + (size - start) / BLOCK * BLOCK
    ensures forall k: nat :: start <= k < i <==> InBlocks(start, size, k)
  {
  }

  lemma {:induction false} BigIs(len: nat, low: Word, high: Word)
    requires low == 8 * len % TWO32 && high == 8 * len % TWO64 / TWO32
    ensures Padding(len, Big) == [0x80] + Zeros(Gap(len)) + (BigWord(high) + BigWord(low))
  {
    hide BigWord, Zeros, Gap;
    LowOfBoth(8 * len);
  }

  // ---------------------------------------------------------------------------
  // Sizes of more than 32 bits
  // ---------------------------------------------------------------------------

  /**
   The same count where sizes have 64 bits: the shifted size wraps at 64 bits, and the carry is
   told from all of it, although the low word takes its lower half only.
   */
  function AddBitsWide(low: Word, high: Word, len: nat): (Word, Word) {
    var shifted := len * 8 % TWO64;
    var low' := (low + shifted) % TWO32;
    (low', (high + (if low' < shifted then 1 else 0) + len / 0x2000_0000) % TWO32)
  }

  /** It is right exactly for shifted sizes of 32 bits, or when the low word really carries. */
  lemma {:induction false} WideSizesMiscount(low: Word, high: Word, len: nat, before: nat)
    requires low + TWO32 * high == 8 * before % TWO64 && len < TWO64
    ensures var (l, h) := AddBitsWide(low, high, len);
            l + TWO32 * h == 8 * (before + len) % TWO64
            <==> len * 8 % TWO64 < TWO32 || low + len * 8 % TWO32 >= TWO32
  {
    var part, shifted: nat := len * 8 % TWO32, len * 8 % TWO64;
    AddBitsRight(low, high, len, before);
    LowOfBoth(len * 8);
    SameLow(low, shifted);
    CarryEitherWay(low, part);
    CarryRight(low, part);
    OneMakesDifference(high + len / 0x2000_0000);
    if shifted < TWO32 {
      SmallPart(shifted);
    }
  }

  /** The first piece of 2^29 bytes is counted as twice its size. */
  lemma {:induction false} MiscountedPiece()
    ensures var (l, h) := AddBitsWide(0, 0, 0x2000_0000); l + TWO32 * h == 2 * (8 * 0x2000_0000) < TWO64
  {
  }

  lemma {:induction false} SameLow(low: Word, shifted: nat)
    ensures (low + shifted) % TWO32 == (low + shifted % TWO32) % TWO32
  {
  }

  lemma {:induction false} SmallPart(shifted: nat)
    requires shifted < TWO32
    ensures shifted % TWO32 == shifted
  {
  }

  lemma {:induction false} OneMakesDifference(x: nat)
    ensures x % TWO32 != (x + 1) % TWO32
  {
  }
}
