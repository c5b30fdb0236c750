/** MD5, with the transformation of one block left open (sections 3.1 to 3.5 of RFC 1321). */
module Md5 {
  import opened Buffers
  import opened Hashing

  datatype State = State(a: Word, b: Word, c: Word, d: Word)

  type Transform = (State, seq<Byte>) -> State

  const INIT := State(0x67452301, 0xefcdab89, 0x98badcfe, 0x10325476)

  function Output(s: State): (r: seq<Byte>)
    ensures |r| == 16
  {
    LittleWord(s.a) + LittleWord(s.b) + LittleWord(s.c) + LittleWord(s.d)
  }

  /** The digest of a message: the fold over the padded message. */
  function Digest(f: Transform, msg: seq<Byte>): (r: seq<Byte>)
    ensures |r| == 16
  {
    Output(Fold(f, INIT, msg + Padding(|msg|, Little)))
  }

  class Context {
    const transform: Transform
    var buf: State
    var low: Word
    var high: Word
    const block: array<Byte>
    ghost var msg: seq<Byte>

    ghost predicate Valid()
      reads this, block
    {
      && block.Length == BLOCK
      && buf == Fold(transform, INIT, msg)
      && block[..|msg| % BLOCK] == Rest(msg)
      && low + TWO32 * high == 8 * |msg| % TWO64
    }

    constructor (transform: Transform)
      ensures Valid() && fresh(block) && this.transform == transform && msg == []
    {
      this.transform := transform;
      buf, low, high, msg := INIT, 0, 0, [];
      block := new Byte[BLOCK](_ => 0);
    }

    /** Takes more of the message; any way of cutting the message into pieces is the same. */
    method Update(data: seq<Byte>)
      requires Valid() && |data| < TWO32
      modifies this, block
      ensures Valid() && msg == old(msg) + data
    {
      hide Fold, Rest, AddBits;
      AddBitsRight(low, high, |data|, |msg|);
      FillIsKnown(low, high, |msg|);
      FoldMore(transform, INIT, msg, data);
      var t: nat := low / 8 % BLOCK;
      Count(|data|);
      Absorb(t, data, Rest(msg));
      msg := msg + data;
    }

    /** Completes the block that holds `t` bytes, takes the whole blocks behind it and keeps the rest. */
    method Absorb(t: nat, data: seq<Byte>, ghost rest: seq<Byte>)
      requires block.Length == BLOCK && t < BLOCK && block[..t] == rest
      modifies this`buf, block
      ensures buf == old(Fold(transform, buf, rest + data))
      ensures block[..|Rest(rest + data)|] == Rest(rest + data)
    {
      hide Fold, Rest;
      var p: nat := 0;
      if t != 0 {
        if |data| < BLOCK - t {
          FoldShort(transform, buf, rest + data);
          Store(t, data);
          return;
        }
        p := BLOCK - t;
        assert rest + data == rest + data[..p] + data[p..];
        FoldBlock(transform, buf, rest + data[..p], data[p..]);
        Store(t, data[..p]);
        assert block[..] == block[..BLOCK];
        buf := transform(buf, block[..]);
      } else {
        assert rest + data == data[0..];
      }
      p := Blocks(data, p);
      FoldShort(transform, buf, data[p..]);
      Store(0, data[p..]);
    }

    /** Copies data into the block behind what it holds. */
    method Store(t: nat, data: seq<Byte>)
      requires t + |data| <= block.Length
      modifies block
      ensures block[..t + |data|] == old(block[..t]) + data
    {
      ghost var b := block[..];
      var _ := Put(block, t, data);
      PutBehind(b, t, data, block[..]);
      assert b[..t] == old(block[..t]) && block[..][..t + |data|] == block[..t + |data|];
    }

    /** The two words of the bit counter, the low one first. */
    method Count(len: nat)
      requires len < TWO32
      modifies this`low, this`high
      ensures (low, high) == AddBits(old(low), old(high), len)
    {
      var t := low;
      low := (t + len * 8 % TWO32) % TWO32;
      AddsTwice(high, if low < t then 1 else 0, len / 0x2000_0000);
      if low < t {
        high := (high + 1) % TWO32;
      }
      high := (high + len / 0x2000_0000) % TWO32;
    }

    /** The whole blocks of the data from `start` on. */
    method Blocks(data: seq<Byte>, start: nat) returns (p: nat)
      requires block.Length == BLOCK && start <= |data|
      modifies this`buf, block
      ensures start <= p <= |data| < p + BLOCK
      ensures Fold(transform, buf, data[p..]) == old(Fold(transform, buf, data[start..]))
      ensures Rest(data[p..]) == Rest(data[start..])
    {
      hide Fold, Rest;
      p := start;
      while |data| - p >= BLOCK
        invariant start <= p <= |data|
        invariant Fold(transform, buf, data[p..]) == old(Fold(transform, buf, data[start..]))
        invariant Rest(data[p..]) == Rest(data[start..])
      {
        Store(0, data[p..p + BLOCK]);
        assert block[..] == block[..BLOCK] == data[p..p + BLOCK];
        assert data[p..] == block[..] + data[p + BLOCK..];
        FoldBlock(transform, buf, block[..], data[p + BLOCK..]);
        buf := transform(buf, block[..]);
        p := p + BLOCK;
      }
    }

    /** Pads the message up to the count of its bits, over one block or two. */
    method Pad(count: nat, ghost last: seq<Byte>)
      requires block.Length == BLOCK && count == |msg| % BLOCK && block[..count] == Rest(msg) && |last| == 8
      modifies this`buf, block
      ensures Fold(transform, buf, block[..56] + last)
              == old(Fold(transform, buf, Rest(msg) + ([0x80] + Zeros(Gap(|msg|)) + last)))
    {
      hide Fold, Rest, Zeros, Gap;
      GapIs(|msg|);
      ghost var rest := Rest(msg);
      Store(count, [0x80]);
      if BLOCK - 1 - count < 8 {
        Store(count + 1, Zeros(BLOCK - 1 - count));
        assert block[..] == block[..BLOCK] == rest + [0x80] + Zeros(BLOCK - 1 - count);
        TwoBlocks(rest, |msg|, last);
        FoldBlock(transform, buf, block[..], Zeros(56) + last);
        buf := transform(buf, block[..]);
        Store(0, Zeros(56));
        assert block[..56] == Zeros(56);
      } else {
        Store(count + 1, Zeros(55 - count));
        OneBlock(rest, |msg|, last);
      }
    }

    /** Pads the message and gives its digest. */
    method Final() returns (digest: seq<Byte>)
      requires Valid()
      modifies this`buf, block
      ensures digest == Digest(transform, msg)
    {
      hide Fold, Rest, Padding, Zeros, Gap, LittleWord;
      FillIsKnown(low, high, |msg|);
      PaddingIs(|msg|, low, high);
      FoldMore(transform, INIT, msg, Padding(|msg|, Little));
      ghost var last := LittleWord(low) + LittleWord(high);
      Pad(low / 8 % BLOCK, last);
      ghost var padded := block[..56];
      Store(56, LittleWord(low));
      Store(60, LittleWord(high));
      assert block[..] == block[..BLOCK] == padded + last;
      assert block[..] + [] == block[..];
      FoldBlock(transform, buf, block[..], []);
      buf := transform(buf, block[..]);
      FoldShort(transform, buf, []);
      digest := Output(buf);
    }
  }

  /** The digest of a message that comes in pieces. */
  method DigestOf(f: Transform, pieces: seq<seq<Byte>>) returns (digest: seq<Byte>)
    requires forall i :: 0 <= i < |pieces| ==> |pieces[i]| < TWO32
    ensures digest == Digest(f, Joined(pieces))
  {
    hide Digest, Joined;
    var ctx := new Context(f);
    NoPieces(pieces);
    for i := 0 to |pieces|
      invariant ctx.Valid() && ctx.transform == f && ctx.msg == Joined(pieces[..i]) && fresh(ctx) && fresh(ctx.block)
    {
      JoinedMore(pieces, i);
      ctx.Update(pieces[i]);
    }
    digest := ctx.Final();
  }

  lemma {:induction false} GapIs(len: nat)
    ensures Gap(len) == if len % BLOCK < 56 then 55 - len % BLOCK else 119 - len % BLOCK
  {
  }

  lemma {:induction false} PaddingIs(len: nat, low: Word, high: Word)
    requires low == 8 * len % TWO32 && high == 8 * len % TWO64 / TWO32
    ensures Padding(len, Little) == [0x80] + Zeros(Gap(len)) + (LittleWord(low) + LittleWord(high))
  {
    hide LittleWord, Zeros, Gap;
    LowOfBoth(8 * len);
  }

  lemma {:induction false} ZerosSplit(a: nat, b: nat)
    ensures Zeros(a + b) == Zeros(a) + Zeros(b)
  {
  }

  /** The padding that does not fit behind a long rest fills this block and most of the next. */
  lemma {:induction false} TwoBlocks(rest: seq<Byte>, len: nat, last: seq<Byte>)
    requires 56 <= |rest| < BLOCK && Gap(len) == 119 - |rest| && |last| == 8
    ensures rest + ([0x80] + Zeros(Gap(len)) + last)
            == (rest + [0x80] + Zeros(BLOCK - 1 - |rest|)) + (Zeros(56) + last)
  {
    hide Gap, Zeros;
    ZerosSplit(BLOCK - 1 - |rest|, 56);
  }

  lemma {:induction false} OneBlock(rest: seq<Byte>, len: nat, last: seq<Byte>)
    requires |rest| < 56 && Gap(len) == 55 - |rest| && |last| == 8
    ensures rest + ([0x80] + Zeros(Gap(len)) + last) == rest + [0x80] + Zeros(55 - |rest|) + last
  {
    hide Gap, Zeros;
  }

  lemma {:induction false} PutBehind(b: seq<Byte>, t: nat, data: seq<Byte>, b': seq<Byte>)
    requires t + |data| <= |b| && b' == Overwrite(b, t, data)
    ensures |b'| == |b| && b'[..t + |data|] == b[..t] + data
  {
  }
}
