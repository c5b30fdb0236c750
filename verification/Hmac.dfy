/** HMAC over MD5 and over SHA-1 (section 2 of RFC 2104). */
module Hmac {
  import opened Buffers
  import opened Hashing
  import Md5
  import Sha1

  type Hash = seq<Byte> -> seq<Byte>

  function Pow2(n: nat): nat { if n == 0 then 1 else 2 * Pow2(n - 1) }

  function XorBit(x: nat, y: nat): (r: nat)
    ensures r < 2
  {
    (x + y) % 2
  }

  /** The lowest `n` bits of each, combined by exclusive or. */
  function XorBits(a: nat, b: nat, n: nat): (r: nat)
    ensures r < Pow2(n)
  {
    if n == 0 then 0 else XorBit(a % 2, b % 2) + 2 * XorBits(a / 2, b / 2, n - 1)
  }

  function XorByte(a: Byte, b: Byte): Byte {
    EightBits();
    XorBits(a, b, 8)
  }

  lemma {:induction false} EightBits()
    ensures Pow2(8) == 256
  {
    assert Pow2(4) == 16;
  }

  /** A key of at most one block, filled up with zeros and combined with the byte `x`. */
  function KeyPad(key: seq<Byte>, x: Byte): (r: seq<Byte>)
    requires |key| <= BLOCK
    ensures |r| == BLOCK
  {
    seq(BLOCK, i requires 0 <= i => KeyByte(key, i, x))
  }

  function KeyByte(key: seq<Byte>, i: nat, x: Byte): Byte { XorByte(if i < |key| then key[i] else 0, x) }

  /** H(K xor opad, H(K xor ipad, text)), where a key longer than a block is hashed first. */
  function Hmac(h: Hash, key: seq<Byte>, text: seq<Byte>): seq<Byte>
    requires |h(key)| <= BLOCK
  {
    var k := if |key| > BLOCK then h(key) else key;
    h(KeyPad(k, 0x5c) + h(KeyPad(k, 0x36) + text))
  }

  lemma {:induction false} XorStep(a: nat, b: nat, n: nat)
    requires n > 0
    ensures XorBits(a, b, n) % 2 == XorBit(a % 2, b % 2) && XorBits(a, b, n) / 2 == XorBits(a / 2, b / 2, n - 1)
  {
    Halves(XorBit(a % 2, b % 2), XorBits(a / 2, b / 2, n - 1));
  }

  lemma {:induction false} Halves(bit: nat, h: nat)
    requires bit < 2
    ensures (bit + 2 * h) % 2 == bit && (bit + 2 * h) / 2 == h
  {
  }

  lemma {:induction false} BitUndoes(x: nat, y: nat)
    requires x < 2 && y < 2
    ensures XorBit(XorBit(x, y), y) == x && XorBit(0, y) == y
  {
  }

  lemma {:induction false} XorTwice(a: nat, b: nat, n: nat)
    requires a < Pow2(n)
    ensures XorBits(XorBits(a, b, n), b, n) == a
    decreases n
  {
    hide XorBit;
    if n > 0 {
      var x := XorBits(a, b, n);
      HalfFits(a, n);
      XorTwice(a / 2, b / 2, n - 1);
      XorStep(a, b, n);
      XorStep(x, b, n);
      BitUndoes(a % 2, b % 2);
    }
  }

  lemma {:induction false} XorNothing(b: nat, n: nat)
    requires b < Pow2(n)
    ensures XorBits(0, b, n) == b
    decreases n
  {
    hide XorBit;
    if n > 0 {
      HalfFits(b, n);
      XorNothing(b / 2, n - 1);
      XorStep(0, b, n);
      BitUndoes(0, b % 2);
    }
  }

  lemma {:induction false} HalfFits(a: nat, n: nat)
    requires a < Pow2(n) && n > 0
    ensures a / 2 < Pow2(n - 1)
  {
  }

  lemma {:induction false} XorUndoes(a: Byte, b: Byte)
    ensures XorByte(XorByte(a, b), b) == a && XorByte(0, b) == b
  {
    hide XorBits, Pow2;
    EightBits();
    XorTwice(a, b, 8);
    XorNothing(b, 8);
  }

  /** Behind the key the pad is all `x`; within it, combining with `x` once more gives the key back. */
  lemma {:induction false} KeyPadIs(key: seq<Byte>, x: Byte)
    requires |key| <= BLOCK
    ensures var p := KeyPad(key, x);
            && (forall i :: 0 <= i < |key| ==> XorByte(p[i], x) == key[i])
            && (forall i :: |key| <= i < BLOCK ==> p[i] == x)
  {
    hide XorByte;
    forall i | 0 <= i < BLOCK
      ensures if i < |key| then XorByte(KeyPad(key, x)[i], x) == key[i] else KeyPad(key, x)[i] == x
    {
      XorUndoes(if i < |key| then key[i] else 0, x);
    }
  }

  /** With an empty key the pads show: 0x36 inside, 0x5c outside. */
  lemma {:induction false} EmptyKey(h: Hash, text: seq<Byte>)
    requires |h([])| <= BLOCK
    ensures Hmac(h, [], text) == h(seq(BLOCK, _ => 0x5c) + h(seq(BLOCK, _ => 0x36) + text))
  {
    hide KeyPad;
    KeyPadIs([], 0x5c);
    KeyPadIs([], 0x36);
    assert KeyPad([], 0x5c) == seq(BLOCK, _ => 0x5c) && KeyPad([], 0x36) == seq(BLOCK, _ => 0x36);
  }

  /** A key of up to one block is used as it is, a longer one counts as its hash. */
  lemma {:induction false} LongKeys(h: Hash, key: seq<Byte>, text: seq<Byte>)
    requires |h(key)| <= BLOCK && |h(h(key))| <= BLOCK
    ensures |key| <= BLOCK ==> Hmac(h, key, text) == h(KeyPad(key, 0x5c) + h(KeyPad(key, 0x36) + text))
    ensures |key| > BLOCK ==> Hmac(h, key, text) == Hmac(h, h(key), text)
  {
    hide KeyPad;
  }

  /** Fills a block with the key and combines it with `x`. */
  method MakePad(key: seq<Byte>, x: Byte) returns (pad: array<Byte>)
    requires |key| <= BLOCK
    ensures fresh(pad) && pad[..] == KeyPad(key, x)
  {
    hide XorByte;
    pad := new Byte[BLOCK](_ => 0);
    var _ := Put(pad, 0, key);
    ghost var k := pad[..];
    var i := 0;
    while i < BLOCK
      invariant 0 <= i <= BLOCK
      invariant forall j :: 0 <= j < i ==> pad[j] == XorByte(k[j], x)
      invariant forall j :: i <= j < BLOCK ==> pad[j] == k[j]
    {
      pad[i] := XorByte(pad[i], x);
      i := i + 1;
    }
    assert pad[..] == KeyPad(key, x);
  }

  class HmacMd5 {
    const transform: Md5.Transform
    var ctx: Md5.Context
    const opad: array<Byte>
    ghost const key: seq<Byte>
    ghost var text: seq<Byte>

    /** The hash function. */
    ghost function H(): Hash { m => Md5.Digest(transform, m) }

    ghost function Key(): (k: seq<Byte>)
      ensures |k| <= BLOCK
    {
      if |key| > BLOCK then Md5.Digest(transform, key) else key
    }

    ghost predicate Valid()
      reads this, ctx, ctx.block, opad
    {
      && ctx.Valid() && ctx.transform == transform && opad != ctx.block
      && opad[..] == KeyPad(Key(), 0x5c) && ctx.msg == KeyPad(Key(), 0x36) + text
    }

    constructor (transform: Md5.Transform, key: seq<Byte>)
      requires |key| < TWO32
      ensures Valid() && fresh(ctx) && fresh(ctx.block) && fresh(opad)
      ensures this.transform == transform && this.key == key && text == []
    {
      hide KeyPad, Md5.Digest;
      var k := key;
      if |key| > BLOCK {
        k := Md5.DigestOf(transform, [key]);
        OnePiece(key);
      }
      var ipad := MakePad(k, 0x36);
      var pad := MakePad(k, 0x5c);
      var inner := new Md5.Context(transform);
      inner.Update(ipad[..]);
      this.transform := transform;
      this.key := key;
      ctx, opad, text := inner, pad, [];
    }

    method Update(input: seq<Byte>)
      requires Valid() && |input| < TWO32
      modifies this, ctx, ctx.block
      ensures Valid() && ctx == old(ctx) && text == old(text) + input
    {
      hide KeyPad, Md5.Digest;
      ctx.Update(input);
      text := text + input;
    }

    /** The code of the key and the whole text. */
    method Final() returns (digest: seq<Byte>)
      requires Valid()
      modifies this, ctx, ctx.block
      ensures digest == Hmac(H(), key, text)
    {
      hide KeyPad, Md5.Digest;
      var inner := ctx.Final();
      digest := Md5.DigestOf(transform, [opad[..], inner]);
      TwoPieces(opad[..], inner);
    }
  }

  class HmacSha1 {
    const transform: Sha1.Transform
    const leavings: Sha1.Leavings
    var ctx: Sha1.Context
    const opad: array<Byte>
    ghost const key: seq<Byte>
    ghost var text: seq<Byte>

    ghost function H(): Hash { m => Sha1.Digest(transform, m) }

    ghost function Key(): (k: seq<Byte>)
      ensures |k| <= BLOCK
    {
      if |key| > BLOCK then Sha1.Digest(transform, key) else key
    }

    ghost predicate Valid()
      reads this, ctx, ctx.buffer, opad
    {
      && ctx.Valid() && ctx.transform == transform && opad != ctx.buffer
      && opad[..] == KeyPad(Key(), 0x5c) && ctx.msg == KeyPad(Key(), 0x36) + text
    }

    /** Of a key longer than a block, all whole blocks behind the first one are written over. */
    constructor (transform: Sha1.Transform, leavings: Sha1.Leavings, key: array<Byte>)
      requires key.Length < TWO32
      modifies key
      ensures Valid() && fresh(ctx) && fresh(ctx.buffer) && fresh(opad)
      ensures this.transform == transform && this.key == old(key[..]) && text == []
      ensures forall i :: 0 <= i < key.Length && (key.Length <= BLOCK || !Sha1.InBlocks(BLOCK, key.Length, i)) ==>
                key[i] == old(key[i])
    {
      hide KeyPad, Sha1.Digest, Sha1.InBlocks;
      ghost var given := key[..];
      var k := key[..];
      if key.Length > BLOCK {
        k := Sha1.HashInPlace(transform, leavings, key);
      }
      var ipad := MakePad(k, 0x36);
      var pad := MakePad(k, 0x5c);
      var inner := new Sha1.Context(transform, leavings);
      inner.UpdateCopy(ipad[..]);
      this.transform, this.leavings := transform, leavings;
      this.key := given;
      ctx, opad, text := inner, pad, [];
    }

    /** Takes more of the text; of the caller's data, whole blocks may be written over as SHA-1 does. */
    method Update(input: array<Byte>)
      requires Valid() && input.Length < TWO32 && input != ctx.buffer && input != opad
      modifies this, ctx, ctx.buffer, input
      ensures Valid() && ctx == old(ctx) && text == old(text) + old(input[..])
      ensures var start := BLOCK - old(|text|) % BLOCK;
              forall i :: 0 <= i < input.Length && (input.Length < start || !Sha1.InBlocks(start, input.Length, i)) ==>
                input[i] == old(input[i])
    {
      hide KeyPad, Sha1.Digest, Sha1.InBlocks;
      BehindPad(|text|);
      ctx.Update(input);
      text := text + old(input[..]);
    }

    /** The code of the key and the whole text. */
    method Final() returns (digest: seq<Byte>)
      requires Valid()
      modifies this, ctx, ctx.buffer
      ensures digest == Hmac(H(), key, text)
    {
      hide KeyPad, Sha1.Digest;
      var inner := ctx.Final();
      digest := Sha1.DigestOf(transform, leavings, [opad[..], inner]);
      TwoPieces(opad[..], inner);
    }
  }

  lemma {:induction false} BehindPad(len: nat)
    ensures (BLOCK + len) % BLOCK == len % BLOCK
  {
  }
}
