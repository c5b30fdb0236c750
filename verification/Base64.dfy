/** Base64, as in section 4 of RFC 4648. */
module Base64 {
  import opened Buffers

  type Digit = x: int | 0 <= x < 64

  const INVALID := -1

  /** The alphabet: upper case, lower case, digits, plus and slash. */
  function Letter(d: Digit): char {
    if d < 26 then ('A' as int + d) as char
    else if d < 52 then ('a' as int + d - 26) as char
    else if d < 62 then ('0' as int + d - 52) as char
    else if d == 62 then '+' else '/'
  }

  function Value(c: char): (v: int)
    ensures -1 <= v < 64
  {
    if 'A' <= c <= 'Z' then c as int - 'A' as int
    else if 'a' <= c <= 'z' then c as int - 'a' as int + 26
    else if '0' <= c <= '9' then c as int - '0' as int + 52
    else if c == '+' then 62
    else if c == '/' then 63
    else INVALID
  }

  /** An invalid character counts as all ones wherever its bits are used. */
  function Bits(c: char): Digit { if Value(c) == INVALID then 63 else Value(c) }

  // ---------------------------------------------------------------------------
  // Encoding and decoding
  // ---------------------------------------------------------------------------

  function Quad(c1: Byte, c2: Byte, c3: Byte, padding: nat): (r: string)
    ensures |r| == 4
  {
    [Letter(c1 / 4), Letter(c1 % 4 * 16 + c2 / 16)] +
    (if padding == 0 then [Letter(c2 % 16 * 4 + c3 / 64), Letter(c3 % 64)]
     else if padding == 1 then [Letter(c2 % 16 * 4 + c3 / 64), '=']
     else ['=', '='])
  }

  function Encode(s: seq<Byte>): (r: string)
    ensures |r| == (|s| + 2) / 3 * 4
    decreases |s|
  {
    if s == [] then []
    else if |s| == 1 then Quad(s[0], 0, 0, 2)
    else if |s| == 2 then Quad(s[0], s[1], 0, 1)
    else Quad(s[0], s[1], s[2], 0) + Encode(s[3..])
  }

  /** The text without the padding at its end. */
  function Stripped(s: string): (r: string)
    ensures r <= s
    decreases |s|
  {
    if s != [] && s[|s| - 1] == '=' then Stripped(s[..|s| - 1]) else s
  }

  function First(c1: Digit, c2: Digit): Byte { c1 * 4 + c2 / 16 }
  function Second(c2: Digit, c3: Digit): Byte { c2 % 16 * 16 + c3 / 4 }
  function Third(c3: Digit, c4: Digit): Byte { c3 % 4 * 64 + c4 }

  /** The bytes of a last group of up to three characters; an invalid character ends it. */
  function Tail(s: string): seq<Byte>
    requires |s| < 4
  {
    if |s| < 2 || Value(s[1]) == INVALID then []
    else if |s| == 2 || Value(s[2]) == INVALID then [First(Bits(s[0]), Bits(s[1]))]
    else [First(Bits(s[0]), Bits(s[1])), Second(Bits(s[1]), Bits(s[2]))]
  }

  function Triple(a: char, b: char, c: char, d: char): seq<Byte> {
    [First(Bits(a), Bits(b)), Second(Bits(b), Bits(c)), Third(Bits(c), Bits(d))]
  }

  function Groups(s: string): (r: seq<Byte>)
    ensures |r| <= |s| * 3 / 4
    decreases |s|
  {
    if |s| < 4 then Tail(s) else Triple(s[0], s[1], s[2], s[3]) + Groups(s[4..])
  }

  function Decode(s: string): seq<Byte> { Groups(Stripped(s)) }

  // ---------------------------------------------------------------------------
  // What the groups mean
  // ---------------------------------------------------------------------------

  /** Three bytes and the four letters for them are the same number. */
  lemma {:induction false} QuadIsNumber(c1: Byte, c2: Byte, c3: Byte)
    ensures var q := Quad(c1, c2, c3, 0);
            && (forall i :: 0 <= i < 4 ==> 0 <= Value(q[i]))
            && 0x1_0000 * c1 + 0x100 * c2 + c3
               == 0x4_0000 * Value(q[0]) + 0x1000 * Value(q[1]) + 0x40 * Value(q[2]) + Value(q[3])
  {
    hide Letter, Value;
    LetterValue(c1 / 4);
    LetterValue(c1 % 4 * 16 + c2 / 16);
    LetterValue(c2 % 16 * 4 + c3 / 64);
    LetterValue(c3 % 64);
  }

  /** The test vectors of section 10 of RFC 4648, and one with the last two letters. */
  lemma {:induction false} TestVectors()
    ensures Encode([]) == "" && Encode([102]) == "Zg==" && Encode([102, 111]) == "Zm8="
    ensures Encode([102, 111, 111]) == "Zm9v"
    ensures Encode([102, 111, 111, 98, 97, 114]) == "Zm9vYmFy"
    ensures Encode([251, 255]) == "+/8="
  {
    var foobar, bar: seq<Byte> := [102, 111, 111, 98, 97, 114], [98, 97, 114];
    assert foobar[3..] == bar && bar[3..] == [];
    assert Encode(bar) == "YmFy";
    var foo: seq<Byte> := [102, 111, 111];
    assert foo[3..] == [];
  }

  /** An invalid character in a full group is read like a slash. */
  function Slashed(s: string): (r: string)
    ensures |r| == |s|
  {
    seq(|s|, i requires 0 <= i < |s| => if Value(s[i]) == INVALID then '/' else s[i])
  }

  lemma {:induction false} InvalidAsSlash(s: string)
    requires |s| % 4 == 0
    ensures Groups(Slashed(s)) == Groups(s)
    decreases |s|
  {
    hide Value, First, Second, Third;
    if s != [] {
      InvalidAsSlash(s[4..]);
      assert Slashed(s)[4..] == Slashed(s[4..]);
      forall i | 0 <= i < 4
        ensures Bits(Slashed(s)[i]) == Bits(s[i])
      {
        SlashIs();
      }
    }
  }

  lemma {:induction false} SlashIs()
    ensures Value('/') == 63
  {
  }

  /** In the last group an invalid character ends the result. */
  lemma {:induction false} InvalidEnds(a: char, b: char, c: char)
    ensures Value(b) == INVALID ==> Groups([a, b]) == [] && Groups([a, b, c]) == []
    ensures Value(b) != INVALID && Value(c) == INVALID ==> Groups([a, b, c]) == Groups([a, b]) && |Groups([a, b])| == 1
    ensures Groups([a]) == []
  {
    hide Value;
  }

  // ---------------------------------------------------------------------------
  // Round trips
  // ---------------------------------------------------------------------------

  lemma {:induction false} LetterValue(d: Digit)
    ensures Value(Letter(d)) == d && Bits(Letter(d)) == d && Letter(d) != '='
  {
  }

  lemma {:induction false} ValueLetter(c: char)
    requires Value(c) != INVALID
    ensures Letter(Value(c)) == c && Bits(c) == Value(c) && c != '='
  {
  }

  lemma {:induction false} PaddingInvalid()
    ensures Value('=') == INVALID
  {
  }

  lemma {:induction false} QuadBits(c1: Byte, c2: Byte, c3: Byte)
    ensures First(c1 / 4, c1 % 4 * 16 + c2 / 16) == c1
    ensures Second(c1 % 4 * 16 + c2 / 16, c2 % 16 * 4 + c3 / 64) == c2
    ensures Third(c2 % 16 * 4 + c3 / 64, c3 % 64) == c3
  {
  }

  /** The padded quads and the full one give their bytes back. */
  lemma {:induction false} QuadReads(c1: Byte, c2: Byte, c3: Byte)
    ensures var q := Quad(c1, c2, c3, 0); Triple(q[0], q[1], q[2], q[3]) == [c1, c2, c3] && Stripped(q) == q
    ensures Stripped(Quad(c1, c2, 0, 1)) == Quad(c1, c2, 0, 1)[..3] && Tail(Quad(c1, c2, 0, 1)[..3]) == [c1, c2]
    ensures Stripped(Quad(c1, 0, 0, 2)) == Quad(c1, 0, 0, 2)[..2] && Tail(Quad(c1, 0, 0, 2)[..2]) == [c1]
  {
    hide Bits, Letter, Value, First, Second, Third;
    QuadBits(c1, c2, c3);
    QuadBits(c1, c2, 0);
    QuadBits(c1, 0, 0);
    LetterValue(c1 / 4);
    LetterValue(c1 % 4 * 16 + c2 / 16);
    LetterValue(c1 % 4 * 16);
    LetterValue(c2 % 16 * 4 + c3 / 64);
    LetterValue(c2 % 16 * 4);
    LetterValue(c3 % 64);
    var q := Quad(c1, 0, 0, 2);
    assert Stripped(q) == Stripped(q[..3]) && q[..3][..2] == q[..2];
    assert Stripped(q[..3]) == Stripped(q[..2]);
  }

  lemma {:induction false} StrippedPrefix(a: string, b: string)
    requires Stripped(b) != []
    ensures Stripped(a + b) == a + Stripped(b)
    decreases |b|
  {
    if b[|b| - 1] == '=' {
      StrippedPrefix(a, b[..|b| - 1]);
      assert (a + b)[..|a + b| - 1] == a + b[..|b| - 1];
    }
  }

  lemma {:induction false} GroupsFirst(q: string, rest: string)
    requires |q| == 4
    ensures Groups(q + rest) == Triple(q[0], q[1], q[2], q[3]) + Groups(rest)
  {
    assert (q + rest)[4..] == rest;
  }

  lemma {:induction false} EncodedStays(s: seq<Byte>)
    requires s != []
    ensures Stripped(Encode(s)) != []
    decreases |s|
  {
    hide Quad, Tail, Triple;
    if |s| == 1 {
      QuadReads(s[0], 0, 0);
    } else if |s| == 2 {
      QuadReads(s[0], s[1], 0);
    } else {
      QuadReads(s[0], s[1], s[2]);
      if |s| > 3 {
        EncodedStays(s[3..]);
        StrippedPrefix(Quad(s[0], s[1], s[2], 0), Encode(s[3..]));
      } else {
        assert Encode(s) == Quad(s[0], s[1], s[2], 0);
      }
    }
  }

  /** Decoding an encoded byte string gives it back. */
  lemma {:induction false} RoundTrip(s: seq<Byte>)
    ensures Decode(Encode(s)) == s
    decreases |s|
  {
    hide Quad, Tail, Triple;
    if |s| == 1 {
      QuadReads(s[0], 0, 0);
    } else if |s| == 2 {
      QuadReads(s[0], s[1], 0);
    } else if |s| >= 3 {
      var q, rest := Quad(s[0], s[1], s[2], 0), Encode(s[3..]);
      QuadReads(s[0], s[1], s[2]);
      RoundTrip(s[3..]);
      GroupsFirst(q, Stripped(rest));
      if |s| == 3 {
        assert Encode(s) == q && q + Stripped(rest) == q;
      } else {
        EncodedStays(s[3..]);
        StrippedPrefix(q, rest);
      }
      assert s == [s[0], s[1], s[2]] + s[3..];
    }
  }

  predicate Valid(c: char) { Value(c) != INVALID }

  /** Whole groups of valid characters; padding in the last one only, over zero bits. */
  predicate Canonical(s: string)
    decreases |s|
  {
    s == [] ||
    (&& |s| >= 4 && Valid(s[0]) && Valid(s[1])
     && (|| (Valid(s[2]) && Valid(s[3]) && Canonical(s[4..]))
         || (|s| == 4 && Valid(s[2]) && Value(s[2]) % 4 == 0 && s[3] == '=')
         || (|s| == 4 && Value(s[1]) % 16 == 0 && s[2] == '=' && s[3] == '=')))
  }

  lemma {:induction false} EncodedIsCanonical(s: seq<Byte>)
    ensures Canonical(Encode(s))
    decreases |s|
  {
    hide Letter, Value;
    if s != [] {
      var c1, c2, c3 := s[0], if |s| > 1 then s[1] else 0, if |s| > 2 then s[2] else 0;
      LetterValue(c1 / 4);
      LetterValue(c1 % 4 * 16 + c2 / 16);
      LetterValue(c2 % 16 * 4 + c3 / 64);
      LetterValue(c3 % 64);
      if |s| >= 3 {
        EncodedIsCanonical(s[3..]);
        assert Encode(s)[4..] == Encode(s[3..]);
      }
    }
  }

  lemma {:induction false} GroupBits(a: Digit, b: Digit, c: Digit, d: Digit)
    ensures First(a, b) / 4 == a && First(a, b) % 4 * 16 + Second(b, c) / 16 == b
    ensures Second(b, c) % 16 * 4 + Third(c, d) / 64 == c && Third(c, d) % 64 == d
    ensures b % 16 == 0 ==> First(a, b) % 4 * 16 == b
    ensures c % 4 == 0 ==> Second(b, c) % 16 * 4 == c
  {
  }

  /** A canonical group is the quad of its bytes. */
  lemma {:induction false} GroupIsQuad(a: char, b: char, c: char, d: char)
    requires Valid(a) && Valid(b)
    ensures Valid(c) && Valid(d) ==>
              Quad(First(Bits(a), Bits(b)), Second(Bits(b), Bits(c)), Third(Bits(c), Bits(d)), 0) == [a, b, c, d]
    ensures Valid(c) && Value(c) % 4 == 0 ==>
              Quad(First(Bits(a), Bits(b)), Second(Bits(b), Bits(c)), 0, 1) == [a, b, c, '=']
    ensures Value(b) % 16 == 0 ==> Quad(First(Bits(a), Bits(b)), 0, 0, 2) == [a, b, '=', '=']
  {
    hide Letter, Bits, Value, First, Second, Third;
    ValueLetter(a);
    ValueLetter(b);
    GroupBits(Bits(a), Bits(b), Bits(c), Bits(d));
    if Valid(c) {
      ValueLetter(c);
    }
    if Valid(d) {
      ValueLetter(d);
    }
  }

  lemma {:induction false} CanonicalStays(s: string)
    requires Canonical(s) && s != []
    ensures Stripped(s) != []
    decreases |s|
  {
    hide Value;
    ValueLetter(s[0]);
    ValueLetter(s[1]);
    if |s| == 4 {
      if s[3] == '=' {
        assert Stripped(s) == Stripped(s[..3]);
        if s[2] == '=' {
          assert Stripped(s[..3]) == Stripped(s[..3][..2]);
        }
      }
    } else {
      CanonicalStays(s[4..]);
      StrippedPrefix(s[..4], s[4..]);
      assert s == s[..4] + s[4..];
    }
  }

  lemma {:induction false} LastGroup(s: string)
    requires |s| == 4 && Canonical(s)
    ensures Encode(Decode(s)) == s
  {
    hide Value, Bits, First, Second, Third, Quad;
    GroupIsQuad(s[0], s[1], s[2], s[3]);
    PaddingInvalid();
    if s[3] != '=' {
      assert Stripped(s) == s;
      GroupsFirst(s, []);
      assert s + [] == s;
      var t := Triple(s[0], s[1], s[2], s[3]);
      assert Decode(s) == t;
      assert t[3..] == [];
    } else if s[2] != '=' {
      assert Stripped(s) == s[..3];
    } else {
      assert Stripped(s) == Stripped(s[..3]) && s[..3][..2] == s[..2];
      assert Stripped(s[..3]) == s[..2];
    }
  }

  /** A text is the encoding of what it decodes to if and only if it is canonical. */
  lemma {:induction false} CanonicalRoundTrip(s: string)
    ensures Encode(Decode(s)) == s <==> Canonical(s)
    decreases |s|
  {
    if Encode(Decode(s)) == s {
      EncodedIsCanonical(Decode(s));
    } else if Canonical(s) && s != [] {
      CanonicalReads(s);
    }
  }

  lemma {:induction false} CanonicalReads(s: string)
    requires Canonical(s) && s != []
    ensures Encode(Decode(s)) == s
    decreases |s|
  {
    hide Value, Bits, First, Second, Third, Quad, Stripped;
    if |s| == 4 {
      LastGroup(s);
    } else {
      var q, rest := s[..4], s[4..];
      assert s == q + rest;
      CanonicalReads(rest);
      CanonicalStays(rest);
      StrippedPrefix(q, rest);
      GroupsFirst(q, Stripped(rest));
      GroupIsQuad(s[0], s[1], s[2], s[3]);
      var t := Triple(s[0], s[1], s[2], s[3]);
      assert (t + Decode(rest))[3..] == Decode(rest);
      assert [s[0], s[1], s[2], s[3]] == q;
    }
  }

  // ---------------------------------------------------------------------------
  // Buffers
  // ---------------------------------------------------------------------------

  function EncodedSize(len: nat): nat { len * 4 / 3 + 3 }

  function DecodedSize(len: nat): nat { len * 3 / 4 }

  /** Encodes into a buffer of the promised size; it is never outgrown. */
  method EncodeInto(input: seq<Byte>, output: array<char>) returns (ok: bool, len: nat)
    modifies output
    ensures ok <==> output.Length >= EncodedSize(|input|)
    ensures ok ==> len == |Encode(input)| <= output.Length
                   && output[..] == Overwrite(old(output[..]), 0, Encode(input))
    ensures !ok ==> output[..] == old(output[..])
  {
    hide Overwrite, Quad, Encode;
    len := 0;
    SizeFits(|input|);
    if output.Length < EncodedSize(|input|) {
      return false, 0;
    }
    ok := true;
    var i := 0;
    ghost var done: string := [];
    OverwriteNothing(output[..], 0);
    WholeInput(input);
    while i < |input|
      invariant 0 <= i <= |input| && len == |done| && done + Encode(input[i..]) == Encode(input)
      invariant output[..] == Overwrite(old(output[..]), 0, done)
    {
      var left := |input| - i;
      var quad := if left == 1 then Quad(input[i], 0, 0, 2)
                  else if left == 2 then Quad(input[i], input[i + 1], 0, 1)
                  else Quad(input[i], input[i + 1], input[i + 2], 0);
      EncodeStep(input, i, quad);
      len := Put(output, len, quad);
      OverwriteTwice(old(output[..]), 0, done, quad);
      done := done + quad;
      i := if left < 3 then |input| else i + 3;
    }
    assert done + [] == done;
  }

  /** The promised size is enough. */
  lemma {:induction false} SizeFits(len: nat)
    ensures (len + 2) / 3 * 4 <= EncodedSize(len)
  {
  }

  lemma {:induction false} WholeInput(input: seq<Byte>)
    ensures [] + Encode(input[0..]) == Encode(input) && Encode(input[|input|..]) == []
  {
    assert input[0..] == input;
  }

  lemma {:induction false} EncodeStep(input: seq<Byte>, i: nat, quad: string)
    requires i < |input|
    requires var left := |input| - i;
             quad == if left == 1 then Quad(input[i], 0, 0, 2)
                     else if left == 2 then Quad(input[i], input[i + 1], 0, 1)
                     else Quad(input[i], input[i + 1], input[i + 2], 0)
    ensures Encode(input[i..]) == quad + Encode(input[if |input| - i < 3 then |input| else i + 3..])
    ensures |quad| == 4
  {
    hide Quad;
    if |input| - i >= 3 {
      assert input[i..][3..] == input[i + 3..];
    } else {
      assert input[|input|..] == [];
    }
  }

  /** The length without padding. */
  method UnpaddedLength(s: string) returns (len: nat)
    ensures len <= |s| && s[..len] == Stripped(s)
  {
    len := |s|;
    assert s[..len] == s;
    while len > 0 && s[len - 1] == '='
      invariant len <= |s| && Stripped(s[..len]) == Stripped(s)
    {
      assert s[..len][..len - 1] == s[..len - 1];
      len := len - 1;
    }
  }

  /** The last group, if it is short, has no invalid character where one would end it early. */
  predicate WholeTail(t: string) {
    && (|t| % 4 == 2 ==> Valid(t[|t| - 1]))
    && (|t| % 4 == 3 ==> Valid(t[|t| - 2]) && Valid(t[|t| - 1]))
  }

  lemma {:induction false} GroupsSize(t: string)
    ensures |Groups(t)| == DecodedSize(|t|) <==> WholeTail(t)
    decreases |t|
  {
    hide Groups, Tail, WholeTail, DecodedSize;
    if |t| >= 4 {
      GroupsSize(t[4..]);
      GroupsOf(t);
      WholeTailBehind(t);
      FourMore(|t|);
    } else {
      GroupsOf(t);
      TailSize(t);
    }
  }

  lemma {:induction false} GroupsOf(t: string)
    ensures |t| < 4 ==> Groups(t) == Tail(t)
    ensures |t| >= 4 ==> |Groups(t)| == 3 + |Groups(t[4..])|
  {
    hide Tail, Bits;
  }

  lemma {:induction false} WholeTailBehind(t: string)
    requires |t| >= 4
    ensures WholeTail(t) <==> WholeTail(t[4..])
  {
    hide Value;
  }

  lemma {:induction false} FourMore(n: nat)
    requires n >= 4
    ensures DecodedSize(n) == 3 + DecodedSize(n - 4)
  {
  }

  lemma {:induction false} TailSize(t: string)
    requires |t| < 4
    ensures |Tail(t)| == DecodedSize(|t|) <==> WholeTail(t)
  {
    hide Value, Bits, First, Second;
  }

  /**
   The decoder's closing assertion, that the buffer is larger than the result: a buffer that
   passed the size check fails it exactly if it has the promised size and the text fills that.
   */
  lemma {:induction false} ClosingAssertion(s: string, room: nat)
    requires room >= DecodedSize(|Stripped(s)|)
    ensures |Decode(s)| < room <==> room > DecodedSize(|Stripped(s)|) || !WholeTail(Stripped(s))
  {
    hide Stripped, WholeTail, Groups;
    GroupsSize(Stripped(s));
  }

  /** Four letters and a buffer of the three bytes promised for them. */
  lemma {:induction false} ClosingAssertionFails(s: string)
    requires |s| == 4 && forall i :: 0 <= i < 4 ==> s[i] != '='
    ensures |Decode(s)| == 3 == DecodedSize(|Stripped(s)|)
  {
    hide Groups;
    assert Stripped(s) == s;
    GroupsSize(s);
  }

  /**
   Decodes into a buffer of the promised size; it is never outgrown.  For a text of padding
   only, the empty one included, nothing is decoded.
   */
  method DecodeInto(s: string, out: array<Byte>) returns (ok: bool, len: nat)
    modifies out
    ensures ok <==> out.Length >= DecodedSize(|Stripped(s)|)
    ensures ok ==> len == |Decode(s)| <= out.Length && out[..] == Overwrite(old(out[..]), 0, Decode(s))
    ensures !ok ==> out[..] == old(out[..])
  {
    hide Overwrite, Stripped, Triple, Tail, Groups;
    var n := UnpaddedLength(s);
    ghost var text := Stripped(s);
    len := 0;
    if out.Length < DecodedSize(n) {
      return false, 0;
    }
    ok := true;
    var i := 0;
    ghost var done: seq<Byte> := [];
    OverwriteNothing(out[..], 0);
    assert text[0..] == text;
    while i + 3 < n
      invariant 0 <= i <= n && len == |done| && done + Groups(text[i..]) == Groups(text)
      invariant out[..] == Overwrite(old(out[..]), 0, done)
    {
      var bytes := Triple(s[i], s[i + 1], s[i + 2], s[i + 3]);
      GroupsStep(text, i);
      len := Put(out, len, bytes);
      OverwriteTwice(old(out[..]), 0, done, bytes);
      done := done + bytes;
      i := i + 4;
    }
    var bytes := Tail(s[i..n]);
    GroupsEnd(text, i);
    assert s[i..n] == text[i..];
    len := Put(out, len, bytes);
    OverwriteTwice(old(out[..]), 0, done, bytes);
  }

  lemma {:induction false} GroupsStep(text: string, i: nat)
    requires i + 3 < |text|
    ensures Groups(text[i..]) == Triple(text[i], text[i + 1], text[i + 2], text[i + 3]) + Groups(text[i + 4..])
    ensures |Triple(text[i], text[i + 1], text[i + 2], text[i + 3])| == 3
  {
    assert text[i..][4..] == text[i + 4..];
  }

  lemma {:induction false} GroupsEnd(text: string, i: nat)
    requires i <= |text| <= i + 3
    ensures Groups(text[i..]) == Tail(text[i..])
  {
  }
}
