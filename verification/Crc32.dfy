/**
 CRC-32: the bit-by-bit build and the table-driven build, which takes a word at a time where
 the data is aligned (section 8.1.1.6.2 of ITU-T V.42, bits reversed).
 */
module Crc32 {
  type Byte = x: bv32 | x < 256

  const ONES: bv32 := 0xffff_ffff

  // ---------------------------------------------------------------------------
  // Bit by bit
  // ---------------------------------------------------------------------------

  function OneBit(t: bv32): bv32 { if t & 1 == 1 then (t >> 1) ^ 0xedb8_8320 else t >> 1 }

  function TwoBits(t: bv32): bv32 { OneBit(OneBit(t)) }

  function FourBits(t: bv32): bv32 { TwoBits(TwoBits(t)) }

  function EightBits(t: bv32): bv32 { FourBits(FourBits(t)) }

  function Xor(a: bv32, b: bv32): bv32 { a ^ b }

  function Low(crc: bv32): Byte { crc & 0xff }

  function High(crc: bv32): bv32 { crc >> 8 }

  function OneByte(crc: bv32, b: Byte): bv32 { Xor(High(crc), EightBits(Xor(Low(crc), b))) }

  /** The remainder after all the data. */
  function Crc(crc: bv32, data: seq<Byte>): bv32
    decreases |data|
  {
    if data == [] then crc else Crc(OneByte(crc, data[0]), data[1..])
  }

  lemma {:induction false} CrcSplits(crc: bv32, a: seq<Byte>, b: seq<Byte>)
    ensures Crc(crc, a + b) == Crc(Crc(crc, a), b)
    decreases |a|
  {
    hide OneByte;
    if a == [] {
      assert a + b == b;
    } else {
      CrcSplits(OneByte(crc, a[0]), a[1..], b);
      assert (a + b)[1..] == a[1..] + b;
    }
  }

  // ---------------------------------------------------------------------------
  // The table
  // ---------------------------------------------------------------------------

  function Row0(i: bv32): bv32 {
    if i == 0 then 0x00000000 else if i == 1 then 0x77073096 else if i == 2 then 0xee0e612c
    else if i == 3 then 0x990951ba else if i == 4 then 0x076dc419 else if i == 5 then 0x706af48f
    else if i == 6 then 0xe963a535 else if i == 7 then 0x9e6495a3 else if i == 8 then 0x0edb8832
    else if i == 9 then 0x79dcb8a4 else if i == 10 then 0xe0d5e91e else if i == 11 then 0x97d2d988
    else if i == 12 then 0x09b64c2b else if i == 13 then 0x7eb17cbd else if i == 14 then 0xe7b82d07
    else 0x90bf1d91
  }

  function Row1(i: bv32): bv32 {
    if i == 16 then 0x1db71064 else if i == 17 then 0x6ab020f2 else if i == 18 then 0xf3b97148
    else if i == 19 then 0x84be41de else if i == 20 then 0x1adad47d else if i == 21 then 0x6ddde4eb
    else if i == 22 then 0xf4d4b551 else if i == 23 then 0x83d385c7 else if i == 24 then 0x136c9856
    else if i == 25 then 0x646ba8c0 else if i == 26 then 0xfd62f97a else if i == 27 then 0x8a65c9ec
    else if i == 28 then 0x14015c4f else if i == 29 then 0x63066cd9 else if i == 30 then 0xfa0f3d63
    else 0x8d080df5
  }

  function Row2(i: bv32): bv32 {
    if i == 32 then 0x3b6e20c8 else if i == 33 then 0x4c69105e else if i == 34 then 0xd56041e4
    else if i == 35 then 0xa2677172 else if i == 36 then 0x3c03e4d1 else if i == 37 then 0x4b04d447
    else if i == 38 then 0xd20d85fd else if i == 39 then 0xa50ab56b else if i == 40 then 0x35b5a8fa
    else if i == 41 then 0x42b2986c else if i == 42 then 0xdbbbc9d6 else if i == 43 then 0xacbcf940
    else if i == 44 then 0x32d86ce3 else if i == 45 then 0x45df5c75 else if i == 46 then 0xdcd60dcf
    else 0xabd13d59
  }

  function Row3(i: bv32): bv32 {
    if i == 48 then 0x26d930ac else if i == 49 then 0x51de003a else if i == 50 then 0xc8d75180
    else if i == 51 then 0xbfd06116 else if i == 52 then 0x21b4f4b5 else if i == 53 then 0x56b3c423
    else if i == 54 then 0xcfba9599 else if i == 55 then 0xb8bda50f else if i == 56 then 0x2802b89e
    else if i == 57 then 0x5f058808 else if i == 58 then 0xc60cd9b2 else if i == 59 then 0xb10be924
    else if i == 60 then 0x2f6f7c87 else if i == 61 then 0x58684c11 else if i == 62 then 0xc1611dab
    else 0xb6662d3d
  }

  function Row4(i: bv32): bv32 {
    if i == 64 then 0x76dc4190 else if i == 65 then 0x01db7106 else if i == 66 then 0x98d220bc
    else if i == 67 then 0xefd5102a else if i == 68 then 0x71b18589 else if i == 69 then 0x06b6b51f
    else if i == 70 then 0x9fbfe4a5 else if i == 71 then 0xe8b8d433 else if i == 72 then 0x7807c9a2
    else if i == 73 then 0x0f00f934 else if i == 74 then 0x9609a88e else if i == 75 then 0xe10e9818
    else if i == 76 then 0x7f6a0dbb else if i == 77 then 0x086d3d2d else if i == 78 then 0x91646c97
    else 0xe6635c01
  }

  function Row5(i: bv32): bv32 {
    if i == 80 then 0x6b6b51f4 else if i == 81 then 0x1c6c6162 else if i == 82 then 0x856530d8
    else if i == 83 then 0xf262004e else if i == 84 then 0x6c0695ed else if i == 85 then 0x1b01a57b
    else if i == 86 then 0x8208f4c1 else if i == 87 then 0xf50fc457 else if i == 88 then 0x65b0d9c6
    else if i == 89 then 0x12b7e950 else if i == 90 then 0x8bbeb8ea else if i == 91 then 0xfcb9887c
    else if i == 92 then 0x62dd1ddf else if i == 93 then 0x15da2d49 else if i == 94 then 0x8cd37cf3
    else 0xfbd44c65
  }

  function Row6(i: bv32): bv32 {
    if i == 96 then 0x4db26158 else if i == 97 then 0x3ab551ce else if i == 98 then 0xa3bc0074
    else if i == 99 then 0xd4bb30e2 else if i == 100 then 0x4adfa541 else if i == 101 then 0x3dd895d7
    else if i == 102 then 0xa4d1c46d else if i == 103 then 0xd3d6f4fb else if i == 104 then 0x4369e96a
    else if i == 105 then 0x346ed9fc else if i == 106 then 0xad678846 else if i == 107 then 0xda60b8d0
    else if i == 108 then 0x44042d73 else if i == 109 then 0x33031de5 else if i == 110 then 0xaa0a4c5f
    else 0xdd0d7cc9
  }

  function Row7(i: bv32): bv32 {
    if i == 112 then 0x5005713c else if i == 113 then 0x270241aa else if i == 114 then 0xbe0b1010
    else if i == 115 then 0xc90c2086 else if i == 116 then 0x5768b525 else if i == 117 then 0x206f85b3
    else if i == 118 then 0xb966d409 else if i == 119 then 0xce61e49f else if i == 120 then 0x5edef90e
    else if i == 121 then 0x29d9c998 else if i == 122 then 0xb0d09822 else if i == 123 then 0xc7d7a8b4
    else if i == 124 then 0x59b33d17 else if i == 125 then 0x2eb40d81 else if i == 126 then 0xb7bd5c3b
    else 0xc0ba6cad
  }

  function Row8(i: bv32): bv32 {
    if i == 128 then 0xedb88320 else if i == 129 then 0x9abfb3b6 else if i == 130 then 0x03b6e20c
    else if i == 131 then 0x74b1d29a else if i == 132 then 0xead54739 else if i == 133 then 0x9dd277af
    else if i == 134 then 0x04db2615 else if i == 135 then 0x73dc1683 else if i == 136 then 0xe3630b12
    else if i == 137 then 0x94643b84 else if i == 138 then 0x0d6d6a3e else if i == 139 then 0x7a6a5aa8
    else if i == 140 then 0xe40ecf0b else if i == 141 then 0x9309ff9d else if i == 142 then 0x0a00ae27
    else 0x7d079eb1
  }

  function Row9(i: bv32): bv32 {
    if i == 144 then 0xf00f9344 else if i == 145 then 0x8708a3d2 else if i == 146 then 0x1e01f268
    else if i == 147 then 0x6906c2fe else if i == 148 then 0xf762575d else if i == 149 then 0x806567cb
    else if i == 150 then 0x196c3671 else if i == 151 then 0x6e6b06e7 else if i == 152 then 0xfed41b76
    else if i == 153 then 0x89d32be0 else if i == 154 then 0x10da7a5a else if i == 155 then 0x67dd4acc
    else if i == 156 then 0xf9b9df6f else if i == 157 then 0x8ebeeff9 else if i == 158 then 0x17b7be43
    else 0x60b08ed5
  }

  function Row10(i: bv32): bv32 {
    if i == 160 then 0xd6d6a3e8 else if i == 161 then 0xa1d1937e else if i == 162 then 0x38d8c2c4
    else if i == 163 then 0x4fdff252 else if i == 164 then 0xd1bb67f1 else if i == 165 then 0xa6bc5767
    else if i == 166 then 0x3fb506dd else if i == 167 then 0x48b2364b else if i == 168 then 0xd80d2bda
    else if i == 169 then 0xaf0a1b4c else if i == 170 then 0x36034af6 else if i == 171 then 0x41047a60
    else if i == 172 then 0xdf60efc3 else if i == 173 then 0xa867df55 else if i == 174 then 0x316e8eef
    else 0x4669be79
  }

  function Row11(i: bv32): bv32 {
    if i == 176 then 0xcb61b38c else if i == 177 then 0xbc66831a else if i == 178 then 0x256fd2a0
    else if i == 179 then 0x5268e236 else if i == 180 then 0xcc0c7795 else if i == 181 then 0xbb0b4703
    else if i == 182 then 0x220216b9 else if i == 183 then 0x5505262f else if i == 184 then 0xc5ba3bbe
    else if i == 185 then 0xb2bd0b28 else if i == 186 then 0x2bb45a92 else if i == 187 then 0x5cb36a04
    else if i == 188 then 0xc2d7ffa7 else if i == 189 then 0xb5d0cf31 else if i == 190 then 0x2cd99e8b
    else 0x5bdeae1d
  }

  function Row12(i: bv32): bv32 {
    if i == 192 then 0x9b64c2b0 else if i == 193 then 0xec63f226 else if i == 194 then 0x756aa39c
    else if i == 195 then 0x026d930a else if i == 196 then 0x9c0906a9 else if i == 197 then 0xeb0e363f
    else if i == 198 then 0x72076785 else if i == 199 then 0x05005713 else if i == 200 then 0x95bf4a82
    else if i == 201 then 0xe2b87a14 else if i == 202 then 0x7bb12bae else if i == 203 then 0x0cb61b38
    else if i == 204 then 0x92d28e9b else if i == 205 then 0xe5d5be0d else if i == 206 then 0x7cdcefb7
    else 0x0bdbdf21
  }

  function Row13(i: bv32): bv32 {
    if i == 208 then 0x86d3d2d4 else if i == 209 then 0xf1d4e242 else if i == 210 then 0x68ddb3f8
    else if i == 211 then 0x1fda836e else if i == 212 then 0x81be16cd else if i == 213 then 0xf6b9265b
    else if i == 214 then 0x6fb077e1 else if i == 215 then 0x18b74777 else if i == 216 then 0x88085ae6
    else if i == 217 then 0xff0f6a70 else if i == 218 then 0x66063bca else if i == 219 then 0x11010b5c
    else if i == 220 then 0x8f659eff else if i == 221 then 0xf862ae69 else if i == 222 then 0x616bffd3
    else 0x166ccf45
  }

  function Row14(i: bv32): bv32 {
    if i == 224 then 0xa00ae278 else if i == 225 then 0xd70dd2ee else if i == 226 then 0x4e048354
    else if i == 227 then 0x3903b3c2 else if i == 228 then 0xa7672661 else if i == 229 then 0xd06016f7
    else if i == 230 then 0x4969474d else if i == 231 then 0x3e6e77db else if i == 232 then 0xaed16a4a
    else if i == 233 then 0xd9d65adc else if i == 234 then 0x40df0b66 else if i == 235 then 0x37d83bf0
    else if i == 236 then 0xa9bcae53 else if i == 237 then 0xdebb9ec5 else if i == 238 then 0x47b2cf7f
    else 0x30b5ffe9
  }

  function Row15(i: bv32): bv32 {
    if i == 240 then 0xbdbdf21c else if i == 241 then 0xcabac28a else if i == 242 then 0x53b39330
    else if i == 243 then 0x24b4a3a6 else if i == 244 then 0xbad03605 else if i == 245 then 0xcdd70693
    else if i == 246 then 0x54de5729 else if i == 247 then 0x23d967bf else if i == 248 then 0xb3667a2e
    else if i == 249 then 0xc4614ab8 else if i == 250 then 0x5d681b02 else if i == 251 then 0x2a6f2b94
    else if i == 252 then 0xb40bbe37 else if i == 253 then 0xc30c8ea1 else if i == 254 then 0x5a05df1b
    else 0x2d02ef8d
  }

  function Table(i: bv32): bv32 {
    if i < 16 then Row0(i)
    else if i < 32 then Row1(i)
    else if i < 48 then Row2(i)
    else if i < 64 then Row3(i)
    else if i < 80 then Row4(i)
    else if i < 96 then Row5(i)
    else if i < 112 then Row6(i)
    else if i < 128 then Row7(i)
    else if i < 144 then Row8(i)
    else if i < 160 then Row9(i)
    else if i < 176 then Row10(i)
    else if i < 192 then Row11(i)
    else if i < 208 then Row12(i)
    else if i < 224 then Row13(i)
    else if i < 240 then Row14(i)
    else Row15(i)
  }

  lemma ShiftXor(a: bv32, b: bv32)
    ensures (a ^ b) >> 1 == (a >> 1) ^ (b >> 1) && (a ^ b) & 1 == (a & 1) ^ (b & 1)
  {
  }

  lemma LowBit(a: bv32)
    ensures a & 1 == 0 || a & 1 == 1
  {
  }

  lemma XorCancels(x: bv32, y: bv32, p: bv32)
    ensures (x ^ p) ^ (y ^ p) == x ^ y
    ensures (x ^ p) ^ y == (x ^ y) ^ p && x ^ (y ^ p) == (x ^ y) ^ p
  {
  }

  lemma OneBitCases(t: bv32)
    ensures t & 1 == 1 ==> OneBit(t) == (t >> 1) ^ 0xedb8_8320
    ensures t & 1 == 0 ==> OneBit(t) == t >> 1
  {
  }

  lemma OneBitLinear(a: bv32, b: bv32)
    ensures OneBit(Xor(a, b)) == Xor(OneBit(a), OneBit(b))
  {
    hide OneBit;
    LowBit(a);
    LowBit(b);
    ShiftXor(a, b);
    OneBitCases(a);
    OneBitCases(b);
    OneBitCases(a ^ b);
    XorCancels(a >> 1, b >> 1, 0xedb8_8320);
  }

  lemma TwoBitsLinear(a: bv32, b: bv32)
    ensures TwoBits(Xor(a, b)) == Xor(TwoBits(a), TwoBits(b))
  {
    hide Xor, OneBit;
    OneBitLinear(a, b);
    OneBitLinear(OneBit(a), OneBit(b));
  }

  lemma FourBitsLinear(a: bv32, b: bv32)
    ensures FourBits(Xor(a, b)) == Xor(FourBits(a), FourBits(b))
  {
    hide Xor, TwoBits;
    TwoBitsLinear(a, b);
    TwoBitsLinear(TwoBits(a), TwoBits(b));
  }

  /** The remainder of a sum is the sum of the remainders. */
  lemma EightBitsLinear(a: bv32, b: bv32)
    ensures EightBits(Xor(a, b)) == Xor(EightBits(a), EightBits(b))
  {
    hide Xor, FourBits;
    FourBitsLinear(a, b);
    FourBitsLinear(FourBits(a), FourBits(b));
  }

  lemma SingleBits()
    ensures EightBits(1) == 0x77073096
    ensures EightBits(2) == 0xee0e612c
    ensures EightBits(4) == 0x076dc419
    ensures EightBits(8) == 0x0edb8832
    ensures EightBits(16) == 0x1db71064
    ensures EightBits(32) == 0x3b6e20c8
    ensures EightBits(64) == 0x76dc4190
    ensures EightBits(128) == 0xedb88320
  {
    assert OneBit(1) == 0xedb88320 && OneBit(0xedb88320) == 0x76dc4190 && OneBit(0x76dc4190) == 0x3b6e20c8;
    assert OneBit(0x3b6e20c8) == 0x1db71064 && OneBit(0x1db71064) == 0x0edb8832 && OneBit(0x0edb8832) == 0x076dc419;
    assert OneBit(0x076dc419) == 0xee0e612c && OneBit(0xee0e612c) == 0x77073096;
    assert OneBit(2) == 1 && OneBit(4) == 2 && OneBit(8) == 4 && OneBit(16) == 8;
    assert OneBit(32) == 16 && OneBit(64) == 32 && OneBit(128) == 64;
  }

  function Pick(i: bv32, bit: bv32, x: bv32): bv32 { if i & bit != 0 then x else 0 }

  /** The sum of what the single bits of a byte become. */
  function SumOfBits(i: bv32): bv32 {
    Pick(i, 1, 0x77073096) ^ Pick(i, 2, 0xee0e612c) ^ Pick(i, 4, 0x076dc419)
    ^ Pick(i, 8, 0x0edb8832) ^ Pick(i, 16, 0x1db71064) ^ Pick(i, 32, 0x3b6e20c8)
    ^ Pick(i, 64, 0x76dc4190) ^ Pick(i, 128, 0xedb88320)
  }

  lemma OneOrNone(i: bv32, bit: bv32)
    requires bit == 1 || bit == 2 || bit == 4 || bit == 8 || bit == 16 || bit == 32 || bit == 64 || bit == 128
    ensures EightBits(i & bit) == Pick(i, bit, EightBits(bit))
  {
    hide EightBits;
    assert EightBits(0 ^ 0) == EightBits(0) ^ EightBits(0) by { EightBitsLinear(0, 0); }
  }

  lemma SplitByte(i: bv32)
    requires i < 256
    ensures i == (i & 1) ^ (i & 2) ^ (i & 4) ^ (i & 8) ^ (i & 16) ^ (i & 32) ^ (i & 64) ^ (i & 128)
  {
  }

  lemma SumRight(i: bv32)
    requires i < 256
    ensures SumOfBits(i) == EightBits(i)
  {
    hide EightBits, Pick;
    SingleBits();
    SplitByte(i);
    OneOrNone(i, 1);
    OneOrNone(i, 2);
    OneOrNone(i, 4);
    OneOrNone(i, 8);
    OneOrNone(i, 16);
    OneOrNone(i, 32);
    OneOrNone(i, 64);
    OneOrNone(i, 128);
    var b0, b1, b2, b3, b4, b5, b6, b7 := i & 1, i & 2, i & 4, i & 8, i & 16, i & 32, i & 64, i & 128;
    EightBitsLinear(b0, b1);
    EightBitsLinear(b0 ^ b1, b2);
    EightBitsLinear(b0 ^ b1 ^ b2, b3);
    EightBitsLinear(b0 ^ b1 ^ b2 ^ b3, b4);
    EightBitsLinear(b0 ^ b1 ^ b2 ^ b3 ^ b4, b5);
    EightBitsLinear(b0 ^ b1 ^ b2 ^ b3 ^ b4 ^ b5, b6);
    EightBitsLinear(b0 ^ b1 ^ b2 ^ b3 ^ b4 ^ b5 ^ b6, b7);
  }

  lemma Row0Right(i: bv32)
    requires 0 <= i < 16
    ensures Row0(i) == SumOfBits(i)
  {
  }

  lemma Row1Right(i: bv32)
    requires 16 <= i < 32
    ensures Row1(i) == SumOfBits(i)
  {
  }

  lemma Row2Right(i: bv32)
    requires 32 <= i < 48
    ensures Row2(i) == SumOfBits(i)
  {
  }

  lemma Row3Right(i: bv32)
    requires 48 <= i < 64
    ensures Row3(i) == SumOfBits(i)
  {
  }

  lemma Row4Right(i: bv32)
    requires 64 <= i < 80
    ensures Row4(i) == SumOfBits(i)
  {
  }

  lemma Row5Right(i: bv32)
    requires 80 <= i < 96
    ensures Row5(i) == SumOfBits(i)
  {
  }

  lemma Row6Right(i: bv32)
    requires 96 <= i < 112
    ensures Row6(i) == SumOfBits(i)
  {
  }

  lemma Row7Right(i: bv32)
    requires 112 <= i < 128
    ensures Row7(i) == SumOfBits(i)
  {
  }

  lemma Row8Right(i: bv32)
    requires 128 <= i < 144
    ensures Row8(i) == SumOfBits(i)
  {
  }

  lemma Row9Right(i: bv32)
    requires 144 <= i < 160
    ensures Row9(i) == SumOfBits(i)
  {
  }

  lemma Row10Right(i: bv32)
    requires 160 <= i < 176
    ensures Row10(i) == SumOfBits(i)
  {
  }

  lemma Row11Right(i: bv32)
    requires 176 <= i < 192
    ensures Row11(i) == SumOfBits(i)
  {
  }

  lemma Row12Right(i: bv32)
    requires 192 <= i < 208
    ensures Row12(i) == SumOfBits(i)
  {
  }

  lemma Row13Right(i: bv32)
    requires 208 <= i < 224
    ensures Row13(i) == SumOfBits(i)
  {
  }

  lemma Row14Right(i: bv32)
    requires 224 <= i < 240
    ensures Row14(i) == SumOfBits(i)
  {
  }

  lemma Row15Right(i: bv32)
    requires 240 <= i < 256
    ensures Row15(i) == SumOfBits(i)
  {
  }

  /** Each entry is what eight single-bit steps make of its index. */
  lemma {:induction false} TableRight(i: bv32)
    requires i < 256
    ensures Table(i) == EightBits(i)
  {
    hide EightBits, SumOfBits;
    SumRight(i);
    if i < 16 {
      Row0Right(i);
    } else if i < 32 {
      Row1Right(i);
    } else if i < 48 {
      Row2Right(i);
    } else if i < 64 {
      Row3Right(i);
    } else if i < 80 {
      Row4Right(i);
    } else if i < 96 {
      Row5Right(i);
    } else if i < 112 {
      Row6Right(i);
    } else if i < 128 {
      Row7Right(i);
    } else if i < 144 {
      Row8Right(i);
    } else if i < 160 {
      Row9Right(i);
    } else if i < 176 {
      Row10Right(i);
    } else if i < 192 {
      Row11Right(i);
    } else if i < 208 {
      Row12Right(i);
    } else if i < 224 {
      Row13Right(i);
    } else if i < 240 {
      Row14Right(i);
    } else {
      Row15Right(i);
    }
  }

  // ---------------------------------------------------------------------------
  // A word at a time
  // ---------------------------------------------------------------------------

  function TableStep(crc: bv32): bv32 { Xor(Table(Low(crc)), High(crc)) }

  /** One byte through the table. */
  function TableByte(crc: bv32, b: Byte): bv32 { Xor(Table(Xor(Low(crc), b)), High(crc)) }

  /** Four bytes as a little-endian machine loads them. */
  function Word(a: Byte, b: Byte, c: Byte, d: Byte): bv32 { a | (b << 8) | (c << 16) | (d << 24) }

  function WordStep(crc: bv32, w: bv32): bv32 { TableStep(TableStep(TableStep(TableStep(Xor(crc, w))))) }

  lemma XorParts(e: bv32, w: bv32)
    ensures Low(Xor(e, w)) == Xor(Low(e), Low(w)) && High(Xor(e, w)) == Xor(High(e), High(w))
  {
  }

  lemma XorSmall(e: bv32, b: Byte)
    ensures Xor(Low(e), b) < 256
  {
  }

  lemma XorCommutes(x: bv32, y: bv32)
    ensures Xor(x, y) == Xor(y, x)
  {
  }

  lemma XorAssociates(x: bv32, y: bv32, z: bv32)
    ensures Xor(x, Xor(y, z)) == Xor(Xor(x, y), z)
  {
  }

  lemma XorZero(x: bv32)
    ensures Xor(x, 0) == x && Xor(0, x) == x
  {
  }

  lemma XorTwice(x: bv32, y: bv32)
    ensures Xor(Xor(x, y), y) == x
  {
  }

  lemma TableByteRight(crc: bv32, b: Byte)
    ensures TableByte(crc, b) == OneByte(crc, b)
  {
    hide Table, EightBits, Xor, Low, High;
    XorSmall(crc, b);
    TableRight(Xor(Low(crc), b));
    XorCommutes(EightBits(Xor(Low(crc), b)), High(crc));
  }

  /** A step over a remainder with data mixed in takes the lowest byte of that data. */
  lemma MixedStep(e: bv32, w: bv32)
    ensures TableStep(Xor(e, w)) == Xor(OneByte(e, Low(w)), High(w))
  {
    hide Table, EightBits, Xor, Low, High;
    XorParts(e, w);
    XorSmall(e, Low(w));
    var x := EightBits(Xor(Low(e), Low(w)));
    TableRight(Xor(Low(e), Low(w)));
    XorAssociates(x, High(e), High(w));
    XorCommutes(x, High(e));
  }

  lemma WordBytes(a: Byte, b: Byte, c: Byte, d: Byte)
    ensures var w := Word(a, b, c, d);
            Low(w) == a && Low(High(w)) == b && Low(High(High(w))) == c && Low(High(High(High(w)))) == d
    ensures High(High(High(High(Word(a, b, c, d))))) == 0
  {
  }

  lemma FourSteps(e: bv32, w: bv32)
    ensures WordStep(e, w)
            == Xor(OneByte(OneByte(OneByte(OneByte(e, Low(w)), Low(High(w))), Low(High(High(w)))),
                           Low(High(High(High(w))))),
                   High(High(High(High(w)))))
  {
    hide TableStep, OneByte, Xor, Low, High;
    MixedStep(e, w);
    var e1, w1 := OneByte(e, Low(w)), High(w);
    MixedStep(e1, w1);
    var e2, w2 := OneByte(e1, Low(w1)), High(w1);
    MixedStep(e2, w2);
    MixedStep(OneByte(e2, Low(w2)), High(w2));
  }

  /** Mixing in a word and stepping four times is taking its four bytes one by one. */
  lemma {:induction false} WordStepRight(crc: bv32, a: Byte, b: Byte, c: Byte, d: Byte)
    ensures WordStep(crc, Word(a, b, c, d)) == Crc(crc, [a, b, c, d])
  {
    hide *;
    FourSteps(crc, Word(a, b, c, d));
    WordBytes(a, b, c, d);
    XorZero(OneByte(OneByte(OneByte(OneByte(crc, a), b), c), d));
    CrcOfFour(crc, a, b, c, d);
  }

  lemma {:induction false} CrcStep(crc: bv32, a: Byte, rest: seq<Byte>)
    ensures Crc(crc, [a] + rest) == Crc(OneByte(crc, a), rest) && Crc(crc, []) == crc
  {
    hide OneByte;
    assert ([a] + rest)[1..] == rest;
  }

  lemma {:induction false} CrcOfFour(crc: bv32, a: Byte, b: Byte, c: Byte, d: Byte)
    ensures Crc(crc, [a, b, c, d]) == OneByte(OneByte(OneByte(OneByte(crc, a), b), c), d)
  {
    hide *;
    assert [a] + [b, c, d] == [a, b, c, d] && [b] + [c, d] == [b, c, d] && [c] + [d] == [c, d] && [d] + [] == [d];
    var e1 := OneByte(crc, a);
    var e2 := OneByte(e1, b);
    var e3 := OneByte(e2, c);
    CrcStep(crc, a, [b, c, d]);
    CrcStep(e1, b, [c, d]);
    CrcStep(e2, c, [d]);
    CrcStep(e3, d, []);
    CrcStep(OneByte(e3, d), d, []);
  }

  lemma {:induction false} CrcMore(crc: bv32, data: seq<Byte>, i: nat, j: nat)
    requires i <= j <= |data|
    ensures Crc(crc, data[..j]) == Crc(Crc(crc, data[..i]), data[i..j])
  {
    hide *;
    assert data[..i] + data[i..j] == data[..j];
    CrcSplits(crc, data[..i], data[i..j]);
  }

  lemma {:induction false} CrcOne(crc: bv32, data: seq<Byte>, i: nat)
    requires i < |data|
    ensures Crc(crc, data[..i + 1]) == OneByte(Crc(crc, data[..i]), data[i])
  {
    hide *;
    CrcMore(crc, data, i, i + 1);
    assert data[i..i + 1] == [data[i]] + [];
    CrcStep(Crc(crc, data[..i]), data[i], []);
    CrcStep(OneByte(Crc(crc, data[..i]), data[i]), data[i], []);
  }

  lemma {:induction false} CrcWhole(crc: bv32, data: seq<Byte>)
    ensures Crc(crc, data[..0]) == crc && Crc(crc, data[..|data|]) == Crc(crc, data)
  {
    hide OneByte;
    assert data[..|data|] == data;
  }

  // ---------------------------------------------------------------------------
  // The two builds
  // ---------------------------------------------------------------------------

  /** The bit-by-bit build: its state is the remainder. */
  class BitContext {
    var state: bv32

    constructor ()
      ensures state == ONES
    {
      state := ONES;
    }

    method Update(data: seq<Byte>) returns (r: bv32)
      modifies this
      ensures state == Crc(old(state), data) && r == Xor(state, ONES)
    {
      hide *;
      var crc := state;
      CrcWhole(state, data);
      var i := 0;
      while i < |data|
        invariant 0 <= i <= |data| && crc == Crc(old(state), data[..i])
      {
        var temp := Shift8(Xor(Low(crc), data[i]));
        CrcOne(old(state), data, i);
        OneByteIs(crc, data[i]);
        crc := Xor(High(crc), temp);
        i := i + 1;
      }
      state := crc;
      r := Xor(crc, ONES);
    }

    method Shift8(t: bv32) returns (temp: bv32)
      ensures temp == EightBits(t)
    {
      hide *;
      temp := t;
      var j := 0;
      while j < 8
        invariant 0 <= j <= 8 && Repeated(temp, 8 - j) == Repeated(t, 8)
      {
        RepeatedStep(temp, 8 - j);
        OneBitCases(temp);
        if temp & 1 == 1 {
          temp := (temp >> 1) ^ 0xedb8_8320;
        } else {
          LowBit(temp);
          temp := temp >> 1;
        }
        j := j + 1;
      }
      RepeatedStep(temp, 0);
      EightIsRepeated(t);
    }

    method Final() returns (r: bv32)
      modifies this
      ensures r == state == Xor(old(state), ONES)
    {
      state := state ^ ONES;
      r := state;
    }
  }

  lemma OneByteIs(crc: bv32, b: Byte)
    ensures OneByte(crc, b) == Xor(High(crc), EightBits(Xor(Low(crc), b)))
  {
    hide EightBits, Xor, Low, High;
  }

  function Repeated(t: bv32, n: nat): bv32
    decreases n
  {
    if n == 0 then t else Repeated(OneBit(t), n - 1)
  }

  lemma {:induction false} RepeatedStep(t: bv32, n: nat)
    ensures Repeated(t, n) == if n == 0 then t else Repeated(OneBit(t), n - 1)
  {
    hide OneBit;
  }

  lemma {:induction false} EightIsRepeated(t: bv32)
    ensures Repeated(t, 8) == EightBits(t)
  {
    hide OneBit, Repeated;
    var t2 := OneBit(OneBit(t));
    var t4 := OneBit(OneBit(t2));
    var t6 := OneBit(OneBit(t4));
    RepeatedStep(t, 8);
    RepeatedStep(OneBit(t), 7);
    RepeatedStep(t2, 6);
    RepeatedStep(OneBit(t2), 5);
    RepeatedStep(t4, 4);
    RepeatedStep(OneBit(t4), 3);
    RepeatedStep(t6, 2);
    RepeatedStep(OneBit(t6), 1);
    RepeatedStep(OneBit(OneBit(t6)), 0);
  }

  /** The table-driven build: its state is the remainder with all bits inverted. */
  class WordContext {
    var state: bv32

    constructor ()
      ensures state == 0
    {
      state := 0;
    }

    /** `address` is where the data lies: single bytes up to a word boundary, then words, then the rest. */
    method Update(data: seq<Byte>, address: nat) returns (r: bv32)
      modifies this
      ensures state == Xor(Crc(Xor(old(state), ONES), data), ONES) && r == state
    {
      hide *;
      var start := Xor(state, ONES);
      var crc := start;
      CrcWhole(start, data);
      var i := 0;
      while (address + i) % 4 != 0 && i < |data|
        invariant 0 <= i <= |data| && crc == Crc(start, data[..i])
        decreases |data| - i
      {
        CrcOne(start, data, i);
        TableByteRight(crc, data[i]);
        crc := TableByte(crc, data[i]);
        i := i + 1;
      }
      while |data| - i >= 4
        invariant 0 <= i <= |data| && crc == Crc(start, data[..i])
      {
        CrcMore(start, data, i, i + 4);
        assert data[i..i + 4] == [data[i], data[i + 1], data[i + 2], data[i + 3]];
        WordStepRight(crc, data[i], data[i + 1], data[i + 2], data[i + 3]);
        crc := WordStep(crc, Word(data[i], data[i + 1], data[i + 2], data[i + 3]));
        i := i + 4;
      }
      while i < |data|
        invariant 0 <= i <= |data| && crc == Crc(start, data[..i])
      {
        CrcOne(start, data, i);
        TableByteRight(crc, data[i]);
        crc := TableByte(crc, data[i]);
        i := i + 1;
      }
      state := Xor(crc, ONES);
      r := state;
    }

    method Final() returns (r: bv32)
      ensures r == state
    {
      r := state;
    }
  }

  /** The checksum of some data, in either build. */
  function Checksum(data: seq<Byte>): bv32 { Xor(Crc(ONES, data), ONES) }

  lemma CheckSteps()
    ensures OneByte(0xffff_ffff, 49) == 0x7c23_1048
    ensures OneByte(0x7c23_1048, 50) == 0xb0ac_bb32
    ensures OneByte(0xb0ac_bb32, 51) == 0x77b7_9c2d
    ensures OneByte(0x77b7_9c2d, 52) == 0x641c_1f5c
    ensures OneByte(0x641c_1f5c, 53) == 0x340a_c5e3
    ensures OneByte(0x340a_c5e3, 54) == 0xf68d_2c9e
    ensures OneByte(0xf68d_2c9e, 55) == 0xaffc_9660
    ensures OneByte(0xaffc_9660, 56) == 0x651f_2550
    ensures OneByte(0x651f_2550, 57) == 0x340b_c6d9
  {
  }

  /** The check value of this CRC: what it gives for the digits from 1 to 9. */
  lemma {:induction false} CheckValue()
    ensures Checksum([49, 50, 51, 52, 53, 54, 55, 56, 57]) == 0xcbf4_3926
  {
    hide OneByte, Crc;
    var data: seq<Byte> := [49, 50, 51, 52, 53, 54, 55, 56, 57];
    CheckSteps();
    CrcFrom(0xffff_ffff, data, 0);
    CrcFrom(0x7c23_1048, data, 1);
    CrcFrom(0xb0ac_bb32, data, 2);
    CrcFrom(0x77b7_9c2d, data, 3);
    CrcFrom(0x641c_1f5c, data, 4);
    CrcFrom(0x340a_c5e3, data, 5);
    CrcFrom(0xf68d_2c9e, data, 6);
    CrcFrom(0xaffc_9660, data, 7);
    CrcFrom(0x651f_2550, data, 8);
    assert data[0..] == data && data[9..] == [];
    CrcNothing(0x340b_c6d9);
  }

  lemma {:induction false} CrcFrom(crc: bv32, data: seq<Byte>, i: nat)
    requires i < |data|
    ensures Crc(crc, data[i..]) == Crc(OneByte(crc, data[i]), data[i + 1..])
  {
    hide OneByte;
    assert data[i..][1..] == data[i + 1..];
  }

  lemma {:induction false} CrcNothing(crc: bv32)
    ensures Crc(crc, []) == crc
  {
  }

  method CalcByBits(data: seq<Byte>) returns (r: bv32)
    ensures r == Checksum(data)
  {
    hide Crc, Xor;
    var ctx := new BitContext();
    var _ := ctx.Update(data);
    r := ctx.Final();
  }

  method CalcByWords(data: seq<Byte>, address: nat) returns (r: bv32)
    ensures r == Checksum(data)
  {
    hide Crc, Xor;
    var ctx := new WordContext();
    XorZero(ONES);
    var _ := ctx.Update(data, address);
    r := ctx.Final();
  }

  /** The checksum of data that arrives in two parts, however each part is aligned. */
  method CalcInParts(a: seq<Byte>, b: seq<Byte>, at: nat, bt: nat) returns (r: bv32)
    ensures r == Checksum(a + b)
  {
    hide Crc, Xor;
    var ctx := new WordContext();
    XorZero(ONES);
    var _ := ctx.Update(a, at);
    XorTwice(Crc(ONES, a), ONES);
    CrcSplits(ONES, a, b);
    r := ctx.Update(b, bt);
  }

  // ---------------------------------------------------------------------------
  // Errors that are always noticed
  // ---------------------------------------------------------------------------

  lemma NoSilentByte(i: bv32)
    requires i < 256 && SumOfBits(i) >> 24 == 0
    ensures i == 0
  {
  }

  lemma TopXor(x: bv32, y: bv32)
    ensures x >> 24 == y >> 24 ==> Xor(x, y) >> 24 == 0
    ensures Xor(x, y) == 0 ==> x == y
  {
  }

  lemma SmallXor(i: Byte, j: Byte)
    ensures Xor(i, j) < 256
  {
  }

  /** The highest byte of an entry tells its index. */
  lemma TopByteTells(i: Byte, j: Byte)
    requires EightBits(i) >> 24 == EightBits(j) >> 24
    ensures i == j
  {
    hide EightBits, Xor, SumOfBits;
    SmallXor(i, j);
    TopXor(EightBits(i), EightBits(j));
    EightBitsLinear(i, j);
    SumRight(Xor(i, j));
    NoSilentByte(Xor(i, j));
    TopXor(i, j);
  }

  lemma HighHasNoTop(c: bv32, x: bv32)
    ensures Xor(High(c), x) >> 24 == x >> 24
  {
  }

  lemma XorInjective(x: bv32, y: bv32, z: bv32)
    requires Xor(x, z) == Xor(y, z)
    ensures x == y
  {
  }

  lemma PartsTell(c: bv32, d: bv32)
    requires Low(c) == Low(d) && High(c) == High(d)
    ensures c == d
  {
  }

  /** No two remainders meet in one step. */
  lemma OneByteInjective(c: bv32, d: bv32, b: Byte)
    requires OneByte(c, b) == OneByte(d, b)
    ensures c == d
  {
    hide EightBits, Xor, Low, High;
    var x, y := Xor(Low(c), b), Xor(Low(d), b);
    XorSmall(c, b);
    XorSmall(d, b);
    HighHasNoTop(c, EightBits(x));
    HighHasNoTop(d, EightBits(y));
    TopByteTells(x, y);
    XorInjective(Low(c), Low(d), b);
    XorInjective(High(c), High(d), EightBits(x));
    PartsTell(c, d);
  }

  lemma {:induction false} CrcInjective(c: bv32, d: bv32, data: seq<Byte>)
    requires c != d
    ensures Crc(c, data) != Crc(d, data)
    decreases |data|
  {
    hide OneByte;
    if data != [] {
      if OneByte(c, data[0]) == OneByte(d, data[0]) {
        OneByteInjective(c, d, data[0]);
      }
      CrcInjective(OneByte(c, data[0]), OneByte(d, data[0]), data[1..]);
    }
  }

  lemma TableStepInjective(c: bv32, d: bv32)
    requires TableStep(c) == TableStep(d)
    ensures c == d
  {
    hide Table, EightBits, Xor, Low, High;
    XorZero(Low(c));
    XorZero(Low(d));
    TableByteRight(c, 0);
    TableByteRight(d, 0);
    OneByteInjective(c, d, 0);
  }

  lemma WordTells(a: Byte, b: Byte, c: Byte, d: Byte, a': Byte, b': Byte, c': Byte, d': Byte)
    requires Word(a, b, c, d) == Word(a', b', c', d')
    ensures a == a' && b == b' && c == c' && d == d'
  {
    hide Word, Low, High;
    WordBytes(a, b, c, d);
    WordBytes(a', b', c', d');
  }

  lemma {:induction false} FourBytesTell(crc: bv32, u: seq<Byte>, v: seq<Byte>)
    requires |u| == |v| == 4 && Crc(crc, u) == Crc(crc, v)
    ensures u == v
  {
    hide TableStep, Xor, Word, Crc;
    assert u == [u[0], u[1], u[2], u[3]] && v == [v[0], v[1], v[2], v[3]];
    WordStepRight(crc, u[0], u[1], u[2], u[3]);
    WordStepRight(crc, v[0], v[1], v[2], v[3]);
    var x0, y0 := Xor(crc, Word(u[0], u[1], u[2], u[3])), Xor(crc, Word(v[0], v[1], v[2], v[3]));
    var x1, y1 := TableStep(x0), TableStep(y0);
    var x2, y2 := TableStep(x1), TableStep(y1);
    var x3, y3 := TableStep(x2), TableStep(y2);
    TableStepInjective(x3, y3);
    TableStepInjective(x2, y2);
    TableStepInjective(x1, y1);
    TableStepInjective(x0, y0);
    XorCommutes(crc, Word(u[0], u[1], u[2], u[3]));
    XorCommutes(crc, Word(v[0], v[1], v[2], v[3]));
    XorInjective(Word(u[0], u[1], u[2], u[3]), Word(v[0], v[1], v[2], v[3]), crc);
    WordTells(u[0], u[1], u[2], u[3], v[0], v[1], v[2], v[3]);
  }

  /** Any change to the data within four neighbouring bytes changes the checksum. */
  lemma {:induction false} BurstNoticed(before: seq<Byte>, u: seq<Byte>, v: seq<Byte>, after: seq<Byte>)
    requires |u| == |v| == 4 && u != v
    ensures Checksum(before + u + after) != Checksum(before + v + after)
  {
    hide Crc, Xor;
    var c := Crc(ONES, before);
    CrcSplits(ONES, before + u, after);
    CrcSplits(ONES, before, u);
    CrcSplits(ONES, before + v, after);
    CrcSplits(ONES, before, v);
    if Crc(c, u) == Crc(c, v) {
      FourBytesTell(c, u, v);
    }
    CrcInjective(Crc(c, u), Crc(c, v), after);
    if Checksum(before + u + after) == Checksum(before + v + after) {
      XorInjective(Crc(Crc(c, u), after), Crc(Crc(c, v), after), ONES);
    }
  }
}
