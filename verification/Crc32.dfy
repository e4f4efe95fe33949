/** CRC-32: the table-driven loop against the bit-serial definition of section 8 of RFC 1952. */
module Crc32 {

  /** A 32-bit register: a polynomial remainder, lowest bit first. */
  datatype Reg = Reg(word: bv32)

  const ZERO: Reg := Reg(0)
  const ALL_ONES: Reg := Reg(0xFFFF_FFFF)

  function XorWord(x: bv32, y: bv32): bv32 {
    x ^ y
  }

  function Xor(a: Reg, b: Reg): Reg {
    Reg(XorWord(a.word, b.word))
  }

  /** Shift one bit out of the remainder; the mask subtracts the polynomial if the bit was set. */
  function ShiftOut(x: bv32): bv32 {
    (x >> 1) ^ (0xEDB88320 & (0 - (x & 1)))
  }

  lemma ShiftOutIsConditional(x: bv32)
    ensures x & 1 == 1 ==> ShiftOut(x) == 0xEDB88320 ^ (x >> 1)
    ensures x & 1 == 0 ==> ShiftOut(x) == x >> 1
  {
  }

  function Bit(c: Reg): Reg {
    Reg(ShiftOut(c.word))
  }

  function BitTimes(c: Reg, n: nat): Reg
    decreases n
  {
    if n == 0 then c else BitTimes(Bit(c), n - 1)
  }

  function AsBit(b: bool): Reg {
    Reg(if b then 1 else 0)
  }

  /** The bit-serial remainder: each message bit is added to the low end, then one bit is shifted out. */
  function Feed(c: Reg, bits: seq<bool>): Reg
    decreases |bits|
  {
    if bits == [] then c else Feed(Bit(Xor(c, AsBit(bits[0]))), bits[1..])
  }

  /** The bits of a byte, least significant first. */
  function BitsOfByte(b: bv8): (r: seq<bool>)
    ensures |r| == 8
  {
    [b & 1 != 0, b & 2 != 0, b & 4 != 0, b & 8 != 0, b & 16 != 0, b & 32 != 0, b & 64 != 0, b & 128 != 0]
  }

  function BitsOf(buf: seq<bv8>): (r: seq<bool>)
    ensures |r| == 8 * |buf|
  {
    if buf == [] then [] else BitsOfByte(buf[0]) + BitsOf(buf[1..])
  }

  /** The CRC-32 of a bit string. */
  function Crc(bits: seq<bool>): Reg {
    Xor(Feed(ALL_ONES, bits), ALL_ONES)
  }

  // ---- Laws of the register, each a fact about 32-bit words ----

  function Double(w: Reg): Reg {
    Reg(w.word << 1)
  }

  predicate Short(w: Reg) {
    w.word & 0x8000_0000 == 0
  }

  function Cons(b: bool, w: Reg): Reg {
    Reg(AsBit(b).word | (w.word << 1))
  }

  lemma XorZero(c: Reg)
    ensures Xor(c, ZERO) == c
  {
  }

  lemma XorWords(a: bv32, b: bv32)
    ensures Xor(Reg(a), Reg(b)) == Reg(XorWord(a, b))
  {
  }

  lemma DoubleWord(a: bv32)
    ensures Double(Reg(a)) == Reg(a << 1)
    ensures a & 0x8000_0000 == 0 <==> Short(Reg(a))
  {
  }

  lemma XorInjective(c: Reg, x: Reg, y: Reg)
    ensures Xor(c, x) == Xor(c, y) <==> x == y
    ensures Xor(x, c) == Xor(y, c) <==> x == y
  {
  }

  lemma ShiftOutInjective(x: bv32, y: bv32)
    ensures ShiftOut(x) == ShiftOut(y) <==> x == y
  {
  }

  lemma BitInjective(x: Reg, y: Reg)
    ensures Bit(x) == Bit(y) <==> x == y
  {
    hide ShiftOut;
    ShiftOutInjective(x.word, y.word);
  }

  lemma ShiftOutPasses(x: bv32, w: bv32)
    requires w & 0x8000_0000 == 0
    ensures ShiftOut(x ^ (w << 1)) == ShiftOut(x) ^ w
  {
  }

  /** The low bit decides the subtraction; bits above it pass through. */
  lemma BitPassesThrough(x: Reg, w: Reg)
    requires Short(w)
    ensures Bit(Xor(x, Double(w))) == Xor(Bit(x), w)
  {
    hide ShiftOut, Bit, Xor, Double;
    ShiftOutPasses(x.word, w.word);
    BitOfXor(x, w);
    XorOfBit(x, w);
  }

  lemma BitOfXor(x: Reg, w: Reg)
    ensures Bit(Xor(x, Double(w))) == Reg(ShiftOut(x.word ^ (w.word << 1)))
  {
    hide ShiftOut;
  }

  lemma XorOfBit(x: Reg, w: Reg)
    ensures Xor(Bit(x), w) == Reg(ShiftOut(x.word) ^ w.word)
  {
    hide ShiftOut;
  }

  lemma ConsXor(c: Reg, b: bool, w: Reg)
    ensures Xor(c, Cons(b, w)) == Xor(Xor(c, AsBit(b)), Double(w))
  {
  }

  lemma ConsInjective(a: bool, v: Reg, b: bool, w: Reg)
    requires Short(v) && Short(w)
    ensures Cons(a, v) == Cons(b, w) <==> a == b && v == w
  {
  }

  // ---- Feeding up to 32 bits is shifting out of the remainder xor the word they spell ----

  /** The word spelled by `bits`, first bit lowest. */
  function Word(bits: seq<bool>): Reg {
    if bits == [] then ZERO else Cons(bits[0], Word(bits[1..]))
  }

  function Halve(w: Reg): Reg {
    Reg(w.word >> 1)
  }

  /** `w` has no bit at place `n` or above. */
  ghost predicate Fits(w: Reg, n: nat)
    decreases n
  {
    if n == 0 then w == ZERO else Fits(Halve(w), n - 1)
  }

  lemma HalveCons(b: bool, w: Reg)
    requires Short(w)
    ensures Halve(Cons(b, w)) == w
  {
  }

  lemma {:induction false} WordFits(bits: seq<bool>)
    requires |bits| <= 32
    ensures Fits(Word(bits), |bits|)
    ensures |bits| <= 31 ==> Short(Word(bits))
  {
    hide Cons, Halve, Short;
    if bits != [] {
      WordFits(bits[1..]);
      HalveCons(bits[0], Word(bits[1..]));
    }
    if |bits| <= 31 {
      FitsShort(Word(bits), |bits|);
    }
  }

  lemma {:induction false} FitsShort(w: Reg, n: nat)
    requires Fits(w, n) && n <= 31
    ensures Short(w)
  {
    FitsMore(w, n, 31);
    Fits31(w);
  }

  lemma {:induction false} FitsMore(w: Reg, n: nat, m: nat)
    requires Fits(w, n) && n <= m
    ensures Fits(w, m)
    decreases m
  {
    if n == 0 {
      if m > 0 {
        assert Halve(ZERO) == ZERO;
        FitsMore(ZERO, 0, m - 1);
      }
    } else {
      FitsMore(Halve(w), n - 1, m - 1);
    }
  }

  lemma Fits31(w: Reg)
    requires Fits(w, 31)
    ensures Short(w)
  {
    hide Fits, Short;
    var v := HalveEight(w, 31);
    v := HalveEight(v, 23);
    v := HalveEight(v, 15);
    HalveSeven(v);
    TopBit(w);
  }

  lemma TopBit(w: Reg)
    ensures (((w.word >> 8) >> 8) >> 8) >> 7 == 0 ==> Short(w)
  {
  }

  lemma HalveSeven(w: Reg)
    requires Fits(w, 7)
    ensures w.word >> 7 == 0
  {
    assert Fits(Halve(w), 6);
    assert Fits(Halve(Halve(w)), 5);
    assert Fits(Halve(Halve(Halve(w))), 4);
    assert Fits(Halve(Halve(Halve(Halve(w)))), 3);
    assert Fits(Halve(Halve(Halve(Halve(Halve(w))))), 2);
    assert Fits(Halve(Halve(Halve(Halve(Halve(Halve(w)))))), 1);
    assert Fits(Halve(Halve(Halve(Halve(Halve(Halve(Halve(w))))))), 0);
  }

  lemma HalveEight(w: Reg, n: nat) returns (v: Reg)
    requires Fits(w, n) && n >= 8
    ensures Fits(v, n - 8) && v.word == w.word >> 8
  {
    v := Halve(Halve(Halve(Halve(Halve(Halve(Halve(Halve(w))))))));
    assert Fits(Halve(w), n - 1);
    assert Fits(Halve(Halve(w)), n - 2);
    assert Fits(Halve(Halve(Halve(w))), n - 3);
    assert Fits(Halve(Halve(Halve(Halve(w)))), n - 4);
    assert Fits(Halve(Halve(Halve(Halve(Halve(w))))), n - 5);
    assert Fits(Halve(Halve(Halve(Halve(Halve(Halve(w)))))), n - 6);
    assert Fits(Halve(Halve(Halve(Halve(Halve(Halve(Halve(w))))))), n - 7);
  }

  lemma {:induction false} FeedWord(c: Reg, bits: seq<bool>)
    requires |bits| <= 32
    ensures Feed(c, bits) == BitTimes(Xor(c, Word(bits)), |bits|)
    decreases |bits|
  {
    hide Bit, Xor, AsBit, Cons, Double, Short;
    if bits == [] {
      XorZero(c);
    } else {
      var w := Word(bits[1..]);
      WordFits(bits[1..]);
      ConsXor(c, bits[0], w);
      BitPassesThrough(Xor(c, AsBit(bits[0])), w);
      FeedWord(Bit(Xor(c, AsBit(bits[0]))), bits[1..]);
    }
  }

  lemma {:induction false} FeedConcat(c: Reg, a: seq<bool>, b: seq<bool>)
    ensures Feed(c, a + b) == Feed(Feed(c, a), b)
    decreases |a|
  {
    hide Bit, Xor, AsBit;
    if a == [] {
      assert a + b == b;
    } else {
      assert (a + b)[1..] == a[1..] + b;
      FeedConcat(Bit(Xor(c, AsBit(a[0]))), a[1..], b);
    }
  }

  // ---- The table ----

  // The 256 entries of the table, in 16 rows of 16.
  const ROW_0: seq<bv32> := [
    0x00000000, 0x77073096, 0xee0e612c, 0x990951ba, 0x076dc419, 0x706af48f, 0xe963a535, 0x9e6495a3,
    0x0edb8832, 0x79dcb8a4, 0xe0d5e91e, 0x97d2d988, 0x09b64c2b, 0x7eb17cbd, 0xe7b82d07, 0x90bf1d91
  ]
  const ROW_1: seq<bv32> := [
    0x1db71064, 0x6ab020f2, 0xf3b97148, 0x84be41de, 0x1adad47d, 0x6ddde4eb, 0xf4d4b551, 0x83d385c7,
    0x136c9856, 0x646ba8c0, 0xfd62f97a, 0x8a65c9ec, 0x14015c4f, 0x63066cd9, 0xfa0f3d63, 0x8d080df5
  ]
  const ROW_2: seq<bv32> := [
    0x3b6e20c8, 0x4c69105e, 0xd56041e4, 0xa2677172, 0x3c03e4d1, 0x4b04d447, 0xd20d85fd, 0xa50ab56b,
    0x35b5a8fa, 0x42b2986c, 0xdbbbc9d6, 0xacbcf940, 0x32d86ce3, 0x45df5c75, 0xdcd60dcf, 0xabd13d59
  ]
  const ROW_3: seq<bv32> := [
    0x26d930ac, 0x51de003a, 0xc8d75180, 0xbfd06116, 0x21b4f4b5, 0x56b3c423, 0xcfba9599, 0xb8bda50f,
    0x2802b89e, 0x5f058808, 0xc60cd9b2, 0xb10be924, 0x2f6f7c87, 0x58684c11, 0xc1611dab, 0xb6662d3d
  ]
  const ROW_4: seq<bv32> := [
    0x76dc4190, 0x01db7106, 0x98d220bc, 0xefd5102a, 0x71b18589, 0x06b6b51f, 0x9fbfe4a5, 0xe8b8d433,
    0x7807c9a2, 0x0f00f934, 0x9609a88e, 0xe10e9818, 0x7f6a0dbb, 0x086d3d2d, 0x91646c97, 0xe6635c01
  ]
  const ROW_5: seq<bv32> := [
    0x6b6b51f4, 0x1c6c6162, 0x856530d8, 0xf262004e, 0x6c0695ed, 0x1b01a57b, 0x8208f4c1, 0xf50fc457,
    0x65b0d9c6, 0x12b7e950, 0x8bbeb8ea, 0xfcb9887c, 0x62dd1ddf, 0x15da2d49, 0x8cd37cf3, 0xfbd44c65
  ]
  const ROW_6: seq<bv32> := [
    0x4db26158, 0x3ab551ce, 0xa3bc0074, 0xd4bb30e2, 0x4adfa541, 0x3dd895d7, 0xa4d1c46d, 0xd3d6f4fb,
    0x4369e96a, 0x346ed9fc, 0xad678846, 0xda60b8d0, 0x44042d73, 0x33031de5, 0xaa0a4c5f, 0xdd0d7cc9
  ]
  const ROW_7: seq<bv32> := [
    0x5005713c, 0x270241aa, 0xbe0b1010, 0xc90c2086, 0x5768b525, 0x206f85b3, 0xb966d409, 0xce61e49f,
    0x5edef90e, 0x29d9c998, 0xb0d09822, 0xc7d7a8b4, 0x59b33d17, 0x2eb40d81, 0xb7bd5c3b, 0xc0ba6cad
  ]
  const ROW_8: seq<bv32> := [
    0xedb88320, 0x9abfb3b6, 0x03b6e20c, 0x74b1d29a, 0xead54739, 0x9dd277af, 0x04db2615, 0x73dc1683,
    0xe3630b12, 0x94643b84, 0x0d6d6a3e, 0x7a6a5aa8, 0xe40ecf0b, 0x9309ff9d, 0x0a00ae27, 0x7d079eb1
  ]
  const ROW_9: seq<bv32> := [
    0xf00f9344, 0x8708a3d2, 0x1e01f268, 0x6906c2fe, 0xf762575d, 0x806567cb, 0x196c3671, 0x6e6b06e7,
    0xfed41b76, 0x89d32be0, 0x10da7a5a, 0x67dd4acc, 0xf9b9df6f, 0x8ebeeff9, 0x17b7be43, 0x60b08ed5
  ]
  const ROW_A: seq<bv32> := [
    0xd6d6a3e8, 0xa1d1937e, 0x38d8c2c4, 0x4fdff252, 0xd1bb67f1, 0xa6bc5767, 0x3fb506dd, 0x48b2364b,
    0xd80d2bda, 0xaf0a1b4c, 0x36034af6, 0x41047a60, 0xdf60efc3, 0xa867df55, 0x316e8eef, 0x4669be79
  ]
  const ROW_B: seq<bv32> := [
    0xcb61b38c, 0xbc66831a, 0x256fd2a0, 0x5268e236, 0xcc0c7795, 0xbb0b4703, 0x220216b9, 0x5505262f,
    0xc5ba3bbe, 0xb2bd0b28, 0x2bb45a92, 0x5cb36a04, 0xc2d7ffa7, 0xb5d0cf31, 0x2cd99e8b, 0x5bdeae1d
  ]
  const ROW_C: seq<bv32> := [
    0x9b64c2b0, 0xec63f226, 0x756aa39c, 0x026d930a, 0x9c0906a9, 0xeb0e363f, 0x72076785, 0x05005713,
    0x95bf4a82, 0xe2b87a14, 0x7bb12bae, 0x0cb61b38, 0x92d28e9b, 0xe5d5be0d, 0x7cdcefb7, 0x0bdbdf21
  ]
  const ROW_D: seq<bv32> := [
    0x86d3d2d4, 0xf1d4e242, 0x68ddb3f8, 0x1fda836e, 0x81be16cd, 0xf6b9265b, 0x6fb077e1, 0x18b74777,
    0x88085ae6, 0xff0f6a70, 0x66063bca, 0x11010b5c, 0x8f659eff, 0xf862ae69, 0x616bffd3, 0x166ccf45
  ]
  const ROW_E: seq<bv32> := [
    0xa00ae278, 0xd70dd2ee, 0x4e048354, 0x3903b3c2, 0xa7672661, 0xd06016f7, 0x4969474d, 0x3e6e77db,
    0xaed16a4a, 0xd9d65adc, 0x40df0b66, 0x37d83bf0, 0xa9bcae53, 0xdebb9ec5, 0x47b2cf7f, 0x30b5ffe9
  ]
  const ROW_F: seq<bv32> := [
    0xbdbdf21c, 0xcabac28a, 0x53b39330, 0x24b4a3a6, 0xbad03605, 0xcdd70693, 0x54de5729, 0x23d967bf,
    0xb3667a2e, 0xc4614ab8, 0x5d681b02, 0x2a6f2b94, 0xb40bbe37, 0xc30c8ea1, 0x5a05df1b, 0x2d02ef8d
  ]

  function Row(k: bv32): seq<bv32> {
    if k == 0 then ROW_0
    else if k == 1 then ROW_1
    else if k == 2 then ROW_2
    else if k == 3 then ROW_3
    else if k == 4 then ROW_4
    else if k == 5 then ROW_5
    else if k == 6 then ROW_6
    else if k == 7 then ROW_7
    else if k == 8 then ROW_8
    else if k == 9 then ROW_9
    else if k == 10 then ROW_A
    else if k == 11 then ROW_B
    else if k == 12 then ROW_C
    else if k == 13 then ROW_D
    else if k == 14 then ROW_E
    else ROW_F
  }

  function TableEntry(i: bv32): bv32
    requires i < 256
  {
    Row(i >> 4)[(i & 15) as int]
  }

  function EightOut(x: bv32): bv32 {
    ShiftOut(ShiftOut(ShiftOut(ShiftOut(ShiftOut(ShiftOut(ShiftOut(ShiftOut(x))))))))
  }

  function EightBits(c: Reg): Reg {
    Bit(Bit(Bit(Bit(Bit(Bit(Bit(Bit(c))))))))
  }

  lemma EightBitsOfWord(x: bv32)
    ensures EightBits(Reg(x)) == Reg(EightOut(x))
  {
    hide ShiftOut;
  }

  lemma Rows0To3(j: bv32)
    requires j < 16
    ensures ROW_0[j as int] == EightOut(0 | j)
    ensures ROW_1[j as int] == EightOut(16 | j)
    ensures ROW_2[j as int] == EightOut(32 | j)
    ensures ROW_3[j as int] == EightOut(48 | j)
  {
    assert j == 0 || j == 1 || j == 2 || j == 3 || j == 4 || j == 5 || j == 6 || j == 7
        || j == 8 || j == 9 || j == 10 || j == 11 || j == 12 || j == 13 || j == 14 || j == 15;
  }

  lemma Rows4To7(j: bv32)
    requires j < 16
    ensures ROW_4[j as int] == EightOut(64 | j)
    ensures ROW_5[j as int] == EightOut(80 | j)
    ensures ROW_6[j as int] == EightOut(96 | j)
    ensures ROW_7[j as int] == EightOut(112 | j)
  {
    assert j == 0 || j == 1 || j == 2 || j == 3 || j == 4 || j == 5 || j == 6 || j == 7
        || j == 8 || j == 9 || j == 10 || j == 11 || j == 12 || j == 13 || j == 14 || j == 15;
  }

  lemma Rows8ToB(j: bv32)
    requires j < 16
    ensures ROW_8[j as int] == EightOut(128 | j)
    ensures ROW_9[j as int] == EightOut(144 | j)
    ensures ROW_A[j as int] == EightOut(160 | j)
    ensures ROW_B[j as int] == EightOut(176 | j)
  {
    assert j == 0 || j == 1 || j == 2 || j == 3 || j == 4 || j == 5 || j == 6 || j == 7
        || j == 8 || j == 9 || j == 10 || j == 11 || j == 12 || j == 13 || j == 14 || j == 15;
  }

  lemma RowsCToF(j: bv32)
    requires j < 16
    ensures ROW_C[j as int] == EightOut(192 | j)
    ensures ROW_D[j as int] == EightOut(208 | j)
    ensures ROW_E[j as int] == EightOut(224 | j)
    ensures ROW_F[j as int] == EightOut(240 | j)
  {
    assert j == 0 || j == 1 || j == 2 || j == 3 || j == 4 || j == 5 || j == 6 || j == 7
        || j == 8 || j == 9 || j == 10 || j == 11 || j == 12 || j == 13 || j == 14 || j == 15;
  }

  lemma Nibbles(i: bv32)
    requires i < 256
    ensures i >> 4 < 16 && i & 15 < 16 && i == ((i >> 4) << 4) | (i & 15)
  {
  }

  lemma RowEntries(k: bv32, j: bv32)
    requires k < 16 && j < 16
    ensures j as int < 16 && |Row(k)| == 16 && Row(k)[j as int] == EightOut((k << 4) | j)
  {
    hide EightOut;
    assert k == 0 || k == 1 || k == 2 || k == 3 || k == 4 || k == 5 || k == 6 || k == 7
        || k == 8 || k == 9 || k == 10 || k == 11 || k == 12 || k == 13 || k == 14 || k == 15;
    Rows0To3(j);
    Rows4To7(j);
    Rows8ToB(j);
    RowsCToF(j);
  }

  /** Every entry of the table is the eight-step reduction of its index. */
  lemma TableIsReduction(i: bv32)
    requires i < 256
    ensures Reg(TableEntry(i)) == EightBits(Reg(i))
  {
    hide EightBits, EightOut, Row;
    Nibbles(i);
    RowEntries(i >> 4, i & 15);
    EightBitsOfWord(i);
  }

  lemma {:induction false} PassesThrough(x: Reg, w: seq<Reg>)
    requires |w| > 0
    requires forall i :: 0 <= i < |w| - 1 ==> Short(w[i]) && w[i + 1] == Double(w[i])
    ensures BitTimes(Xor(x, w[|w| - 1]), |w| - 1) == Xor(BitTimes(x, |w| - 1), w[0])
    decreases |w|
  {
    hide Bit, Xor, Double, Short;
    if |w| > 1 {
      var n := |w| - 1;
      assert Short(w[n - 1]) && w[n - 1 + 1] == Double(w[n - 1]);
      BitPassesThrough(x, w[n - 1]);
      PassesThrough(Bit(x), w[..n]);
    }
  }

  function Low(x: bv32): (r: bv32)
    ensures r < 256
  {
    x & 0xFF
  }

  function High(x: bv32): bv32 {
    x >> 8
  }

  /** The three high bytes of a word, shifted up eight places one by one, lose no bit. */
  lemma HighBytes(x: bv32, d0: bv32, d1: bv32, d2: bv32, d3: bv32, d4: bv32, d5: bv32, d6: bv32, d7: bv32, d8: bv32)
    requires d0 == High(x) && d1 == d0 << 1 && d2 == d1 << 1 && d3 == d2 << 1 && d4 == d3 << 1
    requires d5 == d4 << 1 && d6 == d5 << 1 && d7 == d6 << 1 && d8 == d7 << 1
    ensures d0 & 0x8000_0000 == 0 && d1 & 0x8000_0000 == 0 && d2 & 0x8000_0000 == 0 && d3 & 0x8000_0000 == 0
    ensures d4 & 0x8000_0000 == 0 && d5 & 0x8000_0000 == 0 && d6 & 0x8000_0000 == 0 && d7 & 0x8000_0000 == 0
    ensures XorWord(Low(x), d8) == x
  {
  }

  lemma EightBitsIsBitTimes(c: Reg)
    ensures EightBits(c) == BitTimes(c, 8)
  {
    hide Bit;
  }

  ghost predicate Ladder(w: seq<Reg>) {
    && |w| == 9
    && Short(w[0]) && Short(w[1]) && Short(w[2]) && Short(w[3])
    && Short(w[4]) && Short(w[5]) && Short(w[6]) && Short(w[7])
    && w[1] == Double(w[0]) && w[2] == Double(w[1]) && w[3] == Double(w[2]) && w[4] == Double(w[3])
    && w[5] == Double(w[4]) && w[6] == Double(w[5]) && w[7] == Double(w[6]) && w[8] == Double(w[7])
  }

  lemma HighLadder(x: bv32) returns (d: seq<Reg>)
    ensures Ladder(d) && d[0] == Reg(High(x)) && Xor(Reg(Low(x)), d[8]) == Reg(x)
  {
    hide Xor, XorWord, Double, Short, Low, High;
    var d0 := High(x);
    var d1 := d0 << 1;
    var d2 := d1 << 1;
    var d3 := d2 << 1;
    var d4 := d3 << 1;
    var d5 := d4 << 1;
    var d6 := d5 << 1;
    var d7 := d6 << 1;
    var d8 := d7 << 1;
    HighBytes(x, d0, d1, d2, d3, d4, d5, d6, d7, d8);
    DoubleWord(d0);
    DoubleWord(d1);
    DoubleWord(d2);
    DoubleWord(d3);
    DoubleWord(d4);
    DoubleWord(d5);
    DoubleWord(d6);
    DoubleWord(d7);
    XorWords(Low(x), d8);
    d := [Reg(d0), Reg(d1), Reg(d2), Reg(d3), Reg(d4), Reg(d5), Reg(d6), Reg(d7), Reg(d8)];
  }

  lemma LadderPasses(x: Reg, d: seq<Reg>)
    requires Ladder(d)
    ensures EightBits(Xor(x, d[8])) == Xor(EightBits(x), d[0])
  {
    hide EightBits, BitTimes, Xor, Double, Short;
    EightBitsIsBitTimes(Xor(x, d[8]));
    EightBitsIsBitTimes(x);
    PassesThrough(x, d);
  }

  lemma EightBitsSplit(x: bv32)
    ensures EightBits(Reg(x)) == Xor(EightBits(Reg(Low(x))), Reg(High(x)))
  {
    hide EightBits, Xor, Ladder, Low, High;
    var d := HighLadder(x);
    LadderPasses(Reg(Low(x)), d);
  }

  lemma WordNil()
    ensures Word([]) == ZERO
  {
  }

  lemma WordCons(b: bool, rest: seq<bool>)
    ensures Word([b] + rest) == Cons(b, Word(rest))
  {
    assert ([b] + rest)[1..] == rest;
  }

  lemma OneAndOne<T>(a: T, b: T, rest: seq<T>)
    ensures [a, b] + rest == [a] + ([b] + rest)
  {
  }

  lemma TwoAndTwo<T>(a: T, b: T, c: T, d: T, rest: seq<T>)
    ensures [a, b, c, d] + rest == [a, b] + ([c, d] + rest)
  {
  }

  lemma WordOfTwo(b0: bool, b1: bool, rest: seq<bool>)
    ensures Word([b0, b1] + rest) == Cons(b0, Cons(b1, Word(rest)))
  {
    hide Cons, Word;
    WordCons(b1, rest);
    WordCons(b0, [b1] + rest);
    OneAndOne(b0, b1, rest);
  }

  lemma WordOfFour(b0: bool, b1: bool, b2: bool, b3: bool, rest: seq<bool>)
    ensures Word([b0, b1, b2, b3] + rest) == Cons(b0, Cons(b1, Cons(b2, Cons(b3, Word(rest)))))
  {
    hide Cons, Word;
    WordOfTwo(b2, b3, rest);
    WordOfTwo(b0, b1, [b2, b3] + rest);
    TwoAndTwo(b0, b1, b2, b3, rest);
  }

  lemma FourAndFour<T>(a: T, b: T, c: T, d: T, e: T, f: T, g: T, h: T)
    ensures [a, b, c, d] + [e, f, g, h] == [a, b, c, d, e, f, g, h] && [e, f, g, h] + [] == [e, f, g, h]
  {
  }

  lemma WordOfEight(b0: bool, b1: bool, b2: bool, b3: bool, b4: bool, b5: bool, b6: bool, b7: bool)
    ensures Word([b0, b1, b2, b3, b4, b5, b6, b7])
         == Cons(b0, Cons(b1, Cons(b2, Cons(b3, Cons(b4, Cons(b5, Cons(b6, Cons(b7, ZERO))))))))
  {
    hide Cons, Word;
    WordNil();
    WordOfFour(b0, b1, b2, b3, [b4, b5, b6, b7]);
    WordOfFour(b4, b5, b6, b7, []);
    FourAndFour(b0, b1, b2, b3, b4, b5, b6, b7);
  }

  lemma WordOfByte(b: bv8)
    ensures Word(BitsOfByte(b)) == Reg(b as bv32)
  {
    hide Word;
    WordOfEight(b & 1 != 0, b & 2 != 0, b & 4 != 0, b & 8 != 0, b & 16 != 0, b & 32 != 0, b & 64 != 0, b & 128 != 0);
  }

  function MixIn(c: bv32, b: bv8): bv32 {
    c ^ (b as bv32)
  }

  /** One round of the loop. */
  function Advance(c: bv32, b: bv8): bv32 {
    XorWord(TableEntry(Low(MixIn(c, b))), High(c))
  }

  lemma MixInFacts(c: bv32, b: bv8)
    ensures Reg(High(MixIn(c, b))) == Reg(High(c))
    ensures Reg(MixIn(c, b)) == Xor(Reg(c), Reg(b as bv32))
  {
  }

  lemma AdvanceReduces(c: bv32, b: bv8)
    ensures Reg(Advance(c, b)) == EightBits(Reg(MixIn(c, b)))
  {
    hide EightBits, TableEntry, MixIn, Low, High, Xor, XorWord;
    MixInFacts(c, b);
    var x := MixIn(c, b);
    EightBitsSplit(x);
    TableIsReduction(Low(x));
    XorWords(TableEntry(Low(x)), High(c));
  }

  lemma FeedByte(c: Reg, b: bv8)
    ensures Feed(c, BitsOfByte(b)) == EightBits(Xor(c, Reg(b as bv32)))
  {
    hide EightBits, Feed, BitsOfByte, BitTimes, Word, Xor;
    FeedWord(c, BitsOfByte(b));
    WordOfByte(b);
    EightBitsIsBitTimes(Xor(c, Reg(b as bv32)));
  }

  /** One round of the table loop feeds exactly the eight bits of its byte. */
  lemma AdvanceFeeds(c: bv32, b: bv8)
    ensures Reg(Advance(c, b)) == Feed(Reg(c), BitsOfByte(b))
  {
    hide EightBits, Advance, MixIn, Feed, BitsOfByte, Xor;
    MixInFacts(c, b);
    AdvanceReduces(c, b);
    FeedByte(Reg(c), b);
  }

  lemma {:induction false} BitsOfConcat(a: seq<bv8>, b: seq<bv8>)
    ensures BitsOf(a + b) == BitsOf(a) + BitsOf(b)
  {
    hide BitsOfByte;
    if a == [] {
      assert a + b == b;
    } else {
      assert (a + b)[1..] == a[1..] + b;
      BitsOfConcat(a[1..], b);
    }
  }

  lemma FeedSnoc(buf: seq<bv8>, b: bv8)
    ensures Feed(ALL_ONES, BitsOf(buf + [b])) == Feed(Feed(ALL_ONES, BitsOf(buf)), BitsOfByte(b))
  {
    hide Feed, BitsOfByte;
    BitsOfConcat(buf, [b]);
    assert [b][1..] == [];
    assert BitsOf([b]) == BitsOfByte(b);
    FeedConcat(ALL_ONES, BitsOf(buf), BitsOfByte(b));
  }

  /** The table-driven loop computes the bit-serial CRC-32 of the buffer. */
  method Checksum(buf: seq<bv8>) returns (r: bv32)
    ensures Reg(r) == Crc(BitsOf(buf))
  {
    hide Advance, BitsOfByte, Xor;
    var crc: bv32 := 0;
    var p := 0;
    crc := crc ^ 0xFFFF_FFFF;
    assert buf[..0] == [];
    while p < |buf|
      invariant 0 <= p <= |buf|
      invariant Reg(crc) == Feed(ALL_ONES, BitsOf(buf[..p]))
    {
      AdvanceFeeds(crc, buf[p]);
      FeedSnoc(buf[..p], buf[p]);
      assert buf[..p + 1] == buf[..p] + [buf[p]];
      crc := Advance(crc, buf[p]);
      p := p + 1;
    }
    assert buf[..p] == buf;
    XorWords(crc, 0xFFFF_FFFF);
    return crc ^ 0xFFFF_FFFF;
  }

  // ---- Burst errors ----

  lemma {:induction false} BitTimesInjective(x: Reg, y: Reg, n: nat)
    ensures BitTimes(x, n) == BitTimes(y, n) <==> x == y
    decreases n
  {
    hide Bit;
    if n > 0 {
      BitTimesInjective(Bit(x), Bit(y), n - 1);
      BitInjective(x, y);
    }
  }

  lemma {:induction false} FeedInjective(x: Reg, y: Reg, bits: seq<bool>)
    ensures Feed(x, bits) == Feed(y, bits) <==> x == y
    decreases |bits|
  {
    hide Bit, Xor, AsBit;
    if bits != [] {
      var b := AsBit(bits[0]);
      FeedInjective(Bit(Xor(x, b)), Bit(Xor(y, b)), bits[1..]);
      BitInjective(Xor(x, b), Xor(y, b));
      XorInjective(b, x, y);
    }
  }

  lemma {:induction false} WordInjective(a: seq<bool>, b: seq<bool>)
    requires |a| == |b| <= 32
    ensures Word(a) == Word(b) <==> a == b
  {
    hide Cons, Short;
    if a != [] {
      WordInjective(a[1..], b[1..]);
      WordFits(a[1..]);
      WordFits(b[1..]);
      ConsInjective(a[0], Word(a[1..]), b[0], Word(b[1..]));
      assert a == [a[0]] + a[1..] && b == [b[0]] + b[1..];
    }
  }

  /** Messages that differ only within a window of at most 32 bits never share a CRC. */
  lemma BurstDetected(before: seq<bool>, a: seq<bool>, b: seq<bool>, after: seq<bool>)
    requires |a| == |b| <= 32
    ensures Crc(before + a + after) == Crc(before + b + after) <==> a == b
  {
    hide Feed, BitTimes, Word, Xor;
    var c := Feed(ALL_ONES, before);
    FeedWindow(before, a, after);
    FeedWindow(before, b, after);
    FeedInjective(Feed(c, a), Feed(c, b), after);
    FeedWord(c, a);
    FeedWord(c, b);
    BitTimesInjective(Xor(c, Word(a)), Xor(c, Word(b)), |a|);
    WordInjective(a, b);
    XorInjective(c, Word(a), Word(b));
    XorInjective(ALL_ONES, Feed(ALL_ONES, before + a + after), Feed(ALL_ONES, before + b + after));
  }

  lemma FeedWindow(before: seq<bool>, w: seq<bool>, after: seq<bool>)
    ensures Feed(ALL_ONES, before + w + after) == Feed(Feed(Feed(ALL_ONES, before), w), after)
  {
    FeedConcat(ALL_ONES, before + w, after);
    FeedConcat(ALL_ONES, before, w);
  }

  lemma ByteInjective(x: bv8, y: bv8)
    ensures BitsOfByte(x) == BitsOfByte(y) <==> x == y
  {
    hide BitsOfByte;
    WordOfByte(x);
    WordOfByte(y);
    assert x as bv32 == y as bv32 ==> x == y;
  }

  lemma {:induction false} BitsOfInjective(a: seq<bv8>, b: seq<bv8>)
    requires |a| == |b|
    ensures BitsOf(a) == BitsOf(b) <==> a == b
  {
    hide BitsOfByte;
    if a != [] {
      BitsOfInjective(a[1..], b[1..]);
      ByteInjective(a[0], b[0]);
      assert BitsOf(a)[..8] == BitsOfByte(a[0]) && BitsOf(b)[..8] == BitsOfByte(b[0]);
      assert BitsOf(a)[8..] == BitsOf(a[1..]) && BitsOf(b)[8..] == BitsOf(b[1..]);
      assert a == [a[0]] + a[1..] && b == [b[0]] + b[1..];
    }
  }

  lemma SplitInThree<T>(s: seq<T>, lo: nat, hi: nat)
    requires lo <= hi <= |s|
    ensures s == s[..lo] + s[lo..hi] + s[hi..]
  {
  }

  lemma BitsOfWindow(s: seq<bv8>, lo: nat, hi: nat)
    requires lo <= hi <= |s|
    ensures BitsOf(s) == BitsOf(s[..lo]) + BitsOf(s[lo..hi]) + BitsOf(s[hi..])
  {
    hide BitsOf;
    SplitInThree(s, lo, hi);
    BitsOfConcat(s[..lo] + s[lo..hi], s[hi..]);
    BitsOfConcat(s[..lo], s[lo..hi]);
  }

  lemma SameOutside<T>(a: seq<T>, b: seq<T>, p: nat) returns (lo: nat, hi: nat)
    requires |a| == |b|
    requires forall i :: 0 <= i < |a| && !(p <= i < p + 4) ==> a[i] == b[i]
    ensures lo <= hi <= |a| && hi - lo <= 4
    ensures a[..lo] == b[..lo] && a[hi..] == b[hi..]
    ensures a == b <==> a[lo..hi] == b[lo..hi]
  {
    lo := if p < |a| then p else |a|;
    hi := if p + 4 < |a| then p + 4 else |a|;
    assert a == a[..lo] + a[lo..hi] + a[hi..] && b == b[..lo] + b[lo..hi] + b[hi..];
  }

  /** Equal-length buffers that differ only within four consecutive bytes have equal CRCs only if equal. */
  lemma ByteBurstDetected(a: seq<bv8>, b: seq<bv8>, p: nat)
    requires |a| == |b|
    requires forall i :: 0 <= i < |a| && !(p <= i < p + 4) ==> a[i] == b[i]
    ensures Crc(BitsOf(a)) == Crc(BitsOf(b)) <==> a == b
  {
    hide Crc, BitsOf;
    var lo, hi := SameOutside(a, b, p);
    BitsOfWindow(a, lo, hi);
    BitsOfWindow(b, lo, hi);
    BurstDetected(BitsOf(a[..lo]), BitsOf(a[lo..hi]), BitsOf(b[lo..hi]), BitsOf(a[hi..]));
    BitsOfInjective(a[lo..hi], b[lo..hi]);
  }

  // ---- The residue ----

  function LowBit(w: Reg): bool {
    w.word & 1 == 1
  }

  /** The `n` lowest bits of a word, lowest first. */
  function BitsOfWord(w: Reg, n: nat): (r: seq<bool>)
    ensures |r| == n
    decreases n
  {
    if n == 0 then [] else [LowBit(w)] + BitsOfWord(Halve(w), n - 1)
  }

  lemma ConsOfHalves(w: Reg)
    ensures Cons(LowBit(w), Halve(w)) == w
  {
  }

  lemma {:induction false} BitsSpellWord(w: Reg, n: nat)
    requires Fits(w, n)
    ensures Word(BitsOfWord(w, n)) == w
    decreases n
  {
    hide Cons, Halve, LowBit;
    if n > 0 {
      var rest := BitsOfWord(Halve(w), n - 1);
      BitsSpellWord(Halve(w), n - 1);
      WordCons(LowBit(w), rest);
      ConsOfHalves(w);
    }
  }

  lemma EightHalves(w: Reg) returns (v: Reg)
    ensures v == Halve(Halve(Halve(Halve(Halve(Halve(Halve(Halve(w)))))))) && v.word == w.word >> 8
  {
    v := Halve(Halve(Halve(Halve(Halve(Halve(Halve(Halve(w))))))));
  }

  lemma FitsEightMore(w: Reg, n: nat)
    requires Fits(Reg(w.word >> 8), n)
    ensures Fits(w, n + 8)
  {
    var v := EightHalves(w);
    hide Halve;
    assert v == Reg(w.word >> 8);
    var w4 := Halve(Halve(Halve(Halve(w))));
    assert Fits(Halve(Halve(Halve(w4))), n + 1);
    assert Fits(Halve(Halve(w4)), n + 2) && Fits(Halve(w4), n + 3) && Fits(w4, n + 4);
    assert Fits(Halve(Halve(Halve(w))), n + 5) && Fits(Halve(Halve(w)), n + 6) && Fits(Halve(w), n + 7);
  }

  lemma FitsAll(w: Reg)
    ensures Fits(w, 32)
  {
    hide Fits;
    var w1 := Reg(w.word >> 8);
    var w2 := Reg(w1.word >> 8);
    var w3 := Reg(w2.word >> 8);
    NothingLeft(w);
    FitsEightMore(w3, 0);
    FitsEightMore(w2, 8);
    FitsEightMore(w1, 16);
    FitsEightMore(w, 24);
  }

  lemma NothingLeft(w: Reg)
    ensures Fits(Reg((((w.word >> 8) >> 8) >> 8) >> 8), 0)
  {
  }

  /** Shifting 32 bits out of a register of ones. */
  lemma OnesShiftedOut()
    ensures BitTimes(ALL_ONES, 32) == Reg(0xDEBB_20E3)
  {
    hide Bit, BitTimes;
    var c1, c2, c3 := EightBits(ALL_ONES), EightBits(EightBits(ALL_ONES)), EightBits(EightBits(EightBits(ALL_ONES)));
    EightBitsIsBitTimes(ALL_ONES);
    EightBitsIsBitTimes(c1);
    EightBitsIsBitTimes(c2);
    EightBitsIsBitTimes(c3);
    BitTimesSum(ALL_ONES, 8, 24);
    BitTimesSum(c1, 8, 16);
    BitTimesSum(c2, 8, 8);
    OnesByEights();
  }

  lemma OnesByEights()
    ensures EightBits(EightBits(EightBits(EightBits(ALL_ONES)))) == Reg(0xDEBB_20E3)
  {
    hide EightBits, EightOut;
    EightBitsOfWord(0xFFFF_FFFF);
    EightBitsOfWord(EightOut(0xFFFF_FFFF));
    EightBitsOfWord(EightOut(EightOut(0xFFFF_FFFF)));
    EightBitsOfWord(EightOut(EightOut(EightOut(0xFFFF_FFFF))));
    OnesOut();
  }

  lemma OnesOut()
    ensures EightOut(EightOut(EightOut(EightOut(0xFFFF_FFFF)))) == 0xDEBB_20E3
  {
  }

  lemma {:induction false} BitTimesSum(c: Reg, m: nat, n: nat)
    ensures BitTimes(c, m + n) == BitTimes(BitTimes(c, m), n)
    decreases m
  {
    hide Bit;
    if m > 0 {
      BitTimesSum(Bit(c), m - 1, n);
    }
  }

  lemma XorWithComplement(r: Reg)
    ensures Xor(r, Xor(r, ALL_ONES)) == ALL_ONES
    ensures Xor(Reg(0xDEBB_20E3), ALL_ONES) == Reg(0x2144_DF1C)
    ensures Xor(ALL_ONES, ALL_ONES) == ZERO
  {
  }

  /** The CRC of nothing is zero. */
  lemma EmptyCrc()
    ensures Crc([]) == ZERO
  {
    XorWithComplement(ALL_ONES);
  }

  /** A message followed by the 32 bits of its own CRC, lowest first, always has the same CRC. */
  lemma Residue(message: seq<bool>)
    ensures Crc(message + BitsOfWord(Crc(message), 32)) == Reg(0x2144_DF1C)
  {
    hide Feed, BitTimes, Word, Xor, BitsOfWord;
    var c := Feed(ALL_ONES, message);
    var w := Crc(message);
    var bits := BitsOfWord(w, 32);
    FitsAll(w);
    BitsSpellWord(w, 32);
    FeedConcat(ALL_ONES, message, bits);
    FeedWord(c, bits);
    XorWithComplement(c);
    OnesShiftedOut();
  }
}
