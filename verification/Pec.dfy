/**
 * The battery-monitor drivers that consume the lookup tables: the packet error codes PEC15 (LTC and ADI)
 * and PEC10 (ADI), computed a byte at a time in 16-bit integers.
 */
module Pec {
  import opened BitOps
  import opened Gf2Poly
  import opened Bytes
  import opened CrcTables

  /**
   * The polynomial whose remainder a w-bit code is: the message times x^w, on top of the seed moved up by one
   * place for each message bit.
   */
  function Coded(seed: nat, bytes: seq<Byte>, w: nat): nat {
    Xor(Shl(seed, 8 * |bytes|), Shl(BigEndian(bytes), w))
  }

  /** The table as the C generators print it. */
  function Table(p: nat, w: nat): (t: seq<nat>)
    requires 8 <= w <= 16
    ensures |t| == 256
    ensures forall i | 0 <= i < 256 :: t[i] == LowBits(Entry(i, p, w), w)
  {
    seq(256, i requires 0 <= i < 256 => LowBits(Entry(i, p, w), w))
  }

  const SEED: nat := 0x10

  // ---------- one byte ----------

  /** What the byte step does to a code c of w bits. */
  lemma ByteStep(c: nat, b: Byte, p: nat, w: nat)
    requires HasDegree(p, w) && 8 <= w && c < Pow2(w)
    ensures Xor(LowBits(Shl(c, 8), w), Rem(Shl(Xor(Shr(c, w - 8), b), w), p, w))
         == Rem(Xor(Shl(c, 8), Shl(b, w)), p, w)
  {
    var low, high := LowBits(Shl(c, 8), w), Shl(Shr(c, w - 8), w);
    SplitShifted(c, w);
    LowBitsSplit(Shl(c, 8), w);
    XorDisjoint(Shr(c, w - 8), low, w);
    XorShl(Shr(c, w - 8), b, w);
    assert Shl(c, 8) == Xor(high, low);
    RemSplit(low, high, Shl(b, w), p, w);
  }

  lemma RemSplit(low: nat, high: nat, d: nat, p: nat, w: nat)
    requires HasDegree(p, w) && low < Pow2(w)
    ensures Xor(low, Rem(Xor(high, d), p, w)) == Rem(Xor(Xor(high, low), d), p, w)
  {
    XorComm(high, low);
    XorAssoc(low, high, d);
    RemAdd(low, Xor(high, d), p, w);
    RemSmall(low, p, w);
  }

  lemma SplitShifted(c: nat, w: nat)
    requires 8 <= w
    ensures Shl(c, 8) == Shl(Shr(c, w - 8), w) + LowBits(Shl(c, 8), w)
  {
    LowBitsSplit(Shl(c, 8), w);
    ShlIsMul(Shr(c, w - 8), w);
    var a, b := Shr(Shl(c, 8), w), Shr(c, w - 8);
    forall i: nat
      ensures Bit(a, i) == Bit(b, i)
    {
      ShrBit(Shl(c, 8), w, i);
      ShlBit(c, 8, i + w);
      ShrBit(c, w - 8, i);
    }
    SameBits(a, b);
  }

  /** `((pec >> (w - 8)) ^ data[byte]) & 0xFF` */
  function Index(pec: nat, b: Byte, w: nat): nat
    requires 8 <= w
  {
    LowBits(Xor(Shr(pec, w - 8), b), 8)
  }

  /** The 16-bit step of the drivers, on the low w bits. */
  lemma DriverStep(pec: nat, b: Byte, p: nat, w: nat)
    requires 8 <= w <= 16 && HasDegree(p, w)
    ensures Index(pec, b, w) < 256
    ensures LowBits(Xor(LowBits(Shl(pec, 8), 16), Table(p, w)[Index(pec, b, w)]), w)
         == Rem(Xor(Shl(LowBits(pec, w), 8), Shl(b, w)), p, w)
  {
    Pow2Values();
    MonicDegree(p, w);
    var c, index := LowBits(pec, w), Index(pec, b, w);
    IndexLow(pec, b, w);
    EntryIsRemainder(index, p, w);
    LowBitsSplit(pec, w);
    ByteStep(c, b, p, w);
    XorLowBits(LowBits(Shl(pec, 8), 16), Table(p, w)[index], w);
    LowBitsTwice(Shl(pec, 8), 16, w);
    LowBitsTwice(Entry(index, p, w), w, w);
    ShlLowBits(pec, w);
  }

  lemma TopByte(x: nat, k: nat)
    ensures LowBits(Shr(x, k), 8) == Shr(LowBits(x, k + 8), k)
  {
    var a, b := LowBits(Shr(x, k), 8), Shr(LowBits(x, k + 8), k);
    forall i: nat
      ensures Bit(a, i) == Bit(b, i)
    {
      LowBitsBit(Shr(x, k), 8, i);
      ShrBit(x, k, i);
      ShrBit(LowBits(x, k + 8), k, i);
      LowBitsBit(x, k + 8, i + k);
    }
    SameBits(a, b);
  }

  lemma IndexLow(pec: nat, b: Byte, w: nat)
    requires 8 <= w
    ensures Index(pec, b, w) == Xor(Shr(LowBits(pec, w), w - 8), b) < 256
  {
    Pow2Values();
    XorLowBits(Shr(pec, w - 8), b, 8);
    LowBitsSmall(b, 8);
    TopByte(pec, w - 8);
    LowBitsSplit(Shr(pec, w - 8), 8);
    XorBound(LowBits(Shr(pec, w - 8), 8), b, 8);
  }

  lemma ShlLowBits(x: nat, w: nat)
    requires 8 <= w
    ensures LowBits(Shl(LowBits(x, w), 8), w) == LowBits(Shl(x, 8), w)
  {
    forall i: nat
      ensures Bit(LowBits(Shl(LowBits(x, w), 8), w), i) == Bit(LowBits(Shl(x, 8), w), i)
    {
      LowBitsBit(Shl(LowBits(x, w), 8), w, i);
      LowBitsBit(Shl(x, 8), w, i);
      ShlBit(LowBits(x, w), 8, i);
      ShlBit(x, 8, i);
      if i >= 8 { LowBitsBit(x, w, i - 8); }
    }
    SameBits(LowBits(Shl(LowBits(x, w), 8), w), LowBits(Shl(x, 8), w));
  }

  // ---------- whole messages ----------

  lemma CodedStart(seed: nat, p: nat, w: nat)
    requires HasDegree(p, w) && seed < Pow2(w)
    ensures Rem(Coded(seed, [], w), p, w) == seed
  {
    hide Xor, Rem;
    ShlIsMul(0, w);
    XorZero(seed);
    RemSmall(seed, p, w);
  }

  lemma CodedAppend(seed: nat, bytes: seq<Byte>, b: Byte, w: nat)
    ensures Coded(seed, bytes + [b], w) == Xor(Shl(Coded(seed, bytes, w), 8), Shl(b, w))
  {
    var n, m := |bytes|, BigEndian(bytes);
    var s := Shl(seed, 8 * n);
    ShlAdd(seed, 8 * n, 8);
    ShiftedNumber(bytes, b, w);
    XorAssoc(Shl(s, 8), Shl(Shl(m, w), 8), Shl(b, w));
    XorShl(s, Shl(m, w), 8);
  }

  lemma ShiftedNumber(bytes: seq<Byte>, b: Byte, w: nat)
    ensures Shl(BigEndian(bytes + [b]), w) == Xor(Shl(Shl(BigEndian(bytes), w), 8), Shl(b, w))
  {
    hide BigEndian, Xor, Shl;
    var m := BigEndian(bytes);
    Pow2Values();
    BigEndianSnoc(bytes, b);
    XorDisjoint(m, b, 8);
    XorShl(Shl(m, 8), b, w);
    ShlAdd(m, 8, w);
    ShlAdd(m, w, 8);
  }

  lemma CodedSnoc(seed: nat, bytes: seq<Byte>, b: Byte, p: nat, w: nat)
    requires HasDegree(p, w)
    ensures Rem(Coded(seed, bytes + [b], w), p, w)
         == Rem(Xor(Shl(Rem(Coded(seed, bytes, w), p, w), 8), Shl(b, w)), p, w)
  {
    CodedAppend(seed, bytes, b, w);
    AppendRem(Coded(seed, bytes, w), 8, Shl(b, w), p, w);
  }

  lemma AppendRem(c: nat, k: nat, d: nat, p: nat, w: nat)
    requires HasDegree(p, w)
    ensures Rem(Xor(Shl(c, k), d), p, w) == Rem(Xor(Shl(Rem(c, p, w), k), d), p, w)
  {
    RemAdd(Shl(c, k), d, p, w);
    RemShl(c, k, p, w);
    RemAdd(Shl(Rem(c, p, w), k), d, p, w);
  }

  /** The byte loop shared by the drivers, run on the 16-bit variable `pec`. */
  method UpdateBytes(data: seq<Byte>, length: nat, p: nat, w: nat) returns (pec: nat)
    requires length <= |data| && 8 <= w <= 16 && HasDegree(p, w)
    ensures LowBits(pec, w) == Rem(Coded(0x10, data[..length], w), p, w)
  {
    Pow2Values();
    pec := SEED;
    assert SEED < Pow2(w) by { if w > 8 { Pow2Below(8, w); } }
    LowBitsSmall(SEED, w);
    CodedStart(SEED, p, w);
    assert data[..0] == [];
    for byte := 0 to length
      invariant LowBits(pec, w) == Rem(Coded(SEED, data[..byte], w), p, w)
    {
      DriverStep(pec, data[byte], p, w);
      CodedSnoc(SEED, data[..byte], data[byte], p, w);
      assert data[..byte + 1] == data[..byte] + [data[byte]];
      AndOnes(Xor(Shr(pec, w - 8), data[byte]), 8);
      var position := And(Xor(Shr(pec, w - 8), data[byte]), 0xFF);
      pec := Xor(LowBits(Shl(pec, 8), 16), Table(p, w)[position]);
    }
  }

  /** `LTC_CalculatePec15` and `ADI_Pec15`: the 15-bit code followed by a zero bit. */
  method CalculatePec15(data: seq<Byte>, length: nat) returns (pec: nat)
    requires 0 < length <= |data|
    ensures HasDegree(0xC599, 15)
    ensures pec == 2 * Rem(Coded(0x10, data[..length], 15), 0xC599, 15)
  {
    ShippedPolynomials();
    pec := UpdateBytes(data, length, 0xC599, 15);
    AndMask15(pec);
    ghost var r := LowBits(pec, 15);
    pec := LowBits(Shl(And(pec, 0x7FFF), 1), 16);
    assert pec == 2 * r;
  }

  lemma AndMask15(x: nat)
    ensures And(x, 0x7FFF) == LowBits(x, 15)
    ensures LowBits(Shl(And(x, 0x7FFF), 1), 16) == 2 * LowBits(x, 15)
  {
    assert Pow2(15) == 0x8000;
    AndOnes(x, 15);
    LowBitsSplit(x, 15);
    ShlOne(LowBits(x, 15));
    LowBitsSmall(2 * LowBits(x, 15), 16);
  }

  /** The six bit-wise steps at the end of `ADI_Pec10`, after the counter was added at the top. */
  method AppendCounter(code: nat, placed: nat, ghost message: nat, ghost counter: nat) returns (pec: nat)
    requires HasDegree(0x48F, 10) && counter < 64
    requires LowBits(code, 10) == Rem(message, 0x48F, 10)
    requires placed == Shl(counter, 4) < Pow2(10)
    ensures pec == Rem(Xor(Shl(message, 6), Shl(counter, 10)), 0x48F, 10)
  {
    ghost var start := Xor(code, placed);
    pec := LowBits(Xor(code, placed), 16);
    for i := 0 to 6
      invariant pec == LowBits(Iterate(start, 0x48F, 10, i), 16)
    {
      NextTruncated(Iterate(start, 0x48F, 10, i), 0x48F, 10);
      MaskTest(pec, 9);
      assert Shl(1, 9) == 0x200 by { ShlIsMul(1, 9); }
      if And(pec, 0x200) != 0 {
        pec := LowBits(Xor(Shl(pec, 1), 0x48F), 16);
      } else {
        pec := LowBits(Shl(pec, 1), 16);
      }
    }
    XorLowBits(code, placed, 10);
    LowBitsSmall(placed, 10);
    CounterRemainder(message, counter, start);
    LowBitsTwice(Iterate(start, 0x48F, 10, 6), 16, 10);
    Mask10(pec);
    pec := And(pec, 0x3FF);
  }

  /**
   * `ADI_Pec10`: the message is followed by the six bits of the command counter, which are the upper six bits of
   * the byte after it when a received frame is checked, and zero in a frame to be sent.
   */
  method CalculatePec10(data: seq<Byte>, length: nat, receive: bool) returns (pec: nat)
    requires 0 < length <= |data| && (receive ==> length < |data|)
    ensures HasDegree(0x48F, 10)
    ensures var counter := if receive then data[length] / 4 else 0;
            pec == Rem(Xor(Shl(Coded(0x10, data[..length], 10), 6), Shl(counter, 10)), 0x48F, 10)
  {
    ShippedPolynomials();
    pec := UpdateBytes(data, length, 0x48F, 10);
    ghost var message := Coded(SEED, data[..length], 10);
    ghost var counter := if receive then data[length] / 4 else 0;
    var commandCounter := 0;
    if receive {
      CounterBits(data[length]);
      commandCounter := And(data[length], 0xFC);
    }
    PlacedCounter(counter);
    pec := AppendCounter(pec, LowBits(Shl(commandCounter, 2), 16), message, counter);
  }

  lemma Mask10(x: nat)
    ensures And(x, 0x3FF) == LowBits(x, 10)
  {
    assert Pow2(10) == 0x400;
    AndOnes(x, 10);
  }

  lemma PlacedCounter(counter: nat)
    requires counter < 64
    ensures LowBits(Shl(4 * counter, 2), 16) == Shl(counter, 4) < Pow2(10)
  {
    ShlIsMul(counter, 4);
    ShlIsMul(4 * counter, 2);
    assert Pow2(2) == 4 && Pow2(4) == 16 && Pow2(6) == 64;
    ShlBound(counter, 6, 4);
    Pow2Below(10, 16);
    LowBitsSmall(Shl(counter, 4), 16);
  }

  lemma CounterBits(b: Byte)
    ensures And(b, 0xFC) == 4 * (b / 4)
  {
    var q := b / 4;
    assert And(b, 0xFC) == 2 * And(b / 2, 0x7E) == 4 * And(q, 0x3F);
    assert Pow2(6) == 64;
    AndOnes(q, 6);
    LowBitsSmall(q, 6);
  }

  lemma CounterRemainder(message: nat, counter: nat, start: nat)
    requires HasDegree(0x48F, 10) && counter < 64
    requires LowBits(start, 10) == Xor(Rem(message, 0x48F, 10), Shl(counter, 4))
    ensures LowBits(Iterate(start, 0x48F, 10, 6), 10)
         == Rem(Xor(Shl(message, 6), Shl(counter, 10)), 0x48F, 10)
  {
    MonicDegree(0x48F, 10);
    IterateIsRemainder(start, 0x48F, 10, 6);
    XorShl(Rem(message, 0x48F, 10), Shl(counter, 4), 6);
    ShlAdd(counter, 4, 6);
    AppendRem(message, 6, Shl(counter, 10), 0x48F, 10);
  }

  // ---------- known codes ----------

  function Differ(x: nat, y: nat): nat {
    if x == y then 0 else 1
  }

  lemma {:induction false} XorStep(a: nat, b: nat, x: nat, y: nat)
    requires x < 2 && y < 2
    ensures Xor(2 * a + x, 2 * b + y) == 2 * Xor(a, b) + Differ(x, y)
  {
    assert (2 * a + x) / 2 == a && (2 * b + y) / 2 == b;
  }

  /** The exclusive or of two numbers whose last four digits are given. */
  lemma {:induction false} XorOfDigits(
    a: nat, x3: nat, x2: nat, x1: nat, x0: nat, b: nat, y3: nat, y2: nat, y1: nat, y0: nat)
    requires x3 < 2 && x2 < 2 && x1 < 2 && x0 < 2 && y3 < 2 && y2 < 2 && y1 < 2 && y0 < 2
    ensures Xor(16 * a + 8 * x3 + 4 * x2 + 2 * x1 + x0, 16 * b + 8 * y3 + 4 * y2 + 2 * y1 + y0)
         == 16 * Xor(a, b) + 8 * Differ(x3, y3) + 4 * Differ(x2, y2) + 2 * Differ(x1, y1) + Differ(x0, y0)
  {
    hide Xor;
    XorStep(a, b, x3, y3);
    XorStep(2 * a + x3, 2 * b + y3, x2, y2);
    XorStep(4 * a + 2 * x3 + x2, 4 * b + 2 * y3 + y2, x1, y1);
    XorStep(8 * a + 4 * x3 + 2 * x2 + x1, 8 * b + 4 * y3 + 2 * y2 + y1, x0, y0);
  }

  /** One digit of the long division takes the remainder r to `next`. */
  lemma NextDigit(a: nat, digit: nat, r: nat, next: nat, p: nat, w: nat)
    requires HasDegree(p, w) && digit < 2 && Rem(a, p, w) == r
    requires next == if 2 * r + digit >= Pow2(w) then Xor(2 * r + digit, p) else 2 * r + digit
    ensures Rem(2 * a + digit, p, w) == next
  {
    hide Xor, HasDegree;
  }

  /** The bytes 0x00 0x01, on top of the seed. */
  lemma ShortMessage(w: nat)
    requires w <= 15
    ensures Coded(0x10, [0x00, 0x01], w) == 0x10_0000 + Pow2(w)
  {
    hide Xor, Shl, Pow2;
    BigEndianSnoc([], 0x00);
    BigEndianSnoc([0x00], 0x01);
    assert [] + [0x00] == [0x00] && [0x00] + [0x01] == [0x00, 0x01];
    Pow2Values();
    Pow2Below(w, 16);
    ShlIsMul(0x00, 8);
    ShlIsMul(0x01, w);
    ShlIsMul(0x10, 16);
    XorDisjoint(0x10, Pow2(w), 16);
  }

  lemma SmallPowers()
    ensures Pow2(6) == 0x40 && Pow2(10) == 0x400 && Pow2(15) == 0x8000
  {
    Pow2Values();
    assert Pow2(15) == 0x8000 && Pow2(10) == 0x400;
  }

  lemma Subtractions15()
    ensures Xor(0x8400, 0xC599) == 0x4199
    ensures Xor(0x8332, 0xC599) == 0x46AB
    ensures Xor(0x8D56, 0xC599) == 0x48CF
    ensures Xor(0x919E, 0xC599) == 0x5407
    ensures Xor(0xA80E, 0xC599) == 0x6D97
    ensures Xor(0xDB2E, 0xC599) == 0x1EB7
  {
    hide Xor;
    XorZero(0);
    XorOfDigits(0x0, 1, 0, 0, 0, 0x0, 1, 1, 0, 0);
    XorOfDigits(0x8, 0, 1, 0, 0, 0xC, 0, 1, 0, 1);
    XorOfDigits(0x84, 0, 0, 0, 0, 0xC5, 1, 0, 0, 1);
    XorOfDigits(0x840, 0, 0, 0, 0, 0xC59, 1, 0, 0, 1);
    XorOfDigits(0x8, 0, 0, 1, 1, 0xC, 0, 1, 0, 1);
    XorOfDigits(0x83, 0, 0, 1, 1, 0xC5, 1, 0, 0, 1);
    XorOfDigits(0x833, 0, 0, 1, 0, 0xC59, 1, 0, 0, 1);
    XorOfDigits(0x8, 1, 1, 0, 1, 0xC, 0, 1, 0, 1);
    XorOfDigits(0x8D, 0, 1, 0, 1, 0xC5, 1, 0, 0, 1);
    XorOfDigits(0x8D5, 0, 1, 1, 0, 0xC59, 1, 0, 0, 1);
    XorOfDigits(0x0, 1, 0, 0, 1, 0x0, 1, 1, 0, 0);
    XorOfDigits(0x9, 0, 0, 0, 1, 0xC, 0, 1, 0, 1);
    XorOfDigits(0x91, 1, 0, 0, 1, 0xC5, 1, 0, 0, 1);
    XorOfDigits(0x919, 1, 1, 1, 0, 0xC59, 1, 0, 0, 1);
    XorOfDigits(0x0, 1, 0, 1, 0, 0x0, 1, 1, 0, 0);
    XorOfDigits(0xA, 1, 0, 0, 0, 0xC, 0, 1, 0, 1);
    XorOfDigits(0xA8, 0, 0, 0, 0, 0xC5, 1, 0, 0, 1);
    XorOfDigits(0xA80, 1, 1, 1, 0, 0xC59, 1, 0, 0, 1);
    XorOfDigits(0x0, 1, 1, 0, 1, 0x0, 1, 1, 0, 0);
    XorOfDigits(0xD, 1, 0, 1, 1, 0xC, 0, 1, 0, 1);
    XorOfDigits(0xDB, 0, 0, 1, 0, 0xC5, 1, 0, 0, 1);
    XorOfDigits(0xDB2, 1, 1, 1, 0, 0xC59, 1, 0, 0, 1);
  }

  /** The 15-bit code of the bytes 0x00 0x01, as the drivers return it. */
  lemma KnownPec15()
    ensures HasDegree(0xC599, 15)
    ensures 2 * Rem(Coded(0x10, [0x00, 0x01], 15), 0xC599, 15) == 0x3D6E
  {
    hide Rem, HasDegree, Coded, Pow2, Xor;
    ShippedPolynomials();
    ShortMessage(15);
    SmallPowers();
    Subtractions15();
    RemSmall(0x4200, 0xC599, 15);
    NextDigit(0x4200, 0, 0x4200, 0x4199, 0xC599, 15);
    NextDigit(0x8400, 0, 0x4199, 0x46AB, 0xC599, 15);
    NextDigit(0x1_0800, 0, 0x46AB, 0x48CF, 0xC599, 15);
    NextDigit(0x2_1000, 0, 0x48CF, 0x5407, 0xC599, 15);
    NextDigit(0x4_2000, 0, 0x5407, 0x6D97, 0xC599, 15);
    NextDigit(0x8_4000, 0, 0x6D97, 0x1EB7, 0xC599, 15);
  }

  lemma Subtractions10()
    ensures Xor(0x401, 0x48F) == 0x8E
    ensures Xor(0x470, 0x48F) == 0xFF
    ensures Xor(0x7F8, 0x48F) == 0x377
    ensures Xor(0x6EE, 0x48F) == 0x261
    ensures Xor(0x4C2, 0x48F) == 0x4D
    ensures Xor(0x4D0, 0x48F) == 0x5F
    ensures Xor(0x5F0, 0x48F) == 0x17F
  {
    hide Xor;
    XorZero(0);
    XorOfDigits(0x0, 0, 1, 0, 0, 0x0, 0, 1, 0, 0);
    XorOfDigits(0x4, 0, 0, 0, 0, 0x4, 1, 0, 0, 0);
    XorOfDigits(0x40, 0, 0, 0, 1, 0x48, 1, 1, 1, 1);
    XorOfDigits(0x4, 0, 1, 1, 1, 0x4, 1, 0, 0, 0);
    XorOfDigits(0x47, 0, 0, 0, 0, 0x48, 1, 1, 1, 1);
    XorOfDigits(0x0, 0, 1, 1, 1, 0x0, 0, 1, 0, 0);
    XorOfDigits(0x7, 1, 1, 1, 1, 0x4, 1, 0, 0, 0);
    XorOfDigits(0x7F, 1, 0, 0, 0, 0x48, 1, 1, 1, 1);
    XorOfDigits(0x0, 0, 1, 1, 0, 0x0, 0, 1, 0, 0);
    XorOfDigits(0x6, 1, 1, 1, 0, 0x4, 1, 0, 0, 0);
    XorOfDigits(0x6E, 1, 1, 1, 0, 0x48, 1, 1, 1, 1);
    XorOfDigits(0x4, 1, 1, 0, 0, 0x4, 1, 0, 0, 0);
    XorOfDigits(0x4C, 0, 0, 1, 0, 0x48, 1, 1, 1, 1);
    XorOfDigits(0x4, 1, 1, 0, 1, 0x4, 1, 0, 0, 0);
    XorOfDigits(0x4D, 0, 0, 0, 0, 0x48, 1, 1, 1, 1);
    XorOfDigits(0x0, 0, 1, 0, 1, 0x0, 0, 1, 0, 0);
    XorOfDigits(0x5, 1, 1, 1, 1, 0x4, 1, 0, 0, 0);
    XorOfDigits(0x5F, 0, 0, 0, 0, 0x48, 1, 1, 1, 1);
  }

  /** The 10-bit code of the bytes 0x00 0x01 in a frame to be sent. */
  lemma KnownPec10()
    ensures HasDegree(0x48F, 10)
    ensures Rem(Xor(Shl(Coded(0x10, [0x00, 0x01], 10), 6), Shl(0, 10)), 0x48F, 10) == 0x17F
  {
    hide Rem, HasDegree, Coded, Pow2, Shl, Xor;
    ShippedPolynomials();
    ShortMessage(10);
    SmallPowers();
    ShlIsMul(0x10_0400, 6);
    ShlIsMul(0, 10);
    XorZero(0x401_0000);
    Subtractions10();
    RemSmall(0x200, 0x48F, 10);
    NextDigit(0x200, 1, 0x200, 0x8E, 0x48F, 10);
    NextDigit(0x401, 0, 0x8E, 0x11C, 0x48F, 10);
    NextDigit(0x802, 0, 0x11C, 0x238, 0x48F, 10);
    NextDigit(0x1004, 0, 0x238, 0xFF, 0x48F, 10);
    NextDigit(0x2008, 0, 0xFF, 0x1FE, 0x48F, 10);
    NextDigit(0x4010, 0, 0x1FE, 0x3FC, 0x48F, 10);
    NextDigit(0x8020, 0, 0x3FC, 0x377, 0x48F, 10);
    NextDigit(0x1_0040, 0, 0x377, 0x261, 0x48F, 10);
    NextDigit(0x2_0080, 0, 0x261, 0x4D, 0x48F, 10);
    NextDigit(0x4_0100, 0, 0x4D, 0x9A, 0x48F, 10);
    NextDigit(0x8_0200, 0, 0x9A, 0x134, 0x48F, 10);
    NextDigit(0x10_0400, 0, 0x134, 0x268, 0x48F, 10);
    NextDigit(0x20_0800, 0, 0x268, 0x5F, 0x48F, 10);
    NextDigit(0x40_1000, 0, 0x5F, 0xBE, 0x48F, 10);
    NextDigit(0x80_2000, 0, 0xBE, 0x17C, 0x48F, 10);
    NextDigit(0x100_4000, 0, 0x17C, 0x2F8, 0x48F, 10);
    NextDigit(0x200_8000, 0, 0x2F8, 0x17F, 0x48F, 10);
  }
}
