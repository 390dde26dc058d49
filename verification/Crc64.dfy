/**
 * The 64-bit CRC of the TMS570's on-board CRC controller (Texas Instruments application report SPNA235,
 * August 2016), polynomial x^64 + x^4 + x^3 + x + 1.  `Crc` says what the signature is; the two
 * methods are the bit-serial loops of the host tool and of the embedded bootloader.
 */
module Crc64 {
  import opened BitOps
  import opened Gf2Poly

  /** An unsigned 64-bit number. */
  type Word = x: nat | x < 0x1_0000_0000_0000_0000

  /** x^64 + x^4 + x^3 + x + 1 */
  const POLYNOMIAL: nat := 0x1_0000_0000_0000_001B

  lemma PolynomialDegree()
    ensures Pow2(64) == 0x1_0000_0000_0000_0000
    ensures HasDegree(POLYNOMIAL, 64)
  {
    Pow2Values();
  }

  function XorWords(a: Word, b: Word): (r: Word)
    ensures r == Xor(a, b)
  {
    PolynomialDegree();
    XorBound(a, b, 64);
    Xor(a, b)
  }

  /** The number with its two 32-bit halves exchanged. */
  function SwapHalves(x: Word): Word {
    x / 0x1_0000_0000 + x % 0x1_0000_0000 * 0x1_0000_0000
  }

  /**
   * The signature of one word from a given root: in swapped-halves order, the remainder of
   * (root + data) * x^64.
   */
  function Crc(data: Word, root: Word): Word {
    PolynomialDegree();
    var product := Shl(SwapHalves(XorWords(data, root)), 64);
    RemBound(product, POLYNOMIAL, 64);
    SwapHalves(Rem(product, POLYNOMIAL, 64))
  }

  // ---------- bits of the constants ----------

  /** The positions that the loop fills in by hand. */
  predicate IsTap(i: nat) {
    i == 0 || i == 1 || i == 3 || i == 4
  }

  const TAPS: nat := Or(Or(Or(Shl(1, 0), Shl(1, 1)), Shl(1, 3)), Shl(1, 4))
  const MASK_BITS: nat := Xor(0xFFFF_FFFF_FFFF_FFFF, TAPS)

  lemma {:induction false} OneBit(b: nat, k: nat, i: nat)
    requires b < 2
    ensures Bit(Shl(b, k), i) <==> i == k && b == 1
  {
    ShlBit(b, k, i);
    if i > k { SmallBit(b, 1, i - k); }
  }

  lemma TapBit(i: nat)
    ensures TAPS == 0x1B
    ensures Bit(TAPS, i) <==> IsTap(i)
  {
    OneBit(1, 0, i);
    OneBit(1, 1, i);
    OneBit(1, 3, i);
    OneBit(1, 4, i);
    OrBit(Shl(1, 0), Shl(1, 1), i);
    OrBit(Or(Shl(1, 0), Shl(1, 1)), Shl(1, 3), i);
    OrBit(Or(Or(Shl(1, 0), Shl(1, 1)), Shl(1, 3)), Shl(1, 4), i);
  }

  lemma MaskBit(i: nat)
    ensures Bit(MASK_BITS, i) <==> i < 64 && !IsTap(i)
  {
    hide Bit, Xor;
    PolynomialDegree();
    OnesBit(64, i);
    TapBit(i);
    XorBit(0xFFFF_FFFF_FFFF_FFFF, TAPS, i);
  }

  lemma PolynomialBit(i: nat)
    ensures Bit(POLYNOMIAL, i) <==> i == 64 || IsTap(i)
  {
    PolynomialDegree();
    TapBit(i);
    OneBit(1, 64, i);
    ShlIsMul(1, 64);
    XorDisjoint(1, 0x1B, 64);
    XorBit(Shl(1, 64), 0x1B, i);
  }

  // ---------- exchanging the halves ----------

  lemma Halves(x: Word)
    ensures Pow2(32) == 0x1_0000_0000
    ensures Shr(x, 32) == x / 0x1_0000_0000
    ensures And(x, 0xFFFFFFFF) == LowBits(x, 32) == x % 0x1_0000_0000
  {
    Pow2Values();
    LowBitsSplit(x, 32);
    AndOnes(x, 32);
  }

  /** The exchange as both programs write it. */
  lemma SwapExpression(x: Word)
    ensures SwapHalves(x) == Or(Shr(x, 32), Shl(And(x, 0xFFFFFFFF), 32))
  {
    Halves(x);
    ShlIsMul(LowBits(x, 32), 32);
    OrDisjoint(LowBits(x, 32), Shr(x, 32), 32);
  }

  lemma SwapBits(x: Word, i: nat)
    ensures Bit(SwapHalves(x), i) <==> if i < 32 then Bit(x, i + 32) else i < 64 && Bit(x, i - 32)
  {
    SwapExpression(x);
    Halves(x);
    PolynomialDegree();
    OrBit(Shr(x, 32), Shl(LowBits(x, 32), 32), i);
    ShrBit(x, 32, i);
    ShlBit(LowBits(x, 32), 32, i);
    if i >= 32 {
      SmallBit(x, 64, i + 32);
      LowBitsBit(x, 32, i - 32);
    }
  }

  lemma SwapTwice(x: Word)
    ensures SwapHalves(SwapHalves(x)) == x
  {
  }

  lemma SwapXor(a: Word, b: Word)
    ensures SwapHalves(XorWords(a, b)) == XorWords(SwapHalves(a), SwapHalves(b))
  {
    forall i: nat
      ensures Bit(SwapHalves(XorWords(a, b)), i) == Bit(XorWords(SwapHalves(a), SwapHalves(b)), i)
    {
      SwapBits(XorWords(a, b), i);
      SwapBits(a, i);
      SwapBits(b, i);
      XorBit(SwapHalves(a), SwapHalves(b), i);
      XorBit(a, b, i + 32);
      if i >= 32 { XorBit(a, b, i - 32); }
    }
    SameBits(SwapHalves(XorWords(a, b)), XorWords(SwapHalves(a), SwapHalves(b)));
  }

  // ---------- one step of the shift register ----------

  function Digit(b: bool): nat {
    if b then 1 else 0
  }

  /** The register after one more data bit: (s*x + bit*x^64) mod POLYNOMIAL. */
  function Step(s: Word, bit: bool): (r: Word) {
    PolynomialDegree();
    StepBound(s, bit);
    Reduce(Xor(Shl(s, 1), Shl(Digit(bit), 64)), POLYNOMIAL, 64)
  }

  lemma StepBound(s: Word, bit: bool)
    ensures Xor(Shl(s, 1), Shl(Digit(bit), 64)) < Pow2(65)
    ensures Reduce(Xor(Shl(s, 1), Shl(Digit(bit), 64)), POLYNOMIAL, 64) < Pow2(64)
  {
    PolynomialDegree();
    ShlBound(s, 64, 1);
    ShlBound(Digit(bit), 1, 64);
    XorBound(Shl(s, 1), Shl(Digit(bit), 64), 65);
    ReduceBound(Xor(Shl(s, 1), Shl(Digit(bit), 64)), POLYNOMIAL, 64);
  }

  /** Which bits a step sets: each bit moves up, and the fed-back bit flips the taps. */
  lemma StepBit(s: Word, bit: bool, i: nat)
    ensures Bit(Step(s, bit), i)
        <==> i < 64 && ((i > 0 && Bit(s, i - 1)) != (IsTap(i) && (Bit(s, 63) != bit)))
  {
    PolynomialDegree();
    var d := Digit(bit);
    var t := Xor(Shl(s, 1), Shl(d, 64));
    StepBound(s, bit);
    TopBit(t, 64);
    StepInputBit(s, bit, i);
    StepInputBit(s, bit, 64);
    PolynomialBit(i);
    XorBit(t, POLYNOMIAL, i);
    if i >= 64 { SmallBit(Step(s, bit), 64, i); }
  }

  lemma StepInputBit(s: Word, bit: bool, i: nat)
    ensures Bit(Xor(Shl(s, 1), Shl(Digit(bit), 64)), i)
        <==> ((i > 0 && Bit(s, i - 1)) != (i == 64 && bit))
  {
    ShlBit(s, 1, i);
    OneBit(Digit(bit), 64, i);
    XorBit(Shl(s, 1), Shl(Digit(bit), 64), i);
  }

  function Fed(data: Word, root: Word, n: nat): nat
    requires n <= 64
  {
    Xor(Shl(root, n), Shl(Shr(data, 64 - n), 64))
  }

  /** The register after the n leading bits of data have been shifted in. */
  function Register(data: Word, root: Word, n: nat): Word
    requires n <= 64
  {
    PolynomialDegree();
    RemBound(Fed(data, root, n), POLYNOMIAL, 64);
    Rem(Fed(data, root, n), POLYNOMIAL, 64)
  }

  lemma RegisterStart(data: Word, root: Word)
    ensures Register(data, root, 0) == root
  {
    PolynomialDegree();
    LowBitsSmall(data, 64);
    ShlIsMul(0, 64);
    XorZero(root);
    RemSmall(root, POLYNOMIAL, 64);
  }

  lemma RegisterEnd(data: Word, root: Word)
    ensures SwapHalves(Register(SwapHalves(data), SwapHalves(root), 64)) == Crc(data, root)
  {
    XorShl(SwapHalves(root), SwapHalves(data), 64);
    XorComm(SwapHalves(root), SwapHalves(data));
    SwapXor(data, root);
  }

  lemma {:induction false} ShrNext(x: nat, k: nat)
    ensures Shr(x, k) == 2 * Shr(x, k + 1) + Digit(Bit(x, k))
  {
    if k > 0 { ShrNext(x / 2, k - 1); }
  }

  /** One more data bit doubles what has been fed in and adds the bit at x^64. */
  lemma FedNext(data: Word, root: Word, n: nat)
    requires n < 64
    ensures Fed(data, root, n + 1) == Xor(2 * Fed(data, root, n), Shl(Digit(Bit(data, 63 - n)), 64))
  {
    var d, h := Digit(Bit(data, 63 - n)), Shr(data, 64 - n);
    ShrNext(data, 63 - n);
    AppendDigit(h, d, 64);
    XorAssoc(2 * Shl(root, n), 2 * Shl(h, 64), Shl(d, 64));
    XorDouble(Shl(root, n), Shl(h, 64));
  }

  lemma AppendDigit(h: nat, d: nat, k: nat)
    requires d < 2
    ensures Shl(2 * h + d, k) == Xor(2 * Shl(h, k), Shl(d, k))
  {
    XorDisjoint(h, d, 1);
    XorShl(Shl(h, 1), d, k);
    ShlAdd(h, 1, k);
    ShlAdd(h, k, 1);
  }

  lemma RegisterStep(data: Word, root: Word, n: nat)
    requires n < 64
    ensures Register(data, root, n + 1) == Step(Register(data, root, n), Bit(data, 63 - n))
  {
    PolynomialDegree();
    var bit, x := Bit(data, 63 - n), Fed(data, root, n);
    FedNext(data, root, n);
    RemAdd(2 * x, Shl(Digit(bit), 64), POLYNOMIAL, 64);
    RemDouble(x, POLYNOMIAL, 64);
    StepRem(Register(data, root, n), bit);
  }

  /** Step is the remainder of its input. */
  lemma StepRem(r: Word, bit: bool)
    ensures HasDegree(POLYNOMIAL, 64)
    ensures Step(r, bit) == Xor(Reduce(2 * r, POLYNOMIAL, 64), Rem(Shl(Digit(bit), 64), POLYNOMIAL, 64))
  {
    PolynomialDegree();
    var t := Xor(Shl(r, 1), Shl(Digit(bit), 64));
    StepBound(r, bit);
    LowBitsSplit(t, 1);
    XorShl(r, Shl(Digit(bit), 63), 1);
    ShlAdd(Digit(bit), 63, 1);
    var h := Xor(r, Shl(Digit(bit), 63));
    assert t == 2 * h;
    ShlBound(Digit(bit), 1, 63);
    XorBound(r, Shl(Digit(bit), 63), 64);
    RemSmall(h, POLYNOMIAL, 64);
    RemDouble(h, POLYNOMIAL, 64);
    RemAdd(Shl(r, 1), Shl(Digit(bit), 64), POLYNOMIAL, 64);
    RemSmall(r, POLYNOMIAL, 64);
    RemDouble(r, POLYNOMIAL, 64);
  }
}
