/**
 * The two bit-serial loops that compute the 64-bit signature: the Python function of the host tool and
 * the C function that the embedded bootloader runs on a vector table.
 */
module Crc64Loops {
  import opened BitOps
  import opened Crc64

  // ---------- host tool ----------

  /** One iteration of the host's loop, in the operators that it uses. */
  function HostNext(next: Word, bit: nat): nat {
    var start := Xor(Shr(next, 63), bit);
    var one := Xor(start, And(Shr(next, 0), 1));
    var three := Xor(start, And(Shr(next, 2), 1));
    var four := Xor(start, And(Shr(next, 3), 1));
    Or(And(Shl(next, 1), MASK_BITS), Or(Or(Or(Shl(start, 0), Shl(one, 1)), Shl(three, 3)), Shl(four, 4)))
  }

  lemma SingleBit(x: nat, k: nat)
    ensures And(Shr(x, k), 1) == Digit(Bit(x, k))
  {
    ShrBit(x, k, 0);
    assert And(Shr(x, k) / 2, 0) == 0;
  }

  lemma XorDigits(a: bool, b: bool)
    ensures Xor(Digit(a), Digit(b)) == Digit(a != b)
  {
  }

  lemma TopDigit(x: Word)
    ensures Shr(x, 63) == Digit(Bit(x, 63))
  {
    PolynomialDegree();
    LowBitsSmall(x, 64);
    ShrNext(x, 63);
  }

  /** The assembled word of one iteration, from its four patched bits. */
  function Patched(next: Word, b0: bool, b1: bool, b3: bool, b4: bool): nat {
    Or(And(Shl(next, 1), MASK_BITS),
       Or(Or(Or(Shl(Digit(b0), 0), Shl(Digit(b1), 1)), Shl(Digit(b3), 3)), Shl(Digit(b4), 4)))
  }

  lemma PatchedBit(next: Word, b0: bool, b1: bool, b3: bool, b4: bool, i: nat)
    ensures Bit(Patched(next, b0, b1, b3, b4), i)
        <==> if i == 0 then b0 else if i == 1 then b1 else if i == 3 then b3 else if i == 4 then b4
             else i < 64 && Bit(next, i - 1)
  {
    var p0, p1, p3, p4 := Shl(Digit(b0), 0), Shl(Digit(b1), 1), Shl(Digit(b3), 3), Shl(Digit(b4), 4);
    OneBit(Digit(b0), 0, i);
    OneBit(Digit(b1), 1, i);
    OneBit(Digit(b3), 3, i);
    OneBit(Digit(b4), 4, i);
    OrBit(p0, p1, i);
    OrBit(Or(p0, p1), p3, i);
    OrBit(Or(Or(p0, p1), p3), p4, i);
    OrBit(And(Shl(next, 1), MASK_BITS), Or(Or(Or(p0, p1), p3), p4), i);
    MaskBit(i);
    ShlBit(next, 1, i);
    AndBit(Shl(next, 1), MASK_BITS, i);
  }

  /** The hand-patched bits 0, 1, 3 and 4 add up to one division step. */
  lemma PatchedIsStep(next: Word, bit: bool)
    ensures var s := Bit(next, 63) != bit;
            Patched(next, s, s != Bit(next, 0), s != Bit(next, 2), s != Bit(next, 3)) == Step(next, bit)
  {
    hide Bit, Patched, Step;
    var s := Bit(next, 63) != bit;
    var p := Patched(next, s, s != Bit(next, 0), s != Bit(next, 2), s != Bit(next, 3));
    forall i: nat
      ensures Bit(p, i) == Bit(Step(next, bit), i)
    {
      PatchedBit(next, s, s != Bit(next, 0), s != Bit(next, 2), s != Bit(next, 3), i);
      StepBit(next, bit, i);
    }
    SameBits(p, Step(next, bit));
  }

  lemma HostNextIsStep(next: Word, bit: bool)
    ensures HostNext(next, Digit(bit)) == Step(next, bit)
  {
    var s := Bit(next, 63) != bit;
    TopDigit(next);
    SingleBit(next, 0);
    SingleBit(next, 2);
    SingleBit(next, 3);
    XorDigits(Bit(next, 63), bit);
    XorDigits(s, Bit(next, 0));
    XorDigits(s, Bit(next, 2));
    XorDigits(s, Bit(next, 3));
    PatchedIsStep(next, bit);
  }

  /** `generate_crc_64_for_tms570_on_board_crc_calculation` */
  method GenerateCrc64(data64: Word, crc64: Word) returns (r: Word)
    ensures r == Crc(data64, crc64)
  {
    var crc := Or(Shr(crc64, 32), Shl(And(crc64, 0xFFFFFFFF), 32));
    var data := Or(Shr(data64, 32), Shl(And(data64, 0xFFFFFFFF), 32));
    SwapExpression(crc64);
    SwapExpression(data64);
    var maskBits := MASK_BITS;
    var next: Word := crc;
    RegisterStart(data, crc);
    var i := 63;
    while i >= 0
      invariant -1 <= i <= 63
      invariant next == Register(data, crc, 63 - i)
    {
      var body := Shl(next, 1);
      var mask := And(body, maskBits);
      SingleBit(data, i);
      var start := Xor(Shr(next, 63), And(Shr(data, i), 1));
      var one := Xor(start, And(Shr(next, 0), 1));
      var three := Xor(start, And(Shr(next, 2), 1));
      var four := Xor(start, And(Shr(next, 3), 1));
      HostNextIsStep(next, Bit(data, i));
      RegisterStep(data, crc, 63 - i);
      next := Or(mask, Or(Or(Or(Shl(start, 0), Shl(one, 1)), Shl(three, 3)), Shl(four, 4)));
      i := i - 1;
    }
    RegisterEnd(data64, crc64);
    SwapExpression(next);
    r := Or(Shr(next, 32), Shl(And(next, 0xFFFFFFFF), 32));
  }

  // ---------- embedded bootloader ----------

  const ALL_ONES: Word := 0xFFFF_FFFF_FFFF_FFFF

  /** `x & ~(1 << j) | b << j` on 64 bits */
  function SetBit(x: Word, j: nat, b: bool): nat {
    Or(And(x, Xor(ALL_ONES, Shl(1, j))), Shl(Digit(b), j))
  }

  lemma SetBitBits(x: Word, j: nat, b: bool, i: nat)
    requires j < 64
    ensures Bit(SetBit(x, j, b), i) <==> if i == j then b else Bit(x, i)
  {
    PolynomialDegree();
    OneBit(1, j, i);
    OnesBit(64, i);
    XorBit(ALL_ONES, Shl(1, j), i);
    AndBit(x, Xor(ALL_ONES, Shl(1, j)), i);
    OneBit(Digit(b), j, i);
    OrBit(And(x, Xor(ALL_ONES, Shl(1, j))), Shl(Digit(b), j), i);
    if i >= 64 { SmallBit(x, 64, i); }
  }

  lemma BitsBound(x: nat)
    requires forall i: nat | i >= 64 :: !Bit(x, i)
    ensures x < Pow2(64)
  {
    forall i: nat
      ensures Bit(x, i) == Bit(LowBits(x, 64), i)
    {
      LowBitsBit(x, 64, i);
    }
    SameBits(x, LowBits(x, 64));
    LowBitsSplit(x, 64);
  }

  lemma SetBitBound(x: Word, j: nat, b: bool)
    requires j < 64
    ensures SetBit(x, j, b) < Pow2(64)
  {
    PolynomialDegree();
    forall i: nat | i >= 64
      ensures !Bit(SetBit(x, j, b), i)
    {
      SetBitBits(x, j, b, i);
      SmallBit(x, 64, i);
    }
    BitsBound(SetBit(x, j, b));
  }

  /**
   * The first statement of the outer loop: `data >> i` is not masked, so it also writes bits 1 to 63,
   * which the inner loop then overwrites.
   */
  lemma FirstBit(next: Word, crc: Word, data: Word, i: nat)
    requires i < 64
    ensures Bit(Or(And(next, 0xFFFF_FFFF_FFFF_FFFE), Xor(Shr(crc, 63), Shr(data, i))), 0)
        <==> Bit(crc, 63) != Bit(data, i)
    ensures Or(And(next, 0xFFFF_FFFF_FFFF_FFFE), Xor(Shr(crc, 63), Shr(data, i))) < Pow2(64)
  {
    PolynomialDegree();
    var low := Xor(Shr(crc, 63), Shr(data, i));
    forall k: nat | k == 0 || k >= 64
      ensures Bit(Or(And(next, 0xFFFF_FFFF_FFFF_FFFE), low), k)
          <==> k == 0 && (Bit(crc, 63) != Bit(data, i))
    {
      OrBit(And(next, 0xFFFF_FFFF_FFFF_FFFE), low, k);
      AndBit(next, 0xFFFF_FFFF_FFFF_FFFE, k);
      XorBit(Shr(crc, 63), Shr(data, i), k);
      ShrBit(crc, 63, k);
      ShrBit(data, i, k);
      if k >= 64 {
        SmallBit(next, 64, k);
        SmallBit(crc, 64, 63 + k);
        SmallBit(data, 64, i + k);
      }
    }
    BitsBound(Or(And(next, 0xFFFF_FFFF_FFFF_FFFE), low));
  }

  /** `crc64_update_word` */
  method UpdateWord(crc64: Word, data: Word) returns (crc: Word)
    ensures crc == Register(data, crc64, 64)
  {
    PolynomialDegree();
    crc := crc64;
    RegisterStart(data, crc64);
    var next: Word := 0;
    var i := 63;
    while i >= 0
      invariant -1 <= i <= 63
      invariant crc == Register(data, crc64, 63 - i)
    {
      ghost var target := Step(crc, Bit(data, i));
      FirstBit(next, crc, data, i);
      next := Or(And(next, 0xFFFF_FFFF_FFFF_FFFE), Xor(Shr(crc, 63), Shr(data, i)));
      StepBit(crc, Bit(data, i), 0);
      var j := 1;
      while j < 64
        invariant 1 <= j <= 64
        invariant forall k: nat | k < j :: Bit(next, k) == Bit(target, k)
      {
        StepBit(crc, Bit(data, i), j);
        SingleBit(crc, j - 1);
        var b;
        if j == 1 || j == 3 || j == 4 {
          FeedbackDigit(crc, data, i, j);
          b := And(Xor(Xor(Shr(crc, j - 1), Shr(crc, 63)), Shr(data, i)), 1);
        } else {
          b := And(Shr(crc, j - 1), 1);
        }
        assert b == Digit(Bit(target, j));
        ghost var before := next;
        SetBitBound(next, j, Bit(target, j));
        next := Or(And(next, Xor(ALL_ONES, Shl(1, j))), Shl(b, j));
        forall k: nat | k < j + 1
          ensures Bit(next, k) == Bit(target, k)
        {
          SetBitBits(before, j, Bit(target, j), k);
        }
        j := j + 1;
      }
      SameWords(next, target);
      RegisterStep(data, crc64, 63 - i);
      crc := next;
      i := i - 1;
    }
  }

  lemma FeedbackDigit(crc: Word, data: Word, i: nat, j: nat)
    requires 1 <= j
    ensures And(Xor(Xor(Shr(crc, j - 1), Shr(crc, 63)), Shr(data, i)), 1)
         == Digit((Bit(crc, j - 1) != Bit(crc, 63)) != Bit(data, i))
  {
    var x := Xor(Xor(Shr(crc, j - 1), Shr(crc, 63)), Shr(data, i));
    SingleBit(x, 0);
    XorBit(Xor(Shr(crc, j - 1), Shr(crc, 63)), Shr(data, i), 0);
    XorBit(Shr(crc, j - 1), Shr(crc, 63), 0);
    ShrBit(crc, j - 1, 0);
    ShrBit(crc, 63, 0);
    ShrBit(data, i, 0);
  }

  lemma SameWords(a: Word, b: Word)
    requires forall k: nat | k < 64 :: Bit(a, k) == Bit(b, k)
    ensures a == b
  {
    PolynomialDegree();
    forall k: nat
      ensures Bit(a, k) == Bit(b, k)
    {
      if k >= 64 {
        SmallBit(a, 64, k);
        SmallBit(b, 64, k);
      }
    }
    SameBits(a, b);
  }
}
