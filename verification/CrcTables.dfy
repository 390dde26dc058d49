/**
 * Byte-wise CRC lookup tables: the Python generator (unbounded integers), the two C generators (16-bit
 * integers), and what a table entry means.
 */
module CrcTables {
  import opened BitOps
  import opened Gf2Poly
  import opened Wrappers

  // ---------- the shift-and-reduce loop ----------

  /** One pass of the inner loop on unbounded integers. */
  function Next(r: nat, p: nat, w: nat): nat
    requires w > 0
  {
    if Bit(r, w - 1) then Xor(Shl(r, 1), p) else Shl(r, 1)
  }

  function Iterate(r: nat, p: nat, w: nat, n: nat): nat
    requires w > 0
  {
    if n == 0 then r else Next(Iterate(r, p, w, n - 1), p, w)
  }

  /** Entry i of the table, as the Python generator stores it. */
  function Entry(i: nat, p: nat, w: nat): nat
    requires w >= 8
  {
    LowBits(Iterate(Shl(i, w - 8), p, w, 8), 16)
  }

  /** The polynomial of degree w that the low w bits of p stand for. */
  function Monic(p: nat, w: nat): nat {
    Pow2(w) + LowBits(p, w)
  }

  lemma MonicDegree(p: nat, w: nat)
    ensures HasDegree(Monic(p, w), w)
    ensures HasDegree(p, w) ==> Monic(p, w) == p
  {
    LowBitsSplit(p, w);
    TwiceAtLeast(Shr(p, w), Pow2(w));
  }

  lemma TwiceAtLeast(q: nat, d: nat)
    ensures q >= 2 ==> q * d >= 2 * d
  {
    if q >= 2 { assert q * d == 2 * d + (q - 2) * d; }
  }

  lemma MonicBit(p: nat, w: nat, i: nat)
    ensures Bit(Monic(p, w), i) <==> i == w || (i < w && Bit(p, i))
  {
    LowBitsSplit(p, w);
    ShlIsMul(1, w);
    XorDisjoint(1, LowBits(p, w), w);
    XorBit(Shl(1, w), LowBits(p, w), i);
    ShlBit(1, w, i);
    if i > w { SmallBit(1, 1, i - w); }
    LowBitsBit(p, w, i);
  }

  lemma NextBit(r: nat, p: nat, w: nat, i: nat)
    requires w > 0
    ensures Bit(Next(r, p, w), i) <==> (i > 0 && Bit(r, i - 1)) != (Bit(r, w - 1) && Bit(p, i))
  {
    ShlBit(r, 1, i);
    XorBit(Shl(r, 1), p, i);
  }

  lemma ShlOne(x: nat)
    ensures Shl(x, 1) == 2 * x
  {
    assert Shl(x, 0) == x;
  }

  /** On the low w bits one pass is one division step, whatever is above them. */
  lemma NextIsReduce(r: nat, p: nat, w: nat)
    requires w > 0
    ensures LowBits(Next(r, p, w), w) == Reduce(2 * LowBits(r, w), Monic(p, w), w)
  {
    MonicDegree(p, w);
    LowBitsSplit(r, w);
    var l, m := LowBits(r, w), Monic(p, w);
    ReduceBound(2 * l, m, w);
    ShlOne(l);
    TopBit(Shl(l, 1), w);
    forall i: nat
      ensures Bit(LowBits(Next(r, p, w), w), i) == Bit(Reduce(2 * l, m, w), i)
    {
      LowBitsBit(Next(r, p, w), w, i);
      NextBit(r, p, w, i);
      ShlBit(l, 1, w);
      ShlBit(l, 1, i);
      LowBitsBit(r, w, w - 1);
      if i > 0 { LowBitsBit(r, w, i - 1); }
      XorBit(Shl(l, 1), m, i);
      MonicBit(p, w, i);
      if i >= w { SmallBit(Reduce(2 * l, m, w), w, i); }
    }
    SameBits(LowBits(Next(r, p, w), w), Reduce(2 * l, m, w));
  }

  /** n passes multiply by x^n modulo the polynomial. */
  lemma {:induction false} IterateIsRemainder(r: nat, p: nat, w: nat, n: nat)
    requires w > 0
    ensures HasDegree(Monic(p, w), w)
    ensures LowBits(Iterate(r, p, w, n), w) == Rem(Shl(LowBits(r, w), n), Monic(p, w), w)
  {
    MonicDegree(p, w);
    if n == 0 {
      LowBitsSplit(r, w);
      RemSmall(LowBits(r, w), Monic(p, w), w);
    } else {
      IterateIsRemainder(r, p, w, n - 1);
      NextIsReduce(Iterate(r, p, w, n - 1), p, w);
      RemDouble(Shl(LowBits(r, w), n - 1), Monic(p, w), w);
    }
  }

  /** The low w bits of entry i are i*x^w mod p, for every polynomial and every width up to 16. */
  lemma EntryIsRemainder(i: nat, p: nat, w: nat)
    requires i < 256 && 8 <= w <= 16
    ensures HasDegree(Monic(p, w), w)
    ensures LowBits(Entry(i, p, w), w) == Rem(Shl(i, w), Monic(p, w), w)
  {
    Pow2Values();
    ShlBound(i, 8, w - 8);
    LowBitsSmall(Shl(i, w - 8), w);
    IterateIsRemainder(Shl(i, w - 8), p, w, 8);
    ShlAdd(i, w - 8, 8);
    LowBitsTwice(Iterate(Shl(i, w - 8), p, w, 8), 16, w);
  }

  lemma LowBitsTwice(x: nat, j: nat, k: nat)
    requires k <= j
    ensures LowBits(LowBits(x, j), k) == LowBits(x, k)
  {
    forall i: nat
      ensures Bit(LowBits(LowBits(x, j), k), i) == Bit(LowBits(x, k), i)
    {
      LowBitsBit(LowBits(x, j), k, i);
      LowBitsBit(x, j, i);
      LowBitsBit(x, k, i);
    }
    SameBits(LowBits(LowBits(x, j), k), LowBits(x, k));
  }

  // ---------- 16-bit arithmetic ----------

  /** Dropping bits 16 and up after every pass gives the same low 16 bits as dropping them at the end. */
  lemma NextTruncated(r: nat, p: nat, w: nat)
    requires 0 < w <= 16
    ensures LowBits(Next(LowBits(r, 16), p, w), 16) == LowBits(Next(r, p, w), 16)
    ensures LowBits(Next(r, LowBits(p, 16), w), 16) == LowBits(Next(r, p, w), 16)
  {
    var x, y, z := Next(r, p, w), Next(LowBits(r, 16), p, w), Next(r, LowBits(p, 16), w);
    forall i: nat
      ensures Bit(LowBits(y, 16), i) == Bit(LowBits(x, 16), i)
      ensures Bit(LowBits(z, 16), i) == Bit(LowBits(x, 16), i)
    {
      LowBitsBit(x, 16, i);
      LowBitsBit(y, 16, i);
      LowBitsBit(z, 16, i);
      NextBit(r, p, w, i);
      NextBit(LowBits(r, 16), p, w, i);
      NextBit(r, LowBits(p, 16), w, i);
      LowBitsBit(r, 16, w - 1);
      LowBitsBit(p, 16, i);
      if i > 0 { LowBitsBit(r, 16, i - 1); }
    }
    SameBits(LowBits(y, 16), LowBits(x, 16));
    SameBits(LowBits(z, 16), LowBits(x, 16));
  }

  /** The register of the 16-bit generator: bits 16 and up are dropped after every pass. */
  function Iterate16(r: nat, p: nat, w: nat, n: nat): nat
    requires w > 0
  {
    if n == 0 then LowBits(r, 16) else LowBits(Next(Iterate16(r, p, w, n - 1), p, w), 16)
  }

  /** Truncating after every pass is truncating once, at the end. */
  lemma {:induction false} TruncatedEveryPass(r: nat, p: nat, w: nat, n: nat)
    requires 0 < w <= 16
    ensures Iterate16(r, p, w, n) == LowBits(Iterate(r, p, w, n), 16)
  {
    if n > 0 {
      TruncatedEveryPass(r, p, w, n - 1);
      NextTruncated(Iterate(r, p, w, n - 1), p, w);
    }
  }

  /** With a polynomial of the stated degree no pass loses a bit: every truncation is the identity. */
  lemma NoBitIsLost(r: nat, p: nat, w: nat, n: nat)
    requires 0 < w < 16 && HasDegree(p, w) && r < Pow2(w)
    ensures Iterate16(r, p, w, n) == Iterate(r, p, w, n) < Pow2(w)
  {
    hide Iterate, Iterate16, HasDegree;
    TruncatedEveryPass(r, p, w, n);
    IterateBound(r, p, w, n);
    Pow2Below(w, 16);
    LowBitsSmall(Iterate(r, p, w, n), 16);
  }

  lemma {:induction false} PolynomialTruncated(r: nat, p: nat, w: nat, n: nat)
    requires 0 < w <= 16
    ensures LowBits(Iterate(r, LowBits(p, 16), w, n), 16) == LowBits(Iterate(r, p, w, n), 16)
  {
    if n > 0 {
      var x, y := Iterate(r, LowBits(p, 16), w, n - 1), Iterate(r, p, w, n - 1);
      PolynomialTruncated(r, p, w, n - 1);
      NextTruncated(x, LowBits(p, 16), w);
      NextTruncated(x, p, w);
      NextTruncated(LowBits(x, 16), p, w);
      NextTruncated(y, p, w);
    }
  }

  // ---------- exactly which polynomials give a table of remainders ----------

  lemma {:induction false} IterateBound(r: nat, p: nat, w: nat, n: nat)
    requires w > 0 && HasDegree(p, w) && r < Pow2(w)
    ensures Iterate(r, p, w, n) < Pow2(w)
  {
    if n > 0 {
      IterateBound(r, p, w, n - 1);
      var x := Iterate(r, p, w, n - 1);
      ShlOne(x);
      TopBit(x, w - 1);
      ReduceBound(2 * x, p, w);
    }
  }

  /** With a polynomial of degree exactly w, the entry itself is the remainder. */
  lemma EntryExact(i: nat, p: nat, w: nat)
    requires i < 256 && 8 <= w <= 16
    requires HasDegree(LowBits(p, 16), w) || w == 16
    ensures HasDegree(Monic(p, w), w)
    ensures Entry(i, p, w) == Rem(Shl(i, w), Monic(p, w), w)
  {
    EntryIsRemainder(i, p, w);
    if w == 16 {
      LowBitsTwice(Iterate(Shl(i, w - 8), p, w, 8), 16, 16);
    } else {
      EntryBound(i, p, w);
      LowBitsSmall(Entry(i, p, w), w);
    }
  }

  lemma EntryBound(i: nat, p: nat, w: nat)
    requires i < 256 && 8 <= w < 16 && HasDegree(LowBits(p, 16), w)
    ensures Entry(i, p, w) < Pow2(w)
  {
    Pow2Values();
    Pow2Below(w, 16);
    ShlBound(i, 8, w - 8);
    IterateBound(Shl(i, w - 8), LowBits(p, 16), w, 8);
    PolynomialTruncated(Shl(i, w - 8), p, w, 8);
    LowBitsSmall(Iterate(Shl(i, w - 8), LowBits(p, 16), w, 8), 16);
  }

  /** Entry 1 is the polynomial with its bit w flipped. */
  lemma EntryOne(p: nat, w: nat)
    requires 8 <= w
    ensures Entry(1, p, w) == LowBits(Xor(Pow2(w), p), 16)
  {
    IterateOne(p, w, 7);
    ShlIsMul(1, w - 1);
    ShlAdd(1, w - 1, 1);
    ShlIsMul(1, w);
    TopBit(Pow2(w - 1), w - 1);
  }

  lemma {:induction false} IterateOne(p: nat, w: nat, n: nat)
    requires 8 <= w && n <= 7
    ensures Iterate(Shl(1, w - 8), p, w, n) == Shl(1, w - 8 + n)
  {
    if n > 0 {
      IterateOne(p, w, n - 1);
      var k := w - 8 + n - 1;
      ShlBit(1, k, w - 1);
      SmallBit(1, 1, w - 1 - k);
      ShlAdd(1, k, 1);
    }
  }

  /**
   * For widths below 16 the table holds the remainders i*x^w mod p exactly when p, read as a 16-bit number,
   * has degree w: the leading bit must be given and nothing above it.
   */
  lemma TableExact(p: nat, w: nat)
    requires 8 <= w < 16
    ensures HasDegree(Monic(p, w), w)
    ensures (forall i: nat | i < 256 :: Entry(i, p, w) == Rem(Shl(i, w), Monic(p, w), w))
       <==> HasDegree(LowBits(p, 16), w)
  {
    MonicDegree(p, w);
    if HasDegree(LowBits(p, 16), w) {
      forall i: nat | i < 256
        ensures Entry(i, p, w) == Rem(Shl(i, w), Monic(p, w), w)
      {
        EntryExact(i, p, w);
      }
    } else {
      RemBound(Shl(1, w), Monic(p, w), w);
      EntryOneTooLarge(p, w);
    }
  }

  lemma EntryOneTooLarge(p: nat, w: nat)
    requires 8 <= w < 16 && !HasDegree(LowBits(p, 16), w)
    ensures Entry(1, p, w) >= Pow2(w)
  {
    EntryOne(p, w);
    XorLowBits(Pow2(w), p, 16);
    Pow2Below(w, 16);
    LowBitsSmall(Pow2(w), 16);
    if Xor(Pow2(w), LowBits(p, 16)) < Pow2(w) {
      DegreeFromXor(LowBits(p, 16), w);
      assert false;
    }
  }

  lemma {:induction false} Pow2Below(j: nat, k: nat)
    requires j < k
    ensures 2 * Pow2(j) <= Pow2(k)
  {
    if j + 1 < k { Pow2Below(j, k - 1); }
  }

  lemma DegreeFromXor(p: nat, w: nat)
    requires Xor(Pow2(w), p) < Pow2(w)
    ensures HasDegree(p, w)
  {
    hide Xor, Shl;
    var x := Xor(Pow2(w), p);
    ShlIsMul(1, w);
    XorDisjoint(1, x, w);
    XorComm(Pow2(w), p);
    XorCancel(p, Pow2(w));
    XorComm(x, Pow2(w));
  }

  /** The table is linear in the index. */
  lemma EntryLinear(i: nat, j: nat, p: nat, w: nat)
    requires i < 256 && j < 256 && 8 <= w <= 16
    requires HasDegree(LowBits(p, 16), w) || w == 16
    ensures Xor(i, j) < 256
    ensures Entry(Xor(i, j), p, w) == Xor(Entry(i, p, w), Entry(j, p, w))
  {
    Pow2Values();
    XorBound(i, j, 8);
    EntryExact(i, p, w);
    EntryExact(j, p, w);
    EntryExact(Xor(i, j), p, w);
    XorShl(i, j, w);
    RemAdd(Shl(i, w), Shl(j, w), Monic(p, w), w);
  }

  // ---------- the generators ----------

  /** `precalculate_crc_table`; a width below 8 makes Python raise on the negative shift. */
  method PrecalculateCrcTable(polynomial: nat, width: nat) returns (r: Option<seq<nat>>)
    ensures r.None? <==> width < 8
    ensures r.Some? ==> r.value == seq(256, i requires 0 <= i < 256 => Entry(i, polynomial, width))
  {
    if width < 8 { return None; }
    var mask := Shl(1, width - 1);
    var table: seq<nat> := [];
    for i := 0 to 256
      invariant |table| == i
      invariant forall k | 0 <= k < i :: table[k] == Entry(k, polynomial, width)
    {
      var remainder := Shl(i, width - 8);
      for n := 0 to 8
        invariant remainder == Iterate(Shl(i, width - 8), polynomial, width, n)
      {
        MaskTest(remainder, width - 1);
        if And(remainder, mask) != 0 {
          remainder := Xor(Shl(remainder, 1), polynomial);
        } else {
          remainder := Shl(remainder, 1);
        }
      }
      Pow2Values();
      AndOnes(remainder, 16);
      remainder := And(remainder, 0xFFFF);
      table := table + [remainder];
    }
    r := Some(table);
  }

  /** Masking with a single bit tests that bit. */
  lemma {:induction false} MaskTest(x: nat, k: nat)
    ensures And(x, Shl(1, k)) != 0 <==> Bit(x, k)
  {
    AndHalf(x, Shl(1, k));
    if k > 0 {
      MaskTest(x / 2, k - 1);
      assert Shl(1, k) / 2 == Shl(1, k - 1);
    } else {
      assert And(x / 2, 0) == 0;
    }
  }

  /**
   * `main` of the C generators, with the table's width and polynomial as parameters: 15 and 0xC599 in one
   * file, 10 and 0x48F in the other.  Every assignment to the 16-bit variable drops the bits above it.
   */
  method GenerateTable16(polynomial: nat, width: nat) returns (table: seq<nat>)
    requires polynomial < 0x10000 && 8 <= width <= 16
    ensures table == seq(256, i requires 0 <= i < 256 => LowBits(Entry(i, polynomial, width), width))
  {
    hide Xor, And;
    table := [];
    for i := 0 to 256
      invariant |table| == i
      invariant forall k | 0 <= k < i :: table[k] == LowBits(Entry(k, polynomial, width), width)
    {
      ghost var start := Shl(i, width - 8);
      var data := LowBits(Shl(i, width - 8), 16);
      for n := 0 to 8
        invariant data == Iterate16(start, polynomial, width, n)
      {
        MaskTest(data, width - 1);
        if And(data, Shl(1, width - 1)) != 0 {
          AssignShifted(data, polynomial);
          data := LowBits(Shl(data, 1), 16);
          data := LowBits(Xor(data, polynomial), 16);
        } else {
          data := LowBits(Shl(data, 1), 16);
        }
      }
      TruncatedEveryPass(start, polynomial, width, 8);
      AndOnes(data, width);
      table := table + [And(data, Pow2(width) - 1)];
    }
  }

  lemma AssignShifted(data: nat, p: nat)
    requires p < 0x10000
    ensures LowBits(Xor(LowBits(Shl(data, 1), 16), p), 16) == LowBits(Xor(Shl(data, 1), p), 16)
  {
    XorLowBits(Shl(data, 1), p, 16);
    XorLowBits(LowBits(Shl(data, 1), 16), p, 16);
    LowBitsTwice(Shl(data, 1), 16, 16);
  }

  /** The 16-bit generator and the unbounded one agree exactly on polynomials of degree `width`. */
  lemma GeneratorsAgree(p: nat, w: nat)
    requires p < 0x10000 && 8 <= w < 16
    ensures (forall i: nat | i < 256 :: LowBits(Entry(i, p, w), w) == Entry(i, p, w)) <==> HasDegree(p, w)
  {
    Pow2Values();
    LowBitsSmall(p, 16);
    TableExact(p, w);
    forall i: nat | i < 256
      ensures LowBits(Entry(i, p, w), w) == Rem(Shl(i, w), Monic(p, w), w)
    {
      EntryIsRemainder(i, p, w);
    }
  }

  lemma ShippedPolynomials()
    ensures HasDegree(0xC599, 15) && HasDegree(0x48F, 10)
  {
    Pow2Values();
    assert Pow2(15) == 0x8000;
    Pow2Add(8, 2);
    assert Pow2(2) == 4;
  }
}
