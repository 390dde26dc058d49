/**
 * Polynomials over GF(2).  The polynomial with coefficient c_i at x^i is the number whose bit i is
 * c_i, so addition is `Xor` and multiplication by x^k is `Shl(_, k)`.  Division with remainder is
 * defined by long division and characterised independently: `RemDivides` and `RemUnique` say that it is
 * the one remainder of degree below the divisor's.
 */
module Gf2Poly {
  import opened BitOps

  /** p times the constant coefficient of c. */
  function Scale(c: nat, p: nat): nat {
    if c % 2 == 1 then p else 0
  }

  /** Polynomial (carry-less) multiplication. */
  function Mul(q: nat, p: nat): nat {
    if q == 0 then 0 else Xor(Scale(q, p), 2 * Mul(q / 2, p))
  }

  predicate HasDegree(p: nat, w: nat) {
    Pow2(w) <= p < Pow2(w + 1)
  }

  /** One division step: cancels the coefficient of x^w, if there is one. */
  function Reduce(r: nat, p: nat, w: nat): nat {
    if r >= Pow2(w) then Xor(r, p) else r
  }

  /** The remainder of a modulo p, by long division. */
  function Rem(a: nat, p: nat, w: nat): nat
    requires HasDegree(p, w)
  {
    if a == 0 then 0 else Reduce(2 * Rem(a / 2, p, w) + a % 2, p, w)
  }

  /** The quotient that the same long division finds. */
  function Quot(a: nat, p: nat, w: nat): nat
    requires HasDegree(p, w)
  {
    if a == 0 then 0
    else 2 * Quot(a / 2, p, w) + if 2 * Rem(a / 2, p, w) + a % 2 >= Pow2(w) then 1 else 0
  }

  lemma ReduceBound(r: nat, p: nat, w: nat)
    requires HasDegree(p, w) && r < Pow2(w + 1)
    ensures Reduce(r, p, w) < Pow2(w)
  {
    if r >= Pow2(w) {
      XorBound(r, p, w + 1);
      TopBit(r, w);
      TopBit(p, w);
      XorBit(r, p, w);
      TopBit(Xor(r, p), w);
    }
  }

  lemma {:induction false} RemBound(a: nat, p: nat, w: nat)
    requires HasDegree(p, w)
    ensures Rem(a, p, w) < Pow2(w)
  {
    if a != 0 {
      RemBound(a / 2, p, w);
      ReduceBound(2 * Rem(a / 2, p, w) + a % 2, p, w);
    }
  }

  lemma MulStep(q: nat, c: nat, p: nat)
    requires c < 2
    ensures Mul(2 * q + c, p) == Xor(2 * Mul(q, p), Scale(c, p))
  {
    XorComm(2 * Mul(q, p), Scale(c, p));
    XorZero(0);
    assert (2 * q + c) / 2 == q && (2 * q + c) % 2 == c;
  }

  /** One long-division step keeps the equation: t == c*p + Reduce(t). */
  lemma ReduceDivides(t: nat, p: nat, w: nat)
    ensures t == Xor(Scale(if t >= Pow2(w) then 1 else 0, p), Reduce(t, p, w))
  {
    if t >= Pow2(w) {
      XorComm(t, p);
      XorAssoc(p, p, t);
      XorSelf(p);
    }
    XorZero(t);
  }

  /** One long-division step, on the product m == q*p reached so far. */
  lemma DivideStep(m: nat, r: nat, c: nat, p: nat, w: nat)
    requires c < 2
    ensures 2 * Xor(m, r) + c
         == Xor(Xor(2 * m, Scale(if 2 * r + c >= Pow2(w) then 1 else 0, p)), Reduce(2 * r + c, p, w))
  {
    var t := 2 * r + c;
    DoubleAdd(m, r, c);
    ReduceDivides(t, p, w);
    XorAssoc(2 * m, Scale(if t >= Pow2(w) then 1 else 0, p), Reduce(t, p, w));
  }

  /** The division equation a == q*p + r. */
  lemma {:induction false} RemDivides(a: nat, p: nat, w: nat)
    requires HasDegree(p, w)
    ensures a == Xor(Mul(Quot(a, p, w), p), Rem(a, p, w))
    ensures Rem(a, p, w) < Pow2(w)
  {
    hide Xor, Pow2, HasDegree;
    RemBound(a, p, w);
    if a == 0 {
      XorZero(0);
    } else {
      RemDivides(a / 2, p, w);
      var q, r := Quot(a / 2, p, w), Rem(a / 2, p, w);
      DivideStep(Mul(q, p), r, a % 2, p, w);
      MulStep(q, if 2 * r + a % 2 >= Pow2(w) then 1 else 0, p);
      assert a == 2 * (a / 2) + a % 2;
    }
  }

  lemma DoubleAdd(m: nat, r: nat, c: nat)
    requires c < 2
    ensures Xor(2 * m, 2 * r + c) == 2 * Xor(m, r) + c
  {
    assert (2 * m) / 2 == m && (2 * r + c) / 2 == r;
  }

  /** A non-zero multiple of p has at least p's degree. */
  lemma {:induction false} MulLarge(q: nat, p: nat, w: nat)
    requires HasDegree(p, w) && q != 0
    ensures Mul(q, p) >= Pow2(w)
  {
    if q / 2 == 0 {
      XorZero(p);
    } else {
      MulLarge(q / 2, p, w);
      var m := Mul(q / 2, p);
      if Mul(q, p) < Pow2(w) {
        XorBound(Mul(q, p), Scale(q, p), w + 1);
        XorComm(Scale(q, p), 2 * m);
        XorCancel(2 * m, Scale(q, p));
        assert false;
      }
    }
  }

  lemma {:induction false} MulAdd(q: nat, s: nat, p: nat)
    ensures Mul(Xor(q, s), p) == Xor(Mul(q, p), Mul(s, p))
  {
    if q == 0 && s == 0 {
      XorZero(0);
    } else {
      MulAdd(q / 2, s / 2, p);
      MulAddStep(q / 2, s / 2, q % 2, s % 2, p);
    }
  }

  lemma MulAddStep(q: nat, s: nat, c: nat, d: nat, p: nat)
    requires c < 2 && d < 2
    requires Mul(Xor(q, s), p) == Xor(Mul(q, p), Mul(s, p))
    ensures Mul(Xor(2 * q + c, 2 * s + d), p) == Xor(Mul(2 * q + c, p), Mul(2 * s + d, p))
  {
    MulStep(q, c, p);
    MulStep(s, d, p);
    MulStep(Xor(q, s), (c + d) % 2, p);
    AddStep(Mul(q, p), Mul(s, p), c, d, p);
    XorAppend(q, s, c, d);
  }

  lemma XorAppend(q: nat, s: nat, c: nat, d: nat)
    requires c < 2 && d < 2
    ensures Xor(2 * q + c, 2 * s + d) == 2 * Xor(q, s) + (c + d) % 2
  {
    assert (2 * q + c) / 2 == q && (2 * s + d) / 2 == s;
  }

  lemma AddStep(m: nat, n: nat, c: nat, d: nat, p: nat)
    requires c < 2 && d < 2
    ensures Xor(Xor(2 * m, Scale(c, p)), Xor(2 * n, Scale(d, p)))
         == Xor(2 * Xor(m, n), Scale((c + d) % 2, p))
  {
    XorSwapMiddle(2 * m, Scale(c, p), 2 * n, Scale(d, p));
    XorDouble(m, n);
    ScaleAdd(c, d, p);
  }

  lemma ScaleAdd(c: nat, d: nat, p: nat)
    requires c < 2 && d < 2
    ensures Scale((c + d) % 2, p) == Xor(Scale(c, p), Scale(d, p))
  {
    XorSelf(p);
    XorZero(p);
    XorZero(0);
  }

  /** Any expression a == q*p + r with deg r < deg p is the one that long division finds. */
  lemma RemUnique(a: nat, p: nat, w: nat, q: nat, r: nat)
    requires HasDegree(p, w)
    requires a == Xor(Mul(q, p), r) && r < Pow2(w)
    ensures r == Rem(a, p, w) && q == Quot(a, p, w)
  {
    RemDivides(a, p, w);
    var q', r' := Quot(a, p, w), Rem(a, p, w);
    XorSwapMiddle(Mul(q, p), r, Mul(q', p), r');
    XorSelf(a);
    MulAdd(q, q', p);
    XorEqualsZero(Mul(Xor(q, q'), p), Xor(r, r'));
    XorBound(r, r', w);
    if Xor(q, q') != 0 {
      MulLarge(Xor(q, q'), p, w);
      assert false;
    }
    XorEqualsZero(q, q');
    XorEqualsZero(r, r');
  }

  // ---------- algebra of remainders ----------

  lemma {:induction false} RemSmall(a: nat, p: nat, w: nat)
    requires HasDegree(p, w) && a < Pow2(w)
    ensures Rem(a, p, w) == a
  {
    XorZero(a);
    RemUnique(a, p, w, 0, a);
  }

  lemma RemAdd(a: nat, b: nat, p: nat, w: nat)
    requires HasDegree(p, w)
    ensures Rem(Xor(a, b), p, w) == Xor(Rem(a, p, w), Rem(b, p, w))
  {
    RemDivides(a, p, w);
    RemDivides(b, p, w);
    var q, s := Quot(a, p, w), Quot(b, p, w);
    XorSwapMiddle(Mul(q, p), Rem(a, p, w), Mul(s, p), Rem(b, p, w));
    MulAdd(q, s, p);
    XorBound(Rem(a, p, w), Rem(b, p, w), w);
    RemUnique(Xor(a, b), p, w, Xor(q, s), Xor(Rem(a, p, w), Rem(b, p, w)));
  }

  lemma RemDouble(a: nat, p: nat, w: nat)
    requires HasDegree(p, w)
    ensures Rem(2 * a, p, w) == Reduce(2 * Rem(a, p, w), p, w)
  {
    hide Xor, Pow2;
    assert (2 * a) / 2 == a && (2 * a) % 2 == 0;
  }

  lemma {:induction false} RemShl(a: nat, k: nat, p: nat, w: nat)
    requires HasDegree(p, w)
    ensures Rem(Shl(a, k), p, w) == Rem(Shl(Rem(a, p, w), k), p, w)
  {
    if k == 0 {
      RemBound(a, p, w);
      RemSmall(Rem(a, p, w), p, w);
    } else {
      RemShl(a, k - 1, p, w);
      RemDouble(Shl(a, k - 1), p, w);
      RemDouble(Shl(Rem(a, p, w), k - 1), p, w);
    }
  }

  /** x is invertible modulo a polynomial with constant term 1, hence so is every power of x. */
  lemma {:induction false} RemShlZero(a: nat, k: nat, p: nat, w: nat)
    requires HasDegree(p, w) && p % 2 == 1 && a < Pow2(w)
    requires Rem(Shl(a, k), p, w) == 0
    ensures a == 0
  {
    if k == 0 {
      RemSmall(a, p, w);
    } else {
      var r := Rem(Shl(a, k - 1), p, w);
      RemDouble(Shl(a, k - 1), p, w);
      assert r == 0 by {
        if 2 * r >= Pow2(w) {
          XorEqualsZero(2 * r, p);
          assert false;
        }
      }
      RemShlZero(a, k - 1, p, w);
    }
  }

  lemma RemShlInjective(a: nat, b: nat, k: nat, p: nat, w: nat)
    requires HasDegree(p, w) && p % 2 == 1 && a < Pow2(w) && b < Pow2(w)
    requires Rem(Shl(a, k), p, w) == Rem(Shl(b, k), p, w)
    ensures a == b
  {
    XorShl(a, b, k);
    RemAdd(Shl(a, k), Shl(b, k), p, w);
    XorSelf(Rem(Shl(a, k), p, w));
    XorBound(a, b, w);
    RemShlZero(Xor(a, b), k, p, w);
    XorEqualsZero(a, b);
  }
}
