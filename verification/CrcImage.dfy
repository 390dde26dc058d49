/**
 * Signatures of whole images: the running signature that the host tool tabulates, word after word, and that
 * the embedded bootloader recomputes sector after sector.
 */
module CrcImage {
  import opened BitOps
  import opened Gf2Poly
  import opened Crc64

  /** The signature of a sequence of words from a root. */
  function Chain(words: seq<Word>, root: Word): Word {
    if words == [] then root else Chain(words[1..], Crc(words[0], root))
  }

  /** The running signatures: entry k covers words 0 to k. */
  function Column(words: seq<Word>, root: Word): (c: seq<Word>)
    ensures |c| == |words|
  {
    if words == [] then [] else [Crc(words[0], root)] + Column(words[1..], Crc(words[0], root))
  }

  function XorImages(a: seq<Word>, b: seq<Word>): (r: seq<Word>)
    requires |a| == |b|
    ensures |r| == |a|
    ensures forall i | 0 <= i < |a| :: r[i] == XorWords(a[i], b[i])
  {
    seq(|a|, i requires 0 <= i < |a| => XorWords(a[i], b[i]))
  }

  // ---------- one word ----------

  /** (root + data) is all that a signature depends on, and it can be recovered from it. */
  lemma CrcInjective(d1: Word, r1: Word, d2: Word, r2: Word)
    ensures Crc(d1, r1) == Crc(d2, r2) <==> XorWords(d1, r1) == XorWords(d2, r2)
  {
    if Crc(d1, r1) == Crc(d2, r2) {
      PolynomialDegree();
      var a, b := SwapHalves(XorWords(d1, r1)), SwapHalves(XorWords(d2, r2));
      RemBound(Shl(a, 64), POLYNOMIAL, 64);
      RemBound(Shl(b, 64), POLYNOMIAL, 64);
      SwapTwice(Rem(Shl(a, 64), POLYNOMIAL, 64));
      SwapTwice(Rem(Shl(b, 64), POLYNOMIAL, 64));
      RemShlInjective(a, b, 64, POLYNOMIAL, 64);
      SwapTwice(XorWords(d1, r1));
      SwapTwice(XorWords(d2, r2));
    }
  }

  lemma CrcSameRoot(d1: Word, d2: Word, root: Word)
    ensures Crc(d1, root) == Crc(d2, root) <==> d1 == d2
  {
    CrcInjective(d1, root, d2, root);
    XorCancel(d1, root);
    XorCancel(d2, root);
  }

  lemma CrcSameData(data: Word, r1: Word, r2: Word)
    ensures Crc(data, r1) == Crc(data, r2) <==> r1 == r2
  {
    CrcInjective(data, r1, data, r2);
    XorComm(data, r1);
    XorComm(data, r2);
    XorCancel(r1, data);
    XorCancel(r2, data);
  }

  lemma CrcAdd(d1: Word, r1: Word, d2: Word, r2: Word)
    ensures Crc(XorWords(d1, d2), XorWords(r1, r2)) == XorWords(Crc(d1, r1), Crc(d2, r2))
  {
    PolynomialDegree();
    var a, b := XorWords(d1, r1), XorWords(d2, r2);
    XorSwapMiddle(d1, d2, r1, r2);
    SwapXor(a, b);
    XorShl(SwapHalves(a), SwapHalves(b), 64);
    RemAdd(Shl(SwapHalves(a), 64), Shl(SwapHalves(b), 64), POLYNOMIAL, 64);
    RemBound(Shl(SwapHalves(a), 64), POLYNOMIAL, 64);
    RemBound(Shl(SwapHalves(b), 64), POLYNOMIAL, 64);
    SwapXor(Rem(Shl(SwapHalves(a), 64), POLYNOMIAL, 64), Rem(Shl(SwapHalves(b), 64), POLYNOMIAL, 64));
  }

  // ---------- cutting an image into pieces ----------

  /** Each piece may be rooted at the signature of what precedes it. */
  lemma {:induction false} ChainConcat(a: seq<Word>, b: seq<Word>, root: Word)
    ensures Chain(a + b, root) == Chain(b, Chain(a, root))
  {
    if a == [] {
      assert a + b == b;
    } else {
      assert (a + b)[1..] == a[1..] + b;
      ChainConcat(a[1..], b, Crc(a[0], root));
    }
  }

  lemma {:induction false} ColumnConcat(a: seq<Word>, b: seq<Word>, root: Word)
    ensures Column(a + b, root) == Column(a, root) + Column(b, Chain(a, root))
  {
    if a == [] {
      assert a + b == b;
    } else {
      assert (a + b)[1..] == a[1..] + b;
      ColumnConcat(a[1..], b, Crc(a[0], root));
    }
  }

  /** Row k is the signature of words 0 to k. */
  lemma {:induction false} ColumnAt(words: seq<Word>, root: Word, k: nat)
    requires k < |words|
    ensures Column(words, root)[k] == Chain(words[..k + 1], root)
  {
    assert words[..k + 1][1..] == words[1..][..k];
    if k > 0 {
      ColumnAt(words[1..], Crc(words[0], root), k - 1);
    }
  }

  lemma ChainSnoc(words: seq<Word>, w: Word, root: Word)
    ensures Chain(words + [w], root) == Crc(w, Chain(words, root))
  {
    ChainConcat(words, [w], root);
    assert [w][1..] == [];
  }

  // ---------- the polynomial of an image ----------

  /** The image as one polynomial, first word in the highest place, each word in swapped order. */
  function Message(words: seq<Word>): nat {
    if words == [] then 0
    else Shl(Message(words[..|words| - 1]), 64) + SwapHalves(words[|words| - 1])
  }

  /** Appending the digit v to m*x^k, when c is already the remainder of m*x^k. */
  lemma RemAppend(m: nat, v: nat, k: nat, p: nat, w: nat)
    requires HasDegree(p, w) && v < Pow2(w) && v < Pow2(k)
    ensures Rem(Shl(Xor(v, Rem(Shl(m, k), p, w)), k), p, w) == Rem(Shl(Shl(m, k) + v, k), p, w)
  {
    XorDisjoint(m, v, k);
    RemSmall(v, p, w);
    RemAdd(Shl(m, k), v, p, w);
    XorComm(v, Rem(Shl(m, k), p, w));
    RemShl(Xor(Shl(m, k), v), k, p, w);
  }

  lemma CrcUnswapped(data: Word, root: Word)
    ensures HasDegree(POLYNOMIAL, 64)
    ensures SwapHalves(Crc(data, root)) == Rem(Shl(Xor(SwapHalves(data), SwapHalves(root)), 64), POLYNOMIAL, 64)
  {
    PolynomialDegree();
    SwapXor(data, root);
    RemBound(Shl(SwapHalves(XorWords(data, root)), 64), POLYNOMIAL, 64);
    SwapTwice(Rem(Shl(SwapHalves(XorWords(data, root)), 64), POLYNOMIAL, 64));
  }

  /** One more word appended to an image whose signature is the remainder of m*x^64. */
  lemma RemainderStep(m: nat, c: Word, w: Word)
    requires HasDegree(POLYNOMIAL, 64)
    requires SwapHalves(c) == Rem(Shl(m, 64), POLYNOMIAL, 64)
    ensures SwapHalves(Crc(w, c)) == Rem(Shl(Shl(m, 64) + SwapHalves(w), 64), POLYNOMIAL, 64)
  {
    hide Rem, Crc, SwapHalves, Shl, Xor;
    PolynomialDegree();
    CrcUnswapped(w, c);
    RemAppend(m, SwapHalves(w), 64, POLYNOMIAL, 64);
  }

  lemma MessageSnoc(words: seq<Word>, w: Word)
    ensures Message(words + [w]) == Shl(Message(words), 64) + SwapHalves(w)
  {
    assert (words + [w])[..|words|] == words;
  }

  /** The signature of an image is the remainder of its polynomial times x^64. */
  lemma {:induction false} ChainIsRemainder(words: seq<Word>)
    ensures HasDegree(POLYNOMIAL, 64)
    ensures SwapHalves(Chain(words, 0)) == Rem(Shl(Message(words), 64), POLYNOMIAL, 64)
  {
    PolynomialDegree();
    if words == [] {
      ShlIsMul(0, 64);
    } else {
      var front, last := words[..|words| - 1], words[|words| - 1];
      ChainIsRemainder(front);
      AppendToRemainder(front, last);
      assert words == front + [last];
    }
  }

  lemma AppendToRemainder(words: seq<Word>, w: Word)
    requires HasDegree(POLYNOMIAL, 64)
    requires SwapHalves(Chain(words, 0)) == Rem(Shl(Message(words), 64), POLYNOMIAL, 64)
    ensures SwapHalves(Chain(words + [w], 0)) == Rem(Shl(Message(words + [w]), 64), POLYNOMIAL, 64)
  {
    var m, c := Message(words), Chain(words, 0);
    ChainSnoc(words, w, 0);
    MessageSnoc(words, w);
    RemainderStep(m, c, w);
  }

  /** Every row of the table is the remainder of the words up to it. */
  lemma ColumnIsRemainder(words: seq<Word>, k: nat)
    requires k < |words|
    ensures HasDegree(POLYNOMIAL, 64)
    ensures SwapHalves(Column(words, 0)[k]) == Rem(Shl(Message(words[..k + 1]), 64), POLYNOMIAL, 64)
  {
    ColumnAt(words, 0, k);
    ChainIsRemainder(words[..k + 1]);
  }

  // ---------- linearity and error detection ----------

  /** Adding two images adds their columns. */
  lemma {:induction false} ColumnAdd(a: seq<Word>, b: seq<Word>, r: Word, s: Word)
    requires |a| == |b|
    ensures Column(XorImages(a, b), XorWords(r, s)) == XorImages(Column(a, r), Column(b, s))
  {
    if a != [] {
      CrcAdd(a[0], r, b[0], s);
      assert XorImages(a, b)[1..] == XorImages(a[1..], b[1..]);
      ColumnAdd(a[1..], b[1..], Crc(a[0], r), Crc(b[0], s));
    }
  }

  /** And so it adds the signatures of the whole. */
  lemma ChainAdd(a: seq<Word>, b: seq<Word>, r: Word, s: Word)
    requires |a| == |b|
    ensures Chain(XorImages(a, b), XorWords(r, s)) == XorWords(Chain(a, r), Chain(b, s))
  {
    hide Column, Chain;
    if a == [] {
      NoChain(r, s);
      NoChain(XorWords(r, s), s);
      assert XorImages(a, b) == [] && b == [];
    } else {
      var n := |a|;
      ColumnAdd(a, b, r, s);
      ColumnAt(a, r, n - 1);
      ColumnAt(b, s, n - 1);
      ColumnAt(XorImages(a, b), XorWords(r, s), n - 1);
      assert a[..n] == a && b[..n] == b && XorImages(a, b)[..n] == XorImages(a, b);
    }
  }

  lemma NoChain(r: Word, s: Word)
    ensures Chain([], r) == r && Chain([], s) == s
  {
  }

  lemma {:induction false} ChainSameWords(words: seq<Word>, r: Word, s: Word)
    ensures Chain(words, r) == Chain(words, s) <==> r == s
  {
    if words != [] {
      CrcSameData(words[0], r, s);
      ChainSameWords(words[1..], Crc(words[0], r), Crc(words[0], s));
    }
  }

  lemma FirstWordDetected(w: Word, v: Word, tail: seq<Word>, root: Word)
    ensures Chain([w] + tail, root) == Chain([v] + tail, root) <==> w == v
  {
    assert ([w] + tail)[1..] == tail && ([v] + tail)[1..] == tail;
    CrcSameRoot(w, v, root);
    ChainSameWords(tail, Crc(w, root), Crc(v, root));
  }

  /** Changing exactly one word leaves every earlier row as it was and changes every row from it on. */
  lemma OneWordDetected(words: seq<Word>, at: nat, w: Word, root: Word, k: nat)
    requires at < |words| && k < |words| && w != words[at]
    ensures Column(words[at := w], root)[k] == Column(words, root)[k] <==> k < at
  {
    ColumnAt(words, root, k);
    ColumnAt(words[at := w], root, k);
    if k < at {
      assert words[at := w][..k + 1] == words[..k + 1];
    } else {
      assert words[at := w][..k + 1] == words[..k + 1][at := w];
      OneWordChangesChain(words[..k + 1], at, w, root);
    }
  }

  lemma OneWordChangesChain(words: seq<Word>, at: nat, w: Word, root: Word)
    requires at < |words| && w != words[at]
    ensures Chain(words[at := w], root) != Chain(words, root)
  {
    var head, tail := words[..at], words[at + 1..];
    assert words == head + ([words[at]] + tail);
    assert words[at := w] == head + ([w] + tail);
    ChainConcat(head, [words[at]] + tail, root);
    ChainConcat(head, [w] + tail, root);
    FirstWordDetected(words[at], w, tail, Chain(head, root));
  }

  /** The whole column determines the image. */
  lemma {:induction false} ColumnDeterminesImage(a: seq<Word>, b: seq<Word>, root: Word)
    ensures Column(a, root) == Column(b, root) <==> a == b
  {
    if a != [] && b != [] && Column(a, root) == Column(b, root) {
      var ca, cb := Column(a, root), Column(b, root);
      assert ca[0] == cb[0] && ca[1..] == cb[1..];
      CrcSameRoot(a[0], b[0], root);
      ColumnDeterminesImage(a[1..], b[1..], Crc(a[0], root));
      assert a == [a[0]] + a[1..] && b == [b[0]] + b[1..];
    }
  }

  /** The signature of the word 1 from the root 0: x^96 is x^32 times the lower part of the polynomial. */
  lemma KnownSignature()
    ensures Crc(1, 0) == 0x1B
  {
    hide Rem, Xor, Pow2, HasDegree, Shl;
    PolynomialDegree();
    Pow2Values();
    XorZero(1);
    ShlIsMul(1, 32);
    ShlAdd(1, 32, 64);
    ShlAdd(1, 64, 32);
    HighestPower();
    RemShl(Shl(1, 64), 32, POLYNOMIAL, 64);
    ShlIsMul(0x1B, 32);
    RemSmall(0x1B_0000_0000, POLYNOMIAL, 64);
    assert SwapHalves(1) == 0x1_0000_0000 && SwapHalves(0x1B_0000_0000) == 0x1B;
  }

  lemma HighestPower()
    ensures HasDegree(POLYNOMIAL, 64) && Rem(Shl(1, 64), POLYNOMIAL, 64) == 0x1B
  {
    hide Rem, Xor, Pow2, HasDegree, Shl;
    PolynomialDegree();
    Pow2Values();
    ShlIsMul(1, 64);
    XorDisjoint(1, 0x1B, 64);
    XorCancel(Shl(1, 64), 0x1B);
    XorZero(POLYNOMIAL);
    assert Mul(1, POLYNOMIAL) == Xor(POLYNOMIAL, 2 * Mul(0, POLYNOMIAL)) == POLYNOMIAL;
    RemUnique(Shl(1, 64), POLYNOMIAL, 64, 1, 0x1B);
  }
}
