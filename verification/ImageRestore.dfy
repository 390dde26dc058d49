/** Which binaries come back from vector table and data words, byte for byte. */
module ImageRestore {
  import opened Bytes
  import opened Crc64
  import opened CrcImage
  import opened FirmwareImage
  import opened Sequences

  lemma DataRestores(binary: seq<Byte>, appSize: nat)
    requires |binary| <= appSize && appSize % 8 == 0
    ensures Unwords(DataWords(binary, appSize))
         == (if |binary| < VECTOR_TABLE_BYTES then [] else binary[VECTOR_TABLE_BYTES..])
            + Zeros(appSize - if |binary| < VECTOR_TABLE_BYTES then 0 else |binary| - VECTOR_TABLE_BYTES)
  {
    var data := if |binary| < VECTOR_TABLE_BYTES then [] else binary[VECTOR_TABLE_BYTES..];
    assert Slice(binary, VECTOR_TABLE_BYTES, VECTOR_TABLE_BYTES + |binary|) == data;
    UnwordsWords(Padded(data, appSize), appSize / 8);
  }

  /** What a vector word does to a part of fewer than 8 bytes: it moves the part behind the zeros. */
  function Moved(part: seq<Byte>): seq<Byte>
    requires |part| <= 8
  {
    Zeros(8 - |part|) + part
  }

  lemma {:induction false} ShortNumber(part: seq<Byte>, n: nat)
    requires |part| <= n
    ensures ToBytes(BigEndian(part), n) == Zeros(n - |part|) + part
    decreases n, |part|
  {
    if |part| == n {
      BytesRoundTrip(part);
    } else if part == [] {
      assert ToBytes(0, n - 1) == Zeros(n - 1) by { ShortNumber([], n - 1); }
    } else {
      var m := |part| - 1;
      BigEndianSnoc(part[..m], part[m]);
      assert part == part[..m] + [part[m]];
      ShortNumber(part[..m], n - 1);
    }
  }

  /** The words of a short byte string, written out again, word by word. */
  lemma WordRestores(bytes: seq<Byte>, i: nat)
    ensures var part := Slice(bytes, 8 * i, 8 * (i + 1));
            |part| <= 8 && ToBytes(WordAt(bytes, i), 8) == Moved(part)
  {
    ShortNumber(Slice(bytes, 8 * i, 8 * (i + 1)), 8);
  }

  /** Byte k of words written out is byte k % 8 of word k / 8. */
  lemma {:induction false} UnwordsAt(words: seq<Word>, k: nat)
    requires k < 8 * |words|
    ensures Unwords(words)[k] == ToBytes(words[k / 8], 8)[k % 8]
  {
    if k >= 8 {
      UnwordsAt(words[1..], k - 8);
      assert (k - 8) / 8 == k / 8 - 1 && (k - 8) % 8 == k % 8;
    }
  }

  /** The bytes after the last whole word. */
  function Tail(binary: seq<Byte>): seq<Byte> {
    binary[|binary| - |binary| % 8..]
  }

  predicate IsZero(bytes: seq<Byte>) {
    forall i | 0 <= i < |bytes| :: bytes[i] == 0
  }

  /** Moving a part behind its zeros changes nothing exactly if it is all zeros itself, or a whole word. */
  lemma {:induction false} MovedIsSame(part: seq<Byte>)
    requires |part| < 8
    ensures Moved(part) == part + Zeros(8 - |part|) <==> part == [] || IsZero(part)
  {
    var d := 8 - |part|;
    if Moved(part) == part + Zeros(d) {
      var i := 0;
      while i < |part|
        invariant i <= |part| && forall k | 0 <= k < i :: part[k] == 0
      {
        assert (part + Zeros(d))[i] == part[i];
        assert Moved(part)[i] == if i < d then 0 else part[i - d];
        i := i + 1;
      }
    }
  }

  /** The binaries that survive being cut into four vector words and padded data. */
  predicate IsRestorable(binary: seq<Byte>) {
    |binary| >= VECTOR_TABLE_BYTES || |binary| % 8 == 0 || IsZero(Tail(binary))
  }

  /** Below the size of a vector table, the four words are the whole words, the moved rest, and zeros. */
  lemma ShortVectorAt(binary: seq<Byte>, k: nat)
    requires |binary| < VECTOR_TABLE_BYTES && k < VECTOR_TABLE_BYTES
    ensures var whole := |binary| - |binary| % 8;
            Unwords(Words(Slice(binary, 0, VECTOR_TABLE_BYTES), 4))[k]
            == if k < whole then binary[k]
               else if k < whole + 8 then Moved(Tail(binary))[k - whole]
               else 0
  {
    hide ToBytes, BigEndian, Unwords, WordAt;
    var bytes := Slice(binary, 0, VECTOR_TABLE_BYTES);
    assert bytes == binary;
    UnwordsAt(Words(bytes, 4), k);
    WordRestores(bytes, k / 8);
    var part := Slice(bytes, 8 * (k / 8), 8 * (k / 8 + 1));
    var whole := |binary| - |binary| % 8;
    if k < whole {
      assert |part| == 8 && part[k % 8] == binary[k];
    } else if k < whole + 8 {
      assert k / 8 == |binary| / 8;
      assert part == Tail(binary);
    } else {
      assert part == [];
    }
  }

  /** A short binary is restored exactly if its last bytes are a whole word or all zeros. */
  lemma ShortRestores(binary: seq<Byte>)
    requires |binary| < VECTOR_TABLE_BYTES
    ensures Unwords(Words(Slice(binary, 0, VECTOR_TABLE_BYTES), 4)) == binary + Zeros(VECTOR_TABLE_BYTES - |binary|)
       <==> IsRestorable(binary)
  {
    var whole := |binary| - |binary| % 8;
    var words := Unwords(Words(Slice(binary, 0, VECTOR_TABLE_BYTES), 4));
    var wanted := binary + Zeros(VECTOR_TABLE_BYTES - |binary|);
    var tail := Tail(binary);
    MovedIsSame(tail);
    forall k: nat | k < VECTOR_TABLE_BYTES
      ensures words[k] == if k < whole then binary[k]
                          else if k < whole + 8 then Moved(tail)[k - whole] else 0
    {
      ShortVectorAt(binary, k);
    }
    if words == wanted {
      forall i | 0 <= i < 8
        ensures Moved(tail)[i] == (tail + Zeros(8 - |tail|))[i]
      {
        assert words[whole + i] == wanted[whole + i];
      }
      assert Moved(tail) == tail + Zeros(8 - |tail|);
    }
    if IsRestorable(binary) {
      forall k | 0 <= k < VECTOR_TABLE_BYTES
        ensures words[k] == wanted[k]
      {
        if whole <= k < whole + 8 { assert Moved(tail)[k - whole] == (tail + Zeros(8 - |tail|))[k - whole]; }
      }
      assert words == wanted;
    }
  }

  /** From the vector size on, nothing is moved. */
  lemma LongPrepared(binary: seq<Byte>, appSize: nat)
    requires VECTOR_TABLE_BYTES <= |binary| <= appSize && appSize % 8 == 0
    ensures Unwords(Words(Slice(binary, 0, VECTOR_TABLE_BYTES), 4) + DataWords(binary, appSize))
         == binary + Zeros(appSize + VECTOR_TABLE_BYTES - |binary|)
  {
    hide DataWords, Unwords, Words, Slice, Zeros;
    DataRestores(binary, appSize);
    UnwordsConcat(Words(Slice(binary, 0, VECTOR_TABLE_BYTES), 4), DataWords(binary, appSize));
    LongRestores(binary);
    assert binary == binary[..VECTOR_TABLE_BYTES] + binary[VECTOR_TABLE_BYTES..];
    ConcatAssoc(binary[..VECTOR_TABLE_BYTES], binary[VECTOR_TABLE_BYTES..],
                Zeros(appSize + VECTOR_TABLE_BYTES - |binary|));
  }

  /** Below it, the vector words decide. */
  lemma ShortPrepared(binary: seq<Byte>, appSize: nat)
    requires |binary| < VECTOR_TABLE_BYTES && |binary| <= appSize && appSize % 8 == 0
    ensures Unwords(Words(Slice(binary, 0, VECTOR_TABLE_BYTES), 4) + DataWords(binary, appSize))
              == binary + Zeros(appSize + VECTOR_TABLE_BYTES - |binary|)
       <==> IsRestorable(binary)
  {
    hide DataWords, Unwords, Words, Slice, Zeros, IsRestorable;
    var words := Words(Slice(binary, 0, VECTOR_TABLE_BYTES), 4);
    DataRestores(binary, appSize);
    UnwordsConcat(words, DataWords(binary, appSize));
    ShortRestores(binary);
    NothingAndZeros(appSize);
    PaddingOnly(Unwords(words), binary, appSize);
  }

  lemma NothingAndZeros(n: nat)
    ensures [] + Zeros(n) == Zeros(n)
  {
  }

  /**
   * Vector table and data, written out again, are the binary followed only by zeros, exactly if the binary has
   * the size of a vector table or more, or ends with a whole word, or has only zeros after its last whole word.
   */
  lemma PreparedRestores(binary: seq<Byte>, sizes: seq<nat>, p: Program)
    requires IsPrepared(binary, sizes, p)
    requires forall s | s in sizes :: s % 8 == 0
    ensures |binary| <= p.lenInBytes
    ensures Unwords(p.vectorTable + DataWords(binary, p.lenInBytes))
              == binary + Zeros(p.lenInBytes + VECTOR_TABLE_BYTES - |binary|)
       <==> IsRestorable(binary)
  {
    hide PrefixSum, DataWords, Unwords, Words, Slice, Zeros, IsRestorable, TableOf;
    var k :| 1 <= k <= |sizes| && PrefixSum(sizes, k) == p.lenInBytes;
    PrefixSumWords(sizes, k);
    if |binary| >= VECTOR_TABLE_BYTES {
      LongPrepared(binary, p.lenInBytes);
      LongIsRestorable(binary);
    } else {
      ShortPrepared(binary, p.lenInBytes);
    }
  }

  lemma LongIsRestorable(binary: seq<Byte>)
    requires |binary| >= VECTOR_TABLE_BYTES
    ensures IsRestorable(binary)
  {
  }

  lemma LongRestores(binary: seq<Byte>)
    requires |binary| >= VECTOR_TABLE_BYTES
    ensures Unwords(Words(Slice(binary, 0, VECTOR_TABLE_BYTES), 4)) == binary[..VECTOR_TABLE_BYTES]
  {
    assert Slice(binary, 0, VECTOR_TABLE_BYTES) == binary[..VECTOR_TABLE_BYTES];
    UnwordsWords(binary[..VECTOR_TABLE_BYTES], 4);
  }

  /** The zeros of the data do not matter. */
  lemma PaddingOnly(vector: seq<Byte>, binary: seq<Byte>, size: nat)
    requires |vector| == VECTOR_TABLE_BYTES >= |binary|
    ensures vector + Zeros(size) == binary + Zeros(size + VECTOR_TABLE_BYTES - |binary|)
       <==> vector == binary + Zeros(VECTOR_TABLE_BYTES - |binary|)
  {
    var short := binary + Zeros(VECTOR_TABLE_BYTES - |binary|);
    var long := binary + Zeros(size + VECTOR_TABLE_BYTES - |binary|);
    assert long == short + Zeros(size);
    if vector + Zeros(size) == long {
      assert vector == (vector + Zeros(size))[..VECTOR_TABLE_BYTES] == long[..VECTOR_TABLE_BYTES] == short;
    }
  }

  lemma OneByte(binary: seq<Byte>)
    requires |binary| == 1 && binary[0] == 1
    ensures Tail(binary) == binary && Moved(binary)[0] == 0 && Moved(binary)[7] == 1
    ensures !IsRestorable(binary)
  {
    assert Tail(binary) == binary;
    assert binary[0] != 0;
  }

  /** A binary of the single byte 1 comes back as seven zeros and the byte. */
  lemma OneByteIsMoved()
    ensures !IsRestorable([1])
    ensures Unwords(Words(Slice([1], 0, VECTOR_TABLE_BYTES), 4))[0] == 0
    ensures Unwords(Words(Slice([1], 0, VECTOR_TABLE_BYTES), 4))[7] == 1
  {
    hide Unwords, Words, Slice, Tail, Moved, IsRestorable;
    OneByte([1]);
    ShortVectorAt([1], 0);
    ShortVectorAt([1], 7);
  }

  // ---------- vector tables with a zero word ----------

  lemma {:induction false} ZeroNumber(bytes: seq<Byte>)
    ensures BigEndian(bytes) == 0 <==> IsZero(bytes)
  {
    if bytes != [] {
      var n := |bytes| - 1;
      ZeroNumber(bytes[..n]);
      assert bytes == bytes[..n] + [bytes[n]];
      BigEndianSnoc(bytes[..n], bytes[n]);
      if IsZero(bytes) {
        assert forall i | 0 <= i < n :: bytes[..n][i] == bytes[i];
      } else if IsZero(bytes[..n]) {
        assert forall i | 0 <= i < n :: bytes[..n][i] == bytes[i];
      }
    }
  }

  /** The bytes of vector word i. */
  function VectorPart(binary: seq<Byte>, i: nat): seq<Byte> {
    Slice(Slice(binary, 0, VECTOR_TABLE_BYTES), 8 * i, 8 * (i + 1))
  }

  /** The vector table has a zero word, and is refused, exactly if eight of its bytes that make a word are zeros. */
  lemma ZeroVectorWord(binary: seq<Byte>, sizes: seq<nat>, p: Program)
    requires IsPrepared(binary, sizes, p)
    ensures 0 in p.vectorTable <==> exists i: nat | i < 4 :: IsZero(VectorPart(binary, i))
  {
    hide DataWords, TableOf, PrefixSum, IsZero, BigEndian, VectorPart;
    forall i: nat | i < 4
      ensures p.vectorTable[i] == 0 <==> IsZero(VectorPart(binary, i))
    {
      VectorWord(binary, i);
    }
  }

  lemma VectorWord(binary: seq<Byte>, i: nat)
    requires i < 4
    ensures Words(Slice(binary, 0, VECTOR_TABLE_BYTES), 4)[i] == 0 <==> IsZero(VectorPart(binary, i))
  {
    hide BigEndian, IsZero;
    ZeroNumber(VectorPart(binary, i));
  }

  /** No binary of up to 24 bytes has a vector table without a zero word. */
  lemma ShortHasZeroWord(binary: seq<Byte>, sizes: seq<nat>, p: Program)
    requires IsPrepared(binary, sizes, p) && |binary| <= 24
    ensures 0 in p.vectorTable
  {
    hide DataWords, TableOf, PrefixSum;
    assert IsZero(VectorPart(binary, 3));
    ZeroVectorWord(binary, sizes, p);
  }

  /** And they can all be prepared. */
  lemma ShortIsPrepared(binary: seq<Byte>, sizes: seq<nat>) returns (p: Program)
    requires |binary| <= 24 && sizes != [] && sizes[0] >= 24
    ensures IsPrepared(binary, sizes, p)
  {
    hide DataWords, TableOf, Chain, Words;
    assert PrefixSum(sizes, 0) == 0;
    assert PrefixSum(sizes, 1) == sizes[0];
    forall k | 1 <= k <= |sizes|
      ensures sizes[0] <= PrefixSum(sizes, k)
    {
      PrefixSumMono(sizes, 1, k);
    }
    ShortWords(binary, sizes[0]);
    var words := DataWords(binary, sizes[0]);
    var vectorTable := Words(Slice(binary, 0, VECTOR_TABLE_BYTES), 4);
    p := Program(sizes[0], sizes[0] / 8, vectorTable, Chain(vectorTable, 0), TableOf(words));
  }

  lemma ShortWords(binary: seq<Byte>, size: nat)
    requires |binary| <= 24 <= size
    ensures |DataWords(binary, size)| == size / 8
  {
  }
}
