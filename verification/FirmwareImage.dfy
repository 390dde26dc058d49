/**
 * From the raw application binary to what the bootloader tool uploads: the vector table is split off,
 * the rest is padded to a whole number of flash sectors, cut into 64-bit words and tabulated with
 * its running signature.
 */
module FirmwareImage {
  import opened Wrappers
  import opened Sequences
  import opened Bytes
  import opened BitOps
  import opened Crc64
  import opened CrcImage
  import opened Crc64Loops
  import Csv

  const VECTOR_TABLE_BYTES: nat := 32

  const HEADER: seq<string> := ["", "data_64_bits_hex", "crc_64_bits_hex", "data_64_bits", "crc_64_bits"]

  /** What the preparation step hands over to the upload step. */
  datatype Program = Program(
    lenInBytes: nat,
    lenInWords: nat,
    vectorTable: seq<Word>,
    vectorCrc: Word,
    rows: seq<seq<string>>)

  // ---------- sizes ----------

  /** The total size of the first k sectors. */
  function PrefixSum(sizes: seq<nat>, k: nat): nat
    requires k <= |sizes|
  {
    if k == 0 then 0 else PrefixSum(sizes, k - 1) + sizes[k - 1]
  }

  function Flash(sizes: seq<nat>): nat {
    PrefixSum(sizes, |sizes|)
  }

  lemma {:induction false} PrefixSumMono(sizes: seq<nat>, j: nat, k: nat)
    requires j <= k <= |sizes|
    ensures PrefixSum(sizes, j) <= PrefixSum(sizes, k)
  {
    if j < k { PrefixSumMono(sizes, j, k - 1); }
  }

  /** `size` is a sum of the first sectors, at least one of them. */
  ghost predicate IsSectorSum(sizes: seq<nat>, size: nat) {
    exists k | 1 <= k <= |sizes| :: PrefixSum(sizes, k) == size
  }

  /** The least sector sum that holds `binSize` bytes. */
  ghost predicate IsAppSize(sizes: seq<nat>, binSize: nat, size: nat) {
    && IsSectorSum(sizes, size)
    && binSize <= size
    && forall k | 1 <= k <= |sizes| && binSize <= PrefixSum(sizes, k) :: size <= PrefixSum(sizes, k)
  }

  /** When no size is found: the binary exceeds the flash, or there is no sector to start with. */
  predicate NoAppSize(sizes: seq<nat>, binSize: nat) {
    binSize > Flash(sizes) || (binSize == 0 && (sizes == [] || sizes[0] == 0))
  }

  /** The size calculation of `BootloaderBinaryFile.__init__`, where None stands for its exit. */
  method RoundUpToSectors(sizes: seq<nat>, binSize: nat) returns (r: Option<nat>)
    ensures r.None? <==> NoAppSize(sizes, binSize)
    ensures r.Some? ==> IsAppSize(sizes, binSize, r.value)
  {
    var flashMemorySize, appSize := 0, 0;
    var k := 0;
    while k < |sizes|
      invariant k <= |sizes|
      invariant flashMemorySize == PrefixSum(sizes, k)
      invariant appSize == 0
      invariant forall j | 1 <= j <= k :: PrefixSum(sizes, j) < binSize
    {
      flashMemorySize := flashMemorySize + sizes[k];
      assert flashMemorySize == PrefixSum(sizes, k + 1);
      PrefixSumMono(sizes, k + 1, |sizes|);
      if flashMemorySize >= binSize {
        appSize := flashMemorySize;
        assert IsSectorSum(sizes, appSize);
        forall j | 1 <= j <= |sizes| && binSize <= PrefixSum(sizes, j)
          ensures appSize <= PrefixSum(sizes, j)
        {
          PrefixSumMono(sizes, k + 1, j);
        }
        break;
      }
      k := k + 1;
    }
    r := if appSize == 0 then None else Some(appSize);
  }

  /** `_check_app_size` */
  method CheckAppSize(sizes: seq<nat>, input: nat) returns (ok: bool)
    ensures ok <==> IsSectorSum(sizes, input)
  {
    var appSize := 0;
    for k := 0 to |sizes|
      invariant appSize == PrefixSum(sizes, k)
      invariant forall j | 1 <= j <= k :: PrefixSum(sizes, j) != input
    {
      appSize := appSize + sizes[k];
      if appSize == input {
        assert PrefixSum(sizes, k + 1) == input;
        return true;
      }
    }
    ok := false;
  }

  // ---------- bytes and words ----------

  function Zeros(n: nat): (z: seq<Byte>)
    ensures |z| == n && forall i | 0 <= i < n :: z[i] == 0
  {
    seq(n, i => 0)
  }

  /** Python's slice `bytes[lo:hi]`, which stops at the end of the sequence. */
  function Slice(bytes: seq<Byte>, lo: nat, hi: nat): seq<Byte>
    requires lo <= hi
  {
    if lo >= |bytes| then [] else if hi >= |bytes| then bytes[lo..] else bytes[lo..hi]
  }

  function Padded(bytes: seq<Byte>, size: nat): (r: seq<Byte>)
    ensures |r| == if |bytes| < size then size else |bytes|
  {
    if |bytes| < size then bytes + Zeros(size - |bytes|) else bytes
  }

  /** `fill_byte_array_with_app_size` */
  method FillByteArray(bytes: seq<Byte>, appSize: nat) returns (r: seq<Byte>)
    ensures r == Padded(bytes, appSize)
  {
    r := bytes;
    while |r| < appSize
      invariant |bytes| <= |r| && (|r| <= appSize || r == bytes)
      invariant r == bytes + Zeros(|r| - |bytes|)
    {
      r := r + [0];
    }
  }

  /** Word i of a byte string, as the table builder cuts it out. */
  function WordAt(bytes: seq<Byte>, i: nat): Word {
    var part := Slice(bytes, 8 * i, 8 * (i + 1));
    BigEndianBound(part);
    PolynomialDegree();
    SliceBound(part);
    BigEndian(part)
  }

  lemma SliceBound(part: seq<Byte>)
    requires |part| <= 8
    ensures BigEndian(part) < Pow2(64)
  {
    BigEndianBound(part);
    if |part| < 8 { Pow2Mono(8 * |part|, 64); }
  }

  lemma {:induction false} Pow2Mono(j: nat, k: nat)
    requires j <= k
    ensures Pow2(j) <= Pow2(k)
  {
    if j < k { Pow2Mono(j, k - 1); }
  }

  function Words(bytes: seq<Byte>, n: nat): (w: seq<Word>)
    ensures |w| == n
  {
    seq(n, i requires 0 <= i < n => WordAt(bytes, i))
  }

  /** The words written out again. */
  function Unwords(words: seq<Word>): (bytes: seq<Byte>)
    ensures |bytes| == 8 * |words|
  {
    if words == [] then [] else ToBytes(words[0], 8) + Unwords(words[1..])
  }

  lemma SliceOfRest(bytes: seq<Byte>, i: nat, n: nat)
    requires |bytes| == 8 * n && i + 1 < n
    ensures Slice(bytes, 8 * (i + 1), 8 * (i + 2)) == Slice(bytes[8..], 8 * i, 8 * (i + 1))
  {
    var rest := bytes[8..];
    var a, b := Slice(bytes, 8 * (i + 1), 8 * (i + 2)), Slice(rest, 8 * i, 8 * (i + 1));
    assert |a| == 8 == |b|;
    forall k | 0 <= k < 8
      ensures a[k] == b[k]
    {
      assert a[k] == bytes[8 * (i + 1) + k] == rest[8 * i + k] == b[k];
    }
  }

  /** Cutting into words loses nothing when the length is a multiple of 8. */
  lemma {:induction false} UnwordsWords(bytes: seq<Byte>, n: nat)
    requires |bytes| == 8 * n
    ensures Unwords(Words(bytes, n)) == bytes
  {
    if n > 0 {
      var rest := bytes[8..];
      forall i | 0 <= i < n - 1
        ensures Words(bytes, n)[1..][i] == Words(rest, n - 1)[i]
      {
        SliceOfRest(bytes, i, n);
      }
      assert Words(bytes, n)[1..] == Words(rest, n - 1);
      UnwordsWords(rest, n - 1);
      assert Slice(bytes, 0, 8) == bytes[..8];
      BytesRoundTrip(bytes[..8]);
    }
  }

  lemma {:induction false} UnwordsConcat(a: seq<Word>, b: seq<Word>)
    ensures Unwords(a + b) == Unwords(a) + Unwords(b)
  {
    if a == [] {
      assert a + b == b;
    } else {
      assert (a + b)[1..] == a[1..] + b;
      UnwordsConcat(a[1..], b);
    }
  }

  /** `get_data64_vector_table` */
  method VectorTableWords(bytes: seq<Byte>) returns (words: seq<Word>)
    ensures words == Words(bytes, 4)
  {
    words := [];
    for i := 0 to 4
      invariant |words| == i
      invariant forall k | 0 <= k < i :: words[k] == WordAt(bytes, k)
    {
      words := words + [WordAt(bytes, i)];
    }
  }

  /** `_calculate_crc64_for_vector_table` */
  method VectorTableCrc(vectorTable: seq<Word>) returns (crc: Word)
    requires |vectorTable| == 4
    ensures crc == Chain(vectorTable, 0)
  {
    hide Crc;
    crc := 0;
    assert vectorTable[..0] == [];
    for i := 0 to 4
      invariant crc == Chain(vectorTable[..i], 0)
    {
      ChainSnoc(vectorTable[..i], vectorTable[i], 0);
      assert vectorTable[..i + 1] == vectorTable[..i] + [vectorTable[i]];
      crc := GenerateCrc64(vectorTable[i], crc);
    }
    assert vectorTable[..4] == vectorTable;
  }

  // ---------- the table ----------

  function Row(i: nat, data: Word, crc: Word): seq<string> {
    [Csv.Dec(i), Csv.Hex(data), Csv.Hex(crc), Csv.Dec(data), Csv.Dec(crc)]
  }

  function RowsOf(words: seq<Word>, crcs: seq<Word>): (rows: seq<seq<string>>)
    requires |words| == |crcs|
    ensures |rows| == |words|
  {
    seq(|words|, i requires 0 <= i < |words| => Row(i, words[i], crcs[i]))
  }

  /** The table of an image: a header, then one row for each word with the signature up to it. */
  function TableOf(words: seq<Word>): (rows: seq<seq<string>>)
    ensures |rows| == |words| + 1
  {
    [HEADER] + RowsOf(words, Column(words, 0))
  }

  lemma RowsSnoc(words: seq<Word>, crcs: seq<Word>, w: Word, c: Word)
    requires |words| == |crcs|
    ensures RowsOf(words + [w], crcs + [c]) == RowsOf(words, crcs) + [Row(|words|, w, c)]
  {
  }

  lemma ColumnSnoc(words: seq<Word>, w: Word)
    ensures Column(words + [w], 0) == Column(words, 0) + [Crc(w, Chain(words, 0))]
  {
    ColumnConcat(words, [w], 0);
    assert [w][1..] == [];
  }

  lemma TableSnoc(words: seq<Word>, w: Word)
    ensures TableOf(words + [w]) == TableOf(words) + [Row(|words|, w, Crc(w, Chain(words, 0)))]
  {
    hide RowsOf, Column, Crc, Chain, Row;
    ColumnSnoc(words, w);
    RowsSnoc(words, Column(words, 0), w, Crc(w, Chain(words, 0)));
    ConcatAssoc([HEADER], RowsOf(words, Column(words, 0)), [Row(|words|, w, Crc(w, Chain(words, 0)))]);
  }

  lemma NoRows()
    ensures TableOf([]) == [HEADER]
  {
  }

  /** `_create_crc64_table` */
  method CreateCrcTable(bytes: seq<Byte>, n: nat) returns (rows: seq<seq<string>>)
    ensures rows == TableOf(Words(bytes, n))
  {
    hide WordAt, Row, RowsOf, Column, Crc;
    rows := [HEADER];
    var crc: Word := 0;
    assert Words(bytes, 0) == [];
    NoRows();
    for i := 0 to n
      invariant crc == Chain(Words(bytes, i), 0)
      invariant rows == TableOf(Words(bytes, i))
    {
      var data := WordAt(bytes, i);
      assert Words(bytes, i + 1) == Words(bytes, i) + [data];
      ChainSnoc(Words(bytes, i), data, 0);
      TableSnoc(Words(bytes, i), data);
      crc := GenerateCrc64(data, crc);
      rows := rows + [Row(i, data, crc)];
    }
  }

  /** `get_crc_and_data_by_index`; None stands for the IndexError or ValueError it raises. */
  function Lookup(rows: seq<seq<string>>, index: nat): Option<(Word, Word)> {
    if index + 1 >= |rows| || |rows[index + 1]| <= 2 then None
    else
      var crc, data := Csv.ParseHex(rows[index + 1][2]), Csv.ParseHex(rows[index + 1][1]);
      if crc.None? || data.None? then None
      else if crc.value >= 0x1_0000_0000_0000_0000 || data.value >= 0x1_0000_0000_0000_0000 then None
      else Some((crc.value, data.value))
  }

  /** A row can be read exactly if it exists and has a third text, and both texts are 64-bit numbers. */
  lemma LookupReads(rows: seq<seq<string>>, index: nat, data: Word, crc: Word)
    ensures Lookup(rows, index) == Some((crc, data))
       <==> && index + 1 < |rows|
            && |rows[index + 1]| >= 3
            && Csv.ParseHex(rows[index + 1][1]) == Some(data)
            && Csv.ParseHex(rows[index + 1][2]) == Some(crc)
  {
  }

  lemma LookupRow(rows: seq<seq<string>>, i: nat, data: Word, crc: Word)
    requires i + 1 < |rows| && rows[i + 1] == Row(i, data, crc)
    ensures Lookup(rows, i) == Some((crc, data))
  {
    Csv.HexRoundTrip(data);
    Csv.HexRoundTrip(crc);
  }

  /** The table is read back exactly as it was computed, and nothing beyond it can be read. */
  lemma LookupTable(words: seq<Word>, i: nat)
    ensures Lookup(TableOf(words), i) == if i < |words| then Some((Column(words, 0)[i], words[i])) else None
  {
    if i < |words| {
      LookupRow(TableOf(words), i, words[i], Column(words, 0)[i]);
    }
  }

  /**
   * All the texts of the table: the header, and for each word its number, the word and the signature up to it in
   * hexadecimal, and both in decimal.
   */
  lemma TableTexts(words: seq<Word>, i: nat)
    requires i < |words|
    ensures TableOf(words)[0]
         == ["", "data_64_bits_hex", "crc_64_bits_hex", "data_64_bits", "crc_64_bits"]
    ensures var row := TableOf(words)[i + 1];
            && |row| == 5
            && Csv.ParseDec(row[0]) == Some(i)
            && Csv.ParseHex(row[1]) == Csv.ParseDec(row[3]) == Some(words[i])
            && Csv.ParseHex(row[2]) == Csv.ParseDec(row[4]) == Some(Column(words, 0)[i])
  {
    hide Csv.ParseDec, Csv.ParseHex, Csv.Dec, Csv.Hex, Column;
    Csv.DecRoundTrip(i);
    Csv.DecRoundTrip(words[i]);
    Csv.HexRoundTrip(words[i]);
    Csv.DecRoundTrip(Column(words, 0)[i]);
    Csv.HexRoundTrip(Column(words, 0)[i]);
  }

  // ---------- the whole preparation ----------

  /** The words that are uploaded as application data. */
  function DataWords(binary: seq<Byte>, appSize: nat): seq<Word> {
    var padded := Padded(Slice(binary, VECTOR_TABLE_BYTES, VECTOR_TABLE_BYTES + |binary|), appSize);
    Words(padded, |padded| / 8)
  }

  ghost predicate IsPrepared(binary: seq<Byte>, sizes: seq<nat>, p: Program) {
    && IsAppSize(sizes, |binary|, p.lenInBytes)
    && var words := DataWords(binary, p.lenInBytes);
      && |words| == p.lenInWords == p.lenInBytes / 8
      && p.rows == TableOf(words)
      && p.vectorTable == Words(Slice(binary, 0, VECTOR_TABLE_BYTES), 4)
      && p.vectorCrc == Chain(p.vectorTable, 0)
  }

  /** `BootloaderBinaryFile.__init__`, where None stands for either of its exits. */
  method Prepare(binary: seq<Byte>, sizes: seq<nat>) returns (r: Option<Program>)
    ensures r.None? <==> NoAppSize(sizes, |binary|)
    ensures r.Some? ==> IsPrepared(binary, sizes, r.value)
  {
    var vectorTable := VectorTableWords(Slice(binary, 0, VECTOR_TABLE_BYTES));
    var appSize := RoundUpToSectors(sizes, |binary|);
    if appSize.None? { return None; }
    var ok := CheckAppSize(sizes, appSize.value);
    if !ok { return None; }
    var byteArray := FillByteArray(Slice(binary, VECTOR_TABLE_BYTES, VECTOR_TABLE_BYTES + |binary|), appSize.value);
    var vectorCrc := VectorTableCrc(vectorTable);
    var lenInWords := |byteArray| / 8;
    var rows := CreateCrcTable(byteArray, lenInWords);
    r := Some(Program(|byteArray|, lenInWords, vectorTable, vectorCrc, rows));
  }

  lemma {:induction false} PrefixSumWords(sizes: seq<nat>, k: nat)
    requires k <= |sizes| && forall s | s in sizes :: s % 8 == 0
    ensures PrefixSum(sizes, k) % 8 == 0
  {
    if k > 0 {
      PrefixSumWords(sizes, k - 1);
      assert sizes[k - 1] in sizes;
    }
  }
}
