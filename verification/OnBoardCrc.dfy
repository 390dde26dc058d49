/** The signature that the embedded bootloader computes in software, for the vector table that it received. */
module OnBoardCrc {
  import opened Crc64
  import opened Crc64Loops
  import opened CrcImage

  /** `CRC_CalculateCrc64`: the halves of data and signature are exchanged around the word-wise calculation. */
  method CalculateCrc64(data: seq<Word>, root: Word) returns (crc: Word)
    requires data != []
    ensures crc == Chain(data, root)
  {
    crc := root;
    for i := 0 to |data|
      invariant crc == Chain(data[..i], root)
    {
      assert data[..i + 1] == data[..i] + [data[i]];
      ChainSnoc(data[..i], data[i], root);
      RegisterEnd(data[i], crc);
      var swapped := UpdateWord(SwapHalves(crc), SwapHalves(data[i]));
      crc := SwapHalves(swapped);
    }
    assert data[..|data|] == data;
  }
}
