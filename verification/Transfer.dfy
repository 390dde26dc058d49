/**
 * The receiver during the upload of one image: how far it is, what it has stored, and why it can only report
 * the image as complete when its flash has the image's signature.
 */
module Transfer {
  import opened Crc64
  import opened CrcImage
  import opened Protocol
  import opened Device
  import opened UploadProps
  import opened DeviceSafety

  /** The image: its words, the sector sizes of the flash, and how many sectors it fills. */
  datatype Job = Job(words: seq<Word>, sizes: seq<nat>, sectors: nat)

  predicate ValidJob(job: Job) {
    && ValidMap(job.sizes)
    && FitsBuffer(job.sizes)
    && 1 <= job.sectors <= |job.sizes|
    && |job.words| == Start(job.sizes, job.sectors)
  }

  /** A state in which no further sector signature is ever accepted, unless the receiver is reset. */
  predicate IsOff(d: Device) {
    || (d.boot == BootError && d.can != ResetBoot)
    || ((d.boot == BootWait || d.boot == BootLoad)
        && (d.can == NoCommunication || d.can == CanError || IsFinal(d.can)))
  }

  /**
   * The receiver is loading the image and has validated at least the j sectors whose signatures the tool has
   * seen accepted; the number of the expected loop and the place for its word agree.
   */
  ghost predicate IsOn(job: Job, d: Device, j: nat) {
    && (d.boot == BootWait || d.boot == BootLoad)
    && (d.can == WaitForDataLoops || IsLoading(d.can))
    && d.info.total == |job.words|
    && d.info.length == 8 * |job.words|
    && j <= d.info.sector < job.sectors <= |job.sizes|
    && Start(job.sizes, d.info.sector) + d.info.pos
       == (if d.info.current == 0 then 0 else d.info.current - 1)
       <= Start(job.sizes, d.info.sector + 1)
    && d.info.current <= |job.words|
    && (d.can == ReceivedLoopNumber ==> d.info.current <= Start(job.sizes, d.info.sector + 1))
    && (IsPending(d) ==>
          d.info.current == |job.words| || d.info.current - 1 == Start(job.sizes, d.info.sector + 1))
    && (IsPending(d) && j == job.sectors - 1 ==> d.info.crc == Chain(job.words, 0))
  }

  /** All data has been accepted: the flash has the signature of the image. */
  ghost predicate IsDone(job: Job, d: Device) {
    && d.boot == BootLoad
    && d.can == FinishedFinalValidation
    && d.info.vectorCount == 0
    && d.info.length == 8 * |job.words|
    && d.info.crc == Chain(job.words, 0)
    && |job.words| <= |d.flash|
    && Chain(d.flash[..|job.words|], 0) == Chain(job.words, 0)
  }

  /**
   * What the receiver has stored is the image so far, when no word is lost after its loop number: the validated
   * sectors in the flash and the words of the current one in the buffer.  `expected` is the loop whose word is
   * to follow, and the main loop has reacted to the last frame once it is `settled`.
   */
  ghost predicate IsStored(job: Job, d: Device, settled: bool, expected: nat) {
    && d.boot == BootLoad
    && d.info.sector <= |job.sizes|
    && var from := Start(job.sizes, d.info.sector);
    && from + d.info.pos <= |job.words|
    && from <= |d.flash| && d.flash[..from] == job.words[..from]
    && (d.can == WaitForDataLoops ==> d.info.pos == 0)
    && (d.can == ReceivedLoopNumber ==> d.info.current == expected)
    && (d.can == ReceivedLoopNumber || d.can == Received8BytesData || IsPending(d) ==>
          && d.info.pos <= |d.buffer|
          && d.buffer[..d.info.pos] == job.words[from..from + d.info.pos])
    && (d.can == Received8BytesCrc && d.checks > 0 ==> d.info.pos == 0)
    && (settled ==> (d.checks == 0 <==> d.can != Received8BytesCrc))
  }

  /** `faithful` runs lose no word after its loop number, and let the main loop turn between any two events. */
  ghost predicate Kept(job: Job, d: Device, j: nat, faithful: bool, settled: bool, expected: nat) {
    IsOff(d) || (IsOn(job, d, j) && (faithful ==> IsStored(job, d, settled, expected)))
  }

  /** The tool has just seen, or could see, the signature of sector j accepted. */
  ghost predicate Passed(job: Job, d: Device, j: nat, faithful: bool) {
    if j == job.sectors - 1 then IsDone(job, d) && (faithful ==> d.flash[..|job.words|] == job.words)
    else
      || IsOff(d)
      || (&& IsOn(job, d, j + 1)
          && d.can == Received8BytesCrc && d.checks > 0
          && (faithful ==> IsStored(job, d, true, 0)))
  }

  // ---------- frames of sector j ----------

  lemma OffLoopInfo(d: Device, loop: nat)
    requires IsOff(d)
    ensures IsOff(RxLoopInfo(d, loop).device) && CRC_YES !in RxLoopInfo(d, loop).acks
    ensures d.boot != BootLeft
  {
  }

  lemma OffData(d: Device, word: Word)
    requires IsOff(d)
    ensures IsOff(RxData(d, word).device) && CRC_YES !in RxData(d, word).acks
    ensures d.boot != BootLeft
  {
  }

  lemma OffCrc(sizes: seq<nat>, d: Device, crc: Word)
    requires IsOff(d)
    ensures IsOff(RxCrc(sizes, d, crc).device) && CRC_YES !in RxCrc(sizes, d, crc).acks
    ensures d.boot != BootLeft
  {
  }

  lemma OffPoll(sizes: seq<nat>, d: Device, hw: Hardware)
    requires IsOff(d)
    ensures IsOff(Poll(sizes, d, hw).device) && CRC_YES !in Poll(sizes, d, hw).acks
  {
  }

  /** The signature that the tool sends for sector j. */
  function SectorCrc(job: Job, j: nat): Word
    requires ValidJob(job) && j < job.sectors
  {
    SectorBounds(job.sizes, j);
    StartMono(job.sizes, j + 1, job.sectors);
    Column(job.words, 0)[Start(job.sizes, j + 1) - 1]
  }

  /** A loop number of sector j is only taken while the current sector is not full. */
  lemma OnLoopInfo(job: Job, d: Device, j: nat, loop: nat)
    requires ValidJob(job) && IsOn(job, d, j) && j < job.sectors && loop <= Start(job.sizes, j + 1)
    ensures IsOn(job, RxLoopInfo(d, loop).device, j)
    ensures d.boot != BootLeft
  {
    hide Start, Chain, LoopsIn, FitsBuffer, SectorCrc;
    StartMono(job.sizes, j + 1, d.info.sector + 1);
    SectorBounds(job.sizes, d.info.sector);
    LastCrc(job);
  }

  lemma OnData(job: Job, d: Device, j: nat, word: Word)
    requires ValidJob(job) && Holds(job.sizes, d) && IsOn(job, d, j)
    ensures IsOn(job, RxData(d, word).device, j) && CRC_YES !in RxData(d, word).acks
    ensures d.boot != BootLeft
  {
    hide Start, Chain;
    SectorBounds(job.sizes, d.info.sector);
    assert LoopsIn(job.sizes, d.info.sector) <= BUFFER_WORDS;
  }

  lemma LastCrc(job: Job)
    requires ValidJob(job)
    ensures |job.words| > 0 && SectorCrc(job, job.sectors - 1) == Chain(job.words, 0)
  {
    SectorBounds(job.sizes, job.sectors - 1);
    ColumnAt(job.words, 0, |job.words| - 1);
    assert job.words[..|job.words|] == job.words;
  }

  lemma OnCrc(job: Job, d: Device, j: nat)
    requires ValidJob(job) && IsOn(job, d, j) && j < job.sectors
    ensures var r := RxCrc(job.sizes, d, SectorCrc(job, j));
            IsOn(job, r.device, j) && CRC_YES !in r.acks
    ensures d.boot != BootLeft
  {
    hide Start, Chain, SectorCrc;
    LastCrc(job);
    SectorBounds(job.sizes, d.info.sector);
  }

  // ---------- turns of the main loop ----------

  /** In the last sector, and only there, the last loop can be the current one. */
  lemma LastSector(job: Job, d: Device, j: nat)
    requires ValidJob(job) && IsOn(job, d, j) && IsPending(d)
    ensures d.info.current == |job.words| ==> d.info.sector == job.sectors - 1
    ensures d.info.current != |job.words| ==>
              && d.info.sector + 1 < job.sectors
              && d.info.current - 1 == Start(job.sizes, d.info.sector + 1)
  {
    var s := d.info.sector;
    if d.info.current == |job.words| && s + 1 < job.sectors {
      SectorBounds(job.sizes, s + 1);
      StartMono(job.sizes, s + 2, job.sectors);
    }
  }

  lemma StoredLoopInfo(job: Job, d: Device, j: nat, loop: nat)
    requires IsOn(job, d, j) && IsStored(job, d, true, 0) && Holds(job.sizes, d)
    ensures IsStored(job, RxLoopInfo(d, loop).device, false, loop)
  {
    hide Start, Chain;
  }

  lemma StoredData(job: Job, d: Device, j: nat, loop: nat, word: Word)
    requires ValidJob(job) && IsOn(job, d, j) && IsStored(job, d, true, loop) && Holds(job.sizes, d)
    requires 1 <= loop <= |job.words| && word == job.words[loop - 1]
    ensures IsStored(job, RxData(d, word).device, false, 0)
  {
    hide Start, Chain;
    SectorBounds(job.sizes, d.info.sector);
    assert LoopsIn(job.sizes, d.info.sector) <= BUFFER_WORDS;
    if d.can == ReceivedLoopNumber {
      var from := Start(job.sizes, d.info.sector);
      var buffer := d.buffer[d.info.pos := word];
      assert buffer[..d.info.pos] == d.buffer[..d.info.pos];
      assert buffer[..d.info.pos + 1] == d.buffer[..d.info.pos] + [word];
      assert job.words[from..from + d.info.pos + 1] == job.words[from..from + d.info.pos] + [word];
    }
  }

  lemma StoredCrc(job: Job, d: Device, j: nat, crc: Word)
    requires IsOn(job, d, j) && IsStored(job, d, true, 0) && Holds(job.sizes, d)
    ensures IsStored(job, RxCrc(job.sizes, d, crc).device, false, 0)
  {
    hide Start, Chain, SectorFull;
  }

  /** The current sector fits the buffer and the flash. */
  predicate CanWrite(sizes: seq<nat>, d: Device) {
    && d.info.sector < |sizes|
    && Start(sizes, d.info.sector + 1) <= |d.flash|
    && LoopsIn(sizes, d.info.sector) <= |d.buffer|
  }

  /** Writing the stored sector extends the image in the flash. */
  lemma StoredSector(job: Job, d: Device, j: nat)
    requires ValidJob(job) && Holds(job.sizes, d) && IsOn(job, d, j) && IsPending(d)
    requires IsStored(job, d, false, 0) && d.info.current != |job.words|
    ensures CanWrite(job.sizes, d)
    ensures var s := d.info.sector;
            && Start(job.sizes, s + 1) <= |job.words|
            && Start(job.sizes, s + 1) <= |WriteSector(job.sizes, d, Works)|
            && WriteSector(job.sizes, d, Works)[..Start(job.sizes, s + 1)] == job.words[..Start(job.sizes, s + 1)]
  {
    hide Start, Chain, WriteSector;
    LastSector(job, d, j);
    var s := d.info.sector;
    WriteSectorSigns(job.sizes, d, Works);
    SectorBounds(job.sizes, s);
    StartMono(job.sizes, s + 1, job.sectors);
    var from, to := Start(job.sizes, s), Start(job.sizes, s + 1);
    assert d.info.pos == to - from;
    assert job.words[..to] == job.words[..from] + job.words[from..to];
  }

  /** In the last sector the last word may be missing, but then the signature gives it away. */
  lemma StoredLastSector(job: Job, d: Device, j: nat)
    requires ValidJob(job) && Holds(job.sizes, d) && IsOn(job, d, j) && IsPending(d)
    requires IsStored(job, d, false, 0) && d.info.current == |job.words|
    ensures CanWrite(job.sizes, d)
    ensures var flash := WriteSector(job.sizes, d, Works);
            && |job.words| <= |flash|
            && (Chain(flash[..|job.words|], 0) == Chain(job.words, 0) ==> flash[..|job.words|] == job.words)
  {
    hide Start, Chain, WriteSector;
    LastSector(job, d, j);
    var s := d.info.sector;
    WriteSectorSigns(job.sizes, d, Works);
    SectorBounds(job.sizes, s);
    var from, to := Start(job.sizes, s), Start(job.sizes, s + 1);
    var n := |job.words| - 1;
    var flash := WriteSector(job.sizes, d, Works);
    assert d.info.pos == n - from && to == n + 1;
    assert flash[..to] == flash[..n] + [flash[n]];
    assert flash[..n] == d.flash[..from] + d.buffer[..n - from];
    assert job.words[..n] == job.words[..from] + job.words[from..n];
    assert job.words == job.words[..n] + [job.words[n]];
    LastWordDecides(job.words[..n], flash[n], job.words[n]);
  }

  lemma LastWordDecides(words: seq<Word>, x: Word, y: Word)
    ensures Chain(words + [x], 0) == Chain(words + [y], 0) ==> x == y
  {
    hide Chain;
    ChainSnoc(words, x, 0);
    ChainSnoc(words, y, 0);
    CrcSameRoot(x, y, Chain(words, 0));
  }

  /** An accepted sector: the signature that has arrived is that of the flash up to its end. */
  lemma Accepted(sizes: seq<nat>, d: Device, hw: Hardware)
    requires Holds(sizes, d) && IsPending(d) && CRC_YES in Validate(sizes, d, hw).acks
    ensures d.info.sector < |sizes|
    ensures var x, info := Validate(sizes, d, hw).device, d.info.(crcOnBoard := d.info.crc);
            && Signs(sizes, x.flash, d.info.sector + 1, d.info.crc)
            && x == d.(checks := d.checks + 1, flash := x.flash, can := x.can, info := x.info)
            && if d.info.current == d.info.total then x.can == FinishedFinalValidation && x.info == info
               else x.can == d.can && x.info == info.(pos := 0, sector := d.info.sector + 1)
  {
    hide Start, Chain, WriteSector, FitsBuffer, IsStartable;
    ValidateSigns(sizes, d, hw);
  }

  /** Validating a sector: it fails, or the receiver moves on. */
  lemma OnValidate(job: Job, d: Device, j: nat, hw: Hardware)
    requires ValidJob(job) && Holds(job.sizes, d) && IsOn(job, d, j) && IsPending(d) && d.boot == BootLoad
    requires j < job.sectors
    ensures var r := Validate(job.sizes, d, hw);
            if CRC_YES in r.acks then Passed(job, r.device, j, false) else IsOff(r.device)
  {
    hide Start, Chain, WriteSector, IsStored, Validate;
    if CRC_YES in Validate(job.sizes, d, hw).acks {
      Accepted(job.sizes, d, hw);
      LastSector(job, d, j);
      if d.info.current != |job.words| { SectorBounds(job.sizes, d.info.sector + 1); }
    } else {
      MismatchIsError(job.sizes, d, hw);
    }
  }

  lemma StoredValidateLast(job: Job, d: Device, j: nat, hw: Hardware)
    requires ValidJob(job) && Holds(job.sizes, d) && IsOn(job, d, j) && IsPending(d) && d.boot == BootLoad
    requires IsStored(job, d, false, 0) && j < job.sectors && d.info.current == |job.words|
    ensures var r := Validate(job.sizes, d, hw); CRC_YES in r.acks ==> Passed(job, r.device, j, true)
  {
    hide Start, Chain, WriteSector;
    OnValidate(job, d, j, hw);
    LastSector(job, d, j);
    ValidateSigns(job.sizes, d, hw);
    StoredLastSector(job, d, j);
  }

  /** How the receiver goes on when it accepts a sector that is not the last. */
  lemma ValidatedNext(sizes: seq<nat>, d: Device, hw: Hardware)
    requires CanWrite(sizes, d) && d.info.current != d.info.total && CRC_YES in Validate(sizes, d, hw).acks
    ensures Validate(sizes, d, hw).device
         == d.(checks := d.checks + 1, flash := WriteSector(sizes, d, Works),
               info := d.info.(crcOnBoard := d.info.crc, pos := 0, sector := d.info.sector + 1))
  {
    hide Start, Chain, WriteSector;
  }

  lemma StoredValidateNext(job: Job, d: Device, j: nat, hw: Hardware)
    requires ValidJob(job) && Holds(job.sizes, d) && IsOn(job, d, j) && IsPending(d) && d.boot == BootLoad
    requires IsStored(job, d, false, 0) && j < job.sectors && d.info.current != |job.words|
    ensures var r := Validate(job.sizes, d, hw); CRC_YES in r.acks ==> Passed(job, r.device, j, true)
  {
    hide Start, Chain, WriteSector, Holds, Validate, ValidJob;
    OnValidate(job, d, j, hw);
    LastSector(job, d, j);
    StoredSector(job, d, j);
    if CRC_YES in Validate(job.sizes, d, hw).acks { ValidatedNext(job.sizes, d, hw); }
  }

  lemma StoredValidate(job: Job, d: Device, j: nat, hw: Hardware)
    requires ValidJob(job) && Holds(job.sizes, d) && IsOn(job, d, j) && IsPending(d) && d.boot == BootLoad
    requires IsStored(job, d, false, 0) && j < job.sectors
    ensures var r := Validate(job.sizes, d, hw); CRC_YES in r.acks ==> Passed(job, r.device, j, true)
  {
    hide Validate, Holds, Passed, ValidJob, IsOn, IsStored;
    if d.info.current == |job.words| {
      StoredValidateLast(job, d, j, hw);
    } else {
      StoredValidateNext(job, d, j, hw);
    }
  }

  // ---------- both together ----------

  lemma KeptLoopInfo(job: Job, d: Device, j: nat, faithful: bool, loop: nat)
    requires ValidJob(job) && Holds(job.sizes, d) && j < job.sectors && loop <= Start(job.sizes, j + 1)
    requires Kept(job, d, j, faithful, true, 0)
    ensures Kept(job, RxLoopInfo(d, loop).device, j, faithful, false, loop)
    ensures d.boot != BootLeft
  {
    hide Holds, IsOn, IsStored, IsOff, RxLoopInfo, Start, ValidJob;
    if IsOff(d) {
      OffLoopInfo(d, loop);
    } else {
      OnLoopInfo(job, d, j, loop);
      if faithful { StoredLoopInfo(job, d, j, loop); }
    }
  }

  lemma KeptData(job: Job, d: Device, j: nat, faithful: bool, loop: nat, word: Word)
    requires ValidJob(job) && Holds(job.sizes, d)
    requires 1 <= loop <= |job.words| && word == job.words[loop - 1]
    requires Kept(job, d, j, faithful, true, loop)
    ensures Kept(job, RxData(d, word).device, j, faithful, false, 0)
    ensures d.boot != BootLeft
  {
    hide Holds, IsOn, IsStored, IsOff, RxData, Start, ValidJob;
    if IsOff(d) {
      OffData(d, word);
    } else {
      OnData(job, d, j, word);
      if faithful { StoredData(job, d, j, loop, word); }
    }
  }

  lemma KeptCrc(job: Job, d: Device, j: nat, faithful: bool)
    requires ValidJob(job) && Holds(job.sizes, d) && j < job.sectors
    requires Kept(job, d, j, faithful, true, 0)
    ensures var r := RxCrc(job.sizes, d, SectorCrc(job, j));
            Kept(job, r.device, j, faithful, false, 0) && CRC_YES !in r.acks
    ensures d.boot != BootLeft
  {
    hide Holds, IsOn, IsStored, IsOff, RxCrc, SectorCrc, Start, ValidJob;
    var crc := SectorCrc(job, j);
    if IsOff(d) {
      OffCrc(job.sizes, d, crc);
    } else {
      OnCrc(job, d, j);
      if faithful { StoredCrc(job, d, j, crc); }
    }
  }

  /** One turn of the main loop: the current sector is accepted, or things stay as they are. */
  lemma OnPoll(job: Job, d: Device, j: nat, hw: Hardware)
    requires ValidJob(job) && Holds(job.sizes, d) && IsOn(job, d, j) && j < job.sectors
    ensures var r := Poll(job.sizes, d, hw);
            if CRC_YES in r.acks then Passed(job, r.device, j, false) else Kept(job, r.device, j, false, true, 0)
  {
    hide Start, Chain, Validate, IsStored;
    if d.boot == BootLoad && IsPending(d) { OnValidate(job, d, j, hw); }
  }

  lemma StoredPoll(job: Job, d: Device, j: nat, settled: bool, expected: nat, hw: Hardware)
    requires ValidJob(job) && Holds(job.sizes, d) && IsOn(job, d, j) && j < job.sectors
    requires IsStored(job, d, settled, expected)
    ensures var r := Poll(job.sizes, d, hw);
            if CRC_YES in r.acks then Passed(job, r.device, j, true)
            else Kept(job, r.device, j, true, true, expected)
  {
    hide Start, Chain, Validate;
    OnPoll(job, d, j, hw);
    if IsPending(d) {
      OnValidate(job, d, j, hw);
      StoredValidate(job, d, j, hw);
    }
  }

  lemma KeptPoll(job: Job, d: Device, j: nat, faithful: bool, settled: bool, expected: nat, hw: Hardware)
    requires ValidJob(job) && Holds(job.sizes, d) && j < job.sectors
    requires Kept(job, d, j, faithful, settled, expected)
    ensures var r := Poll(job.sizes, d, hw);
            if CRC_YES in r.acks then Passed(job, r.device, j, faithful)
            else Kept(job, r.device, j, faithful, true, expected)
  {
    hide Holds, IsOn, IsStored, IsOff, Poll, Start, ValidJob, Passed;
    if IsOff(d) {
      OffPoll(job.sizes, d, hw);
    } else if faithful {
      StoredPoll(job, d, j, settled, expected, hw);
    } else {
      OnPoll(job, d, j, hw);
    }
  }

  lemma PassedPoll(job: Job, d: Device, j: nat, faithful: bool, hw: Hardware)
    requires ValidJob(job) && Passed(job, d, j, faithful) && j < job.sectors
    ensures Passed(job, Poll(job.sizes, d, hw).device, j, faithful)
  {
    hide Start, Chain, Validate;
  }

  /** The next sector starts from what has been accepted; another pass starts from anything. */
  lemma PassedIsKept(job: Job, d: Device, j: nat, faithful: bool)
    requires Passed(job, d, j, faithful) && j + 1 < job.sectors
    ensures Kept(job, d, j + 1, faithful, true, 0)
  {
    hide IsOn, IsStored, IsOff;
  }

  lemma KeptAgain(job: Job, d: Device, j: nat, faithful: bool)
    requires Kept(job, d, j, faithful, true, 0) && j < job.sectors
    ensures Kept(job, d, 0, faithful, true, 0)
  {
    hide IsStored, IsOff, Start, Chain;
  }
}
