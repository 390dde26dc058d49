/**
 * What the receiver keeps whatever is sent to it, whenever its main loop runs and whatever its flash does: the
 * signature it carries is that of the flash it has validated.
 */
module DeviceSafety {
  import opened Wrappers
  import opened Crc64
  import opened CrcImage
  import opened Protocol
  import opened Device
  import opened UploadProps

  /** Each sector fits the sector buffer. */
  predicate FitsBuffer(sizes: seq<nat>) {
    forall i | 0 <= i < |sizes| :: LoopsIn(sizes, i) <= 0x8000
  }

  predicate Shaped(sizes: seq<nat>, d: Device) {
    && FitsBuffer(sizes)
    && |d.flash| == Start(sizes, |sizes|)
    && |d.buffer| == 0x8000
    && |d.info.vectorTable| == |d.copy.vectorTable| == VECTOR_WORDS
  }

  predicate IsLoading(can: CanState) {
    can == ReceivedLoopNumber || can == Received8BytesData || can == Received8BytesCrc
  }

  predicate IsBefore(can: CanState) {
    can == NoCommunication || can == WaitForInfo || can == WaitForDataLoops || can == RunProgram
  }

  predicate IsFinal(can: CanState) {
    can == FinishedFinalValidation || can == FinishedTransferVectorTable || can == ValidatedVectorTable
  }

  /** `crc` is the signature of the first j sectors of the flash. */
  predicate Signs(sizes: seq<nat>, flash: seq<Word>, j: nat, crc: Word) {
    j <= |sizes| && Start(sizes, j) <= |flash| && crc == Chain(flash[..Start(sizes, j)], 0)
  }

  /** Nothing has been transferred yet. */
  predicate IsFresh(info: Info) {
    info.pos == 0 && info.sector == 0 && info.vectorCount == 0
  }

  /** A signature is being, or still to be, validated. */
  predicate IsPending(d: Device) {
    d.can == Received8BytesCrc && d.checks == 0
  }

  /** What is saved for the case that the current sector fails. */
  predicate HasCopy(d: Device) {
    && d.copy.current > 0
    && d.copy.vectorCount == 0
    && d.copy.sector == d.info.sector
    && d.copy.crcOnBoard == d.info.crcOnBoard
  }

  predicate Counts(d: Device) {
    && (d.info.current == 0 ==> IsFresh(d.info))
    && (d.boot != BootLoad ==> d.checks == 0)
    && (d.boot == BootRun ==> d.can in {RunProgram, ResetBoot} && d.info.vectorCount == 0)
    && (IsLoading(d.can) || IsFinal(d.can) ==> d.info.current > 0)
    && (IsLoading(d.can) || IsBefore(d.can) ==> d.info.vectorCount == 0)
    && (IsLoading(d.can) && (d.can == Received8BytesCrc ==> d.checks == 0) ==> HasCopy(d))
    && (d.can == FinishedFinalValidation ==> d.info.vectorCount < VECTOR_WORDS)
    && (d.can == FinishedTransferVectorTable ==> d.info.vectorCount == VECTOR_WORDS)
  }

  predicate RecordHolds(record: Option<Record>) {
    record.Some? ==> record.value.vectorCrc == Chain(record.value.vectorTable, 0)
  }

  /**
   * The signature on board is that of the validated part of the flash, before and after the last sector, and
   * an accepted vector table has the signature that was sent for it.
   */
  predicate Signatures(sizes: seq<nat>, d: Device) {
    && (IsLoading(d.can) || IsBefore(d.can) || d.boot == BootRun ==>
          Signs(sizes, d.flash, d.info.sector, d.info.crcOnBoard))
    && (IsFinal(d.can) ==> Signs(sizes, d.flash, d.info.sector + 1, d.info.crc))
    && (d.can == ValidatedVectorTable ==> d.info.vectorCrc == Chain(d.info.vectorTable, 0))
    && (d.boot == BootLeft ==> IsStartable(d))
    && RecordHolds(d.record)
  }

  predicate Holds(sizes: seq<nat>, d: Device) {
    Shaped(sizes, d) && Counts(d) && Signatures(sizes, d)
  }

  lemma PowerOnHolds(sizes: seq<nat>, flash: seq<Word>, record: Option<Record>, backup: bool)
    requires FitsBuffer(sizes) && |flash| == Start(sizes, |sizes|) && RecordHolds(record)
    ensures Holds(sizes, PowerOn(flash, record, backup))
  {
    assert flash[..0] == [];
  }

  lemma RequestKeeps(sizes: seq<nat>, d: Device, action: Action)
    requires Holds(sizes, d)
    ensures Holds(sizes, RxRequest(d, action).device)
  {
    hide Chain, Start, FitsBuffer;
  }

  lemma ProgramInfoKeeps(sizes: seq<nat>, d: Device, length: nat, loops: nat)
    requires Holds(sizes, d)
    ensures Holds(sizes, RxProgramInfo(d, length, loops).device)
  {
    hide Chain, Start, FitsBuffer;
  }

  lemma LoopInfoKeeps(sizes: seq<nat>, d: Device, loop: nat)
    requires Holds(sizes, d)
    ensures Holds(sizes, RxLoopInfo(d, loop).device)
  {
    hide Chain, Start, FitsBuffer;
  }

  lemma DataKeeps(sizes: seq<nat>, d: Device, word: Word)
    requires Holds(sizes, d)
    ensures Holds(sizes, RxData(d, word).device)
  {
    hide Signs, RecordHolds;
    hide Chain, Start, FitsBuffer;
  }

  lemma CrcKeeps(sizes: seq<nat>, d: Device, crc: Word)
    requires Holds(sizes, d)
    ensures Holds(sizes, RxCrc(sizes, d, crc).device)
  {
    hide Signs;
    hide Chain, Start, FitsBuffer, SectorFull;
  }

  lemma RxKeeps(sizes: seq<nat>, d: Device, frame: Frame)
    requires Holds(sizes, d)
    ensures Holds(sizes, Rx(sizes, d, frame).device)
  {
    hide Holds;
    match frame
    case Request(action) => RequestKeeps(sizes, d, action);
    case ProgramInfo(length, loops) => ProgramInfoKeeps(sizes, d, length, loops);
    case LoopInfo(loop) => LoopInfoKeeps(sizes, d, loop);
    case Data(word) => DataKeeps(sizes, d, word);
    case CrcSignature(crc) => CrcKeeps(sizes, d, crc);
  }

  // ---------- writing a sector ----------

  /** Writing a sector leaves the sectors before it alone, and the signature goes on over what was written. */
  lemma WriteSectorSigns(sizes: seq<nat>, d: Device, hw: Hardware)
    requires Shaped(sizes, d) && d.info.sector < |sizes|
    ensures Start(sizes, d.info.sector) <= Start(sizes, d.info.sector + 1) <= |d.flash|
    ensures LoopsIn(sizes, d.info.sector) <= |d.buffer|
    ensures var from, to := Start(sizes, d.info.sector), Start(sizes, d.info.sector + 1);
            var flash := WriteSector(sizes, d, hw);
            && |flash| == |d.flash|
            && flash[..from] == d.flash[..from]
            && flash[..to] == flash[..from] + flash[from..to]
            && (hw.Works? ==> flash[from..to] == d.buffer[..to - from])
  {
    StartMono(sizes, d.info.sector + 1, |sizes|);
    StartMono(sizes, d.info.sector, d.info.sector + 1);
  }

  lemma ValidateSigns(sizes: seq<nat>, d: Device, hw: Hardware)
    requires Shaped(sizes, d) && d.info.sector < |sizes|
    requires Signs(sizes, d.flash, d.info.sector, d.info.crcOnBoard)
    ensures Start(sizes, d.info.sector) <= Start(sizes, d.info.sector + 1) <= |d.flash|
    ensures LoopsIn(sizes, d.info.sector) <= |d.buffer|
    ensures var from, to := Start(sizes, d.info.sector), Start(sizes, d.info.sector + 1);
            var flash := WriteSector(sizes, d, hw);
            && |flash| == |d.flash|
            && Signs(sizes, flash, d.info.sector, d.info.crcOnBoard)
            && Signs(sizes, flash, d.info.sector + 1, Chain(flash[from..to], d.info.crcOnBoard))
  {
    hide Chain, WriteSector, Start;
    WriteSectorSigns(sizes, d, hw);
    var from, to := Start(sizes, d.info.sector), Start(sizes, d.info.sector + 1);
    var flash := WriteSector(sizes, d, hw);
    ChainConcat(flash[..from], flash[from..to], 0);
  }

  lemma AcceptKeeps(sizes: seq<nat>, d: Device, hw: Hardware)
    requires Holds(sizes, d) && IsPending(d) && d.boot == BootLoad && CRC_YES in Validate(sizes, d, hw).acks
    ensures Holds(sizes, Validate(sizes, d, hw).device)
  {
    hide Start, FitsBuffer, RecordHolds, IsStartable, Chain, WriteSector, Signs;
    ValidateSigns(sizes, d, hw);
  }

  lemma RefuseKeeps(sizes: seq<nat>, d: Device, hw: Hardware)
    requires Holds(sizes, d) && IsPending(d) && d.boot == BootLoad && CRC_YES !in Validate(sizes, d, hw).acks
    ensures Holds(sizes, Validate(sizes, d, hw).device)
  {
    hide Start, FitsBuffer, RecordHolds, IsStartable, Chain, WriteSector, Signs;
    if d.info.sector < |sizes| { ValidateSigns(sizes, d, hw); }
  }

  lemma ValidateKeeps(sizes: seq<nat>, d: Device, hw: Hardware)
    requires Holds(sizes, d) && IsPending(d) && d.boot == BootLoad
    ensures Holds(sizes, Validate(sizes, d, hw).device)
  {
    hide Validate, Holds;
    if CRC_YES in Validate(sizes, d, hw).acks {
      AcceptKeeps(sizes, d, hw);
    } else {
      RefuseKeeps(sizes, d, hw);
    }
  }

  lemma InstallKeeps(sizes: seq<nat>, d: Device, hw: Hardware)
    requires Holds(sizes, d) && d.can == ValidatedVectorTable
    ensures Holds(sizes, Install(d, hw))
  {
    hide Chain, Start, FitsBuffer, PowerOn;
    if hw.Works? {
      PowerOnHolds(sizes, d.flash,
                   Some(Record(d.info.length, d.info.crc, d.info.vectorTable, d.info.vectorCrc)), true);
    }
  }

  lemma ResetKeeps(sizes: seq<nat>, d: Device, hw: Hardware)
    requires Holds(sizes, d)
    ensures Holds(sizes, Reset(d, hw))
  {
    hide Chain, FitsBuffer, PowerOn, Holds;
    ShapeOf(sizes, d);
    match hw
    case Works =>
      PowerOnHolds(sizes, Zeros(|d.flash|), None, true);
      PowerOnHolds(sizes, d.flash, d.record, false);
    case Fails(cells) => PowerOnHolds(sizes, Fit(cells, |d.flash|), d.record, d.backup);
    case Refuses(cells) => RefusedHolds(sizes, Fit(cells, |d.flash|), d.copy, d.backup);
  }

  lemma ShapeOf(sizes: seq<nat>, d: Device)
    requires Holds(sizes, d)
    ensures Shaped(sizes, d) && RecordHolds(d.record) && RecordHolds(None)
  {
  }

  lemma RefusedHolds(sizes: seq<nat>, flash: seq<Word>, copy: Info, backup: bool)
    requires FitsBuffer(sizes) && |flash| == Start(sizes, |sizes|) && |copy.vectorTable| == VECTOR_WORDS
    ensures Holds(sizes, PowerOn(flash, None, backup).(boot := BootError, copy := copy))
  {
    hide Chain;
    PowerOnHolds(sizes, flash, None, backup);
  }

  lemma StartKeeps(sizes: seq<nat>, d: Device, hw: Hardware)
    requires Holds(sizes, d) && d.boot == BootRun
    ensures Holds(sizes, StartProgram(d, hw).device)
  {
    hide Chain, Start, FitsBuffer, Signs;
  }

  lemma PollKeeps(sizes: seq<nat>, d: Device, hw: Hardware)
    requires Holds(sizes, d)
    ensures Holds(sizes, Poll(sizes, d, hw).device)
  {
    hide Chain, Start, FitsBuffer, Signs, Validate, Install, Reset, StartProgram;
    if d.boot == BootRun {
      StartKeeps(sizes, d, hw);
    } else if d.boot == BootReset {
      ResetKeeps(sizes, d, hw);
    } else if d.boot == BootLoad {
      if IsPending(d) { ValidateKeeps(sizes, d, hw); }
      if d.can == ValidatedVectorTable { InstallKeeps(sizes, d, hw); }
    }
  }

  // ---------- whole runs ----------

  /** What happens to the receiver: a frame arrives, or the main loop makes a turn. */
  datatype Input = Arrived(frame: Frame) | Turned(hw: Hardware)

  function Run(sizes: seq<nat>, d: Device, inputs: seq<Input>): Device
    decreases |inputs|
  {
    if inputs == [] then d
    else
      var next := match inputs[0]
                  case Arrived(frame) => Rx(sizes, d, frame).device
                  case Turned(hw) => Poll(sizes, d, hw).device;
      Run(sizes, next, inputs[1..])
  }

  lemma {:induction false} RunKeeps(sizes: seq<nat>, d: Device, inputs: seq<Input>)
    requires Holds(sizes, d)
    ensures Holds(sizes, Run(sizes, d, inputs))
    decreases |inputs|
  {
    hide Holds, Rx, Poll;
    if inputs != [] {
      match inputs[0] {
        case Arrived(frame) =>
          RxKeeps(sizes, d, frame);
          RunKeeps(sizes, Rx(sizes, d, frame).device, inputs[1..]);
        case Turned(hw) =>
          PollKeeps(sizes, d, hw);
          RunKeeps(sizes, Poll(sizes, d, hw).device, inputs[1..]);
      }
    }
  }

  /**
   * What a receiver that satisfies the invariant vouches for; where the application has been started, that a
   * record exists, that its length fits the flash, and that that part of the flash and the recorded vector table
   * have the recorded signatures.
   */
  ghost predicate IsSigned(sizes: seq<nat>, d: Device) {
    && (IsFinal(d.can) ==>
          && d.info.sector < |sizes|
          && Start(sizes, d.info.sector + 1) <= |d.flash|
          && d.info.crc == Chain(d.flash[..Start(sizes, d.info.sector + 1)], 0))
    && (d.can == ValidatedVectorTable ==> d.info.vectorCrc == Chain(d.info.vectorTable, 0))
    && (d.record.Some? ==> d.record.value.vectorCrc == Chain(d.record.value.vectorTable, 0))
    && (d.boot == BootLeft ==>
          && d.record.Some?
          && d.record.value.length / 8 <= |d.flash|
          && d.record.value.crc == Chain(d.flash[..d.record.value.length / 8], 0)
          && d.record.value.vectorCrc == Chain(d.record.value.vectorTable, 0))
  }

  lemma HoldsIsSigned(sizes: seq<nat>, d: Device)
    requires Holds(sizes, d)
    ensures IsSigned(sizes, d)
  {
    hide Chain, Start;
  }

  /**
   * From power-on, after any frames from anyone in any order, with any main-loop turns in between and any
   * flash failures: a receiver that has finished its data carries the signature of what its flash really
   * holds, a recorded vector table has its recorded signature, and if an application has been started then the
   * flash has the signature that was recorded for it.
   */
  lemma AnyRunIsSigned(sizes: seq<nat>, flash: seq<Word>, backup: bool, inputs: seq<Input>)
    requires FitsBuffer(sizes) && |flash| == Start(sizes, |sizes|)
    ensures IsSigned(sizes, Run(sizes, PowerOn(flash, None, backup), inputs))
  {
    hide Run, PowerOn, Holds, IsSigned, Start;
    PowerOnHolds(sizes, flash, None, backup);
    RunKeeps(sizes, PowerOn(flash, None, backup), inputs);
    HoldsIsSigned(sizes, Run(sizes, PowerOn(flash, None, backup), inputs));
  }

  // ---------- the error state ----------

  predicate IsResetCommand(input: Input) {
    input.Arrived? && input.frame == Request(CmdToResetBootProcess)
  }

  /** A signature that does not match leads to the error state, whatever the receiver has restored before. */
  lemma MismatchIsError(sizes: seq<nat>, d: Device, hw: Hardware)
    requires d.can != ResetBoot
    ensures var r := Validate(sizes, d, hw);
            CRC_YES !in r.acks ==> r.device.boot == BootError && r.device.can != ResetBoot
  {
    hide WriteSector, Chain, Start;
  }

  /**
   * From the error state only a reset command leads out: until then no frame and no turn of the main loop
   * changes the flash or the record, so the same sector is not accepted in a second attempt.
   */
  lemma {:induction false} ErrorForGood(sizes: seq<nat>, d: Device, inputs: seq<Input>)
    requires d.boot == BootError && d.can != ResetBoot
    requires forall i | 0 <= i < |inputs| :: !IsResetCommand(inputs[i])
    ensures var x := Run(sizes, d, inputs);
            x.boot == BootError && x.can != ResetBoot && x.flash == d.flash && x.record == d.record
    decreases |inputs|
  {
    if inputs != [] {
      assert !IsResetCommand(inputs[0]);
      match inputs[0]
      case Arrived(frame) =>
        ErrorFrame(sizes, d, frame);
        ErrorForGood(sizes, Rx(sizes, d, frame).device, inputs[1..]);
      case Turned(hw) => ErrorForGood(sizes, d, inputs[1..]);
    }
  }

  lemma ErrorFrame(sizes: seq<nat>, d: Device, frame: Frame)
    requires d.boot == BootError && d.can != ResetBoot && frame != Request(CmdToResetBootProcess)
    ensures var x := Rx(sizes, d, frame).device;
            x.boot == BootError && x.can != ResetBoot && x.flash == d.flash && x.record == d.record
  {
    hide SectorFull, Chain;
  }
}
