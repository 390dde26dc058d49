/**
 * The receiver: the bootloader on the microcontroller, with its CAN callbacks and the step of its main loop
 * that loads a program.  Callbacks and main-loop steps may be interleaved in any way.
 */
module Device {
  import opened Wrappers
  import opened Crc64
  import opened CrcImage
  import opened Protocol
  import UploadProps

  const SUB_SECTOR: nat := 1024
  const PROGRAM_SIZE_MAX: nat := 0x3E_0000
  /** The sector buffer of 0x40000 bytes. */
  const BUFFER_WORDS: nat := 0x8000
  const VECTOR_WORDS: nat := 4

  datatype Ack = Ack(message: AckMessage, status: StatusCode, yes: bool)

  /** `can_infoOfDataTransfer`, with the current sector by its index and the buffer position in words. */
  datatype Info = Info(
    total: nat,
    current: nat,
    length: nat,
    sector: nat,
    crc: Word,
    crcOnBoard: Word,
    pos: nat,
    vectorCount: nat,
    vectorTable: seq<Word>,
    vectorCrc: Word)

  /** What is kept in the program information sector once a program has been accepted. */
  datatype Record = Record(length: nat, crc: Word, vectorTable: seq<Word>, vectorCrc: Word)

  /**
   * `checks` is the number of validations since the signature arrived; `backup` tells whether the board has a
   * backup of the bootloader's own vector table, which it gets with the first program that is installed.
   */
  datatype Device = Device(
    can: CanState,
    boot: BootState,
    info: Info,
    copy: Info,
    buffer: seq<Word>,
    flash: seq<Word>,
    checks: nat,
    record: Option<Record>,
    backup: bool)

  /** What the flash hardware does when it is asked to: succeed, leave anything behind, or not be allowed. */
  datatype Hardware = Works | Fails(cells: seq<Word>) | Refuses(cells: seq<Word>)

  datatype Reaction = Reaction(device: Device, acks: set<Ack>)

  function Zeros(n: nat): seq<Word> {
    seq(n, i => 0)
  }

  /** Some n words of which `cells` is what is known. */
  function Fit(cells: seq<Word>, n: nat): (r: seq<Word>)
    ensures |r| == n
  {
    seq(n, i requires 0 <= i < n => if i < |cells| then cells[i] else 0)
  }

  const NEW_INFO: Info := Info(0, 0, 0, 0, 0, 0, 0, 0, [0, 0, 0, 0], 0)

  /** The state after a software reset of the microcontroller. */
  function PowerOn(flash: seq<Word>, record: Option<Record>, backup: bool): Device {
    Device(NoCommunication, BootWait, NEW_INFO, NEW_INFO, Zeros(BUFFER_WORDS), flash, 0, record, backup)
  }

  function Quiet(d: Device): Reaction {
    Reaction(d, {})
  }

  // ---------- callbacks ----------

  /** `CAN_RxActionRequest` */
  function RxRequest(d: Device, action: Action): Reaction {
    match action
    case CmdToTransferProgram =>
      var got := Ack(ReceivedCmdToTransferProgram, ReceivedButNotProcessed, false);
      if d.can != NoCommunication then Reaction(d, {got})
      else
        Reaction(d.(can := WaitForInfo),
                 {got, Ack(ReceivedCmdToTransferProgram, ReceivedAndInProcessing, false),
                  Ack(ReceivedCmdToTransferProgram, ReceivedAndProcessed, false)})
    case CmdToResetBootProcess =>
      Reaction(d.(can := ResetBoot),
               {Ack(ReceivedCmdToResetBootProcess, ReceivedButNotProcessed, false),
                Ack(ReceivedCmdToResetBootProcess, ReceivedAndInProcessing, false)})
    case CmdToRunProgram =>
      var got := Ack(ReceivedCmdToRunProgram, ReceivedButNotProcessed, false);
      if d.can != NoCommunication then Reaction(d, {got})
      else Reaction(d.(can := RunProgram), {got, Ack(ReceivedCmdToRunProgram, ReceivedAndInProcessing, false)})
    case CmdToGetBootloaderInfo => Quiet(d)
    case CmdToGetDataTransferInfo => Quiet(d)
    case CmdToGetVersionInfo => Quiet(d)
  }

  /** `CAN_RxTransferProcessInfo` */
  function RxProgramInfo(d: Device, length: nat, loops: nat): Reaction {
    var got := Ack(ReceivedProgramInfo, ReceivedButNotProcessed, false);
    if d.can != WaitForInfo then Reaction(d, {got})
    else
      var working := Ack(ReceivedProgramInfo, ReceivedAndInProcessing, false);
      if length > PROGRAM_SIZE_MAX || length / 8 != loops then
        Reaction(d, {got, working, Ack(ReceivedProgramInfo, ReceivedAndProcessed, false)})
      else
        Reaction(d.(can := WaitForDataLoops, info := d.info.(total := loops, length := length)),
                 {got, working, Ack(ReceivedProgramInfo, ReceivedAndProcessed, true)})
  }

  /** `CAN_RxLoopInfo` */
  function RxLoopInfo(d: Device, loop: nat): Reaction {
    if d.can !in {WaitForDataLoops, ReceivedLoopNumber, Received8BytesData, Received8BytesCrc} then Quiet(d)
    else
      var info := if d.info.current == 0 then d.info.(current := 1) else d.info;
      var firstInData := info.current == 1 && d.can == WaitForDataLoops;
      var firstInSector := firstInData || d.can == Received8BytesCrc;
      var wished := d.can == ReceivedLoopNumber || firstInSector || d.can == Received8BytesData;
      if info.current != loop || !wished then Quiet(d.(info := info))
      else if firstInSector then
        Quiet(d.(can := ReceivedLoopNumber, info := info, copy := info, buffer := Zeros(BUFFER_WORDS)))
      else Quiet(d.(can := ReceivedLoopNumber, info := info))
  }

  /** `CAN_RxData8Bytes` */
  function RxData(d: Device, word: Word): Reaction {
    if d.can == FinishedFinalValidation then
      if d.info.vectorCount < |d.info.vectorTable| then
        var info := d.info.(vectorTable := d.info.vectorTable[d.info.vectorCount := word],
                            vectorCount := d.info.vectorCount + 1);
        if info.vectorCount == VECTOR_WORDS then
          Reaction(d.(can := FinishedTransferVectorTable, info := info),
                   {Ack(ReceivedVectorTable, ReceivedAndProcessed, false)})
        else Quiet(d.(info := info))
      else Quiet(d)
    else if d.can == ReceivedLoopNumber then
      if d.info.pos >= |d.buffer| then Quiet(d.(can := CanError))
      else
        var stored := d.(can := Received8BytesData, buffer := d.buffer[d.info.pos := word]);
        if d.info.current == d.info.total then
          Reaction(stored, {Ack(ReceivedSubSectorData, ReceivedAndProcessed, true)})
        else
          Reaction(stored.(info := d.info.(pos := d.info.pos + 1, current := d.info.current + 1)),
                   if d.info.current % SUB_SECTOR == 0
                   then {Ack(ReceivedSubSectorData, ReceivedAndProcessed, false)} else {})
    else Quiet(d)
  }

  /** Whether the buffer holds the current sector; an unknown sector counts as one byte long. */
  predicate SectorFull(sizes: seq<nat>, info: Info) {
    if info.sector < |sizes| then info.pos >= UploadProps.LoopsIn(sizes, info.sector) else info.pos > 0
  }

  /** `CAN_RxCrc8Bytes` */
  function RxCrc(sizes: seq<nat>, d: Device, crc: Word): Reaction {
    if d.can == FinishedTransferVectorTable then
      var info := d.info.(vectorCrc := crc);
      if crc == Chain(info.vectorTable, 0) then
        Reaction(d.(can := ValidatedVectorTable, info := info),
                 {Ack(ReceivedCrcOfVectorTable, ReceivedAndProcessed, true)})
      else
        Reaction(d.(can := FinishedFinalValidation,
                    info := info.(vectorTable := [0, 0, 0, 0], vectorCount := 0, vectorCrc := 0)),
                 {Ack(ReceivedCrcOfVectorTable, ReceivedAndProcessed, false)})
    else if d.can == Received8BytesData && (SectorFull(sizes, d.info) || d.info.current == d.info.total) then
      Reaction(d.(can := Received8BytesCrc, info := d.info.(crc := crc)),
               {Ack(ReceivedCrc, ReceivedAndInProcessing, false)})
    else Quiet(d)
  }

  function Rx(sizes: seq<nat>, d: Device, frame: Frame): Reaction {
    if d.boot == BootLeft then Quiet(d)
    else
      match frame
      case Request(action) => RxRequest(d, action)
      case ProgramInfo(length, loops) => RxProgramInfo(d, length, loops)
      case LoopInfo(loop) => RxLoopInfo(d, loop)
      case Data(word) => RxData(d, word)
      case CrcSignature(crc) => RxCrc(sizes, d, crc)
  }

  // ---------- main loop ----------

  /** `BOOT_GetBootState` */
  function StateWhileWaiting(can: CanState): BootState {
    match can
    case NoCommunication => BootWait
    case RunProgram => BootRun
    case ResetBoot => BootReset
    case CanError => BootError
    case _ => BootLoad
  }

  const CRC_YES := Ack(ReceivedCrc, ReceivedAndProcessed, true)
  const CRC_NO := Ack(ReceivedCrc, ReceivedAndProcessed, false)

  /** The flash after an attempt to write the current sector from the buffer. */
  function WriteSector(sizes: seq<nat>, d: Device, hw: Hardware): seq<Word>
    requires d.info.sector < |sizes|
    requires UploadProps.Start(sizes, d.info.sector + 1) <= |d.flash|
    requires UploadProps.LoopsIn(sizes, d.info.sector) <= |d.buffer|
  {
    var from, to := UploadProps.Start(sizes, d.info.sector), UploadProps.Start(sizes, d.info.sector + 1);
    var cells := if hw.Works? then d.buffer[..to - from] else Fit(hw.cells, to - from);
    d.flash[..from] + cells + d.flash[to..]
  }

  /** `BOOT_WriteAndValidateCurrentSector`, and the error state that its failure leads to. */
  function Validate(sizes: seq<nat>, d: Device, hw: Hardware): Reaction {
    if d.info.sector >= |sizes| || UploadProps.Start(sizes, d.info.sector + 1) > |d.flash|
       || UploadProps.LoopsIn(sizes, d.info.sector) > |d.buffer| then
      Quiet(d.(boot := BootError, checks := 0))
    else
      var from, to := UploadProps.Start(sizes, d.info.sector), UploadProps.Start(sizes, d.info.sector + 1);
      var flash := WriteSector(sizes, d, hw);
      var failed := d.(boot := BootError, checks := 0, flash := flash);
      if hw.Refuses? then Quiet(failed)
      else if hw.Works? && Chain(flash[from..to], d.info.crcOnBoard) == d.info.crc then
        var info := d.info.(crcOnBoard := d.info.crc);
        var passed := d.(checks := d.checks + 1, flash := flash);
        if d.info.current == d.info.total then
          Reaction(passed.(can := FinishedFinalValidation, info := info), {CRC_YES})
        else
          Reaction(passed.(info := info.(pos := 0, sector := info.sector + 1)), {CRC_YES})
      else
        Reaction(failed.(info := d.copy, can := if d.copy.current == 1 then WaitForDataLoops else d.can), {CRC_NO})
  }

  /** The part of `BOOT_GetBootStateDuringLoad` that makes the received program the one to start. */
  function Install(d: Device, hw: Hardware): Device {
    if exists i | 0 <= i < |d.info.vectorTable| :: d.info.vectorTable[i] == 0 then
      d.(boot := BootError, checks := 0)
    else if hw.Works? then
      PowerOn(d.flash, Some(Record(d.info.length, d.info.crc, d.info.vectorTable, d.info.vectorCrc)), true)
    else d.(boot := BootError, checks := 0, record := None, backup := false)
  }

  /** `BOOT_GetBootStateDuringLoad` */
  function PollLoading(sizes: seq<nat>, d: Device, hw: Hardware): Reaction {
    match d.can
    case Received8BytesCrc => if d.checks == 0 then Validate(sizes, d, hw) else Quiet(d)
    case ValidatedVectorTable => Quiet(Install(d, hw))
    case ResetBoot => Quiet(d.(boot := BootReset, checks := 0))
    case WaitForInfo => Quiet(d.(checks := 0))
    case WaitForDataLoops => Quiet(d.(checks := 0))
    case ReceivedLoopNumber => Quiet(d.(checks := 0))
    case Received8BytesData => Quiet(d.(checks := 0))
    case FinishedFinalValidation => Quiet(d.(checks := 0))
    case FinishedTransferVectorTable => Quiet(d.(checks := 0))
    case _ => Quiet(d.(boot := BootError, checks := 0))
  }

  /**
   * `BOOT_ResetBootloader`: the microcontroller restarts, or the error state is entered.  Without a backup of the
   * vector table the program information is not reset, and then the flash is not erased either.
   */
  function Reset(d: Device, hw: Hardware): Device {
    match hw
    case Works => if d.backup then PowerOn(Zeros(|d.flash|), None, true) else PowerOn(d.flash, d.record, false)
    case Fails(cells) => PowerOn(Fit(cells, |d.flash|), d.record, d.backup)
    case Refuses(cells) => PowerOn(Fit(cells, |d.flash|), None, d.backup).(boot := BootError, copy := d.copy)
  }

  /** What `BOOT_IsProgramAvailableAndValidated` checks before the recorded program is started. */
  predicate IsStartable(d: Device) {
    && d.record.Some?
    && d.record.value.length / 8 <= |d.flash|
    && d.record.value.crc == Chain(d.flash[..d.record.value.length / 8], 0)
    && d.record.value.vectorCrc == Chain(d.record.value.vectorTable, 0)
  }

  /**
   * The check, which is not made without privileges, and the jump into the application, which can be refused as
   * well.
   */
  function StartProgram(d: Device, hw: Hardware): Reaction {
    var idle := d.(can := NoCommunication);
    if hw.Refuses? || !IsStartable(d) then
      Reaction(idle.(boot := BootWait), {Ack(ReceivedCmdToRunProgram, ReceivedAndProcessed, false)})
    else
      Reaction(idle.(boot := if hw.Works? then BootLeft else BootError),
               {Ack(ReceivedCmdToRunProgram, ReceivedAndProcessed, true)})
  }

  /** One turn of the main loop. */
  function Poll(sizes: seq<nat>, d: Device, hw: Hardware): Reaction {
    match d.boot
    case BootWait => Quiet(d.(boot := StateWhileWaiting(d.can)))
    case BootLoad => PollLoading(sizes, d, hw)
    case BootReset => Quiet(Reset(d, hw))
    case BootError => Quiet(if d.can == ResetBoot then d.(boot := BootReset) else d)
    case BootRun => StartProgram(d, hw)
    case BootLeft => Quiet(d)
  }
}
