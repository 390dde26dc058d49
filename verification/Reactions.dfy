/**
 * What the receiver does with each frame and in each turn of its main loop, written out: exactly when it reacts, what
 * it answers and what it leaves unchanged.
 */
module Reactions {
  import opened Wrappers
  import opened Crc64
  import opened CrcImage
  import opened Protocol
  import opened Device
  import UploadProps
  import opened Transfer

  // ---------- frames ----------

  /**
   * A command changes the communication state and nothing else: a transfer or a start is only accepted without
   * communication, a reset always, and a question changes nothing.
   */
  lemma CommandsActed(d: Device, action: Action)
    ensures var x := RxRequest(d, action).device;
            && x == d.(can := x.can)
            && (action == CmdToTransferProgram ==>
                  x.can == if d.can == NoCommunication then WaitForInfo else d.can)
            && (action == CmdToRunProgram ==> x.can == if d.can == NoCommunication then RunProgram else d.can)
            && (action == CmdToResetBootProcess ==> x.can == ResetBoot)
            && (action in {CmdToGetBootloaderInfo, CmdToGetDataTransferInfo, CmdToGetVersionInfo} ==> x.can == d.can)
  {
  }

  /**
   * Every command is acknowledged as received, an accepted one as being processed, and the transfer command also as
   * processed; never with Yes.
   */
  lemma CommandsAnswered(d: Device, action: Action, ack: Ack)
    ensures ack in RxRequest(d, action).acks
            <==> && !ack.yes
                 && (|| (action == CmdToTransferProgram && ack.message == ReceivedCmdToTransferProgram)
                     || (action == CmdToRunProgram && ack.message == ReceivedCmdToRunProgram)
                     || (action == CmdToResetBootProcess && ack.message == ReceivedCmdToResetBootProcess))
                 && (|| ack.status == ReceivedButNotProcessed
                     || (ack.status == ReceivedAndInProcessing
                         && (d.can == NoCommunication || action == CmdToResetBootProcess))
                     || (ack.status == ReceivedAndProcessed
                         && d.can == NoCommunication && action == CmdToTransferProgram))
  {
  }

  /**
   * The program information is accepted exactly by a receiver that waits for it, for at most 0x3E0000 bytes and
   * with the number of loops that belongs to them; this is what the final Yes means.
   */
  lemma InformationTaken(d: Device, length: nat, loops: nat)
    ensures var r := RxProgramInfo(d, length, loops);
            var fits := d.can == WaitForInfo && length <= 0x3E_0000 && loops == length / 8;
            && r.device == (if fits then d.(can := WaitForDataLoops, info := d.info.(total := loops, length := length))
                            else d)
            && (forall ack :: ack in r.acks <==>
                  && ack.message == ReceivedProgramInfo
                  && (|| (ack.status == ReceivedButNotProcessed && !ack.yes)
                      || (ack.status == ReceivedAndInProcessing && !ack.yes && d.can == WaitForInfo)
                      || (ack.status == ReceivedAndProcessed && ack.yes == fits && d.can == WaitForInfo)))
  {
  }

  /** The receiver takes this loop number: it is the expected one, and the state allows one. */
  predicate TakesLoop(d: Device, loop: nat) {
    && loop == (if d.info.current == 0 then 1 else d.info.current)
    && (|| d.can in {ReceivedLoopNumber, Received8BytesData, Received8BytesCrc}
        || (d.can == WaitForDataLoops && loop == 1))
  }

  /**
   * A loop number is taken exactly if it is the expected one and the state allows one.  Taking it changes the state,
   * and the first one of a sector clears the buffer and saves the position; nothing is answered.
   */
  lemma LoopTaken(d: Device, loop: nat)
    ensures var r := RxLoopInfo(d, loop);
            var x := r.device;
            && r.acks == {}
            && (TakesLoop(d, loop) ==> x.can == ReceivedLoopNumber && x.info == d.info.(current := loop))
            && (!TakesLoop(d, loop) ==> x == d.(info := x.info) && x.info == d.info.(current := x.info.current))
            && (x.info.current == d.info.current || (d.info.current == 0 && x.info.current == 1))
            && (TakesLoop(d, loop) && d.can in {WaitForDataLoops, Received8BytesCrc} ==>
                  && x == d.(can := ReceivedLoopNumber, info := x.info, copy := x.info, buffer := x.buffer)
                  && |x.buffer| == 0x8000 && forall i | 0 <= i < 0x8000 :: x.buffer[i] == 0)
            && (TakesLoop(d, loop) && d.can in {ReceivedLoopNumber, Received8BytesData} ==>
                  x == d.(can := ReceivedLoopNumber, info := x.info))
  {
  }

  /**
   * A word after a loop number is stored at the current position, which then moves on, unless it was the last word
   * of the program; the acknowledgement comes at the end of a sub-sector of 1024 loops and, with Yes, at the end.
   */
  lemma WordStored(d: Device, word: Word)
    requires d.can == ReceivedLoopNumber && d.info.pos < |d.buffer|
    ensures var r := RxData(d, word);
            var x := r.device;
            && x == d.(can := Received8BytesData, buffer := x.buffer, info := x.info)
            && |x.buffer| == |d.buffer| && x.buffer[d.info.pos] == word
            && (forall i | 0 <= i < |d.buffer| && i != d.info.pos :: x.buffer[i] == d.buffer[i])
            && x.info == (if d.info.current == d.info.total then d.info
                          else d.info.(pos := d.info.pos + 1, current := d.info.current + 1))
            && (forall ack :: ack in r.acks <==>
                  && ack.message == ReceivedSubSectorData && ack.status == ReceivedAndProcessed
                  && ack.yes == (d.info.current == d.info.total)
                  && (d.info.current == d.info.total || d.info.current % 1024 == 0))
  {
  }

  /**
   * Once the data is complete a word goes to the vector table; the fourth one ends it and is acknowledged.  In any
   * other state a word is ignored, except that one which does not fit the buffer is an error.
   */
  lemma OtherWords(d: Device, word: Word)
    requires d.can != ReceivedLoopNumber || d.info.pos >= |d.buffer|
    ensures var r := RxData(d, word);
            var taken := d.can == FinishedFinalValidation && d.info.vectorCount < |d.info.vectorTable|;
            && (!taken ==> r == Reaction(if d.can == ReceivedLoopNumber then d.(can := CanError) else d, {}))
            && (taken ==>
                  && r.device == d.(can := r.device.can,
                                    info := d.info.(vectorTable := d.info.vectorTable[d.info.vectorCount := word],
                                                    vectorCount := d.info.vectorCount + 1))
                  && (r.device.can == if d.info.vectorCount == 3 then FinishedTransferVectorTable else d.can)
                  && r.acks == (if d.info.vectorCount == 3
                                then {Ack(ReceivedVectorTable, ReceivedAndProcessed, false)} else {}))
  {
  }

  /**
   * The signature of a sector is taken exactly after a word, when the sector is full or the last loop has been
   * reached; it is kept for the validation and answered with No for the time being.
   */
  lemma SignatureTaken(sizes: seq<nat>, d: Device, crc: Word)
    requires d.can != FinishedTransferVectorTable && d.info.sector < |sizes|
    ensures var r := RxCrc(sizes, d, crc);
            var full := d.info.pos >= UploadProps.LoopsIn(sizes, d.info.sector) || d.info.current == d.info.total;
            r == if d.can == Received8BytesData && full
                 then Reaction(d.(can := Received8BytesCrc, info := d.info.(crc := crc)),
                               {Ack(ReceivedCrc, ReceivedAndInProcessing, false)})
                 else Reaction(d, {})
  {
  }

  /** Behind the last sector it is taken after the first word. */
  lemma SignatureBehind(sizes: seq<nat>, d: Device, crc: Word)
    requires d.can == Received8BytesData && d.info.sector >= |sizes|
    ensures RxCrc(sizes, d, crc).device.can == Received8BytesCrc <==> d.info.pos > 0 || d.info.current == d.info.total
  {
  }

  /**
   * The signature of the vector table is answered at once: with Yes exactly if it is that of the four words; with No
   * the words are forgotten, and the receiver waits for them again.
   */
  lemma VectorSignature(sizes: seq<nat>, d: Device, crc: Word)
    requires d.can == FinishedTransferVectorTable
    ensures var r := RxCrc(sizes, d, crc);
            var valid := crc == Chain(d.info.vectorTable, 0);
            && r.acks == {Ack(ReceivedCrcOfVectorTable, ReceivedAndProcessed, valid)}
            && (valid ==> r.device == d.(can := ValidatedVectorTable, info := d.info.(vectorCrc := crc)))
            && (!valid ==>
                  r.device == d.(can := FinishedFinalValidation,
                                 info := d.info.(vectorTable := [0, 0, 0, 0], vectorCount := 0, vectorCrc := 0)))
  {
  }

  // ---------- turns of the main loop ----------

  /** The part of the flash that the current sector takes. */
  function SectorOf(sizes: seq<nat>, d: Device, flash: seq<Word>): seq<Word>
    requires CanWrite(sizes, d) && |flash| == |d.flash|
  {
    flash[UploadProps.Start(sizes, d.info.sector)..UploadProps.Start(sizes, d.info.sector + 1)]
  }

  /**
   * A sector is accepted exactly if it can be written, the flash works, and the signature that goes on from the one
   * on board over what has been written is the one that was sent.  Then the receiver moves on to the next sector, or
   * is ready for the vector table.
   */
  lemma SectorAccepted(sizes: seq<nat>, d: Device, hw: Hardware)
    ensures var r := Validate(sizes, d, hw);
            && (Ack(ReceivedCrc, ReceivedAndProcessed, true) in r.acks
                <==> && CanWrite(sizes, d) && hw.Works?
                     && Chain(d.buffer[..UploadProps.LoopsIn(sizes, d.info.sector)], d.info.crcOnBoard) == d.info.crc)
            && (Ack(ReceivedCrc, ReceivedAndProcessed, true) in r.acks ==>
                  && r.device == d.(can := r.device.can, flash := r.device.flash, checks := d.checks + 1,
                                    info := r.device.info)
                  && |r.device.flash| == |d.flash|
                  && SectorOf(sizes, d, r.device.flash) == d.buffer[..UploadProps.LoopsIn(sizes, d.info.sector)]
                  && (if d.info.current == d.info.total
                      then r.device.can == FinishedFinalValidation && r.device.info == d.info.(crcOnBoard := d.info.crc)
                      else r.device.can == d.can
                           && r.device.info
                              == d.info.(crcOnBoard := d.info.crc, pos := 0, sector := d.info.sector + 1)))
  {
    hide Chain, UploadProps.Start, UploadProps.LoopsIn;
    if CanWrite(sizes, d) && hw.Works? { BufferIsWritten(sizes, d); }
  }

  lemma BufferIsWritten(sizes: seq<nat>, d: Device)
    requires CanWrite(sizes, d)
    ensures var flash := WriteSector(sizes, d, Works);
            && |flash| == |d.flash|
            && SectorOf(sizes, d, flash) == d.buffer[..UploadProps.LoopsIn(sizes, d.info.sector)]
  {
  }

  /**
   * Otherwise the receiver is in the error state.  A sector whose signature is wrong, or that could not be written,
   * is answered with No, and the position of its first loop is restored; without privileges, or where the sector
   * cannot be written at all, nothing is answered and the position stays.
   */
  lemma SectorRefused(sizes: seq<nat>, d: Device, hw: Hardware)
    requires Ack(ReceivedCrc, ReceivedAndProcessed, true) !in Validate(sizes, d, hw).acks
    ensures var r := Validate(sizes, d, hw);
            && r.device.boot == BootError && r.device.checks == 0
            && (r.acks == if CanWrite(sizes, d) && !hw.Refuses?
                          then {Ack(ReceivedCrc, ReceivedAndProcessed, false)} else {})
            && (if r.acks == {} then r.device.info == d.info && r.device.can == d.can
                else r.device.info == d.copy
                     && r.device.can == if d.copy.current == 1 then WaitForDataLoops else d.can)
            && (!CanWrite(sizes, d) ==> r.device.flash == d.flash)
            && (r.device.copy, r.device.buffer, r.device.record, r.device.backup)
               == (d.copy, d.buffer, d.record, d.backup)
  {
    hide Chain, UploadProps.Start, UploadProps.LoopsIn;
  }

  /** Whatever the flash does, the sectors before and behind the current one stay as they were. */
  lemma OtherSectorsStay(sizes: seq<nat>, d: Device, hw: Hardware, i: nat)
    requires CanWrite(sizes, d) && i < |d.flash|
    requires i < UploadProps.Start(sizes, d.info.sector) || i >= UploadProps.Start(sizes, d.info.sector + 1)
    ensures var x := Validate(sizes, d, hw).device; |x.flash| == |d.flash| && x.flash[i] == d.flash[i]
  {
    hide Chain;
  }

  /**
   * A program is installed, and the receiver restarts with it, exactly if its vector table has no zero word and the
   * flash works; otherwise the receiver is in the error state.  A record that could not be written is lost, together
   * with the backup.
   */
  lemma ProgramInstalled(d: Device, hw: Hardware)
    ensures var x := Install(d, hw);
            && (x.boot == BootWait <==> 0 !in d.info.vectorTable && hw.Works?)
            && (x.boot == BootWait ==>
                  && x.can == NoCommunication && x.info == Info(0, 0, 0, 0, 0, 0, 0, 0, [0, 0, 0, 0], 0)
                  && x.flash == d.flash && x.backup
                  && x.record == Some(Record(d.info.length, d.info.crc, d.info.vectorTable, d.info.vectorCrc)))
            && (x.boot != BootWait ==>
                  && x.boot == BootError && x.can == d.can && x.info == d.info && x.flash == d.flash
                  && (if 0 in d.info.vectorTable then x.record == d.record && x.backup == d.backup
                      else x.record == None && !x.backup))
  {
  }

  /**
   * While a program is loaded only three states do something: a signature that has not been validated yet, a valid
   * vector table, and a reset command.  In the other states of the transfer the receiver goes on waiting, and any
   * other state is an error.
   */
  lemma LoadingTurn(sizes: seq<nat>, d: Device, hw: Hardware)
    requires d.boot == BootLoad
    ensures var r := Poll(sizes, d, hw);
            && (d.can == Received8BytesCrc ==> r == if d.checks == 0 then Validate(sizes, d, hw) else Reaction(d, {}))
            && (d.can == ValidatedVectorTable ==> r == Reaction(Install(d, hw), {}))
            && (d.can !in {Received8BytesCrc, ValidatedVectorTable} ==>
                  && r.acks == {}
                  && r.device == d.(boot := r.device.boot, checks := 0)
                  && (r.device.boot == BootReset <==> d.can == ResetBoot)
                  && (r.device.boot == BootError <==> d.can in {NoCommunication, CanError, RunProgram}))
  {
    hide Validate, Install;
  }

  /**
   * In the other states one turn follows the communication state, makes the reset or starts the program; the error
   * state is only left for a reset, and the started program for nothing.
   */
  lemma OtherTurns(sizes: seq<nat>, d: Device, hw: Hardware)
    requires d.boot !in {BootLoad, BootReset, BootRun}
    ensures var r := Poll(sizes, d, hw);
            && r.acks == {}
            && r.device == d.(boot := r.device.boot)
            && (d.boot == BootWait ==>
                  && (r.device.boot == BootWait <==> d.can == NoCommunication)
                  && (r.device.boot == BootRun <==> d.can == RunProgram)
                  && (r.device.boot == BootReset <==> d.can == ResetBoot)
                  && (r.device.boot == BootError <==> d.can == CanError)
                  && r.device.boot != BootLeft)
            && (d.boot == BootError ==> r.device.boot == if d.can == ResetBoot then BootReset else BootError)
            && (d.boot == BootLeft ==> r.device.boot == BootLeft)
  {
  }

  /**
   * The turn that starts the program leaves the bootloader exactly if the record checks out and the jump succeeds; if
   * only the jump fails, Yes has been answered already, and the error state is entered.
   */
  lemma StartTurn(sizes: seq<nat>, d: Device, hw: Hardware)
    requires d.boot == BootRun
    ensures var r := Poll(sizes, d, hw);
            var good := && !hw.Refuses?
                        && d.record.Some?
                        && d.record.value.length / 8 <= |d.flash|
                        && d.record.value.crc == Chain(d.flash[..d.record.value.length / 8], 0)
                        && d.record.value.vectorCrc == Chain(d.record.value.vectorTable, 0);
            && r.acks == {Ack(ReceivedCmdToRunProgram, ReceivedAndProcessed, good)}
            && r.device == d.(can := NoCommunication, boot := r.device.boot)
            && (r.device.boot == BootLeft <==> good && hw.Works?)
            && (r.device.boot == BootError <==> good && hw.Fails?)
            && (r.device.boot == BootWait <==> !good)
  {
    hide Chain;
  }
}
