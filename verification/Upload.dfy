/**
 * The upload tool: the CAN interface with its state handshakes, and the `Bootloader` class that drives the
 * transfer.  Every method is proved to make exactly the run that `UploadSpec` describes.
 */
module Upload {
  import opened Wrappers
  import opened Crc64
  import opened Protocol
  import opened Sequences
  import opened UploadSpec

  /** `BootloaderInterfaceCan` on an arbitrary bus; `trace` is everything sent and awaited so far. */
  class CanInterface {
    const bus: Bus
    ghost var trace: seq<Event>
    var waits: nat

    constructor (bus: Bus)
      ensures this.bus == bus && trace == [] && waits == 0
    {
      this.bus := bus;
      trace, waits := [], 0;
    }

    method Send(frame: Frame)
      modifies this`trace
      ensures trace == old(trace) + [Sent(frame)]
    {
      trace := trace + [Sent(frame)];
    }

    method WaitAck(message: AckMessage, status: StatusCode) returns (reply: AckReply)
      modifies this
      ensures reply == Answer(bus, old(waits)).ack && waits == old(waits) + 1
      ensures trace == old(trace) + [AckWaited(message, status, reply)]
    {
      reply := Answer(bus, waits).ack;
      trace := trace + [AckWaited(message, status, reply)];
      waits := waits + 1;
    }

    method GetBootloaderState() returns (states: Option<States>)
      modifies this
      ensures var o := UploadSpec.GetState(bus, old(waits));
              trace == old(trace) + o.events && waits == o.next && states == o.result
    {
      Send(Request(CmdToGetBootloaderInfo));
      states := Answer(bus, waits).states;
      trace := trace + [StatesRead(states)];
      waits := waits + 1;
    }

    method GetCurrentNumOfLoops() returns (loops: Option<nat>)
      modifies this
      ensures var o := UploadSpec.GetLoops(bus, old(waits));
              trace == old(trace) + o.events && waits == o.next && loops == o.result
    {
      Send(Request(CmdToGetDataTransferInfo));
      loops := Answer(bus, waits).loops;
      trace := trace + [LoopsRead(loops)];
      waits := waits + 1;
    }

    method SendCrc(crc: Word, isVectorTable: bool) returns (received: bool, valid: bool)
      modifies this
      ensures var o := UploadSpec.SendCrc(crc, isVectorTable, bus, old(waits));
              trace == old(trace) + o.events && waits == o.next && (received, valid) == o.result
    {
      Send(CrcSignature(crc));
      var reply;
      if isVectorTable {
        reply := WaitAck(ReceivedCrcOfVectorTable, ReceivedAndProcessed);
      } else {
        reply := WaitAck(ReceivedCrc, ReceivedAndProcessed);
      }
      if reply == NoAck { return false, false; }
      return true, reply == Yes;
    }

    method StartTransfer() returns (ok: bool)
      modifies this
      ensures var o := UploadSpec.StartTransfer(bus, old(waits));
              trace == old(trace) + o.events && waits == o.next && ok == o.result
    {
      Send(Request(CmdToTransferProgram));
      var reply := WaitAck(ReceivedCmdToTransferProgram, ReceivedAndProcessed);
      if reply == NoAck { return false; }
      var states := GetBootloaderState();
      ok := states.Some? && states.value.0 == WaitForInfo;
    }

    method SendProgramInfo(lenInBytes: nat, loops: nat) returns (ok: bool)
      modifies this
      ensures var o := UploadSpec.SendProgramInfo(lenInBytes, loops, bus, old(waits));
              trace == old(trace) + o.events && waits == o.next && ok == o.result
    {
      Send(ProgramInfo(lenInBytes, loops));
      var reply := WaitAck(ReceivedProgramInfo, ReceivedAndProcessed);
      if reply == NoAck { return false; }
      if reply != Yes { return false; }
      var states := GetBootloaderState();
      ok := states.Some? && states.value.0 == WaitForDataLoops;
    }

    /** The polling loop of `reset_bootloader`. */
    method PollBootloaderState(polls: nat) returns (states: Option<States>)
      requires polls > 0
      modifies this
      ensures var o := UploadSpec.PollState(polls, bus, old(waits));
              trace == old(trace) + o.events && waits == o.next && states == o.result
    {
      ghost var whole := PollState(polls, bus, waits);
      ghost var done: seq<Event> := [];
      states := None;
      AfterNothing(whole);
      var n := 0;
      while n < polls
        invariant n <= polls
        invariant states.None? && trace == old(trace) + done
        invariant if n < polls then After(done, PollState(polls - n, bus, waits)) == whole
                               else Outcome(done, waits, states) == whole
      {
        ghost var o := GetState(bus, waits);
        PollTurn(done, polls - n, bus, waits);
        states := GetBootloaderState();
        ConcatAssoc(old(trace), done, o.events);
        done := done + o.events;
        if states.Some? { break; }
        n := n + 1;
      }
    }

    method ResetBootloader(polls: nat) returns (ok: bool)
      requires polls > 0
      modifies this
      ensures var o := UploadSpec.ResetBootloader(polls, bus, old(waits));
              trace == old(trace) + o.events && waits == o.next && ok == o.result
    {
      Send(Request(CmdToResetBootProcess));
      var reply := WaitAck(ReceivedCmdToResetBootProcess, ReceivedAndInProcessing);
      if reply == NoAck { return false; }
      var states := PollBootloaderState(polls);
      var loops := GetCurrentNumOfLoops();
      ok := states == Some((NoCommunication, BootWait)) && loops == Some(0);
    }
  }

  class Bootloader {
    const binaryFile: BinaryFile
    const memoryMap: seq<nat>
    const interface: CanInterface

    constructor (binaryFile: BinaryFile, memoryMap: seq<nat>, interface: CanInterface)
      requires |binaryFile.vectorTable| == 4
      ensures this.binaryFile == binaryFile && this.memoryMap == memoryMap && this.interface == interface
    {
      this.binaryFile, this.memoryMap, this.interface := binaryFile, memoryMap, interface;
    }

    method SendAndValidateVectorTable() returns (ok: bool)
      requires |binaryFile.vectorTable| == 4
      modifies interface
      ensures var o := UploadSpec.VectorTable(binaryFile, interface.bus, old(interface.waits));
              interface.trace == old(interface.trace) + o.events && interface.waits == o.next
              && Judge(ok) == o.result
    {
      ghost var start := interface.trace;
      for i := 0 to 4
        invariant interface.trace == start + VectorFrames(binaryFile)[..i]
        invariant interface.waits == old(interface.waits)
      {
        interface.Send(Data(binaryFile.vectorTable[i]));
        assert VectorFrames(binaryFile)[..i + 1] == VectorFrames(binaryFile)[..i] + [VectorFrames(binaryFile)[i]];
      }
      assert VectorFrames(binaryFile)[..4] == VectorFrames(binaryFile);
      var reply := interface.WaitAck(ReceivedVectorTable, ReceivedAndProcessed);
      if reply == NoAck { return false; }
      var received, valid := interface.SendCrc(binaryFile.vectorCrc, true);
      if !received { return false; }
      if !valid { return false; }
      ok := true;
    }

    method SendDataAsASubSector(first: nat, last: nat) returns (r: Verdict)
      requires first >= 1
      modifies interface
      ensures var o := UploadSpec.SubSector(binaryFile, first, last, interface.bus, old(interface.waits));
              interface.trace == old(interface.trace) + o.events && interface.waits == o.next && r == o.result
    {
      ghost var whole := LoopFrames(binaryFile, first, last);
      ghost var done: seq<Event> := [];
      assert done + whole.0 == whole.0;
      var i := first;
      while i <= last
        invariant first <= i
        invariant interface.trace == old(interface.trace) + done
        invariant interface.waits == old(interface.waits)
        invariant whole == (done + LoopFrames(binaryFile, i, last).0, LoopFrames(binaryFile, i, last).1)
      {
        var entry := Entry(binaryFile, i - 1);
        if entry.None? { return Exit; }
        ghost var pair := [Sent(LoopInfo(i)), Sent(Data(entry.value.1))];
        ghost var rest := LoopFrames(binaryFile, i + 1, last).0;
        assert done + (pair + rest) == (done + pair) + rest;
        interface.Send(LoopInfo(i));
        interface.Send(Data(entry.value.1));
        done := done + pair;
        i := i + 1;
      }
      var reply := interface.WaitAck(ReceivedSubSectorData, ReceivedAndProcessed);
      r := if reply == NoAck then Failed else Success;
    }

    /** The repeat loop inside `send_data_as_a_sector`. */
    method TrySubSector(first: nat, last: nat, tries: nat) returns (r: Verdict)
      requires first >= 1
      modifies interface
      ensures var o := UploadSpec.SubSectorTries(binaryFile, first, last, tries, interface.bus, old(interface.waits));
              interface.trace == old(interface.trace) + o.events && interface.waits == o.next && r == o.result
    {
      ghost var whole := SubSectorTries(binaryFile, first, last, tries, interface.bus, interface.waits);
      ghost var done: seq<Event> := [];
      AfterNothing(whole);
      r := Failed;
      var n := 0;
      while n < tries
        invariant n <= tries && r == Failed
        invariant interface.trace == old(interface.trace) + done
        invariant whole
               == After(done, SubSectorTries(binaryFile, first, last, tries - n, interface.bus, interface.waits))
      {
        ghost var a := SubSector(binaryFile, first, last, interface.bus, interface.waits);
        TriesTurn(done, binaryFile, first, last, tries - n, interface.bus, interface.waits);
        r := SendDataAsASubSector(first, last);
        ConcatAssoc(old(interface.trace), done, a.events);
        done := done + a.events;
        if r != Failed { return; }
        n := n + 1;
      }
      AfterEnd(done, interface.waits, Failed);
    }

    /** The loop over sub-sectors of `send_data_as_a_sector`. */
    method SendSubSectors(iLoop: nat, last: nat, total: nat, tries: nat) returns (r: Verdict)
      requires iLoop >= 1
      modifies interface
      ensures var o := UploadSpec.SectorLoops(binaryFile, iLoop, last, total, tries, interface.bus,
                                              old(interface.waits));
              interface.trace == old(interface.trace) + o.events && interface.waits == o.next && r == o.result
    {
      ghost var whole := SectorLoops(binaryFile, iLoop, last, total, tries, interface.bus, interface.waits);
      ghost var done: seq<Event> := [];
      AfterNothing(whole);
      var i := iLoop;
      while i <= last
        invariant iLoop <= i
        invariant interface.trace == old(interface.trace) + done
        invariant whole
               == After(done, SectorLoops(binaryFile, i, last, total, tries, interface.bus, interface.waits))
        decreases last + SUB_SECTOR_LOOPS - i
      {
        var bounds := SubSectorLoops(i, total);
        if bounds.None? { return Exit; }
        ghost var a := SubSectorTries(binaryFile, i, bounds.value.1, tries, interface.bus, interface.waits);
        SectorLoopsTurn(done, binaryFile, i, last, total, tries, interface.bus, interface.waits);
        r := TrySubSector(bounds.value.0, bounds.value.1, tries);
        ConcatAssoc(old(interface.trace), done, a.events);
        done := done + a.events;
        if r != Success { return; }
        i := i + SUB_SECTOR_LOOPS;
      }
      AfterEnd(done, interface.waits, Success);
      r := Success;
    }

    method SendDataAsASector(iLoop: nat, total: nat, size: nat, tries: nat) returns (r: Verdict)
      requires iLoop >= 1
      modifies interface
      ensures var o := UploadSpec.Sector(binaryFile, iLoop, total, size, tries, interface.bus, old(interface.waits));
              interface.trace == old(interface.trace) + o.events && interface.waits == o.next && r == o.result
    {
      var last := if iLoop + size > total then total else iLoop + size - 1;
      r := SendSubSectors(iLoop, last, total, tries);
      if r != Success { return; }
      if last == 0 { return Exit; }
      var entry := Entry(binaryFile, last - 1);
      if entry.None? { return Exit; }
      var received, valid := interface.SendCrc(entry.value.0, false);
      if !received { return Failed; }
      if !valid { return Failed; }
      r := Success;
    }

    /** `_get_sector_size_using_num_of_data_loops` */
    method GetSectorSize(iLoop: nat) returns (r: Option<nat>)
      ensures r == UploadSpec.SectorSize(memoryMap, 0, 1, iLoop)
    {
      var start: nat := 1;
      var n := 0;
      while n < |memoryMap|
        invariant n <= |memoryMap|
        invariant UploadSpec.SectorSize(memoryMap, n, start, iLoop) == UploadSpec.SectorSize(memoryMap, 0, 1, iLoop)
      {
        var size := memoryMap[n] / BYTES_PER_LOOP;
        var end: int := start + size - 1;
        if start <= iLoop <= end { return Some(size); }
        start := start + size;
        n := n + 1;
      }
      r := None;
    }

    method SendAppData(iLoop: nat, tries: nat) returns (r: Verdict)
      modifies interface
      ensures var o := UploadSpec.AppData(binaryFile, memoryMap, iLoop, tries, interface.bus, old(interface.waits));
              interface.trace == old(interface.trace) + o.events && interface.waits == o.next && r == o.result
    {
      hide UploadSpec.Sector, UploadSpec.SectorSize;
      if iLoop < 1 { return Exit; }
      ghost var whole := AppData(binaryFile, memoryMap, iLoop, tries, interface.bus, interface.waits);
      ghost var done: seq<Event> := [];
      AfterNothing(whole);
      var i := iLoop;
      while i <= binaryFile.lenInWords
        invariant iLoop <= i
        invariant interface.trace == old(interface.trace) + done
        invariant whole == After(done, AppData(binaryFile, memoryMap, i, tries, interface.bus, interface.waits))
      {
        SectorSizePositive(memoryMap, 0, 1, i);
        var size := GetSectorSize(i);
        if size.None? { return Failed; }
        ghost var a := Sector(binaryFile, i, binaryFile.lenInWords, size.value, tries, interface.bus, interface.waits);
        AppDataTurn(done, binaryFile, memoryMap, i, tries, interface.bus, interface.waits);
        r := SendDataAsASector(i, binaryFile.lenInWords, size.value, tries);
        ConcatAssoc(old(interface.trace), done, a.events);
        done := done + a.events;
        if r != Success { return; }
        i := i + size.value;
      }
      AfterEnd(done, interface.waits, Success);
      r := Success;
    }

    method SendPreInfo() returns (ok: bool)
      modifies interface
      ensures var o := UploadSpec.PreInfo(binaryFile, interface.bus, old(interface.waits));
              interface.trace == old(interface.trace) + o.events && interface.waits == o.next && ok == o.result
    {
      ok := interface.StartTransfer();
      if !ok { return; }
      ok := interface.SendProgramInfo(binaryFile.lenInBytes, binaryFile.lenInWords);
    }

    /** One turn of the repeat loop of `send_app_binary`. */
    method SendPass(onlyVector: bool, tries: nat) returns (r: PassEnd)
      requires |binaryFile.vectorTable| == 4
      modifies interface
      ensures var o := UploadSpec.Pass(binaryFile, memoryMap, onlyVector, tries, interface.bus, old(interface.waits));
              interface.trace == old(interface.trace) + o.events && interface.waits == o.next && r == o.result
    {
      var a := Success;
      if !onlyVector { a := SendAppData(1, tries); }
      if a == Exit { return PassExit; }
      if a == Failed { return DataFailed; }
      ghost var o := PassData(binaryFile, memoryMap, onlyVector, tries, interface.bus, old(interface.waits));
      ghost var v := VectorTable(binaryFile, interface.bus, o.next);
      var ok := SendAndValidateVectorTable();
      ConcatAssoc(old(interface.trace), o.events, v.events);
      r := if ok then Accepted else VectorTableFailed;
    }

    /** The repeat loop of `send_app_binary`. */
    method SendPasses(passes: nat, tries: nat) returns (r: Verdict)
      requires |binaryFile.vectorTable| == 4
      modifies interface
      ensures var o := UploadSpec.Passes(binaryFile, memoryMap, passes, false, tries, interface.bus,
                                         old(interface.waits));
              interface.trace == old(interface.trace) + o.events && interface.waits == o.next && r == o.result
    {
      hide UploadSpec.Pass;
      ghost var before, k0 := interface.trace, interface.waits;
      ghost var done: seq<Event> := [];
      AfterNothing(UploadSpec.Passes(binaryFile, memoryMap, passes, false, tries, interface.bus, k0));
      var onlyVector := false;
      var n := 0;
      while n < passes
        invariant n <= passes
        invariant interface.trace == before + done
        invariant UploadSpec.Passes(binaryFile, memoryMap, passes, false, tries, interface.bus, k0)
               == After(done, UploadSpec.Passes(binaryFile, memoryMap, passes - n, onlyVector, tries,
                                       interface.bus, interface.waits))
      {
        ghost var k := interface.waits;
        PassesTurn(done, binaryFile, memoryMap, passes - n, onlyVector, tries, interface.bus, k);
        ConcatAssoc(before, done, UploadSpec.Pass(binaryFile, memoryMap, onlyVector, tries, interface.bus, k).events);
        done := done + UploadSpec.Pass(binaryFile, memoryMap, onlyVector, tries, interface.bus, k).events;
        var end := SendPass(onlyVector, tries);
        match end {
          case PassExit => return Exit;
          case Accepted => return Success;
          case VectorTableFailed => onlyVector := true;
          case DataFailed =>
        }
        n := n + 1;
      }
      AfterEnd(done, interface.waits, Failed);
      r := Failed;
    }

    /** The handshakes at the start of `send_app_binary`. */
    method PrepareTransfer(info: BootloaderStatus, polls: nat) returns (ok: bool)
      requires polls > 0
      modifies interface
      ensures var o := UploadSpec.Handshake(binaryFile, info, polls, interface.bus, old(interface.waits));
              interface.trace == old(interface.trace) + o.events && interface.waits == o.next && ok == o.result
    {
      ghost var before := interface.trace;
      if AtTheBeginning(info) {
        ok := SendPreInfo();
      } else {
        ghost var r := UploadSpec.ResetBootloader(polls, interface.bus, interface.waits);
        ok := interface.ResetBootloader(polls);
        if !ok { return; }
        ghost var i := UploadSpec.PreInfo(binaryFile, interface.bus, interface.waits);
        ok := SendPreInfo();
        ConcatAssoc(before, r.events, i.events);
      }
    }

    /** `send_app_binary` */
    method SendAppBinary(info: BootloaderStatus, limits: Limits) returns (r: Verdict)
      requires |binaryFile.vectorTable| == 4 && limits.polls > 0
      modifies interface
      ensures var o := UploadSpec.AppBinary(binaryFile, memoryMap, info, limits, interface.bus, old(interface.waits));
              interface.trace == old(interface.trace) + o.events && interface.waits == o.next && r == o.result
    {
      if info.can.None? || info.boot.None? || info.loops.None? { return Exit; }
      ghost var before := interface.trace;
      ghost var h := UploadSpec.Handshake(binaryFile, info, limits.polls, interface.bus, interface.waits);
      var ok := PrepareTransfer(info, limits.polls);
      if !ok { return Failed; }
      ghost var p := UploadSpec.Passes(binaryFile, memoryMap, limits.passes, false, limits.tries, interface.bus,
                                       interface.waits);
      r := SendPasses(limits.passes, limits.tries);
      ConcatAssoc(before, h.events, p.events);
    }
  }
}
