/**
 * The order of any two events that follow each other directly in a run of the upload, on any bus and whatever fails:
 * what each frame waits for, and what must have been seen before it.
 */
module Traces {
  import opened Wrappers
  import opened Crc64
  import opened Protocol
  import opened UploadSpec

  /** The acknowledgement that is awaited after a frame. */
  predicate Awaits(frame: Frame, message: AckMessage, status: StatusCode) {
    match frame
    case Request(CmdToTransferProgram) => message == ReceivedCmdToTransferProgram && status == ReceivedAndProcessed
    case Request(CmdToResetBootProcess) => message == ReceivedCmdToResetBootProcess && status == ReceivedAndInProcessing
    case ProgramInfo(_, _) => message == ReceivedProgramInfo && status == ReceivedAndProcessed
    case Data(_) => message in {ReceivedSubSectorData, ReceivedVectorTable} && status == ReceivedAndProcessed
    case CrcSignature(_) => message in {ReceivedCrc, ReceivedCrcOfVectorTable} && status == ReceivedAndProcessed
    case _ => false
  }

  /** What may be sent directly after the outcome of a wait, or at the start. */
  predicate Opens(f: BinaryFile, e: Event) {
    && e.Sent?
    && match e.frame
       case Request(action) => action !in {CmdToRunProgram, CmdToGetVersionInfo}
       case LoopInfo(_) => true
       case Data(word) => word in f.vectorTable
       case _ => false
  }

  /** Some row of the table has this signature. */
  predicate InTable(f: BinaryFile, crc: Word) {
    exists i | 0 <= i < |f.table| :: f.table[i].Some? && f.table[i].value.0 == crc
  }

  /** Event b may directly follow event a. */
  predicate MayFollow(f: BinaryFile, a: Event, b: Event) {
    match b
    case AckWaited(message, status, _) => a.Sent? && Awaits(a.frame, message, status)
    case StatesRead(_) => a == Sent(Request(CmdToGetBootloaderInfo))
    case LoopsRead(_) => a == Sent(Request(CmdToGetDataTransferInfo))
    case Sent(frame) =>
      if a.Sent? then
        // a loop number and its word, or the word before it; or two words of the vector table
        match a.frame
        case LoopInfo(i) =>
          frame.Data? && 1 <= i && Entry(f, i - 1).Some? && Entry(f, i - 1).value.1 == frame.word
        case Data(word) => frame.LoopInfo? || (frame.Data? && word in f.vectorTable && frame.word in f.vectorTable)
        case _ => false
      else
        match frame
        case ProgramInfo(lenInBytes, loops) =>
          && a.StatesRead? && a.states.Some? && a.states.value.0 == WaitForInfo
          && lenInBytes == f.lenInBytes && loops == f.lenInWords
        case CrcSignature(crc) =>
          && a.AckWaited? && a.reply != NoAck
          && ((a.message == ReceivedSubSectorData && InTable(f, crc))
              || (a.message == ReceivedVectorTable && crc == f.vectorCrc))
        case _ => Opens(f, b)
  }

  predicate IsOrdered(f: BinaryFile, events: seq<Event>) {
    forall i | 0 < i < |events| :: MayFollow(f, events[i - 1], events[i])
  }

  /** Such events from an opening one on, and up to the outcome of a wait, unless the run has ended in between. */
  predicate IsPart(f: BinaryFile, events: seq<Event>, exit: bool) {
    && IsOrdered(f, events)
    && (events != [] ==> Opens(f, events[0]) && (exit || !events[|events| - 1].Sent?))
  }

  lemma Joined(f: BinaryFile, x: seq<Event>, y: seq<Event>)
    requires IsOrdered(f, x) && IsOrdered(f, y)
    requires x != [] && y != [] ==> MayFollow(f, x[|x| - 1], y[0])
    ensures IsOrdered(f, x + y)
  {
    hide MayFollow;
    var z := x + y;
    forall i | 0 < i < |z|
      ensures MayFollow(f, z[i - 1], z[i])
    {
      if i < |x| {
        assert MayFollow(f, x[i - 1], x[i]);
      } else if i > |x| {
        assert MayFollow(f, y[i - |x| - 1], y[i - |x|]);
      }
    }
  }

  lemma JoinedParts(f: BinaryFile, x: seq<Event>, y: seq<Event>, exit: bool)
    requires IsPart(f, x, false) && IsPart(f, y, exit)
    ensures IsPart(f, x + y, exit)
  {
    if x != [] && y != [] { OpensAfter(f, x[|x| - 1], y[0]); }
    Joined(f, x, y);
    if y == [] {
      assert x + y == x;
    } else {
      assert (x + y)[|x + y| - 1] == y[|y| - 1];
    }
  }

  lemma OpensAfter(f: BinaryFile, a: Event, b: Event)
    requires !a.Sent? && Opens(f, b)
    ensures MayFollow(f, a, b)
  {
  }

  lemma NoEvents(f: BinaryFile, exit: bool)
    ensures IsPart(f, [], exit)
  {
  }

  // ---------- handshakes ----------

  lemma {:induction false} PollOrdered(f: BinaryFile, n: nat, bus: Bus, k: nat)
    requires n > 0
    ensures IsPart(f, PollState(n, bus, k).events, false)
    ensures var events := PollState(n, bus, k).events; events != [] && events[|events| - 1].StatesRead?
  {
    var s := GetState(bus, k);
    assert IsPart(f, s.events, false);
    if s.result.None? && n > 1 {
      PollOrdered(f, n - 1, bus, s.next);
      JoinedParts(f, s.events, PollState(n - 1, bus, s.next).events, false);
    }
  }

  lemma ResetOrdered(f: BinaryFile, polls: nat, bus: Bus, k: nat)
    requires polls > 0
    ensures IsPart(f, ResetBootloader(polls, bus, k).events, false)
  {
    hide PollState, IsPart;
    var reply := Answer(bus, k).ack;
    var command := [Sent(Request(CmdToResetBootProcess)),
                    AckWaited(ReceivedCmdToResetBootProcess, ReceivedAndInProcessing, reply)];
    CommandOrdered(f, reply);
    if reply != NoAck {
      var s := PollState(polls, bus, k + 1);
      var l := GetLoops(bus, s.next);
      PollOrdered(f, polls, bus, k + 1);
      JoinedParts(f, command, s.events, false);
      LoopsOrdered(f, bus, s.next);
      JoinedParts(f, command + s.events, l.events, false);
    }
  }

  lemma CommandOrdered(f: BinaryFile, reply: AckReply)
    ensures IsPart(f, [Sent(Request(CmdToResetBootProcess)),
                       AckWaited(ReceivedCmdToResetBootProcess, ReceivedAndInProcessing, reply)], false)
  {
  }

  lemma LoopsOrdered(f: BinaryFile, bus: Bus, k: nat)
    ensures IsPart(f, GetLoops(bus, k).events, false)
  {
  }

  lemma PreInfoOrdered(f: BinaryFile, bus: Bus, k: nat)
    ensures IsPart(f, PreInfo(f, bus, k).events, false)
  {
  }

  lemma HandshakeOrdered(f: BinaryFile, info: BootloaderStatus, polls: nat, bus: Bus, k: nat)
    requires polls > 0
    ensures IsPart(f, Handshake(f, info, polls, bus, k).events, false)
  {
    hide IsPart, PreInfo, ResetBootloader;
    var r := if AtTheBeginning(info) then Outcome([], k, true) else ResetBootloader(polls, bus, k);
    if AtTheBeginning(info) {
      NoEvents(f, false);
    } else {
      ResetOrdered(f, polls, bus, k);
    }
    PreInfoOrdered(f, bus, r.next);
    JoinedParts(f, r.events, PreInfo(f, bus, r.next).events, false);
  }

  // ---------- data ----------

  lemma {:induction false} FramesOrdered(f: BinaryFile, i: nat, last: nat)
    requires i >= 1
    ensures var (events, ok) := LoopFrames(f, i, last);
            && IsPart(f, events, true)
            && (events != [] ==> events[0].frame.LoopInfo?)
            && (events != [] ==> events[|events| - 1].Sent? && events[|events| - 1].frame.Data?)
            && (ok && i <= last ==> events != [])
    decreases last + 1 - i
  {
    if i <= last && Entry(f, i - 1).Some? {
      FramesOrdered(f, i + 1, last);
      var pair := [Sent(LoopInfo(i)), Sent(Data(Entry(f, i - 1).value.1))];
      var (events, ok) := LoopFrames(f, i + 1, last);
      assert IsOrdered(f, pair);
      Joined(f, pair, events);
    }
  }

  lemma SubSectorOrdered(f: BinaryFile, first: nat, last: nat, bus: Bus, k: nat)
    requires 1 <= first <= last
    ensures var o := SubSector(f, first, last, bus, k);
            && IsPart(f, o.events, o.result == Exit)
            && (o.result != Exit ==>
                  && |o.events| > 0
                  && o.events[|o.events| - 1]
                     == AckWaited(ReceivedSubSectorData, ReceivedAndProcessed, Answer(bus, k).ack)
                  && (o.result == Success <==> Answer(bus, k).ack != NoAck))
  {
    FramesOrdered(f, first, last);
    var (events, ok) := LoopFrames(f, first, last);
    var wait := AckWaited(ReceivedSubSectorData, ReceivedAndProcessed, Answer(bus, k).ack);
    if ok { Joined(f, events, [wait]); }
  }

  /** The events of a part that has succeeded end with the acknowledgement of a sub-sector. */
  predicate EndsAcknowledged(events: seq<Event>) {
    && |events| > 0
    && events[|events| - 1].AckWaited?
    && events[|events| - 1].message == ReceivedSubSectorData
    && events[|events| - 1].reply != NoAck
  }

  lemma {:induction false} TriesOrdered(f: BinaryFile, first: nat, last: nat, tries: nat, bus: Bus, k: nat)
    requires 1 <= first <= last
    ensures var o := SubSectorTries(f, first, last, tries, bus, k);
            IsPart(f, o.events, o.result == Exit) && (o.result == Success ==> EndsAcknowledged(o.events))
    decreases tries
  {
    hide SubSector, IsPart;
    if tries == 0 {
      NoEvents(f, false);
    } else {
      SubSectorOrdered(f, first, last, bus, k);
      var a := SubSector(f, first, last, bus, k);
      if a.result == Failed {
        TriesOrdered(f, first, last, tries - 1, bus, a.next);
        var rest := SubSectorTries(f, first, last, tries - 1, bus, a.next);
        JoinedParts(f, a.events, rest.events, rest.result == Exit);
      }
    }
  }

  lemma {:induction false} SectorLoopsOrdered(
    f: BinaryFile, i: nat, last: nat, total: nat, tries: nat, bus: Bus, k: nat)
    requires 1 <= i && last <= total
    ensures var o := SectorLoops(f, i, last, total, tries, bus, k);
            && IsPart(f, o.events, o.result == Exit)
            && (o.result == Success && i <= last ==> EndsAcknowledged(o.events))
    decreases last + SUB_SECTOR_LOOPS - i
  {
    hide SubSectorTries, IsPart;
    if i > last || SubSectorLoops(i, total).None? {
      NoEvents(f, SectorLoops(f, i, last, total, tries, bus, k).result == Exit);
    } else {
      var end := SubSectorLoops(i, total).value.1;
      TriesOrdered(f, i, end, tries, bus, k);
      var a := SubSectorTries(f, i, end, tries, bus, k);
      if a.result == Success {
        SectorLoopsOrdered(f, i + SUB_SECTOR_LOOPS, last, total, tries, bus, a.next);
        var rest := SectorLoops(f, i + SUB_SECTOR_LOOPS, last, total, tries, bus, a.next);
        JoinedParts(f, a.events, rest.events, rest.result == Exit);
      }
    }
  }

  lemma SectorOrdered(f: BinaryFile, i: nat, total: nat, size: nat, tries: nat, bus: Bus, k: nat)
    requires 1 <= i <= total && size > 0
    ensures var o := Sector(f, i, total, size, tries, bus, k); IsPart(f, o.events, o.result == Exit)
  {
    hide SectorLoops;
    var last := LastLoop(i, total, size);
    SectorLoopsOrdered(f, i, last, total, tries, bus, k);
    var a := SectorLoops(f, i, last, total, tries, bus, k);
    if a.result == Success && Entry(f, last - 1).Some? {
      var crc := Entry(f, last - 1).value.0;
      assert f.table[last - 1].value.0 == crc;
      Joined(f, a.events, SendCrc(crc, false, bus, a.next).events);
    }
  }

  lemma {:induction false} AppDataOrdered(f: BinaryFile, sizes: seq<nat>, i: nat, tries: nat, bus: Bus, k: nat)
    ensures var o := AppData(f, sizes, i, tries, bus, k); IsPart(f, o.events, o.result == Exit)
    decreases f.lenInWords + 1 - i
  {
    hide Sector, SectorSize, IsPart;
    if 1 <= i <= f.lenInWords && SectorSize(sizes, 0, 1, i).Some? {
      SectorSizePositive(sizes, 0, 1, i);
      var size := SectorSize(sizes, 0, 1, i).value;
      SectorOrdered(f, i, f.lenInWords, size, tries, bus, k);
      var a := Sector(f, i, f.lenInWords, size, tries, bus, k);
      if a.result == Success {
        AppDataOrdered(f, sizes, i + size, tries, bus, a.next);
        var rest := AppData(f, sizes, i + size, tries, bus, a.next);
        JoinedParts(f, a.events, rest.events, rest.result == Exit);
      }
    } else {
      NoEvents(f, AppData(f, sizes, i, tries, bus, k).result == Exit);
    }
  }

  lemma VectorTableOrdered(f: BinaryFile, bus: Bus, k: nat)
    requires |f.vectorTable| == 4
    ensures IsPart(f, VectorTable(f, bus, k).events, false) && VectorTable(f, bus, k).result != Exit
  {
  }

  lemma {:induction false} PassesOrdered(
    f: BinaryFile, sizes: seq<nat>, n: nat, onlyVector: bool, tries: nat, bus: Bus, k: nat)
    requires |f.vectorTable| == 4
    ensures var o := Passes(f, sizes, n, onlyVector, tries, bus, k); IsPart(f, o.events, o.result == Exit)
    decreases n
  {
    hide AppData, VectorTable, IsPart, SectorSize;
    NoEvents(f, false);
    if n > 0 {
      AppDataOrdered(f, sizes, 1, tries, bus, k);
      var a := PassData(f, sizes, onlyVector, tries, bus, k);
      if a.result == Failed {
        PassesOrdered(f, sizes, n - 1, onlyVector, tries, bus, a.next);
        var rest := Passes(f, sizes, n - 1, onlyVector, tries, bus, a.next);
        JoinedParts(f, a.events, rest.events, rest.result == Exit);
      } else if a.result == Success {
        VectorTableOrdered(f, bus, a.next);
        var v := VectorTable(f, bus, a.next);
        JoinedParts(f, a.events, v.events, false);
        if v.result == Failed {
          PassesOrdered(f, sizes, n - 1, true, tries, bus, v.next);
          var rest := Passes(f, sizes, n - 1, true, tries, bus, v.next);
          JoinedParts(f, a.events + v.events, rest.events, rest.result == Exit);
        }
      }
    }
  }

  // ---------- the whole upload ----------

  /**
   * In any run any two neighbouring events are in this order.  So every outcome of a wait directly follows the frame
   * that it belongs to, the program information is only sent directly after a report that the bootloader waits for
   * it, a loop number is directly followed by its word, and a signature is only sent directly after the
   * acknowledgement of what it signs.
   */
  lemma UploadOrdered(f: BinaryFile, sizes: seq<nat>, info: BootloaderStatus, limits: Limits, bus: Bus, k: nat)
    requires |f.vectorTable| == 4 && limits.polls > 0
    ensures var o := AppBinary(f, sizes, info, limits, bus, k);
            && (forall i | 0 < i < |o.events| :: MayFollow(f, o.events[i - 1], o.events[i]))
            && (o.events != [] && o.result != Exit ==> !o.events[|o.events| - 1].Sent?)
  {
    hide Handshake, Passes, IsOrdered;
    NoEvents(f, true);
    HandshakeOrdered(f, info, limits.polls, bus, k);
    var h := Handshake(f, info, limits.polls, bus, k);
    if h.result {
      PassesOrdered(f, sizes, limits.passes, false, limits.tries, bus, h.next);
      var p := Passes(f, sizes, limits.passes, false, limits.tries, bus, h.next);
      JoinedParts(f, h.events, p.events, p.result == Exit);
    }
    OrderedPairs(f, AppBinary(f, sizes, info, limits, bus, k).events);
  }

  lemma OrderedPairs(f: BinaryFile, events: seq<Event>)
    requires IsOrdered(f, events)
    ensures forall i | 0 < i < |events| :: MayFollow(f, events[i - 1], events[i])
  {
  }
}
