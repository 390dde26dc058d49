/**
 * What one run of the upload does on a given bus: the frames it sends and the answers it waits for, in
 * order.  The methods of `Upload` are proved to do exactly this.
 */
module UploadSpec {
  import opened Wrappers
  import opened Crc64
  import opened FirmwareImage
  import opened Protocol

  const BYTES_PER_LOOP: nat := 8
  const SUB_SECTOR_LOOPS: nat := 1024

  /**
   * The prepared application as the upload reads it.  Entry i of `table` is what
   * `get_crc_and_data_by_index` finds in row i: a signature and a word, or None where the text is not a number.
   */
  datatype BinaryFile = BinaryFile(
    lenInBytes: nat,
    lenInWords: nat,
    vectorTable: seq<Word>,
    vectorCrc: Word,
    table: seq<Option<(Word, Word)>>)

  function LoadFile(p: Program): BinaryFile {
    BinaryFile(p.lenInBytes, p.lenInWords, p.vectorTable, p.vectorCrc,
               seq(|p.rows|, i requires 0 <= i < |p.rows| => Lookup(p.rows, i)))
  }

  /** The result of reading row i, where None stands for the exception it raises. */
  function Entry(p: BinaryFile, i: nat): Option<(Word, Word)> {
    if i < |p.table| then p.table[i] else None
  }

  /** `Exit` is an exception that leaves the upload: `sys.exit`, or a table row that cannot be read. */
  datatype Verdict = Success | Failed | Exit

  /** The events of a run, the index of the next wait, and the outcome. */
  datatype Outcome<T> = Outcome(events: seq<Event>, next: nat, result: T)

  /** The same run, preceded by some events. */
  function After<T>(events: seq<Event>, o: Outcome<T>): Outcome<T> {
    Outcome(events + o.events, o.next, o.result)
  }

  lemma AfterAfter<T>(x: seq<Event>, y: seq<Event>, o: Outcome<T>)
    ensures After(x, After(y, o)) == After(x + y, o)
  {
    assert x + (y + o.events) == (x + y) + o.events;
  }

  lemma AfterNothing<T>(o: Outcome<T>)
    ensures After([], o) == o
  {
    assert [] + o.events == o.events;
  }

  lemma AfterEnd<T>(done: seq<Event>, k: nat, r: T)
    ensures After(done, Outcome([], k, r)) == Outcome(done, k, r)
  {
    assert done + [] == done;
  }

  function Judge(ok: bool): Verdict {
    if ok then Success else Failed
  }

  // ---------- interface level ----------

  function SendCrc(crc: Word, isVectorTable: bool, bus: Bus, k: nat): Outcome<(bool, bool)> {
    var message := if isVectorTable then ReceivedCrcOfVectorTable else ReceivedCrc;
    var reply := Answer(bus, k).ack;
    Outcome([Sent(CrcSignature(crc)), AckWaited(message, ReceivedAndProcessed, reply)], k + 1,
            (reply != NoAck, reply == Yes))
  }

  /** A signature must be both received and found valid. */
  function JudgeCrc(c: Outcome<(bool, bool)>): Outcome<Verdict> {
    Outcome(c.events, c.next, Judge(c.result.0 && c.result.1))
  }

  function GetState(bus: Bus, k: nat): Outcome<Option<States>> {
    Outcome([Sent(Request(CmdToGetBootloaderInfo)), StatesRead(Answer(bus, k).states)], k + 1, Answer(bus, k).states)
  }

  function GetLoops(bus: Bus, k: nat): Outcome<Option<nat>> {
    Outcome([Sent(Request(CmdToGetDataTransferInfo)), LoopsRead(Answer(bus, k).loops)], k + 1, Answer(bus, k).loops)
  }

  predicate InState(states: Option<States>, s: CanState) {
    states.Some? && states.value.0 == s
  }

  function StartTransfer(bus: Bus, k: nat): Outcome<bool> {
    var reply := Answer(bus, k).ack;
    var events := [Sent(Request(CmdToTransferProgram)),
                   AckWaited(ReceivedCmdToTransferProgram, ReceivedAndProcessed, reply)];
    if reply == NoAck then Outcome(events, k + 1, false)
    else
      var s := GetState(bus, k + 1);
      After(events, Outcome(s.events, s.next, InState(s.result, WaitForInfo)))
  }

  function SendProgramInfo(lenInBytes: nat, loops: nat, bus: Bus, k: nat): Outcome<bool> {
    var reply := Answer(bus, k).ack;
    var events := [Sent(ProgramInfo(lenInBytes, loops)),
                   AckWaited(ReceivedProgramInfo, ReceivedAndProcessed, reply)];
    if reply != Yes then Outcome(events, k + 1, false)
    else
      var s := GetState(bus, k + 1);
      After(events, Outcome(s.events, s.next, InState(s.result, WaitForDataLoops)))
  }

  /** Asks for the state until there is an answer, at most n times. */
  function PollState(n: nat, bus: Bus, k: nat): Outcome<Option<States>>
    requires n > 0
  {
    var s := GetState(bus, k);
    if s.result.Some? || n == 1 then s else After(s.events, PollState(n - 1, bus, s.next))
  }

  lemma PollTurn(done: seq<Event>, n: nat, bus: Bus, k: nat)
    requires n > 0
    ensures var s := GetState(bus, k);
            After(done, PollState(n, bus, k))
            == if s.result.Some? || n == 1 then After(done, s)
               else After(done + s.events, PollState(n - 1, bus, s.next))
  {
    if n > 1 { AfterAfter(done, GetState(bus, k).events, PollState(n - 1, bus, k + 1)); }
  }

  function ResetBootloader(polls: nat, bus: Bus, k: nat): Outcome<bool>
    requires polls > 0
  {
    var reply := Answer(bus, k).ack;
    var events := [Sent(Request(CmdToResetBootProcess)),
                   AckWaited(ReceivedCmdToResetBootProcess, ReceivedAndInProcessing, reply)];
    if reply == NoAck then Outcome(events, k + 1, false)
    else
      var s := PollState(polls, bus, k + 1);
      var l := GetLoops(bus, s.next);
      After(events + s.events,
            Outcome(l.events, l.next, s.result == Some((NoCommunication, BootWait)) && l.result == Some(0)))
  }

  // ---------- sub-sectors ----------

  /** First and last loop of the sub-sector that starts at loop idx; None stands for an exit. */
  function SubSectorLoops(idx: nat, maxIdx: nat): Option<(nat, nat)> {
    if idx < 1 || maxIdx < SUB_SECTOR_LOOPS then None
    else if idx > maxIdx / SUB_SECTOR_LOOPS * SUB_SECTOR_LOOPS then Some((idx, maxIdx))
    else Some((idx, (idx + SUB_SECTOR_LOOPS - 1) / SUB_SECTOR_LOOPS * SUB_SECTOR_LOOPS))
  }

  /** The frames of loops i to last: each loop number followed by its word. */
  function LoopFrames(p: BinaryFile, i: nat, last: nat): (seq<Event>, bool)
    requires i >= 1
    decreases last + 1 - i
  {
    if i > last then ([], true)
    else
      var entry := Entry(p, i - 1);
      if entry.None? then ([], false)
      else
        var (events, ok) := LoopFrames(p, i + 1, last);
        ([Sent(LoopInfo(i)), Sent(Data(entry.value.1))] + events, ok)
  }

  function SubSector(p: BinaryFile, first: nat, last: nat, bus: Bus, k: nat): Outcome<Verdict>
    requires first >= 1
  {
    var (events, ok) := LoopFrames(p, first, last);
    if !ok then Outcome(events, k, Exit)
    else
      var reply := Answer(bus, k).ack;
      Outcome(events + [AckWaited(ReceivedSubSectorData, ReceivedAndProcessed, reply)], k + 1,
              Judge(reply != NoAck))
  }

  /** At most `tries` attempts at one sub-sector. */
  function SubSectorTries(p: BinaryFile, first: nat, last: nat, tries: nat, bus: Bus, k: nat): Outcome<Verdict>
    requires first >= 1
    decreases tries
  {
    if tries == 0 then Outcome([], k, Failed)
    else
      var a := SubSector(p, first, last, bus, k);
      if a.result != Failed then a
      else After(a.events, SubSectorTries(p, first, last, tries - 1, bus, a.next))
  }

  /** One turn of the repeat loop, behind the events of the turns before it. */
  lemma TriesTurn(
    done: seq<Event>, p: BinaryFile, first: nat, last: nat, tries: nat, bus: Bus, k: nat)
    requires first >= 1 && tries > 0
    ensures var a := SubSector(p, first, last, bus, k);
            After(done, SubSectorTries(p, first, last, tries, bus, k))
            == if a.result != Failed then After(done, a)
               else After(done + a.events, SubSectorTries(p, first, last, tries - 1, bus, a.next))
  {
    var a := SubSector(p, first, last, bus, k);
    AfterAfter(done, a.events, SubSectorTries(p, first, last, tries - 1, bus, a.next));
  }

  // ---------- sectors ----------

  function SectorLoops(p: BinaryFile, i: nat, last: nat, total: nat, tries: nat, bus: Bus, k: nat): Outcome<Verdict>
    requires i >= 1
    decreases last + SUB_SECTOR_LOOPS - i
  {
    if i > last then Outcome([], k, Success)
    else
      var bounds := SubSectorLoops(i, total);
      if bounds.None? then Outcome([], k, Exit)
      else
        var a := SubSectorTries(p, bounds.value.0, bounds.value.1, tries, bus, k);
        if a.result != Success then a
        else After(a.events, SectorLoops(p, i + SUB_SECTOR_LOOPS, last, total, tries, bus, a.next))
  }

  /** One turn of the loop over sub-sectors, behind the events of the turns before it. */
  lemma SectorLoopsTurn(
    done: seq<Event>, p: BinaryFile, i: nat, last: nat, total: nat, tries: nat, bus: Bus, k: nat)
    requires 1 <= i <= last && SubSectorLoops(i, total).Some?
    ensures var a := SubSectorTries(p, i, SubSectorLoops(i, total).value.1, tries, bus, k);
            After(done, SectorLoops(p, i, last, total, tries, bus, k))
            == if a.result != Success then After(done, a)
               else After(done + a.events, SectorLoops(p, i + SUB_SECTOR_LOOPS, last, total, tries, bus, a.next))
  {
    var a := SubSectorTries(p, i, SubSectorLoops(i, total).value.1, tries, bus, k);
    AfterAfter(done, a.events, SectorLoops(p, i + SUB_SECTOR_LOOPS, last, total, tries, bus, a.next));
  }

  function LastLoop(i: nat, total: nat, size: nat): nat
    requires i >= 1
  {
    if i + size > total then total else i + size - 1
  }

  function Sector(p: BinaryFile, i: nat, total: nat, size: nat, tries: nat, bus: Bus, k: nat): Outcome<Verdict>
    requires i >= 1
  {
    var last := LastLoop(i, total, size);
    var a := SectorLoops(p, i, last, total, tries, bus, k);
    if a.result != Success then a
    else if last == 0 || Entry(p, last - 1).None? then Outcome(a.events, a.next, Exit)
    else After(a.events, JudgeCrc(SendCrc(Entry(p, last - 1).value.0, false, bus, a.next)))
  }

  /** The size, in loops, of the sector that holds loop i, when sector n starts at loop `start`. */
  function SectorSize(sizes: seq<nat>, n: nat, start: nat, i: nat): Option<nat>
    requires n <= |sizes|
    decreases |sizes| - n
  {
    if n == |sizes| then None
    else
      var size := sizes[n] / BYTES_PER_LOOP;
      if start <= i < start + size then Some(size) else SectorSize(sizes, n + 1, start + size, i)
  }

  lemma {:induction false} SectorSizePositive(sizes: seq<nat>, n: nat, start: nat, i: nat)
    requires n <= |sizes|
    ensures SectorSize(sizes, n, start, i).Some? ==> SectorSize(sizes, n, start, i).value > 0
    decreases |sizes| - n
  {
    if n < |sizes| { SectorSizePositive(sizes, n + 1, start + sizes[n] / BYTES_PER_LOOP, i); }
  }

  // ---------- the application ----------

  function AppData(p: BinaryFile, sizes: seq<nat>, i: nat, tries: nat, bus: Bus, k: nat): Outcome<Verdict>
    decreases p.lenInWords + 1 - i
  {
    if i < 1 then Outcome([], k, Exit)
    else if i > p.lenInWords then Outcome([], k, Success)
    else
      var size := SectorSize(sizes, 0, 1, i);
      SectorSizePositive(sizes, 0, 1, i);
      if size.None? then Outcome([], k, Failed)
      else
        var a := Sector(p, i, p.lenInWords, size.value, tries, bus, k);
        if a.result != Success then a
        else After(a.events, AppData(p, sizes, i + size.value, tries, bus, a.next))
  }

  /** One turn of the loop over sectors, behind the events of the turns before it. */
  lemma AppDataTurn(done: seq<Event>, p: BinaryFile, sizes: seq<nat>, i: nat, tries: nat, bus: Bus, k: nat)
    requires 1 <= i <= p.lenInWords && SectorSize(sizes, 0, 1, i).Some?
    ensures var size := SectorSize(sizes, 0, 1, i).value;
            var a := Sector(p, i, p.lenInWords, size, tries, bus, k);
            After(done, AppData(p, sizes, i, tries, bus, k))
            == if a.result != Success then After(done, a)
               else After(done + a.events, AppData(p, sizes, i + size, tries, bus, a.next))
  {
    var size := SectorSize(sizes, 0, 1, i).value;
    var a := Sector(p, i, p.lenInWords, size, tries, bus, k);
    AfterAfter(done, a.events, AppData(p, sizes, i + size, tries, bus, a.next));
  }

  function VectorFrames(p: BinaryFile): seq<Event>
    requires |p.vectorTable| == 4
  {
    [Sent(Data(p.vectorTable[0])), Sent(Data(p.vectorTable[1])),
     Sent(Data(p.vectorTable[2])), Sent(Data(p.vectorTable[3]))]
  }

  function VectorTable(p: BinaryFile, bus: Bus, k: nat): Outcome<Verdict>
    requires |p.vectorTable| == 4
  {
    var reply := Answer(bus, k).ack;
    var events := VectorFrames(p) + [AckWaited(ReceivedVectorTable, ReceivedAndProcessed, reply)];
    if reply == NoAck then Outcome(events, k + 1, Failed)
    else
      After(events, JudgeCrc(SendCrc(p.vectorCrc, true, bus, k + 1)))
  }

  function PreInfo(p: BinaryFile, bus: Bus, k: nat): Outcome<bool> {
    var s := StartTransfer(bus, k);
    if !s.result then s else After(s.events, SendProgramInfo(p.lenInBytes, p.lenInWords, bus, s.next))
  }

  /** The data part of one pass, which is skipped once it has succeeded. */
  function PassData(p: BinaryFile, sizes: seq<nat>, onlyVector: bool, tries: nat, bus: Bus, k: nat)
    : Outcome<Verdict>
  {
    if onlyVector then Outcome([], k, Success) else AppData(p, sizes, 1, tries, bus, k)
  }

  /** How one pass ends. */
  datatype PassEnd = Accepted | VectorTableFailed | DataFailed | PassExit

  function Pass(p: BinaryFile, sizes: seq<nat>, onlyVector: bool, tries: nat, bus: Bus, k: nat): Outcome<PassEnd>
    requires |p.vectorTable| == 4
  {
    var a := PassData(p, sizes, onlyVector, tries, bus, k);
    if a.result == Exit then Outcome(a.events, a.next, PassExit)
    else if a.result == Failed then Outcome(a.events, a.next, DataFailed)
    else
      var v := VectorTable(p, bus, a.next);
      Outcome(a.events + v.events, v.next, if v.result == Success then Accepted else VectorTableFailed)
  }

  /** At most n passes; once the data of a pass has succeeded only the vector table is repeated. */
  function Passes(p: BinaryFile, sizes: seq<nat>, n: nat, onlyVector: bool, tries: nat, bus: Bus, k: nat)
    : Outcome<Verdict>
    requires |p.vectorTable| == 4
    decreases n
  {
    if n == 0 then Outcome([], k, Failed)
    else
      var t := Pass(p, sizes, onlyVector, tries, bus, k);
      match t.result
      case PassExit => Outcome(t.events, t.next, Exit)
      case Accepted => Outcome(t.events, t.next, Success)
      case VectorTableFailed => After(t.events, Passes(p, sizes, n - 1, true, tries, bus, t.next))
      case DataFailed => After(t.events, Passes(p, sizes, n - 1, onlyVector, tries, bus, t.next))
  }

  /** One turn of the loop over passes, behind the events of the turns before it. */
  lemma PassesTurn(
    done: seq<Event>, p: BinaryFile, sizes: seq<nat>, n: nat, onlyVector: bool, tries: nat, bus: Bus, k: nat)
    requires |p.vectorTable| == 4 && n > 0
    ensures var t := Pass(p, sizes, onlyVector, tries, bus, k);
            var whole := After(done, Passes(p, sizes, n, onlyVector, tries, bus, k));
            && (t.result == PassExit ==> whole == Outcome(done + t.events, t.next, Exit))
            && (t.result == Accepted ==> whole == Outcome(done + t.events, t.next, Success))
            && (t.result == VectorTableFailed ==>
                  whole == After(done + t.events, Passes(p, sizes, n - 1, true, tries, bus, t.next)))
            && (t.result == DataFailed ==>
                  whole == After(done + t.events, Passes(p, sizes, n - 1, onlyVector, tries, bus, t.next)))
  {
    var t := Pass(p, sizes, onlyVector, tries, bus, k);
    AfterAfter(done, t.events, Passes(p, sizes, n - 1, onlyVector, tries, bus, t.next));
    AfterAfter(done, t.events, Passes(p, sizes, n - 1, true, tries, bus, t.next));
  }

  predicate AtTheBeginning(info: BootloaderStatus) {
    info.boot == Some(BootWait) && info.can == Some(NoCommunication) && info.loops == Some(0)
  }

  predicate IsComplete(info: BootloaderStatus) {
    info.can.Some? && info.boot.Some? && info.loops.Some?
  }

  /** How often things are tried: passes, attempts at a sub-sector, polls after a reset. */
  datatype Limits = Limits(passes: nat, tries: nat, polls: nat)

  /** Reset if the bootloader is not at its start, then the handshakes before the data. */
  function Handshake(p: BinaryFile, info: BootloaderStatus, polls: nat, bus: Bus, k: nat): Outcome<bool>
    requires polls > 0
  {
    var r := if AtTheBeginning(info) then Outcome([], k, true) else ResetBootloader(polls, bus, k);
    if !r.result then r else After(r.events, PreInfo(p, bus, r.next))
  }

  function AppBinary(p: BinaryFile, sizes: seq<nat>, info: BootloaderStatus, limits: Limits, bus: Bus, k: nat)
    : Outcome<Verdict>
    requires |p.vectorTable| == 4 && limits.polls > 0
  {
    if !IsComplete(info) then Outcome([], k, Exit)
    else
      var h := Handshake(p, info, limits.polls, bus, k);
      if !h.result then Outcome(h.events, h.next, Failed)
      else After(h.events, Passes(p, sizes, limits.passes, false, limits.tries, bus, h.next))
  }
}
