/**
 * Each exchange with the bootloader, in terms of what the bus answers to its waits: exactly when it succeeds, and
 * what it has sent by then.
 */
module Exchanges {
  import opened Wrappers
  import opened Crc64
  import opened Protocol
  import opened UploadSpec
  import UploadProps

  // ---------- handshakes ----------

  /**
   * A transfer is started exactly if the command is acknowledged and the state that is read after it is that the
   * bootloader waits for the information; without the acknowledgement the state is not asked for.
   */
  lemma TransferStarted(bus: Bus, k: nat)
    ensures var o := StartTransfer(bus, k);
            var states := Answer(bus, k + 1).states;
            && (o.result <==> Answer(bus, k).ack != NoAck && states.Some? && states.value.0 == WaitForInfo)
            && o.events
               == [Sent(Request(CmdToTransferProgram)),
                   AckWaited(ReceivedCmdToTransferProgram, ReceivedAndProcessed, Answer(bus, k).ack)]
                  + (if Answer(bus, k).ack == NoAck then []
                     else [Sent(Request(CmdToGetBootloaderInfo)), StatesRead(states)])
            && o.next == k + if Answer(bus, k).ack == NoAck then 1 else 2
  {
  }

  /**
   * The information is accepted exactly if it is acknowledged with Yes and the state that is read after it is that
   * the bootloader waits for data.
   */
  lemma InformationAccepted(lenInBytes: nat, loops: nat, bus: Bus, k: nat)
    ensures var o := SendProgramInfo(lenInBytes, loops, bus, k);
            var states := Answer(bus, k + 1).states;
            && (o.result <==> Answer(bus, k).ack == Yes && states.Some? && states.value.0 == WaitForDataLoops)
            && o.events
               == [Sent(ProgramInfo(lenInBytes, loops)),
                   AckWaited(ReceivedProgramInfo, ReceivedAndProcessed, Answer(bus, k).ack)]
                  + (if Answer(bus, k).ack != Yes then []
                     else [Sent(Request(CmdToGetBootloaderInfo)), StatesRead(states)])
            && o.next == k + if Answer(bus, k).ack != Yes then 1 else 2
  {
  }

  /** The first of the answers from k on that reports a state, or k + n where n of them report none. */
  function FirstAnswer(n: nat, bus: Bus, k: nat): (m: nat)
    ensures k <= m <= k + n
    ensures forall j | k <= j < m :: Answer(bus, j).states == None
    ensures m < k + n ==> Answer(bus, m).states.Some?
  {
    if n == 0 || Answer(bus, k).states.Some? then k else FirstAnswer(n - 1, bus, k + 1)
  }

  /** One question for the state for each of the answers from k to before m. */
  function Questions(bus: Bus, k: nat, m: nat): seq<Event>
    requires k <= m
    decreases m - k
  {
    if k == m then []
    else [Sent(Request(CmdToGetBootloaderInfo)), StatesRead(Answer(bus, k).states)] + Questions(bus, k + 1, m)
  }

  /** The state is asked for until the first answer and not once more, and at most n times. */
  lemma {:induction false} PollStops(n: nat, bus: Bus, k: nat)
    requires n > 0
    ensures var o, m := PollState(n, bus, k), FirstAnswer(n, bus, k);
            && o.next == (if m < k + n then m + 1 else k + n)
            && o.result == (if m < k + n then Answer(bus, m).states else None)
            && o.events == Questions(bus, k, o.next)
  {
    if Answer(bus, k).states.None? && n > 1 {
      PollStops(n - 1, bus, k + 1);
    } else {
      assert Questions(bus, k + 1, k + 1) == [];
    }
  }

  /**
   * A reset succeeds exactly if the command is acknowledged, the first state that is reported is that of a bootloader
   * at its start, and the number of loops read after it is 0.
   */
  lemma ResetSucceeds(polls: nat, bus: Bus, k: nat)
    requires polls > 0
    ensures var m := FirstAnswer(polls, bus, k + 1);
            ResetBootloader(polls, bus, k).result
            <==> && Answer(bus, k).ack != NoAck
                 && m < k + 1 + polls
                 && Answer(bus, m).states == Some((NoCommunication, BootWait))
                 && Answer(bus, m + 1).loops == Some(0)
  {
    PollStops(polls, bus, k + 1);
  }

  /** Without an acknowledgement of the command there is nothing after it. */
  lemma ResetUnanswered(polls: nat, bus: Bus, k: nat)
    requires polls > 0
    ensures var o := ResetBootloader(polls, bus, k);
            && |o.events| >= 2
            && o.events[..2]
               == [Sent(Request(CmdToResetBootProcess)),
                   AckWaited(ReceivedCmdToResetBootProcess, ReceivedAndInProcessing, Answer(bus, k).ack)]
            && (Answer(bus, k).ack == NoAck <==> |o.events| == 2)
            && (Answer(bus, k).ack == NoAck ==> o.next == k + 1 && !o.result)
  {
    PollStops(polls, bus, k + 1);
  }

  /**
   * The first frame of an upload is the transfer command exactly if the status that was read before says that the
   * bootloader waits, has no communication and is at loop 0.  Otherwise it is the reset command, and with an
   * incomplete status there is no frame, but an exit.
   */
  lemma FirstFrame(f: BinaryFile, sizes: seq<nat>, info: BootloaderStatus, limits: Limits, bus: Bus, k: nat)
    requires |f.vectorTable| == 4 && limits.polls > 0
    ensures var o := AppBinary(f, sizes, info, limits, bus, k);
            if info.can.None? || info.boot.None? || info.loops.None? then o == Outcome([], k, Exit)
            else
              && o.events != []
              && o.events[0]
                 == Sent(Request(if info.boot == Some(BootWait) && info.can == Some(NoCommunication)
                                    && info.loops == Some(0) then CmdToTransferProgram else CmdToResetBootProcess))
  {
    hide Passes, StartTransfer, ResetBootloader, SendProgramInfo;
    TransferStarted(bus, k);
    ResetUnanswered(limits.polls, bus, k);
    HandshakeFirst(f, info, limits.polls, bus, k);
  }

  lemma HandshakeFirst(f: BinaryFile, info: BootloaderStatus, polls: nat, bus: Bus, k: nat)
    requires polls > 0
    ensures var events := Handshake(f, info, polls, bus, k).events;
            && events != []
            && events[0] == Sent(Request(if AtTheBeginning(info) then CmdToTransferProgram else CmdToResetBootProcess))
  {
    hide StartTransfer, ResetBootloader, SendProgramInfo;
    TransferStarted(bus, k);
    var r := ResetBootloader(polls, bus, k);
    ResetUnanswered(polls, bus, k);
    assert r.events[..2][0] == r.events[0];
  }

  /**
   * The handshake succeeds exactly if the bootloader is at its start or the reset succeeds, and then both exchanges
   * do, each of them reading on where the one before it has stopped.
   */
  lemma HandshakeSucceeds(f: BinaryFile, info: BootloaderStatus, polls: nat, bus: Bus, k: nat)
    requires polls > 0
    ensures var begin := info.boot == Some(BootWait) && info.can == Some(NoCommunication) && info.loops == Some(0);
            var from := if begin then k else FirstAnswer(polls, bus, k + 1) + 2;
            Handshake(f, info, polls, bus, k).result
            <==> && (begin || ResetBootloader(polls, bus, k).result)
                 && Answer(bus, from).ack != NoAck
                 && InState(Answer(bus, from + 1).states, WaitForInfo)
                 && Answer(bus, from + 2).ack == Yes
                 && InState(Answer(bus, from + 3).states, WaitForDataLoops)
  {
    hide PollState;
    PollStops(polls, bus, k + 1);
    ResetSucceeds(polls, bus, k);
  }

  // ---------- data ----------

  /** A signature is good exactly if it is answered with Yes; a No is an answer, too. */
  lemma SignatureJudged(crc: Word, isVectorTable: bool, bus: Bus, k: nat)
    ensures var o := SendCrc(crc, isVectorTable, bus, k);
            && (o.result.0 <==> Answer(bus, k).ack != NoAck)
            && (JudgeCrc(o).result == Success <==> Answer(bus, k).ack == Yes)
            && (JudgeCrc(o).result == Failed <==> Answer(bus, k).ack != Yes)
  {
  }

  /** The vector table is good exactly if its words are acknowledged and its signature is answered with Yes. */
  lemma VectorTableSucceeds(f: BinaryFile, bus: Bus, k: nat)
    requires |f.vectorTable| == 4
    ensures var o := VectorTable(f, bus, k);
            && (o.result == Success <==> Answer(bus, k).ack != NoAck && Answer(bus, k + 1).ack == Yes)
            && o.result != Exit
            && o.next == k + if Answer(bus, k).ack == NoAck then 1 else 2
  {
  }

  /** The first of the answers from k on that is an acknowledgement, or k + n where n of them are none. */
  function FirstAck(n: nat, bus: Bus, k: nat): (m: nat)
    ensures k <= m <= k + n
    ensures forall j | k <= j < m :: Answer(bus, j).ack == NoAck
    ensures m < k + n ==> Answer(bus, m).ack != NoAck
  {
    if n == 0 || Answer(bus, k).ack != NoAck then k else FirstAck(n - 1, bus, k + 1)
  }

  /** The frames and a wait for each of the answers from k to before m. */
  function Attempts(frames: seq<Event>, bus: Bus, k: nat, m: nat): seq<Event>
    requires k <= m
    decreases m - k
  {
    if k == m then []
    else
      frames + [AckWaited(ReceivedSubSectorData, ReceivedAndProcessed, Answer(bus, k).ack)]
      + Attempts(frames, bus, k + 1, m)
  }

  /**
   * A sub-sector that can be read is sent until the first acknowledgement, yes or no, and at most `tries` times: it
   * has failed exactly if all these attempts were left unanswered.  One that cannot be read is not sent again.
   */
  lemma {:induction false} TriesStop(
    f: BinaryFile, first: nat, last: nat, tries: nat, bus: Bus, k: nat)
    requires first >= 1
    ensures var o, m := SubSectorTries(f, first, last, tries, bus, k), FirstAck(tries, bus, k);
            var frames := LoopFrames(f, first, last);
            if !frames.1 && tries > 0 then o == Outcome(frames.0, k, Exit)
            else
              && o.result == (if m < k + tries then Success else Failed)
              && o.next == (if m < k + tries then m + 1 else k + tries)
              && o.events == Attempts(frames.0, bus, k, o.next)
    decreases tries
  {
    hide LoopFrames;
    if tries > 0 {
      var (frames, ok) := LoopFrames(f, first, last);
      if ok && Answer(bus, k).ack == NoAck {
        TriesStop(f, first, last, tries - 1, bus, k + 1);
      } else {
        AfterNothing(SubSector(f, first, last, bus, k));
        assert ok ==> Attempts(frames, bus, k + 1, k + 1) == [];
      }
    }
  }

  // ---------- limits ----------

  /**
   * A sub-sector that starts at loop idx ends at the next multiple of 1024, or at the last loop where there is no
   * such multiple before it; an index below 1, or fewer than 1024 loops in all, are an exit.
   */
  lemma SubSectorEnds(idx: nat, maxIdx: nat)
    ensures var bounds := SubSectorLoops(idx, maxIdx);
            && (bounds.None? <==> idx < 1 || maxIdx < 1024)
            && (bounds.Some? ==>
                  && bounds.value.0 == idx
                  && (idx <= maxIdx ==> idx <= bounds.value.1 <= maxIdx && bounds.value.1 < idx + 1024)
                  && (bounds.value.1 % 1024 == 0 || bounds.value.1 == maxIdx)
                  && forall n | idx <= n < bounds.value.1 && n <= maxIdx :: n % 1024 != 0)
  {
  }

  /**
   * A sector from loop i on ends after `size` loops, or at the last loop if that comes first.  When its sub-sectors
   * have got through, the signature that is sent is the one of the row of its last loop.
   */
  lemma SectorEnds(f: BinaryFile, i: nat, total: nat, size: nat, tries: nat, bus: Bus, k: nat)
    requires i >= 1
    ensures var last := if i + size - 1 < total then i + size - 1 else total;
            var a := SectorLoops(f, i, last, total, tries, bus, k);
            var o := Sector(f, i, total, size, tries, bus, k);
            && (a.result != Success ==> o == a)
            && (a.result == Success && (last == 0 || Entry(f, last - 1).None?) ==> o.result == Exit)
            && (a.result == Success && last > 0 && Entry(f, last - 1).Some? ==>
                  && o.events == a.events + [Sent(CrcSignature(Entry(f, last - 1).value.0)),
                                             AckWaited(ReceivedCrc, ReceivedAndProcessed, Answer(bus, a.next).ack)]
                  && o.result == (if Answer(bus, a.next).ack == Yes then Success else Failed))
  {
    hide SectorLoops;
  }

  /** The size of the sector of a loop is only not found where the map has no such loop. */
  lemma {:induction false} SectorSizeExact(sizes: seq<nat>, i: nat)
    ensures SectorSize(sizes, 0, 1, i).None? <==> i < 1 || i > UploadProps.Start(sizes, |sizes|)
  {
    if 1 <= i <= UploadProps.Start(sizes, |sizes|) {
      var j := SectorOfLoop(sizes, |sizes|, i);
      UploadProps.SectorSizeFound(sizes, 0, i, j);
    } else {
      NoSector(sizes, 0, i);
    }
  }

  lemma {:induction false} SectorOfLoop(sizes: seq<nat>, n: nat, i: nat) returns (j: nat)
    requires n <= |sizes| && 1 <= i <= UploadProps.Start(sizes, n)
    ensures j < n && UploadProps.Start(sizes, j) < i <= UploadProps.Start(sizes, j + 1)
  {
    if i > UploadProps.Start(sizes, n - 1) { return n - 1; }
    j := SectorOfLoop(sizes, n - 1, i);
  }

  lemma {:induction false} NoSector(sizes: seq<nat>, n: nat, i: nat)
    requires n <= |sizes| && (i < 1 || i > UploadProps.Start(sizes, |sizes|))
    ensures SectorSize(sizes, n, UploadProps.Start(sizes, n) + 1, i).None?
    decreases |sizes| - n
  {
    if n < |sizes| {
      UploadProps.StartMono(sizes, n + 1, |sizes|);
      NoSector(sizes, n + 1, i);
    }
  }

  /** The data part from loop i has nothing to do behind the last loop, and fails where no sector holds loop i. */
  lemma AppDataEnds(f: BinaryFile, sizes: seq<nat>, i: nat, tries: nat, bus: Bus, k: nat)
    requires i < 1 || i > f.lenInWords || i > UploadProps.Start(sizes, |sizes|)
    ensures AppData(f, sizes, i, tries, bus, k)
         == Outcome([], k, if i < 1 then Exit else if i > f.lenInWords then Success else Failed)
  {
    SectorSizeExact(sizes, i);
  }

  /** The four words of the vector table are sent in order and acknowledged together, before their signature. */
  lemma VectorTableEvents(f: BinaryFile, bus: Bus, k: nat)
    requires |f.vectorTable| == 4
    ensures var o := VectorTable(f, bus, k);
            && |o.events| == (if Answer(bus, k).ack == NoAck then 5 else 7)
            && (forall i | 0 <= i < 4 :: o.events[i] == Sent(Data(f.vectorTable[i])))
            && o.events[4] == AckWaited(ReceivedVectorTable, ReceivedAndProcessed, Answer(bus, k).ack)
            && (Answer(bus, k).ack != NoAck ==>
                  o.events[5..] == [Sent(CrcSignature(f.vectorCrc)),
                                    AckWaited(ReceivedCrcOfVectorTable, ReceivedAndProcessed, Answer(bus, k + 1).ack)])
  {
  }

  /** On a bus that stays silent an upload ends after the first wait. */
  lemma SilenceFails(f: BinaryFile, sizes: seq<nat>, info: BootloaderStatus, limits: Limits, bus: Bus, k: nat)
    requires |f.vectorTable| == 4 && limits.polls > 0 && k >= |bus|
    requires info.can.Some? && info.boot.Some? && info.loops.Some?
    ensures var o := AppBinary(f, sizes, info, limits, bus, k);
            && o.result == Failed && o.next == k + 1 && |o.events| == 2
            && o.events[1].AckWaited? && o.events[1].reply == NoAck
  {
    hide Passes, PollState;
  }
}
