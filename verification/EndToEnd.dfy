/**
 * The whole upload, from the handshake to the installed program: on any bus, whatever is lost, an upload that
 * reports success has left a flash with the signature of the image; when no word was lost after its loop
 * number and the main loop turned between any two events, it has left the image.
 */
module EndToEnd {
  import opened Wrappers
  import opened Crc64
  import opened CrcImage
  import opened Protocol
  import opened Device
  import opened World
  import opened Transfer
  import opened DataTransfer
  import opened VectorTransfer
  import opened UploadSpec
  import opened UploadProps
  import UploadSafety
  import opened DeviceSafety

  // ---------- handshake ----------

  /** The receiver has reported that it is at its start. */
  predicate IsIdle(d: Device) {
    d.can == NoCommunication && d.boot == BootWait
  }

  /**
   * The status that the tool was given is current: where it says that the bootloader waits, has no communication and
   * is at loop 0, that is so.
   */
  predicate IsCurrent(info: BootloaderStatus, d: Device) {
    info.boot == Some(BootWait) && info.can == Some(NoCommunication) && info.loops == Some(0) ==>
      d.boot == BootWait && d.can == NoCommunication && d.info.current == 0
  }

  /** Then the tool, which takes the receiver to be at its start, is right. */
  lemma CurrentIsIdle(info: BootloaderStatus, d: Device)
    requires IsCurrent(info, d) && AtTheBeginning(info)
    ensures IsIdle(d) && d.info.current == 0
  {
  }

  /** The receiver is somewhere between its start and the first loop of this image. */
  predicate IsStarting(job: Job, d: Device, settled: bool) {
    && d.info.current == 0
    && IsFresh(d.info)
    && d.checks == 0
    && (IsIdle(d)
        || (&& (d.can == WaitForInfo || d.can == WaitForDataLoops)
            && (d.boot == BootLoad || (!settled && d.boot == BootWait))))
    && (d.can == WaitForDataLoops ==> d.info.total == |job.words| && d.info.length == 8 * |job.words|)
  }

  /** Everything that the tool sends and awaits before the data. */
  predicate IsGreeting(job: Job, e: Event) {
    match e
    case Sent(frame) =>
      || (frame.Request? && frame.action !in {CmdToResetBootProcess, CmdToRunProgram})
      || frame == ProgramInfo(8 * |job.words|, |job.words|)
    case AckWaited(message, _, _) => message != ReceivedCrc && message != ReceivedCrcOfVectorTable
    case _ => true
  }

  lemma StartingRx(job: Job, d: Device, settled: bool, frame: Frame)
    requires IsStarting(job, d, settled) && IsGreeting(job, Sent(frame))
    ensures IsStarting(job, Rx(job.sizes, d, frame).device, false)
  {
  }

  lemma StartingPoll(job: Job, d: Device, settled: bool, hw: Hardware)
    requires IsStarting(job, d, settled)
    ensures var x := Poll(job.sizes, d, hw).device;
            IsStarting(job, x, true) && IsStarting(job, x, settled) && x.can == d.can
    ensures IsIdle(d) ==> Poll(job.sizes, d, hw).device == d
  {
  }

  lemma {:induction false} StartingTurns(job: Job, w: World, settled: bool, turns: seq<Hardware>)
    requires IsStarting(job, w.device, settled)
    ensures var x := Turns(job.sizes, w, turns);
            && IsStarting(job, x.device, settled)
            && IsStarting(job, x.device, settled || turns != [])
            && x.device.can == w.device.can
            && x.states == w.states && x.loops == w.loops
    decreases |turns|
  {
    hide IsStarting, Poll;
    if turns != [] {
      StartingPoll(job, w.device, settled, turns[0]);
      StartingTurns(job, Take(w, Poll(job.sizes, w.device, turns[0])), settled, turns[1..]);
      StartingTurns(job, Take(w, Poll(job.sizes, w.device, turns[0])), true, turns[1..]);
    }
  }

  lemma SeeGreeting(job: Job, w: World, settled: bool, e: Event, fate: Fate)
    requires IsStarting(job, w.device, settled) && IsGreeting(job, e)
    requires See(job.sizes, w, e, fate).Some? && (settled ==> fate.turns != [])
    ensures IsStarting(job, See(job.sizes, w, e, fate).value.device, settled)
  {
    hide Rx, Turns;
    match e
    case Sent(frame) =>
      var x := Forget(w, frame);
      if fate.delivered {
        StartingRx(job, w.device, settled, frame);
        StartingTurns(job, Receive(job.sizes, x, frame), false, fate.turns);
      } else {
        StartingTurns(job, x, settled, fate.turns);
      }
    case _ => StartingTurns(job, w, settled, fate.turns);
  }

  /** Any events at all keep the receiver's invariant. */
  lemma {:induction false} HoldsTurns(sizes: seq<nat>, w: World, turns: seq<Hardware>)
    requires Holds(sizes, w.device)
    ensures Holds(sizes, Turns(sizes, w, turns).device)
    decreases |turns|
  {
    hide Holds, Poll;
    if turns != [] {
      PollKeeps(sizes, w.device, turns[0]);
      HoldsTurns(sizes, Take(w, Poll(sizes, w.device, turns[0])), turns[1..]);
    }
  }

  lemma SeeHolds(sizes: seq<nat>, w: World, e: Event, fate: Fate)
    requires Holds(sizes, w.device) && See(sizes, w, e, fate).Some?
    ensures Holds(sizes, See(sizes, w, e, fate).value.device)
  {
    hide Holds, Rx, Turns;
    HoldsTurns(sizes, w, fate.turns);
    if e.Sent? {
      var x := Forget(w, e.frame);
      RxKeeps(sizes, w.device, e.frame);
      HoldsTurns(sizes, if fate.delivered then Receive(sizes, x, e.frame) else x, fate.turns);
    }
  }

  lemma {:induction false} ObserveHolds(sizes: seq<nat>, w: World, events: seq<Event>, fates: seq<Fate>)
    requires |events| == |fates| && Holds(sizes, w.device) && Observe(sizes, w, events, fates).Some?
    ensures Holds(sizes, Observe(sizes, w, events, fates).value.device)
    decreases |events|
  {
    hide Holds, See;
    if events != [] {
      SeeHolds(sizes, w, events[0], fates[0]);
      ObserveHolds(sizes, See(sizes, w, events[0], fates[0]).value, events[1..], fates[1..]);
    }
  }

  lemma {:induction false} ObserveGreetings(
    job: Job, w: World, settled: bool, events: seq<Event>, fates: seq<Fate>)
    requires |events| == |fates| && Observe(job.sizes, w, events, fates).Some?
    requires IsStarting(job, w.device, settled)
    requires forall i | 0 <= i < |events| :: IsGreeting(job, events[i])
    requires settled ==> forall i | 0 <= i < |fates| :: fates[i].turns != []
    ensures IsStarting(job, Observe(job.sizes, w, events, fates).value.device, settled)
    decreases |events|
  {
    hide IsStarting, IsGreeting, See;
    if events != [] {
      SeeGreeting(job, w, settled, events[0], fates[0]);
      ObserveGreetings(job, See(job.sizes, w, events[0], fates[0]).value, settled, events[1..], fates[1..]);
    }
  }

  const ASK_STATES := Sent(Request(CmdToGetBootloaderInfo))
  const ASK_LOOPS := Sent(Request(CmdToGetDataTransferInfo))

  /** While the receiver is starting, the CAN state that it reports is the one it is in. */
  lemma StatesSeen(job: Job, w: World, settled: bool, states: Option<States>, fates: seq<Fate>)
    requires IsStarting(job, w.device, settled) && |fates| == 2
    requires settled ==> fates[0].turns != [] && fates[1].turns != []
    requires Observe(job.sizes, w, [ASK_STATES, StatesRead(states)], fates).Some?
    ensures var x := Observe(job.sizes, w, [ASK_STATES, StatesRead(states)], fates).value;
            && IsStarting(job, x.device, settled)
            && (states.Some? ==> states.value.0 == x.device.can)
  {
    hide IsStarting, Turns;
    ObserveTwo(job.sizes, w, ASK_STATES, StatesRead(states), fates);
    var x := Forget(w, ASK_STATES.frame);
    var y := if fates[0].delivered then Receive(job.sizes, x, ASK_STATES.frame) else x;
    StartingTurns(job, y, settled, fates[0].turns);
    StartingTurns(job, Turns(job.sizes, y, fates[0].turns), settled, fates[1].turns);
  }

  /** The handshakes end with a reading of the state. */
  lemma PreInfoShape(f: BinaryFile, job: Job, bus: Bus, k: nat)
    requires f.lenInBytes == 8 * |job.words| && f.lenInWords == |job.words|
    requires PreInfo(f, bus, k).result
    ensures var events := PreInfo(f, bus, k).events;
            && |events| >= 2
            && (forall i | 0 <= i < |events| :: IsGreeting(job, events[i]))
            && events[|events| - 2] == ASK_STATES
            && events[|events| - 1].StatesRead?
            && InState(events[|events| - 1].states, WaitForDataLoops)
  {
  }

  /** After successful handshakes the receiver waits for the first loop of this image. */
  lemma PreInfoKept(
    f: BinaryFile, job: Job, bus: Bus, k: nat, w: World, faithful: bool, fates: seq<Fate>)
    requires f.lenInBytes == 8 * |job.words| && f.lenInWords == |job.words|
    requires IsStarting(job, w.device, faithful)
    requires var o := PreInfo(f, bus, k);
             && o.result
             && |fates| == |o.events|
             && (faithful ==> IsFaithful(o.events, fates))
             && Observe(job.sizes, w, o.events, fates).Some?
    ensures var x := Observe(job.sizes, w, PreInfo(f, bus, k).events, fates).value;
            IsStarting(job, x.device, faithful) && x.device.can == WaitForDataLoops
  {
    hide IsStarting, IsGreeting, Observe, PreInfo, IsFaithful;
    PreInfoShape(f, job, bus, k);
    var events := PreInfo(f, bus, k).events;
    var n := |events| - 2;
    if faithful { TurnsEverywhere(events, fates); }
    assert events == events[..n] + [events[n], events[n + 1]];
    ObserveConcat(job.sizes, w, events[..n], [events[n], events[n + 1]], fates);
    ObserveGreetings(job, w, faithful, events[..n], fates[..n]);
    StatesSeen(job, Observe(job.sizes, w, events[..n], fates[..n]).value, faithful, events[n + 1].states, fates[n..]);
  }

  lemma TurnsEverywhere(events: seq<Event>, fates: seq<Fate>)
    requires |events| == |fates| && IsFaithful(events, fates)
    ensures forall i | 0 <= i < |fates| :: fates[i].turns != []
  {
    forall i | 0 <= i < |fates|
      ensures fates[i].turns != []
    {
      assert IsCarried(events, fates, i);
    }
  }

  // ---------- reset ----------

  lemma {:induction false} IdleTurns(sizes: seq<nat>, w: World, turns: seq<Hardware>)
    requires IsIdle(w.device)
    ensures var x := Turns(sizes, w, turns);
            x.device == w.device && x.states == w.states && x.loops == w.loops
    decreases |turns|
  {
    if turns != [] { IdleTurns(sizes, Take(w, Poll(sizes, w.device, turns[0])), turns[1..]); }
  }

  lemma {:induction false} TurnsKeepAnswers(sizes: seq<nat>, w: World, turns: seq<Hardware>)
    ensures var x := Turns(sizes, w, turns); x.states == w.states && x.loops == w.loops
    decreases |turns|
  {
    hide Poll;
    if turns != [] { TurnsKeepAnswers(sizes, Take(w, Poll(sizes, w.device, turns[0])), turns[1..]); }
  }

  const AT_START := StatesRead(Some((NoCommunication, BootWait)))
  const NO_LOOPS := LoopsRead(Some(0))

  lemma IdleSeen(sizes: seq<nat>, w: World, fates: seq<Fate>)
    requires |fates| == 2 && Observe(sizes, w, [ASK_STATES, AT_START], fates).Some?
    ensures IsIdle(Observe(sizes, w, [ASK_STATES, AT_START], fates).value.device)
  {
    hide Turns, Poll;
    ObserveTwo(sizes, w, ASK_STATES, AT_START, fates);
    var x := Forget(w, ASK_STATES.frame);
    var y := if fates[0].delivered then Receive(sizes, x, ASK_STATES.frame) else x;
    TurnsKeepAnswers(sizes, y, fates[0].turns);
    TurnsKeepAnswers(sizes, Turns(sizes, y, fates[0].turns), fates[1].turns);
    IdleTurns(sizes, y, fates[0].turns);
    IdleTurns(sizes, Turns(sizes, y, fates[0].turns), fates[1].turns);
  }

  lemma NoLoopsSeen(sizes: seq<nat>, w: World, fates: seq<Fate>)
    requires |fates| == 2 && IsIdle(w.device) && Observe(sizes, w, [ASK_LOOPS, NO_LOOPS], fates).Some?
    ensures var x := Observe(sizes, w, [ASK_LOOPS, NO_LOOPS], fates).value;
            IsIdle(x.device) && x.device.info.current == 0
  {
    hide Turns, Poll;
    ObserveTwo(sizes, w, ASK_LOOPS, NO_LOOPS, fates);
    var x := Forget(w, ASK_LOOPS.frame);
    var y := if fates[0].delivered then Receive(sizes, x, ASK_LOOPS.frame) else x;
    IdleTurns(sizes, y, fates[0].turns);
    IdleTurns(sizes, Turns(sizes, y, fates[0].turns), fates[1].turns);
  }

  lemma {:induction false} PollShape(n: nat, bus: Bus, k: nat)
    requires n > 0
    ensures var o := PollState(n, bus, k);
            && |o.events| >= 2
            && o.events[|o.events| - 2..] == [ASK_STATES, StatesRead(o.result)]
  {
    var s := GetState(bus, k);
    if s.result.None? && n > 1 { PollShape(n - 1, bus, s.next); }
  }

  /** A successful reset ends with these two readings. */
  lemma ResetShape(polls: nat, bus: Bus, k: nat)
    requires polls > 0 && ResetBootloader(polls, bus, k).result
    ensures var events := ResetBootloader(polls, bus, k).events;
            && |events| >= 4
            && events[|events| - 4..] == [ASK_STATES, AT_START] + [ASK_LOOPS, NO_LOOPS]
  {
    hide PollState;
    var reply := Answer(bus, k).ack;
    var events := [Sent(Request(CmdToResetBootProcess)),
                   AckWaited(ReceivedCmdToResetBootProcess, ReceivedAndInProcessing, reply)];
    var s := PollState(polls, bus, k + 1);
    PollShape(polls, bus, k + 1);
    LastFour(events, s.events, [ASK_LOOPS, NO_LOOPS]);
  }

  lemma LastFour(a: seq<Event>, s: seq<Event>, l: seq<Event>)
    requires |s| >= 2 && |l| == 2
    ensures ((a + s) + l)[|a| + |s| - 2..] == s[|s| - 2..] + l
  {
  }

  /** After a reset that the tool has seen succeed, the receiver is at its start. */
  lemma ResetKept(polls: nat, job: Job, bus: Bus, k: nat, w: World, fates: seq<Fate>)
    requires polls > 0 && Holds(job.sizes, w.device)
    requires var o := ResetBootloader(polls, bus, k);
             o.result && |fates| == |o.events| && Observe(job.sizes, w, o.events, fates).Some?
    ensures var x := Observe(job.sizes, w, ResetBootloader(polls, bus, k).events, fates).value;
            Holds(job.sizes, x.device) && IsIdle(x.device) && x.device.info.current == 0
  {
    hide Holds, ResetBootloader, Observe;
    var events := ResetBootloader(polls, bus, k).events;
    ResetShape(polls, bus, k);
    ObserveHolds(job.sizes, w, events, fates);
    var n := |events| - 4;
    assert events == events[..n] + ([ASK_STATES, AT_START] + [ASK_LOOPS, NO_LOOPS]);
    ObserveConcat(job.sizes, w, events[..n], [ASK_STATES, AT_START] + [ASK_LOOPS, NO_LOOPS], fates);
    var x := Observe(job.sizes, w, events[..n], fates[..n]).value;
    ObserveConcat(job.sizes, x, [ASK_STATES, AT_START], [ASK_LOOPS, NO_LOOPS], fates[n..]);
    IdleSeen(job.sizes, x, fates[n..][..2]);
    NoLoopsSeen(job.sizes, Observe(job.sizes, x, [ASK_STATES, AT_START], fates[n..][..2]).value, fates[n..][2..]);
  }

  lemma IdleIsStarting(job: Job, d: Device, settled: bool)
    requires Holds(job.sizes, d) && IsIdle(d) && d.info.current == 0
    ensures IsStarting(job, d, settled)
  {
    hide Chain, Start;
  }

  /** The first loop can come. */
  lemma StartingIsKept(job: Job, d: Device, faithful: bool)
    requires ValidJob(job) && Holds(job.sizes, d) && IsStarting(job, d, faithful) && d.can == WaitForDataLoops
    ensures Kept(job, d, 0, faithful, true, 0)
  {
    hide Chain;
    SectorBounds(job.sizes, 0);
  }

  // ---------- passes ----------

  /** The passes until the data has been accepted, and the vector table after it. */
  lemma {:induction false} PassesKept(
    f: BinaryFile, job: Job, n: nat, tries: nat, bus: Bus, k: nat, w: World, fates: seq<Fate>, faithful: bool,
    working: bool)
    requires Describes(f, job.words, job.sizes, job.sectors) && ValidJob(job)
    requires WorldKept(job, w, 0, faithful, true, 0) && (working ==> AllWork(fates))
    requires var o := Passes(f, job.sizes, n, false, tries, bus, k);
             && |fates| == |o.events|
             && (faithful ==> IsFaithful(o.events, fates))
             && Observe(job.sizes, w, o.events, fates).Some?
             && o.result == Success
    ensures var x := Observe(job.sizes, w, Passes(f, job.sizes, n, false, tries, bus, k).events, fates).value;
            IsVector(job, f, x.device, faithful, working, 0) && IsCommitted(job, f, x.device, faithful, working)
    decreases n
  {
    hide Holds, Kept, Passed, ValidJob, Observe, AppData, Start, IsFaithful, IsVector, IsCommitted, Passes;
    hide Describes, AllWork;
    AllParts(fates, |AppData(f, job.sizes, 1, tries, bus, k).events|);
    DescribedParts(f, job);
    NoPassesFail(f, job, tries, bus, k);
    UploadSafety.PassesSplit(f, job.sizes, n, tries, bus, k);
    var a := AppData(f, job.sizes, 1, tries, bus, k);
    FirstStart(f, job, tries, bus, k);
    var rest := Passes(f, job.sizes, if a.result == Failed then n - 1 else n, a.result == Success, tries, bus, a.next);
    if faithful { FaithfulParts(a.events, rest.events, fates); }
    ObserveConcat(job.sizes, w, a.events, rest.events, fates);
    AppDataKept(f, job, 0, tries, bus, k, w, fates[..|a.events|], faithful);
    var x := Observe(job.sizes, w, a.events, fates[..|a.events|]).value;
    if a.result == Failed {
      PassesKept(f, job, n - 1, tries, bus, a.next, x, fates[|a.events|..], faithful, working);
    } else {
      DoneIsVector(job, f, x.device, faithful, working);
      VectorPassesKept(job, f, n, tries, x, faithful, working, bus, a.next, fates[|a.events|..]);
    }
  }

  lemma AllParts(fates: seq<Fate>, n: nat)
    ensures AllWork(fates) && n <= |fates| ==> AllWork(fates[n..])
  {
  }

  lemma DescribedParts(f: BinaryFile, job: Job)
    requires Describes(f, job.words, job.sizes, job.sectors)
    ensures |f.vectorTable| == 4 && f.vectorCrc == Chain(f.vectorTable, 0) && 1 <= job.sectors
  {
    hide Chain, Start;
  }

  lemma NoPassesFail(f: BinaryFile, job: Job, tries: nat, bus: Bus, k: nat)
    requires |f.vectorTable| == 4
    ensures Passes(f, job.sizes, 0, false, tries, bus, k).result == Failed
  {
  }

  /** Sending the data starts at loop 1, does not leave by an exception, and ends with a wait. */
  lemma FirstStart(f: BinaryFile, job: Job, tries: nat, bus: Bus, k: nat)
    requires Describes(f, job.words, job.sizes, job.sectors)
    ensures Start(job.sizes, 0) == 0
    ensures var a := AppData(f, job.sizes, 1, tries, bus, k);
            a.result != Exit && (a.events == [] || !IsLoopFrame(a.events[|a.events| - 1]))
  {
    hide AppData;
    AppDataDelivers(f, job.words, job.sizes, job.sectors, 0, tries, bus, k);
  }

  // ---------- the whole upload ----------

  /**
   * On any bus, for any losses, any interleaving with the receiver's main loop and any flash failures, from
   * any state the receiver can be in: when the upload returns True, the flash has the signature of the image
   * and the receiver has found the vector table's signature valid, so that it has installed the program, is
   * about to, or refuses to start any, for a zero word in the vector table or because the flash failed.  If no word
   * was lost after its loop number and the main loop turned between any two events, the flash holds the image word for
   * word and the vector table is the one that was sent.
   */
  lemma UploadInstalls(
    f: BinaryFile, job: Job, info: BootloaderStatus, limits: Limits, bus: Bus, k: nat,
    w: World, fates: seq<Fate>)
    requires Describes(f, job.words, job.sizes, job.sectors) && FitsBuffer(job.sizes) && limits.polls > 0
    requires Holds(job.sizes, w.device)
    requires IsCurrent(info, w.device)
    requires var o := AppBinary(f, job.sizes, info, limits, bus, k);
             && o.result == Success
             && |fates| == |o.events|
             && Observe(job.sizes, w, o.events, fates).Some?
    ensures var events := AppBinary(f, job.sizes, info, limits, bus, k).events;
            var d := Observe(job.sizes, w, events, fates).value.device;
            && HasImage(job, d.flash, IsFaithful(events, fates))
            && IsCommitted(job, f, d, IsFaithful(events, fates), AllWork(fates))
  {
    hide Holds, Handshake, Observe, Passes, IsFaithful, IsVector, IsCommitted, HasImage, Kept, Describes, IsStarting;
    JobOf(f, job);
    var o := AppBinary(f, job.sizes, info, limits, bus, k);
    var faithful := IsFaithful(o.events, fates);
    var h := Handshake(f, info, limits.polls, bus, k);
    var p := Passes(f, job.sizes, limits.passes, false, limits.tries, bus, h.next);
    HandshakeEnds(f, info, limits.polls, bus, k);
    if faithful { FaithfulParts(h.events, p.events, fates); }
    ObserveConcat(job.sizes, w, h.events, p.events, fates);
    HandshakeKept(f, job, info, limits.polls, bus, k, w, fates[..|h.events|], faithful);
    var x := Observe(job.sizes, w, h.events, fates[..|h.events|]).value;
    PassesKept(f, job, limits.passes, limits.tries, bus, h.next, x, fates[|h.events|..], faithful, AllWork(fates));
    VectorHasImage(job, f, Observe(job.sizes, w, o.events, fates).value.device, faithful, AllWork(fates));
  }

  /** One turn later, on working hardware: installed exactly if the vector table has no zero word. */
  lemma InstalledOrRefused(job: Job, f: BinaryFile, d: Device)
    requires IsCommitted(job, f, d, true, true)
    ensures var x := Poll(job.sizes, d, Works).device;
            if 0 in f.vectorTable then x.boot == BootError
            else IsIdle(x) && x.record == Some(Record(8 * |job.words|, Chain(job.words, 0), f.vectorTable, f.vectorCrc))
  {
    hide Chain;
    assert 0 in d.info.vectorTable <==> exists i | 0 <= i < |d.info.vectorTable| :: d.info.vectorTable[i] == 0;
  }

  /**
   * When the upload returns True, the flash always worked, no word was lost after its loop number and the main loop
   * turned between any two events, then after one more turn the program is installed, exactly as it was sent, or the
   * receiver is in the error state, and the second exactly if the vector table that was sent has a zero word.
   */
  lemma UploadOutcome(
    f: BinaryFile, job: Job, info: BootloaderStatus, limits: Limits, bus: Bus, k: nat,
    w: World, fates: seq<Fate>)
    requires Describes(f, job.words, job.sizes, job.sectors) && FitsBuffer(job.sizes) && limits.polls > 0
    requires Holds(job.sizes, w.device)
    requires IsCurrent(info, w.device)
    requires var o := AppBinary(f, job.sizes, info, limits, bus, k);
             && o.result == Success
             && |fates| == |o.events| && IsFaithful(o.events, fates) && AllWork(fates)
             && Observe(job.sizes, w, o.events, fates).Some?
    ensures var events := AppBinary(f, job.sizes, info, limits, bus, k).events;
            var d := Observe(job.sizes, w, events, fates).value.device;
            var x := Poll(job.sizes, d, Works).device;
            && HasImage(job, d.flash, true)
            && (x.boot == BootError <==> 0 in f.vectorTable)
            && (0 !in f.vectorTable ==>
                  && IsIdle(x)
                  && x.record == Some(Record(8 * |job.words|, Chain(job.words, 0), f.vectorTable, f.vectorCrc)))
  {
    hide Holds, Handshake, Observe, Passes, IsFaithful, IsCommitted, HasImage, Describes, AllWork, AppBinary, Chain;
    hide AtTheBeginning, Poll;
    JobOf(f, job);
    UploadInstalls(f, job, info, limits, bus, k, w, fates);
    var events := AppBinary(f, job.sizes, info, limits, bus, k).events;
    InstalledOrRefused(job, f, Observe(job.sizes, w, events, fates).value.device);
  }

  lemma VectorHasImage(job: Job, f: BinaryFile, d: Device, faithful: bool, working: bool)
    requires IsVector(job, f, d, faithful, working, 0)
    ensures HasImage(job, d.flash, faithful)
  {
    hide Chain, Start;
  }

  lemma JobOf(f: BinaryFile, job: Job)
    requires Describes(f, job.words, job.sizes, job.sectors) && FitsBuffer(job.sizes)
    ensures ValidJob(job) && |f.vectorTable| == 4
    ensures f.lenInBytes == 8 * |job.words| && f.lenInWords == |job.words|
  {
    hide Start;
  }

  lemma HandshakeEnds(f: BinaryFile, info: BootloaderStatus, polls: nat, bus: Bus, k: nat)
    requires polls > 0 && Handshake(f, info, polls, bus, k).result
    ensures var events := Handshake(f, info, polls, bus, k).events; events != [] && !IsLoopFrame(events[|events| - 1])
  {
    hide Handshake;
    UploadSafety.HandshakeSafe(f, info, polls, bus, k);
  }

  lemma HandshakeKept(
    f: BinaryFile, job: Job, info: BootloaderStatus, polls: nat, bus: Bus, k: nat,
    w: World, fates: seq<Fate>, faithful: bool)
    requires ValidJob(job) && f.lenInBytes == 8 * |job.words| && f.lenInWords == |job.words| && polls > 0
    requires Holds(job.sizes, w.device)
    requires IsCurrent(info, w.device)
    requires var o := Handshake(f, info, polls, bus, k);
             && o.result
             && |fates| == |o.events|
             && (faithful ==> IsFaithful(o.events, fates))
             && Observe(job.sizes, w, o.events, fates).Some?
    ensures var x := Observe(job.sizes, w, Handshake(f, info, polls, bus, k).events, fates).value;
            WorldKept(job, x, 0, faithful, true, 0)
  {
    hide Holds, Observe, IsFaithful, Kept, IsStarting, PreInfo, ResetBootloader, ValidJob, AtTheBeginning;
    var r := if AtTheBeginning(info) then Outcome([], k, true) else ResetBootloader(polls, bus, k);
    var p := PreInfo(f, bus, r.next);
    var x;
    if AtTheBeginning(info) {
      CurrentIsIdle(info, w.device);
      ObserveNothing(job.sizes, w, fates[..0]);
      x := w;
    } else {
      ResetEnds(polls, bus, k);
      if faithful { FaithfulParts(r.events, p.events, fates); }
    }
    ObserveConcat(job.sizes, w, r.events, p.events, fates);
    if !AtTheBeginning(info) {
      ResetKept(polls, job, bus, k, w, fates[..|r.events|]);
      x := Observe(job.sizes, w, r.events, fates[..|r.events|]).value;
    } else {
      assert fates[0..] == fates && [] + p.events == p.events;
    }
    IdleIsStarting(job, x.device, faithful);
    PreInfoKept(f, job, bus, r.next, x, faithful, fates[|r.events|..]);
    ObserveHolds(job.sizes, x, p.events, fates[|r.events|..]);
    StartingIsKept(job, Observe(job.sizes, x, p.events, fates[|r.events|..]).value.device, faithful);
  }

  lemma ResetEnds(polls: nat, bus: Bus, k: nat)
    requires polls > 0 && ResetBootloader(polls, bus, k).result
    ensures var events := ResetBootloader(polls, bus, k).events; events != [] && !IsLoopFrame(events[|events| - 1])
  {
    hide ResetBootloader;
    ResetShape(polls, bus, k);
    var events := ResetBootloader(polls, bus, k).events;
    var tail := events[|events| - 4..];
    assert events[|events| - 1] == tail[3];
  }
}
