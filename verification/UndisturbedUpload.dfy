/** The undisturbed upload as a whole: handshakes, data and vector table, and what is installed at the end. */
module UndisturbedUpload {
  import opened Wrappers
  import opened Crc64
  import opened CrcImage
  import opened Protocol
  import opened Device
  import opened World
  import opened Transfer
  import opened VectorTransfer
  import opened EndToEnd
  import opened UploadSpec
  import opened UploadProps
  import opened DeviceSafety
  import opened Undisturbed
  import opened UndisturbedData

  // ---------- vector table ----------

  /** The data is complete, and n words of the vector table have been stored. */
  ghost predicate Collected(job: Job, f: BinaryFile, d: Device, n: nat) {
    && d.boot == BootLoad
    && d.checks == 0
    && Describing(job, d.info)
    && |job.words| <= |d.flash| && d.flash[..|job.words|] == job.words
    && n <= |d.info.vectorTable| == |f.vectorTable| == VECTOR_WORDS
    && d.info.vectorTable[..n] == f.vectorTable[..n]
    && d.info.vectorCount == n
    && d.can == if n < VECTOR_WORDS then FinishedFinalValidation else FinishedTransferVectorTable
  }

  lemma CollectedStill(job: Job, f: BinaryFile, d: Device, n: nat)
    requires Collected(job, f, d, n)
    ensures IsStill(job.sizes, d)
  {
  }

  lemma Collects(job: Job, f: BinaryFile, d: Device, n: nat)
    requires Collected(job, f, d, n) && n < VECTOR_WORDS
    ensures var r := RxData(d, f.vectorTable[n]);
            && Collected(job, f, r.device, n + 1)
            && (n + 1 == VECTOR_WORDS ==> Ack(ReceivedVectorTable, ReceivedAndProcessed, false) in r.acks)
    ensures d.boot != BootLeft
  {
    hide Chain;
    var table := d.info.vectorTable[n := f.vectorTable[n]];
    assert table[..n + 1] == d.info.vectorTable[..n] + [f.vectorTable[n]];
    assert f.vectorTable[..n + 1] == f.vectorTable[..n] + [f.vectorTable[n]];
  }

  lemma VectorDataStep(job: Job, f: BinaryFile, w: World, n: nat, fates: seq<Fate>)
    requires Collected(job, f, w.device, n) && n < VECTOR_WORDS == |f.vectorTable| && |fates| == 1
    requires IsUndisturbed(job.sizes, w, [Sent(Data(f.vectorTable[n]))], fates)
    ensures var x := Reach(job.sizes, w, [Sent(Data(f.vectorTable[n]))], fates);
            && Collected(job, f, x.device, n + 1)
            && (n + 1 == VECTOR_WORDS ==> Ack(ReceivedVectorTable, ReceivedAndProcessed, false) in x.heard)
  {
    hide Collected, RxData, Turns, Reach, IsUndisturbed, IsStill;
    UndisturbedOne(job.sizes, w, Sent(Data(f.vectorTable[n])), fates);
    Collects(job, f, w.device, n);
    var x := Receive(job.sizes, w, Data(f.vectorTable[n]));
    CollectedStill(job, f, x.device, n + 1);
    StillTurns(job.sizes, x, fates[0].turns);
  }

  lemma {:induction false} VectorDataSteps(job: Job, f: BinaryFile, w: World, n: nat, fates: seq<Fate>)
    requires Collected(job, f, w.device, n) && n < VECTOR_WORDS == |f.vectorTable| && n + |fates| == VECTOR_WORDS
    requires IsUndisturbed(job.sizes, w, VectorFrames(f)[n..], fates)
    ensures var x := Reach(job.sizes, w, VectorFrames(f)[n..], fates);
            && Collected(job, f, x.device, VECTOR_WORDS)
            && Ack(ReceivedVectorTable, ReceivedAndProcessed, false) in x.heard
    decreases |fates|
  {
    hide Collected, Reach, IsUndisturbed;
    var first, rest := [Sent(Data(f.vectorTable[n]))], VectorFrames(f)[n + 1..];
    assert VectorFrames(f)[n..] == first + rest;
    UndisturbedConcat(job.sizes, w, first, rest, fates);
    VectorDataStep(job, f, w, n, fates[..1]);
    var x := Reach(job.sizes, w, first, fates[..1]);
    if n + 1 < VECTOR_WORDS {
      VectorDataSteps(job, f, x, n + 1, fates[1..]);
    } else {
      assert rest == [];
      ReachNothing(job.sizes, x, fates[1..]);
    }
  }

  /** The program is installed, unless its vector table has a zero word. */
  ghost predicate IsInstalled(job: Job, f: BinaryFile, d: Device) {
    && |job.words| <= |d.flash| && d.flash[..|job.words|] == job.words
    && if 0 in f.vectorTable then d.boot == BootError
       else IsIdle(d)
            && d.record == Some(Record(8 * |job.words|, Chain(job.words, 0), f.vectorTable, f.vectorCrc))
  }

  /** The signature of the vector table arrives, and the main loop turns. */
  lemma Installs(job: Job, f: BinaryFile, d: Device)
    requires Collected(job, f, d, VECTOR_WORDS) && f.vectorCrc == Chain(f.vectorTable, 0)
    ensures var r := RxCrc(job.sizes, d, f.vectorCrc);
            var x := Poll(job.sizes, r.device, Works);
            VECTOR_YES in r.acks && IsInstalled(job, f, x.device) && IsStill(job.sizes, x.device)
    ensures d.boot != BootLeft
  {
    hide Chain;
    assert d.info.vectorTable[..VECTOR_WORDS] == d.info.vectorTable;
    assert f.vectorTable[..VECTOR_WORDS] == f.vectorTable;
    assert 0 in f.vectorTable <==> exists i | 0 <= i < |f.vectorTable| :: f.vectorTable[i] == 0;
  }

  lemma VectorCrcStep(job: Job, f: BinaryFile, bus: Bus, k: nat, w: World, fates: seq<Fate>)
    requires Collected(job, f, w.device, VECTOR_WORDS) && f.vectorCrc == Chain(f.vectorTable, 0) && |fates| == 2
    requires IsUndisturbed(job.sizes, w, JudgeCrc(SendCrc(f.vectorCrc, true, bus, k)).events, fates)
    ensures var o := JudgeCrc(SendCrc(f.vectorCrc, true, bus, k));
            o.result == Success && IsInstalled(job, f, Reach(job.sizes, w, o.events, fates).device)
  {
    hide Collected, IsInstalled, Reach, IsUndisturbed, IsStill, RxCrc, Poll, Chain, Turns;
    var o := JudgeCrc(SendCrc(f.vectorCrc, true, bus, k));
    var reply := Answer(bus, k).ack;
    var wait := AckWaited(ReceivedCrcOfVectorTable, ReceivedAndProcessed, reply);
    var crc := Sent(CrcSignature(f.vectorCrc));
    assert o.events == [crc] + [wait];
    UndisturbedConcat(job.sizes, w, [crc], [wait], fates);
    UndisturbedOne(job.sizes, w, crc, fates[..1]);
    Installs(job, f, w.device);
    TurnsOnce(job.sizes, Receive(job.sizes, w, CrcSignature(f.vectorCrc)), fates[..1][0].turns);
    var z := Reach(job.sizes, w, [crc], fates[..1]);
    WaitStep(job.sizes, z, ReceivedCrcOfVectorTable, ReceivedAndProcessed, reply, fates[1..]);
  }

  lemma VectorTableStep(job: Job, f: BinaryFile, bus: Bus, k: nat, w: World, fates: seq<Fate>)
    requires Collected(job, f, w.device, 0) && |f.vectorTable| == VECTOR_WORDS
    requires f.vectorCrc == Chain(f.vectorTable, 0)
    requires var o := VectorTable(f, bus, k); |fates| == |o.events| && IsUndisturbed(job.sizes, w, o.events, fates)
    ensures var o := VectorTable(f, bus, k);
            o.result == Success && IsInstalled(job, f, Reach(job.sizes, w, o.events, fates).device)
  {
    hide Collected, IsInstalled, Reach, IsUndisturbed, IsStill, Chain;
    var o := VectorTable(f, bus, k);
    var reply := Answer(bus, k).ack;
    var wait := AckWaited(ReceivedVectorTable, ReceivedAndProcessed, reply);
    var frames := VectorFrames(f);
    var rest := if reply == NoAck then [] else JudgeCrc(SendCrc(f.vectorCrc, true, bus, k + 1)).events;
    assert o.events == frames + ([wait] + rest);
    UndisturbedConcat(job.sizes, w, frames, [wait] + rest, fates);
    assert frames[0..] == frames;
    VectorDataSteps(job, f, w, 0, fates[..4]);
    var x := Reach(job.sizes, w, frames, fates[..4]);
    UndisturbedConcat(job.sizes, x, [wait], rest, fates[4..]);
    CollectedStill(job, f, x.device, VECTOR_WORDS);
    WaitStep(job.sizes, x, ReceivedVectorTable, ReceivedAndProcessed, reply, fates[4..][..1]);
    VectorCrcStep(job, f, bus, k + 1, Reach(job.sizes, x, [wait], fates[4..][..1]), fates[4..][1..]);
  }

  lemma AcceptedCollects(job: Job, f: BinaryFile, d: Device)
    requires 1 <= job.sectors && HasAccepted(job, d, job.sectors - 1) && |f.vectorTable| == VECTOR_WORDS
    ensures Collected(job, f, d, 0)
  {
    hide Chain, Start;
  }

  /** The first pass is the only one. */
  lemma PassesStep(
    f: BinaryFile, job: Job, sent: seq<Word>, c: nat, n: nat, tries: nat, bus: Bus, k: nat, w: World, fates: seq<Fate>)
    requires Describes(f, sent, job.sizes, job.sectors) && ValidJob(job) && n > 0 && tries > 0 && job.sizes != []
    requires |sent| == |job.words| && forall i | 0 <= i < job.sectors :: SignsAs(job, sent, i)
    requires GoesOn(job, sent, w.device, 0, c) && (w.device.can == ReceivedLoopNumber ==> w.heard == {})
    requires var o := Passes(f, job.sizes, n, false, tries, bus, k);
             |fates| == |o.events| && IsUndisturbed(job.sizes, w, o.events, fates)
    ensures var o := Passes(f, job.sizes, n, false, tries, bus, k);
            o.result == Success && IsInstalled(job, f, Reach(job.sizes, w, o.events, fates).device)
  {
    hide GoesOn, HasAccepted, IsInstalled, Collected, Reach, IsUndisturbed, AppData, VectorTable, Start, ValidJob;
    hide Describes, SignsAs;
    OneSector(job);
    FirstStart(f, job.(words := sent), tries, bus, k);
    PartsOf(job);
    DescribedVector(f, job.(words := sent));
    var a := AppData(f, job.sizes, 1, tries, bus, k);
    var v := VectorTable(f, bus, a.next);
    var o := Passes(f, job.sizes, n, false, tries, bus, k);
    if a.result == Failed {
      UndisturbedConcat(job.sizes, w, a.events, Passes(f, job.sizes, n - 1, false, tries, bus, a.next).events, fates);
      DataGoesThrough(f, job, sent, 0, c, tries, bus, k, w, fates[..|a.events|]);
      assert false;
    } else {
      FirstPass(f, job, n, tries, bus, k);
      var rest := if v.result == Success then [] else Passes(f, job.sizes, n - 1, true, tries, bus, v.next).events;
      UndisturbedConcat(job.sizes, w, a.events, v.events + rest, fates);
      DataGoesThrough(f, job, sent, 0, c, tries, bus, k, w, fates[..|a.events|]);
      var x := Reach(job.sizes, w, a.events, fates[..|a.events|]);
      AcceptedCollects(job, f, x.device);
      UndisturbedConcat(job.sizes, x, v.events, rest, fates[|a.events|..]);
      VectorTableStep(job, f, bus, a.next, x, fates[|a.events|..][..|v.events|]);
      ReachNothing(job.sizes, Reach(job.sizes, x, v.events, fates[|a.events|..][..|v.events|]),
                   fates[|a.events|..][|v.events|..]);
    }
  }

  lemma OneSector(job: Job)
    requires ValidJob(job)
    ensures 1 <= job.sectors
  {
  }

  lemma DescribedVector(f: BinaryFile, job: Job)
    requires Describes(f, job.words, job.sizes, job.sectors)
    ensures |f.vectorTable| == VECTOR_WORDS && f.vectorCrc == Chain(f.vectorTable, 0)
  {
    hide Start, Chain;
  }

  lemma FirstPass(f: BinaryFile, job: Job, n: nat, tries: nat, bus: Bus, k: nat)
    requires |f.vectorTable| == VECTOR_WORDS && n > 0
    requires AppData(f, job.sizes, 1, tries, bus, k).result == Success
    ensures var a := AppData(f, job.sizes, 1, tries, bus, k);
            var v := VectorTable(f, bus, a.next);
            var o := Passes(f, job.sizes, n, false, tries, bus, k);
            var rest := if v.result == Success then []
                        else Passes(f, job.sizes, n - 1, true, tries, bus, v.next).events;
            && o.events == a.events + (v.events + rest)
            && (v.result == Success ==> o.result == Success)
  {
    hide AppData, VectorTable;
  }

  // ---------- handshakes ----------

  /** A frame that the receiver reacts to at once. */
  lemma SentStep(sizes: seq<nat>, w: World, frame: Frame, fates: seq<Fate>)
    requires |fates| == 1 && !frame.Request?
    requires IsUndisturbed(sizes, w, [Sent(frame)], fates)
    requires IsStill(sizes, Rx(sizes, w.device, frame).device)
    ensures Reach(sizes, w, [Sent(frame)], fates) == Take(w, Rx(sizes, w.device, frame))
  {
    hide Rx, Poll, Turns, Reach, IsUndisturbed, IsStill;
    UndisturbedOne(sizes, w, Sent(frame), fates);
    StillTurns(sizes, Receive(sizes, w, frame), fates[0].turns);
  }

  /** The state that the tool reads is the one the receiver is in. */
  lemma AskStep(sizes: seq<nat>, w: World, states: Option<States>, fates: seq<Fate>)
    requires |fates| == 2 && IsStill(sizes, w.device) && w.device.boot != BootLeft
    requires IsUndisturbed(sizes, w, [ASK_STATES] + [StatesRead(states)], fates)
    ensures states == Some((w.device.can, w.device.boot))
    ensures var x := Reach(sizes, w, [ASK_STATES] + [StatesRead(states)], fates);
            x.device == w.device && x.heard == w.heard
  {
    hide Poll, Turns, Reach, IsUndisturbed, IsStill;
    UndisturbedConcat(sizes, w, [ASK_STATES], [StatesRead(states)], fates);
    UndisturbedOne(sizes, w, ASK_STATES, fates[..1]);
    var x := Receive(sizes, Forget(w, ASK_STATES.frame), ASK_STATES.frame);
    StillTurns(sizes, x, fates[..1][0].turns);
    UndisturbedOne(sizes, x, StatesRead(states), fates[1..]);
    StillTurns(sizes, x, fates[1..][0].turns);
  }

  /** The receiver after the transfer command. */
  predicate IsGreeted(d: Device) {
    d.can == WaitForInfo && d.boot == BootLoad && d.checks == 0 && d.info.current == 0 && IsFresh(d.info)
  }

  lemma GreetedStill(sizes: seq<nat>, d: Device)
    requires IsGreeted(d)
    ensures IsStill(sizes, d)
  {
  }

  lemma Greets(sizes: seq<nat>, d: Device)
    requires Holds(sizes, d) && IsIdle(d) && d.info.current == 0
    ensures var r := RxRequest(d, CmdToTransferProgram);
            var x := Poll(sizes, r.device, Works);
            && Ack(ReceivedCmdToTransferProgram, ReceivedAndProcessed, false) in r.acks
            && Ack(ReceivedCmdToTransferProgram, ReceivedAndProcessed, true) !in r.acks
            && x.acks == {} && IsGreeted(x.device) && Holds(sizes, x.device)
  {
    hide Start, Chain, Shaped, Signatures;
    RequestKeeps(sizes, d, CmdToTransferProgram);
    PollKeeps(sizes, RxRequest(d, CmdToTransferProgram).device, Works);
  }

  lemma StartTransferStep(sizes: seq<nat>, bus: Bus, k: nat, w: World, fates: seq<Fate>)
    requires Holds(sizes, w.device) && IsIdle(w.device) && w.device.info.current == 0
    requires var o := StartTransfer(bus, k); |fates| == |o.events| && IsUndisturbed(sizes, w, o.events, fates)
    ensures var o := StartTransfer(bus, k);
            var x := Reach(sizes, w, o.events, fates);
            o.result && IsGreeted(x.device) && Holds(sizes, x.device) && x.heard == {}
  {
    hide Poll, Turns, Reach, IsUndisturbed, IsStill, Holds, IsGreeted, RxRequest;
    var reply := Answer(bus, k).ack;
    var start := Sent(Request(CmdToTransferProgram));
    var wait := AckWaited(ReceivedCmdToTransferProgram, ReceivedAndProcessed, reply);
    var states := Answer(bus, k + 1).states;
    var rest := if reply == NoAck then [] else [ASK_STATES] + [StatesRead(states)];
    var o := StartTransfer(bus, k);
    assert o.events == [start] + ([wait] + rest);
    UndisturbedConcat(sizes, w, [start], [wait] + rest, fates);
    UndisturbedOne(sizes, w, start, fates[..1]);
    Greets(sizes, w.device);
    var x := Receive(sizes, w, Request(CmdToTransferProgram));
    GreetedStill(sizes, Poll(sizes, x.device, Works).device);
    TurnsOnce(sizes, x, fates[..1][0].turns);
    var y := Reach(sizes, w, [start], fates[..1]);
    UndisturbedConcat(sizes, y, [wait], rest, fates[1..]);
    WaitStep(sizes, y, ReceivedCmdToTransferProgram, ReceivedAndProcessed, reply, fates[1..][..1]);
    assert Reported(y.heard, ReceivedCmdToTransferProgram, ReceivedAndProcessed) != NoAck;
    GreetedState(y.device);
    AskStep(sizes, y.(heard := {}), states, fates[1..][1..]);
  }

  lemma GreetedState(d: Device)
    requires IsGreeted(d)
    ensures d.can == WaitForInfo && d.boot == BootLoad
  {
  }

  /** The receiver knows the image, if it is not too large. */
  predicate IsInformed(job: Job, d: Device) {
    && d.can == WaitForDataLoops && d.boot == BootLoad && d.checks == 0
    && d.info.current == 0 && IsFresh(d.info)
    && d.info.total == |job.words| && d.info.length == 8 * |job.words|
  }

  lemma Informs(job: Job, d: Device)
    requires IsGreeted(d)
    ensures var r := Rx(job.sizes, d, ProgramInfo(8 * |job.words|, |job.words|));
            var fits := 8 * |job.words| <= PROGRAM_SIZE_MAX;
            && (if fits then IsInformed(job, r.device) else IsGreeted(r.device))
            && IsStill(job.sizes, r.device)
            && Ack(ReceivedProgramInfo, ReceivedAndProcessed, fits) in r.acks
            && Ack(ReceivedProgramInfo, ReceivedAndProcessed, !fits) !in r.acks
  {
  }

  lemma ProgramInfoStep(job: Job, bus: Bus, k: nat, w: World, fates: seq<Fate>)
    requires Holds(job.sizes, w.device) && IsGreeted(w.device)
    requires Ack(ReceivedProgramInfo, ReceivedAndProcessed, true) !in w.heard
    requires var o := SendProgramInfo(8 * |job.words|, |job.words|, bus, k);
             |fates| == |o.events| && IsUndisturbed(job.sizes, w, o.events, fates)
    ensures var o := SendProgramInfo(8 * |job.words|, |job.words|, bus, k);
            var x := Reach(job.sizes, w, o.events, fates);
            && o.result == (8 * |job.words| <= PROGRAM_SIZE_MAX)
            && (o.result ==> IsInformed(job, x.device) && Holds(job.sizes, x.device) && x.heard == {})
  {
    hide Rx, Poll, Turns, Reach, IsUndisturbed, IsStill, Holds, IsGreeted, IsInformed;
    var reply := Answer(bus, k).ack;
    var frame := ProgramInfo(8 * |job.words|, |job.words|);
    var wait := AckWaited(ReceivedProgramInfo, ReceivedAndProcessed, reply);
    var states := Answer(bus, k + 1).states;
    var rest := if reply != Yes then [] else [ASK_STATES] + [StatesRead(states)];
    assert SendProgramInfo(8 * |job.words|, |job.words|, bus, k).events == [Sent(frame)] + ([wait] + rest);
    UndisturbedConcat(job.sizes, w, [Sent(frame)], [wait] + rest, fates);
    Informs(job, w.device);
    RxKeeps(job.sizes, w.device, frame);
    SentStep(job.sizes, w, frame, fates[..1]);
    var y := Take(w, Rx(job.sizes, w.device, frame));
    UndisturbedConcat(job.sizes, y, [wait], rest, fates[1..]);
    WaitStep(job.sizes, y, ReceivedProgramInfo, ReceivedAndProcessed, reply, fates[1..][..1]);
    if reply == Yes {
      AskStep(job.sizes, y.(heard := {}), states, fates[1..][1..]);
      InformedState(job, y.device);
    }
  }

  lemma InformedState(job: Job, d: Device)
    requires IsInformed(job, d)
    ensures d.can == WaitForDataLoops
  {
  }

  lemma PreInfoStep(f: BinaryFile, job: Job, bus: Bus, k: nat, w: World, fates: seq<Fate>)
    requires f.lenInBytes == 8 * |job.words| && f.lenInWords == |job.words|
    requires Holds(job.sizes, w.device) && IsIdle(w.device) && w.device.info.current == 0
    requires var o := PreInfo(f, bus, k); |fates| == |o.events| && IsUndisturbed(job.sizes, w, o.events, fates)
    ensures var o := PreInfo(f, bus, k);
            var x := Reach(job.sizes, w, o.events, fates);
            && o.result == (8 * |job.words| <= PROGRAM_SIZE_MAX)
            && (o.result ==> IsInformed(job, x.device) && Holds(job.sizes, x.device) && x.heard == {})
  {
    hide Reach, IsUndisturbed, Holds, IsGreeted, IsInformed, StartTransfer, SendProgramInfo;
    var s := StartTransfer(bus, k);
    if !s.result {
      StartTransferStep(job.sizes, bus, k, w, fates);
      assert false;
    } else {
      var p := SendProgramInfo(f.lenInBytes, f.lenInWords, bus, s.next);
      UndisturbedConcat(job.sizes, w, s.events, p.events, fates);
      StartTransferStep(job.sizes, bus, k, w, fates[..|s.events|]);
      ProgramInfoStep(job, bus, s.next, Reach(job.sizes, w, s.events, fates[..|s.events|]), fates[|s.events|..]);
    }
  }

  /**
   * A receiver that is told to reset is at its start again, unless it is starting a program.  With a backup the
   * flash has been erased, and the program is forgotten; without one both are left as they were.
   */
  lemma Resets(sizes: seq<nat>, d: Device)
    requires Holds(sizes, d) && d.boot !in {BootRun, BootLeft}
    ensures var r := RxRequest(d, CmdToResetBootProcess);
            var x := Poll(sizes, r.device, Works);
            var y := Poll(sizes, x.device, Works);
            && Ack(ReceivedCmdToResetBootProcess, ReceivedAndInProcessing, false) in r.acks
            && x.acks == y.acks == {}
            && Holds(sizes, y.device) && IsIdle(y.device) && y.device.info.current == 0
            && IsStill(sizes, y.device)
            && |y.device.flash| == |d.flash| && y.device.backup == d.backup
            && (if d.backup then y.device.record == None && forall i | 0 <= i < |d.flash| :: y.device.flash[i] == 0
                else y.device.flash == d.flash && y.device.record == d.record)
  {
    hide Start, Chain, Shaped, Signatures;
    RequestKeeps(sizes, d, CmdToResetBootProcess);
    var r := RxRequest(d, CmdToResetBootProcess).device;
    PollKeeps(sizes, r, Works);
    PollKeeps(sizes, Poll(sizes, r, Works).device, Works);
  }

  /**
   * When the flash cannot be erased the receiver restarts all the same, keeps its record, and has whatever is left in
   * its flash.  When it is not allowed to, it has lost its record, has whatever is left in its flash, and is in the
   * error state.
   */
  lemma ResetFails(sizes: seq<nat>, d: Device, first: Hardware, hw: Hardware)
    requires d.boot !in {BootRun, BootReset, BootLeft} && !hw.Works?
    ensures var x := Poll(sizes, RxRequest(d, CmdToResetBootProcess).device, first);
            var y := Poll(sizes, x.device, hw);
            && x.device.boot == BootReset && x.device.flash == d.flash && x.device.record == d.record
            && y.acks == {}
            && y.device.can == NoCommunication && y.device.backup == d.backup
            && y.device.info == Info(0, 0, 0, 0, 0, 0, 0, 0, [0, 0, 0, 0], 0)
            && |y.device.flash| == |d.flash|
            && (forall i | 0 <= i < |d.flash| && i < |hw.cells| :: y.device.flash[i] == hw.cells[i])
            && (hw.Fails? ==> y.device.boot == BootWait && y.device.record == d.record)
            && (hw.Refuses? ==> y.device.boot == BootError && y.device.record == None)
  {
  }

  /**
   * A receiver at its start that is told to run the program starts it exactly if there is a record whose length fits
   * the flash, that part of the flash has the recorded signature, and so has the recorded vector table.  Otherwise it
   * answers No and is at its start again.
   */
  lemma RunStarts(sizes: seq<nat>, d: Device)
    requires IsIdle(d)
    ensures var r := RxRequest(d, CmdToRunProgram);
            var x := Poll(sizes, r.device, Works);
            var y := Poll(sizes, x.device, Works);
            && (y.device.boot == BootLeft <==>
                  && d.record.Some?
                  && d.record.value.length / 8 <= |d.flash|
                  && d.record.value.crc == Chain(d.flash[..d.record.value.length / 8], 0)
                  && d.record.value.vectorCrc == Chain(d.record.value.vectorTable, 0))
            && y.device == (if y.device.boot == BootLeft then d.(boot := BootLeft) else d)
            && y.acks == {Ack(ReceivedCmdToRunProgram, ReceivedAndProcessed, y.device.boot == BootLeft)}
            && IsStill(sizes, y.device)
  {
    hide Start, Chain;
  }

  /** A receiver that is told to run the program answers No and is where it was. */
  predicate RefusesToRun(sizes: seq<nat>, d: Device) {
    var x := Poll(sizes, RxRequest(d, CmdToRunProgram).device, Works);
    var y := Poll(sizes, x.device, Works);
    y.device == d && y.acks == {Ack(ReceivedCmdToRunProgram, ReceivedAndProcessed, false)}
  }

  /** One word of the recorded program that differs in the flash keeps it from being started. */
  lemma OneWordIsRefused(sizes: seq<nat>, d: Device, words: seq<Word>, at: nat)
    requires IsIdle(d) && d.record.Some? && d.record.value.length / 8 == |words| <= |d.flash|
    requires d.record.value.crc == Chain(words, 0)
    requires at < |words| && d.flash[..|words|] == words[at := d.flash[at]] && d.flash[at] != words[at]
    ensures RefusesToRun(sizes, d)
  {
    hide Chain, Poll, RxRequest, IsStill;
    RunStarts(sizes, d);
    OneWordChangesChain(words, at, d.flash[at], 0);
  }

  /** After a reset that has erased the flash there is no program to run. */
  lemma ErasedIsRefused(sizes: seq<nat>, d: Device)
    requires Holds(sizes, d) && d.boot !in {BootRun, BootLeft} && d.backup
    ensures var x := Poll(sizes, RxRequest(d, CmdToResetBootProcess).device, Works);
            RefusesToRun(sizes, Poll(sizes, x.device, Works).device)
  {
    hide Chain, Poll, RxRequest, IsStill, Holds;
    Resets(sizes, d);
    var x := Poll(sizes, RxRequest(d, CmdToResetBootProcess).device, Works);
    RunStarts(sizes, Poll(sizes, x.device, Works).device);
  }

  lemma PollStateStep(sizes: seq<nat>, polls: nat, bus: Bus, k: nat, w: World, fates: seq<Fate>)
    requires polls > 0 && IsStill(sizes, w.device) && w.device.boot != BootLeft
    requires var o := PollState(polls, bus, k); |fates| == |o.events| && IsUndisturbed(sizes, w, o.events, fates)
    ensures var o := PollState(polls, bus, k);
            o.result == Some((w.device.can, w.device.boot)) && Reach(sizes, w, o.events, fates).device == w.device
  {
    hide Poll, Turns, Reach, IsUndisturbed, IsStill;
    var s := GetState(bus, k);
    assert s.events == [ASK_STATES] + [StatesRead(s.result)];
    if s.result.None? && polls > 1 {
      var rest := PollState(polls - 1, bus, s.next);
      UndisturbedConcat(sizes, w, s.events, rest.events, fates);
      AskStep(sizes, w, s.result, fates[..|s.events|]);
      assert false;
    } else {
      AskStep(sizes, w, s.result, fates);
    }
  }

  lemma LoopsStep(sizes: seq<nat>, w: World, loops: Option<nat>, fates: seq<Fate>)
    requires |fates| == 2 && IsStill(sizes, w.device) && w.device.boot != BootLeft
    requires IsUndisturbed(sizes, w, [ASK_LOOPS] + [LoopsRead(loops)], fates)
    ensures loops == Some(w.device.info.current)
    ensures Reach(sizes, w, [ASK_LOOPS] + [LoopsRead(loops)], fates).device == w.device
  {
    hide Poll, Turns, Reach, IsUndisturbed, IsStill;
    UndisturbedConcat(sizes, w, [ASK_LOOPS], [LoopsRead(loops)], fates);
    UndisturbedOne(sizes, w, ASK_LOOPS, fates[..1]);
    var x := Receive(sizes, Forget(w, ASK_LOOPS.frame), ASK_LOOPS.frame);
    StillTurns(sizes, x, fates[..1][0].turns);
    UndisturbedOne(sizes, x, LoopsRead(loops), fates[1..]);
    StillTurns(sizes, x, fates[1..][0].turns);
  }

  lemma ResetStep(sizes: seq<nat>, polls: nat, bus: Bus, k: nat, w: World, fates: seq<Fate>)
    requires polls > 0 && Holds(sizes, w.device) && w.device.boot !in {BootRun, BootLeft}
    requires var o := ResetBootloader(polls, bus, k);
             |fates| == |o.events| && IsUndisturbed(sizes, w, o.events, fates)
    ensures var o := ResetBootloader(polls, bus, k);
            var x := Reach(sizes, w, o.events, fates);
            o.result && Holds(sizes, x.device) && IsIdle(x.device) && x.device.info.current == 0
  {
    hide Poll, Turns, Reach, IsUndisturbed, IsStill, Holds, RxRequest, PollState;
    var reply := Answer(bus, k).ack;
    var reset := Sent(Request(CmdToResetBootProcess));
    var wait := AckWaited(ReceivedCmdToResetBootProcess, ReceivedAndInProcessing, reply);
    var s := PollState(polls, bus, k + 1);
    var l := GetLoops(bus, s.next);
    var rest := if reply == NoAck then [] else s.events + ([ASK_LOOPS] + [LoopsRead(l.result)]);
    ResetEvents(polls, bus, k);
    UndisturbedConcat(sizes, w, [reset], [wait] + rest, fates);
    UndisturbedOne(sizes, w, reset, fates[..1]);
    Resets(sizes, w.device);
    TurnsTwice(sizes, Receive(sizes, w, Request(CmdToResetBootProcess)), fates[..1][0].turns);
    var y := Reach(sizes, w, [reset], fates[..1]);
    UndisturbedConcat(sizes, y, [wait], rest, fates[1..]);
    WaitStep(sizes, y, ReceivedCmdToResetBootProcess, ReceivedAndInProcessing, reply, fates[1..][..1]);
    assert reply != NoAck;
    var z := y.(heard := {});
    UndisturbedConcat(sizes, z, s.events, [ASK_LOOPS] + [LoopsRead(l.result)], fates[1..][1..]);
    PollStateStep(sizes, polls, bus, k + 1, z, fates[1..][1..][..|s.events|]);
    LoopsStep(sizes, Reach(sizes, z, s.events, fates[1..][1..][..|s.events|]), l.result,
              fates[1..][1..][|s.events|..]);
  }

  lemma ResetEvents(polls: nat, bus: Bus, k: nat)
    requires polls > 0
    ensures var o := ResetBootloader(polls, bus, k);
            var reply := Answer(bus, k).ack;
            var s := PollState(polls, bus, k + 1);
            var l := GetLoops(bus, s.next);
            var rest := if reply == NoAck then [] else s.events + ([ASK_LOOPS] + [LoopsRead(l.result)]);
            && o.events == [Sent(Request(CmdToResetBootProcess))]
                 + ([AckWaited(ReceivedCmdToResetBootProcess, ReceivedAndInProcessing, reply)] + rest)
            && o.result == (reply != NoAck && s.result == Some((NoCommunication, BootWait)) && l.result == Some(0))
  {
    hide PollState;
  }

  lemma HandshakeStep(
    f: BinaryFile, job: Job, info: BootloaderStatus, polls: nat, bus: Bus, k: nat, w: World, fates: seq<Fate>)
    requires f.lenInBytes == 8 * |job.words| && f.lenInWords == |job.words| && polls > 0
    requires Holds(job.sizes, w.device) && w.device.boot !in {BootRun, BootLeft}
    requires IsCurrent(info, w.device)
    requires var o := Handshake(f, info, polls, bus, k);
             |fates| == |o.events| && IsUndisturbed(job.sizes, w, o.events, fates)
    ensures var o := Handshake(f, info, polls, bus, k);
            var x := Reach(job.sizes, w, o.events, fates);
            && o.result == (8 * |job.words| <= PROGRAM_SIZE_MAX)
            && (o.result ==> IsInformed(job, x.device) && Holds(job.sizes, x.device) && x.heard == {})
  {
    hide Reach, IsUndisturbed, Holds, IsInformed, PreInfo, ResetBootloader, AtTheBeginning;
    if AtTheBeginning(info) {
      var p := PreInfo(f, bus, k);
      AfterNothing(p);
      CurrentIsIdle(info, w.device);
      PreInfoStep(f, job, bus, k, w, fates);
    } else {
      var r := ResetBootloader(polls, bus, k);
      if !r.result {
        ResetStep(job.sizes, polls, bus, k, w, fates);
        assert false;
      } else {
        var p := PreInfo(f, bus, r.next);
        UndisturbedConcat(job.sizes, w, r.events, p.events, fates);
        ResetStep(job.sizes, polls, bus, k, w, fates[..|r.events|]);
        PreInfoStep(f, job, bus, r.next, Reach(job.sizes, w, r.events, fates[..|r.events|]), fates[|r.events|..]);
      }
    }
  }

  // ---------- the whole upload ----------

  /**
   * When nothing goes wrong, the upload returns True exactly if the image is not too large for the receiver.
   * Then the flash holds the image, and the program is installed exactly if its vector table has no zero word:
   * the receiver reports the signature of such a table as valid and only then refuses the table.
   */
  lemma UndisturbedUploadSucceeds(
    f: BinaryFile, job: Job, info: BootloaderStatus, limits: Limits, bus: Bus, k: nat, w: World, fates: seq<Fate>)
    requires Describes(f, job.words, job.sizes, job.sectors) && FitsBuffer(job.sizes)
    requires UploadSpec.IsComplete(info) && limits.passes > 0 && limits.tries > 0 && limits.polls > 0
    requires Holds(job.sizes, w.device) && w.device.boot !in {BootRun, BootLeft}
    requires IsCurrent(info, w.device)
    requires var o := AppBinary(f, job.sizes, info, limits, bus, k);
             |fates| == |o.events| && IsUndisturbed(job.sizes, w, o.events, fates)
    ensures var o := AppBinary(f, job.sizes, info, limits, bus, k);
            && (o.result == Success <==> 8 * |job.words| <= 0x3E_0000)
            && (o.result == Success ==> IsInstalled(job, f, Reach(job.sizes, w, o.events, fates).device))
  {
    hide Reach, IsUndisturbed, Holds, IsInformed, Handshake, Passes, IsInstalled, GoesOn, Describes, SignsAs;
    JobOf(f, job);
    var h := Handshake(f, info, limits.polls, bus, k);
    if !h.result {
      HandshakeStep(f, job, info, limits.polls, bus, k, w, fates);
    } else {
      var p := Passes(f, job.sizes, limits.passes, false, limits.tries, bus, h.next);
      UndisturbedConcat(job.sizes, w, h.events, p.events, fates);
      HandshakeStep(f, job, info, limits.polls, bus, k, w, fates[..|h.events|]);
      var x := Reach(job.sizes, w, h.events, fates[..|h.events|]);
      InformedGoesOn(job, x.device);
      SignsAsSent(job);
      PassesStep(f, job, job.words, 1, limits.passes, limits.tries, bus, h.next, x, fates[|h.events|..]);
    }
  }

  lemma InformedAwaits(job: Job, d: Device)
    requires ValidJob(job) && Holds(job.sizes, d) && IsInformed(job, d)
    ensures Awaits(job, d, 0, 1)
  {
    hide Chain;
    SectorBounds(job.sizes, 0);
    StartMono(job.sizes, 1, job.sectors);
  }

  lemma InformedGoesOn(job: Job, d: Device)
    requires ValidJob(job) && Holds(job.sizes, d) && IsInformed(job, d)
    ensures 1 <= |job.sizes| && GoesOn(job, job.words, d, 0, 1) && d.can == WaitForDataLoops
  {
    hide Awaits, Holds;
    InformedAwaits(job, d);
    InformedState(job, d);
  }
}
