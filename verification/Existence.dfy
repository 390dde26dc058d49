/**
 * An undisturbed upload exists for every image: the bus that answers each wait with what the receiver has sent.
 */
module Existence {
  import opened Wrappers
  import opened Crc64
  import opened CrcImage
  import opened Protocol
  import opened Device
  import opened World
  import opened Transfer
  import opened DataTransfer
  import opened EndToEnd
  import opened UploadSpec
  import opened UploadProps
  import opened DeviceSafety
  import opened Undisturbed
  import opened UndisturbedData
  import opened UndisturbedUpload
  import opened Retries
  import UploadSafety

  const GOOD: Fate := Fate(true, [Works, Works])

  function Goods(n: nat): (r: seq<Fate>)
    ensures |r| == n
  {
    seq(n, i => GOOD)
  }

  /** Every frame arrives, and every wait among the events is answered by the receiver. */
  predicate IsFine(sizes: seq<nat>, w: World, events: seq<Event>) {
    IsUndisturbed(sizes, w, events, Goods(|events|))
  }

  function Led(sizes: seq<nat>, w: World, events: seq<Event>): World {
    Reach(sizes, w, events, Goods(|events|))
  }

  lemma FineNext(sizes: seq<nat>, w: World, events: seq<Event>)
    requires events != []
    ensures IsFine(sizes, w, events)
       <==> IsPrompt(sizes, w, events[0], GOOD) && See(sizes, w, events[0], GOOD).Some?
            && IsFine(sizes, See(sizes, w, events[0], GOOD).value, events[1..])
    ensures See(sizes, w, events[0], GOOD).Some? ==>
              Led(sizes, w, events) == Led(sizes, See(sizes, w, events[0], GOOD).value, events[1..])
  {
    hide IsPrompt, See;
    assert Goods(|events|)[1..] == Goods(|events| - 1);
  }

  lemma {:induction false} FineJoin(sizes: seq<nat>, w: World, a: seq<Event>, b: seq<Event>)
    requires IsFine(sizes, w, a) && IsFine(sizes, Led(sizes, w, a), b)
    ensures IsFine(sizes, w, a + b) && Led(sizes, w, a + b) == Led(sizes, Led(sizes, w, a), b)
    decreases |a|
  {
    hide IsFine, Led, IsPrompt, See;
    if a == [] {
      LedNowhere(sizes, w);
      assert a + b == b;
    } else {
      FineNext(sizes, w, a);
      FineJoin(sizes, See(sizes, w, a[0], GOOD).value, a[1..], b);
      assert (a + b)[1..] == a[1..] + b;
      FineNext(sizes, w, a + b);
    }
  }

  lemma LedNowhere(sizes: seq<nat>, w: World)
    ensures IsFine(sizes, w, []) && Led(sizes, w, []) == w
  {
  }

  lemma FineOne(sizes: seq<nat>, w: World, e: Event)
    requires IsPrompt(sizes, w, e, GOOD) && See(sizes, w, e, GOOD).Some?
    ensures IsFine(sizes, w, [e])
  {
    hide IsFine, Led, IsPrompt, See;
    FineNext(sizes, w, [e]);
    LedNowhere(sizes, See(sizes, w, e, GOOD).value);
    assert [e][1..] == [];
  }

  lemma {:induction false} SendsFine(sizes: seq<nat>, w: World, frames: seq<Frame>)
    ensures IsFine(sizes, w, Sends(frames))
    decreases |frames|
  {
    hide IsFine, Led, Transmit;
    if frames == [] {
      LedNowhere(sizes, w);
    } else {
      FineNext(sizes, w, Sends(frames));
      SendsFine(sizes, See(sizes, w, Sent(frames[0]), GOOD).value, frames[1..]);
    }
  }

  lemma SentFine(sizes: seq<nat>, w: World, frame: Frame)
    ensures IsFine(sizes, w, [Sent(frame)])
  {
    hide IsFine, Transmit;
    FineOne(sizes, w, Sent(frame));
  }

  /** The answer that the receiver gives to a wait. */
  function AckAnswer(sizes: seq<nat>, w: World, message: AckMessage, status: StatusCode): Reply {
    Reply(Reported(Turns(sizes, w, GOOD.turns).heard, message, status), None, None)
  }

  lemma WaitFine(sizes: seq<nat>, w: World, message: AckMessage, status: StatusCode)
    ensures IsFine(sizes, w, [AckWaited(message, status, AckAnswer(sizes, w, message, status).ack)])
  {
    hide IsFine, Turns;
    FineOne(sizes, w, AckWaited(message, status, AckAnswer(sizes, w, message, status).ack));
  }

  function StatesAnswer(sizes: seq<nat>, w: World): Reply {
    Reply(NoAck, Turns(sizes, w, GOOD.turns).states, None)
  }

  lemma StatesFine(sizes: seq<nat>, w: World)
    ensures IsFine(sizes, w, [StatesRead(StatesAnswer(sizes, w).states)])
  {
    hide IsFine, Turns;
    FineOne(sizes, w, StatesRead(StatesAnswer(sizes, w).states));
  }

  // ---------- what a run depends on ----------

  /** A run only looks at the answers up to its last wait. */
  lemma {:induction false} TriesLocal(
    f: BinaryFile, first: nat, last: nat, tries: nat, bus: Bus, longer: Bus, k: nat)
    requires first >= 1 && bus <= longer
    ensures var o := SubSectorTries(f, first, last, tries, bus, k);
            o.next >= k && (o.next <= |bus| ==> SubSectorTries(f, first, last, tries, longer, k) == o)
    decreases tries
  {
    hide LoopFrames;
    if tries > 0 { TriesLocal(f, first, last, tries - 1, bus, longer, SubSector(f, first, last, bus, k).next); }
  }

  lemma {:induction false} SectorLoopsLocal(
    f: BinaryFile, i: nat, last: nat, total: nat, tries: nat, bus: Bus, longer: Bus, k: nat)
    requires i >= 1 && bus <= longer
    ensures var o := SectorLoops(f, i, last, total, tries, bus, k);
            o.next >= k && (o.next <= |bus| ==> SectorLoops(f, i, last, total, tries, longer, k) == o)
    decreases last + SUB_SECTOR_LOOPS - i
  {
    hide SubSectorTries;
    if i <= last && SubSectorLoops(i, total).Some? {
      var end := SubSectorLoops(i, total).value.1;
      TriesLocal(f, i, end, tries, bus, longer, k);
      var a := SubSectorTries(f, i, end, tries, bus, k);
      SectorLoopsLocal(f, i + SUB_SECTOR_LOOPS, last, total, tries, bus, longer, a.next);
    }
  }

  lemma SectorLocal(
    f: BinaryFile, i: nat, total: nat, size: nat, tries: nat, bus: Bus, longer: Bus, k: nat)
    requires i >= 1 && bus <= longer
    ensures var o := Sector(f, i, total, size, tries, bus, k);
            o.next >= k && (o.next <= |bus| ==> Sector(f, i, total, size, tries, longer, k) == o)
  {
    hide SectorLoops;
    SectorLoopsLocal(f, i, LastLoop(i, total, size), total, tries, bus, longer, k);
  }

  lemma {:induction false} AppDataLocal(
    f: BinaryFile, sizes: seq<nat>, i: nat, tries: nat, bus: Bus, longer: Bus, k: nat)
    requires bus <= longer
    ensures var o := AppData(f, sizes, i, tries, bus, k);
            o.next >= k && (o.next <= |bus| ==> AppData(f, sizes, i, tries, longer, k) == o)
    decreases f.lenInWords + 1 - i
  {
    hide Sector, SectorSize;
    if 1 <= i <= f.lenInWords && SectorSize(sizes, 0, 1, i).Some? {
      SectorSizePositive(sizes, 0, 1, i);
      var size := SectorSize(sizes, 0, 1, i).value;
      SectorLocal(f, i, f.lenInWords, size, tries, bus, longer, k);
      var a := Sector(f, i, f.lenInWords, size, tries, bus, k);
      AppDataLocal(f, sizes, i + size, tries, bus, longer, a.next);
    }
  }

  // ---------- the bus for the data ----------

  /** The run of `o`, which has used up `bus`, is fine. */
  ghost predicate FineRun<T>(sizes: seq<nat>, w: World, o: Outcome<T>, bus: Bus) {
    IsFine(sizes, w, o.events) && o.next == |bus|
  }

  lemma SubSectorBus(f: BinaryFile, job: Job, first: nat, end: nat, w: World, before: Bus) returns (bus: Bus)
    requires Describes(f, job.words, job.sizes, job.sectors) && 1 <= first && end <= |job.words|
    ensures before <= bus && FineRun(job.sizes, w, SubSector(f, first, end, bus, |before|), bus)
  {
    hide IsFine, Led, Describes, SubSector, Pairs;
    var frames := Pairs(job.words, first, end);
    var x := Led(job.sizes, w, Sends(frames));
    var answer := AckAnswer(job.sizes, x, ReceivedSubSectorData, ReceivedAndProcessed);
    bus := before + [answer];
    SubSectorShape(f, job.words, job.sizes, job.sectors, first, end, bus, |before|);
    SendsFine(job.sizes, w, frames);
    WaitFine(job.sizes, x, ReceivedSubSectorData, ReceivedAndProcessed);
    FineJoin(job.sizes, w, Sends(frames), [AckWaited(ReceivedSubSectorData, ReceivedAndProcessed, answer.ack)]);
  }

  lemma SubSectorLocal(
    f: BinaryFile, first: nat, last: nat, bus: Bus, longer: Bus, k: nat)
    requires first >= 1 && bus <= longer
    ensures var o := SubSector(f, first, last, bus, k); o.next <= |bus| ==> SubSector(f, first, last, longer, k) == o
  {
    hide LoopFrames;
  }

  lemma {:induction false} TriesBus(
    f: BinaryFile, job: Job, first: nat, end: nat, tries: nat, w: World, before: Bus) returns (bus: Bus)
    requires Describes(f, job.words, job.sizes, job.sectors) && 1 <= first && end <= |job.words|
    ensures before <= bus && FineRun(job.sizes, w, SubSectorTries(f, first, end, tries, bus, |before|), bus)
    decreases tries
  {
    hide IsFine, Led, Describes, SubSector;
    if tries == 0 {
      bus := before;
      LedNowhere(job.sizes, w);
    } else {
      var middle := SubSectorBus(f, job, first, end, w, before);
      var a := SubSector(f, first, end, middle, |before|);
      bus := middle;
      if a.result == Failed {
        bus := TriesBus(f, job, first, end, tries - 1, Led(job.sizes, w, a.events), middle);
        SubSectorLocal(f, first, end, middle, bus, |before|);
        FineJoin(job.sizes, w, a.events, SubSectorTries(f, first, end, tries - 1, bus, |middle|).events);
      }
    }
  }

  lemma {:induction false} SectorLoopsBus(
    f: BinaryFile, job: Job, j: nat, i: nat, tries: nat, w: World, before: Bus) returns (bus: Bus)
    requires Describes(f, job.words, job.sizes, job.sectors) && ValidJob(job) && j < job.sectors
    requires i % SUB_SECTOR_LOOPS == 1 && Start(job.sizes, j) < i
    requires i <= Start(job.sizes, j + 1) + 1 && Start(job.sizes, j + 1) <= |job.words|
    ensures before <= bus
    ensures FineRun(job.sizes, w, SectorLoops(f, i, Start(job.sizes, j + 1), |job.words|, tries, bus, |before|), bus)
    decreases Start(job.sizes, j + 1) + 1 - i
  {
    hide IsFine, Led, Describes, SubSectorTries, SectorLoops, SubSectorLoops, Start, ValidJob;
    PartsOf(job);
    var last := Start(job.sizes, j + 1);
    bus := before;
    if i == last + 1 {
      NoMoreLoops(f, job, last, tries, bus, |before|);
      LedNowhere(job.sizes, w);
    } else {
      var end := i + SUB_SECTOR_LOOPS - 1;
      SectorLoopsSubSector(f, job.sizes, job.sectors, j, i, tries, before, |before|);
      var middle := TriesBus(f, job, i, end, tries, w, before);
      var t := SubSectorTries(f, i, end, tries, middle, |before|);
      bus := middle;
      if t.result == Success {
        bus := SectorLoopsBus(f, job, j, end + 1, tries, Led(job.sizes, w, t.events), middle);
        TriesLocal(f, i, end, tries, middle, bus, |before|);
        FineJoin(job.sizes, w, t.events, SectorLoops(f, end + 1, last, |job.words|, tries, bus, |middle|).events);
      }
      SectorLoopsSubSector(f, job.sizes, job.sectors, j, i, tries, bus, |before|);
    }
  }

  /** The two events of a signature. */
  lemma CrcBus(sizes: seq<nat>, crc: Word, isVectorTable: bool, w: World, before: Bus) returns (bus: Bus)
    ensures before <= bus && FineRun(sizes, w, JudgeCrc(SendCrc(crc, isVectorTable, bus, |before|)), bus)
  {
    hide IsFine, Led;
    var message := if isVectorTable then ReceivedCrcOfVectorTable else ReceivedCrc;
    var sent := [Sent(CrcSignature(crc))];
    var x := Led(sizes, w, sent);
    var answer := AckAnswer(sizes, x, message, ReceivedAndProcessed);
    bus := before + [answer];
    SentFine(sizes, w, CrcSignature(crc));
    WaitFine(sizes, x, message, ReceivedAndProcessed);
    FineJoin(sizes, w, sent, [AckWaited(message, ReceivedAndProcessed, answer.ack)]);
    assert SendCrc(crc, isVectorTable, bus, |before|).events
        == sent + [AckWaited(message, ReceivedAndProcessed, answer.ack)];
  }

  lemma SectorBus(f: BinaryFile, job: Job, j: nat, tries: nat, w: World, before: Bus) returns (bus: Bus)
    requires Describes(f, job.words, job.sizes, job.sectors) && ValidJob(job) && j < job.sectors
    ensures before <= bus
    ensures FineRun(job.sizes, w,
                    Sector(f, Start(job.sizes, j) + 1, |job.words|, LoopsIn(job.sizes, j), tries, bus, |before|), bus)
  {
    hide IsFine, Led, Describes, Sector, SectorLoops, Start, ValidJob, SendCrc, JudgeCrc, Column;
    PartsOf(job);
    var i, last := Start(job.sizes, j) + 1, Start(job.sizes, j + 1);
    SectorSplit(f, job.words, job.sizes, job.sectors, j, tries, before, |before|);
    var middle := SectorLoopsBus(f, job, j, i, tries, w, before);
    var l := SectorLoops(f, i, last, |job.words|, tries, middle, |before|);
    bus := middle;
    if l.result == Success {
      var crc := Column(job.words, 0)[last - 1];
      bus := CrcBus(job.sizes, crc, false, Led(job.sizes, w, l.events), middle);
      SectorLoopsLocal(f, i, last, |job.words|, tries, middle, bus, |before|);
      FineJoin(job.sizes, w, l.events, JudgeCrc(SendCrc(crc, false, bus, |middle|)).events);
    }
    SectorSplit(f, job.words, job.sizes, job.sectors, j, tries, bus, |before|);
  }

  /** The data of sectors j and on, however it ends. */
  lemma {:induction false} DataBus(f: BinaryFile, job: Job, j: nat, tries: nat, w: World, before: Bus)
    returns (bus: Bus)
    requires Describes(f, job.words, job.sizes, job.sectors) && ValidJob(job) && j <= job.sectors <= |job.sizes|
    ensures before <= bus
    ensures FineRun(job.sizes, w, AppData(f, job.sizes, Start(job.sizes, j) + 1, tries, bus, |before|), bus)
    decreases job.sectors - j
  {
    hide IsFine, Led, Describes, AppData, Sector, Start, ValidJob;
    bus := before;
    if j == job.sectors {
      AppDataEnd(f, job.words, job.sizes, job.sectors, tries, bus, |before|);
      LedNowhere(job.sizes, w);
    } else {
      var i, size := Start(job.sizes, j) + 1, LoopsIn(job.sizes, j);
      var middle := SectorBus(f, job, j, tries, w, before);
      var s := Sector(f, i, |job.words|, size, tries, middle, |before|);
      bus := middle;
      if s.result == Success {
        bus := DataBus(f, job, j + 1, tries, Led(job.sizes, w, s.events), middle);
        SectorLocal(f, i, |job.words|, size, tries, middle, bus, |before|);
        FineJoin(job.sizes, w, s.events,
                 AppData(f, job.sizes, Start(job.sizes, j + 1) + 1, tries, bus, |middle|).events);
      }
      AppDataSector(f, job.words, job.sizes, job.sectors, j, tries, bus, |before|);
    }
  }

  // ---------- the bus for the vector table and the passes ----------

  lemma VectorTableBus(f: BinaryFile, sizes: seq<nat>, w: World, before: Bus) returns (bus: Bus)
    requires |f.vectorTable| == VECTOR_WORDS
    ensures before <= bus && FineRun(sizes, w, VectorTable(f, bus, |before|), bus)
  {
    hide IsFine, Led, SendCrc, JudgeCrc;
    var t := f.vectorTable;
    var frames := [Data(t[0]), Data(t[1]), Data(t[2]), Data(t[3])];
    FourSends(t);
    SendsFine(sizes, w, frames);
    var x := Led(sizes, w, VectorFrames(f));
    var answer := AckAnswer(sizes, x, ReceivedVectorTable, ReceivedAndProcessed);
    var wait := AckWaited(ReceivedVectorTable, ReceivedAndProcessed, answer.ack);
    WaitFine(sizes, x, ReceivedVectorTable, ReceivedAndProcessed);
    FineJoin(sizes, w, VectorFrames(f), [wait]);
    var middle := before + [answer];
    if answer.ack == NoAck {
      bus := middle;
    } else {
      bus := CrcBus(sizes, f.vectorCrc, true, Led(sizes, w, VectorFrames(f) + [wait]), middle);
      FineJoin(sizes, w, VectorFrames(f) + [wait], JudgeCrc(SendCrc(f.vectorCrc, true, bus, |middle|)).events);
    }
  }

  lemma FourSends(t: seq<Word>)
    requires |t| == VECTOR_WORDS
    ensures Sends([Data(t[0]), Data(t[1]), Data(t[2]), Data(t[3])])
         == [Sent(Data(t[0])), Sent(Data(t[1])), Sent(Data(t[2])), Sent(Data(t[3]))]
  {
    SendsConcat([Data(t[0])], [Data(t[1]), Data(t[2]), Data(t[3])]);
    SendsConcat([Data(t[1])], [Data(t[2]), Data(t[3])]);
    SendsConcat([Data(t[2])], [Data(t[3])]);
    forall i | 0 <= i < VECTOR_WORDS
      ensures Sends([Data(t[i])]) == [Sent(Data(t[i]))]
    {
      assert [Data(t[i])][1..] == [];
    }
    assert [Data(t[0])] + ([Data(t[1])] + ([Data(t[2])] + [Data(t[3])]))
        == [Data(t[0]), Data(t[1]), Data(t[2]), Data(t[3])];
    assert [Data(t[1])] + ([Data(t[2])] + [Data(t[3])]) == [Data(t[1]), Data(t[2]), Data(t[3])];
    assert [Data(t[2])] + [Data(t[3])] == [Data(t[2]), Data(t[3])];
  }

  lemma VectorTableLocal(f: BinaryFile, bus: Bus, longer: Bus, k: nat)
    requires |f.vectorTable| == VECTOR_WORDS && bus <= longer
    ensures var o := VectorTable(f, bus, k);
            o.next >= k && (o.next <= |bus| ==> VectorTable(f, longer, k) == o)
  {
  }

  /** Passes that only repeat the vector table. */
  lemma {:induction false} VectorPassesBus(
    f: BinaryFile, sizes: seq<nat>, n: nat, tries: nat, w: World, before: Bus) returns (bus: Bus)
    requires |f.vectorTable| == VECTOR_WORDS
    ensures before <= bus && FineRun(sizes, w, Passes(f, sizes, n, true, tries, bus, |before|), bus)
    decreases n
  {
    hide IsFine, Led, VectorTable, AppData;
    bus := before;
    if n == 0 {
      LedNowhere(sizes, w);
    } else {
      var middle := VectorTableBus(f, sizes, w, before);
      var v := VectorTable(f, middle, |before|);
      bus := middle;
      if v.result != Success {
        bus := VectorPassesBus(f, sizes, n - 1, tries, Led(sizes, w, v.events), middle);
        VectorTableLocal(f, middle, bus, |before|);
        FineJoin(sizes, w, v.events, Passes(f, sizes, n - 1, true, tries, bus, |middle|).events);
      }
      UploadSafety.VectorPass(f, sizes, n, tries, bus, |before|);
    }
  }

  /** All passes, however they end. */
  lemma {:induction false} PassesBus(f: BinaryFile, job: Job, n: nat, tries: nat, w: World, before: Bus)
    returns (bus: Bus)
    requires Describes(f, job.words, job.sizes, job.sectors) && ValidJob(job) && |f.vectorTable| == VECTOR_WORDS
    ensures before <= bus && FineRun(job.sizes, w, Passes(f, job.sizes, n, false, tries, bus, |before|), bus)
    decreases n
  {
    hide IsFine, Led, Describes, AppData, VectorTable, Start, ValidJob;
    bus := before;
    if n == 0 {
      LedNowhere(job.sizes, w);
    } else {
      hide Passes;
      FirstStart(f, job, tries, before, |before|);
      FirstSector(job);
      var middle := DataBus(f, job, 0, tries, w, before);
      var a := AppData(f, job.sizes, 1, tries, middle, |before|);
      var x := Led(job.sizes, w, a.events);
      bus := middle;
      if a.result == Failed {
        bus := PassesBus(f, job, n - 1, tries, x, middle);
        FineJoin(job.sizes, w, a.events, Passes(f, job.sizes, n - 1, false, tries, bus, |middle|).events);
      } else if a.result == Success {
        bus := VectorPassesBus(f, job.sizes, n, tries, x, middle);
        FineJoin(job.sizes, w, a.events, Passes(f, job.sizes, n, true, tries, bus, |middle|).events);
      }
      AppDataLocal(f, job.sizes, 1, tries, middle, bus, |before|);
      UploadSafety.PassesSplit(f, job.sizes, n, tries, bus, |before|);
    }
  }

  // ---------- the bus for the handshakes ----------

  /** A request and a reading of the state. */
  lemma StateBus(sizes: seq<nat>, w: World, before: Bus) returns (bus: Bus)
    ensures before <= bus && FineRun(sizes, w, GetState(bus, |before|), bus)
  {
    hide IsFine, Led;
    var x := Led(sizes, w, [ASK_STATES]);
    var answer := StatesAnswer(sizes, x);
    bus := before + [answer];
    SentFine(sizes, w, ASK_STATES.frame);
    StatesFine(sizes, x);
    FineJoin(sizes, w, [ASK_STATES], [StatesRead(answer.states)]);
    assert GetState(bus, |before|).events == [ASK_STATES] + [StatesRead(answer.states)];
  }

  lemma LoopsBus(sizes: seq<nat>, w: World, before: Bus) returns (bus: Bus)
    ensures before <= bus && FineRun(sizes, w, GetLoops(bus, |before|), bus)
  {
    hide IsFine, Led;
    var x := Led(sizes, w, [ASK_LOOPS]);
    var loops := Turns(sizes, x, GOOD.turns).loops;
    bus := before + [Reply(NoAck, None, loops)];
    SentFine(sizes, w, ASK_LOOPS.frame);
    FineOne(sizes, x, LoopsRead(loops));
    FineJoin(sizes, w, [ASK_LOOPS], [LoopsRead(loops)]);
    assert GetLoops(bus, |before|).events == [ASK_LOOPS] + [LoopsRead(loops)];
  }

  /** A frame and a wait for its acknowledgement. */
  lemma AckBus(sizes: seq<nat>, frame: Frame, message: AckMessage, status: StatusCode, w: World, before: Bus)
    returns (bus: Bus)
    ensures before <= bus && |bus| == |before| + 1
    ensures IsFine(sizes, w, [Sent(frame), AckWaited(message, status, Answer(bus, |before|).ack)])
  {
    hide IsFine, Led;
    var x := Led(sizes, w, [Sent(frame)]);
    var answer := AckAnswer(sizes, x, message, status);
    bus := before + [answer];
    SentFine(sizes, w, frame);
    WaitFine(sizes, x, message, status);
    FineJoin(sizes, w, [Sent(frame)], [AckWaited(message, status, answer.ack)]);
    assert [Sent(frame), AckWaited(message, status, answer.ack)]
        == [Sent(frame)] + [AckWaited(message, status, answer.ack)];
  }

  lemma StartTransferBus(sizes: seq<nat>, w: World, before: Bus) returns (bus: Bus)
    ensures before <= bus && FineRun(sizes, w, StartTransfer(bus, |before|), bus)
  {
    hide IsFine, Led;
    bus := AckBus(sizes, Request(CmdToTransferProgram), ReceivedCmdToTransferProgram, ReceivedAndProcessed, w, before);
    var reply := Answer(bus, |before|).ack;
    var events := [Sent(Request(CmdToTransferProgram)),
                   AckWaited(ReceivedCmdToTransferProgram, ReceivedAndProcessed, reply)];
    if reply != NoAck {
      var longer := StateBus(sizes, Led(sizes, w, events), bus);
      FineJoin(sizes, w, events, GetState(longer, |bus|).events);
      bus := longer;
    }
  }

  lemma ProgramInfoBus(sizes: seq<nat>, length: nat, loops: nat, w: World, before: Bus) returns (bus: Bus)
    ensures before <= bus && FineRun(sizes, w, SendProgramInfo(length, loops, bus, |before|), bus)
  {
    hide IsFine, Led;
    bus := AckBus(sizes, ProgramInfo(length, loops), ReceivedProgramInfo, ReceivedAndProcessed, w, before);
    var reply := Answer(bus, |before|).ack;
    var events := [Sent(ProgramInfo(length, loops)),
                   AckWaited(ReceivedProgramInfo, ReceivedAndProcessed, reply)];
    if reply == Yes {
      var longer := StateBus(sizes, Led(sizes, w, events), bus);
      FineJoin(sizes, w, events, GetState(longer, |bus|).events);
      bus := longer;
    }
  }

  lemma PreInfoBus(f: BinaryFile, sizes: seq<nat>, w: World, before: Bus) returns (bus: Bus)
    ensures before <= bus && FineRun(sizes, w, PreInfo(f, bus, |before|), bus)
  {
    hide IsFine, Led, SendProgramInfo;
    bus := StartTransferBus(sizes, w, before);
    var s := StartTransfer(bus, |before|);
    if s.result {
      var longer := ProgramInfoBus(sizes, f.lenInBytes, f.lenInWords, Led(sizes, w, s.events), bus);
      assert StartTransfer(longer, |before|) == s;
      FineJoin(sizes, w, s.events, SendProgramInfo(f.lenInBytes, f.lenInWords, longer, |bus|).events);
      bus := longer;
    }
  }

  lemma {:induction false} PollLocal(n: nat, bus: Bus, longer: Bus, k: nat)
    requires n > 0 && bus <= longer
    ensures var o := PollState(n, bus, k);
            o.next >= k && (o.next <= |bus| ==> PollState(n, longer, k) == o)
  {
    if n > 1 { PollLocal(n - 1, bus, longer, k + 1); }
  }

  lemma {:induction false} PollBus(sizes: seq<nat>, n: nat, w: World, before: Bus) returns (bus: Bus)
    requires n > 0
    ensures before <= bus && FineRun(sizes, w, PollState(n, bus, |before|), bus)
    decreases n
  {
    hide IsFine, Led;
    bus := StateBus(sizes, w, before);
    var s := GetState(bus, |before|);
    if s.result.None? && n > 1 {
      var longer := PollBus(sizes, n - 1, Led(sizes, w, s.events), bus);
      assert GetState(longer, |before|) == s;
      FineJoin(sizes, w, s.events, PollState(n - 1, longer, |bus|).events);
      bus := longer;
    }
  }

  lemma ResetBus(sizes: seq<nat>, polls: nat, w: World, before: Bus) returns (bus: Bus)
    requires polls > 0
    ensures before <= bus && FineRun(sizes, w, ResetBootloader(polls, bus, |before|), bus)
  {
    hide IsFine, Led, PollState;
    bus := AckBus(sizes, Request(CmdToResetBootProcess), ReceivedCmdToResetBootProcess, ReceivedAndInProcessing, w,
                  before);
    var reply := Answer(bus, |before|).ack;
    var events := [Sent(Request(CmdToResetBootProcess)),
                   AckWaited(ReceivedCmdToResetBootProcess, ReceivedAndInProcessing, reply)];
    if reply != NoAck {
      var x := Led(sizes, w, events);
      var middle := PollBus(sizes, polls, x, bus);
      var s := PollState(polls, middle, |bus|);
      var longer := LoopsBus(sizes, Led(sizes, x, s.events), middle);
      PollLocal(polls, middle, longer, |bus|);
      FineJoin(sizes, w, events, s.events);
      FineJoin(sizes, w, events + s.events, GetLoops(longer, |middle|).events);
      bus := longer;
    }
  }

  lemma HandshakeBus(
    f: BinaryFile, sizes: seq<nat>, info: BootloaderStatus, polls: nat, w: World, before: Bus) returns (bus: Bus)
    requires polls > 0
    ensures before <= bus && FineRun(sizes, w, Handshake(f, info, polls, bus, |before|), bus)
  {
    hide IsFine, Led, ResetBootloader, PreInfo, AtTheBeginning;
    if AtTheBeginning(info) {
      bus := PreInfoBus(f, sizes, w, before);
      AfterNothing(PreInfo(f, bus, |before|));
    } else {
      bus := ResetBus(sizes, polls, w, before);
      var r := ResetBootloader(polls, bus, |before|);
      if r.result {
        var longer := PreInfoBus(f, sizes, Led(sizes, w, r.events), bus);
        ResetLocal(polls, bus, longer, |before|);
        FineJoin(sizes, w, r.events, PreInfo(f, longer, |bus|).events);
        bus := longer;
      }
    }
  }

  lemma ResetLocal(polls: nat, bus: Bus, longer: Bus, k: nat)
    requires polls > 0 && bus <= longer
    ensures var o := ResetBootloader(polls, bus, k);
            o.next >= k && (o.next <= |bus| ==> ResetBootloader(polls, longer, k) == o)
  {
    hide PollState;
    PollLocal(polls, bus, longer, k + 1);
  }

  lemma HandshakeLocal(f: BinaryFile, info: BootloaderStatus, polls: nat, bus: Bus, longer: Bus, k: nat)
    requires polls > 0 && bus <= longer
    ensures var o := Handshake(f, info, polls, bus, k);
            o.next >= k && (o.next <= |bus| ==> Handshake(f, info, polls, longer, k) == o)
  {
    hide ResetBootloader, AtTheBeginning;
    ResetLocal(polls, bus, longer, k);
  }

  // ---------- the whole upload ----------

  /** The undisturbed upload exists, from every state of the receiver but those of starting or having started one. */
  lemma UndisturbedUploadExists(f: BinaryFile, job: Job, info: BootloaderStatus, limits: Limits, w: World)
    returns (bus: Bus, fates: seq<Fate>)
    requires Describes(f, job.words, job.sizes, job.sectors) && FitsBuffer(job.sizes)
    requires UploadSpec.IsComplete(info) && limits.passes > 0 && limits.tries > 0 && limits.polls > 0
    requires Holds(job.sizes, w.device) && w.device.boot !in {BootRun, BootLeft}
    requires IsCurrent(info, w.device)
    ensures |f.vectorTable| == VECTOR_WORDS
    ensures var o := AppBinary(f, job.sizes, info, limits, bus, 0);
            && |fates| == |o.events|
            && IsUndisturbed(job.sizes, w, o.events, fates)
            && IsFaithful(o.events, fates)
            && Observe(job.sizes, w, o.events, fates).Some?
            && (o.result == Success <==> 8 * |job.words| <= 0x3E_0000)
  {
    hide Holds, Handshake, Passes, Describes, IsInformed, Awaits, IsInstalled, ValidJob, IsUndisturbed, Reach;
    hide IsFaithful, Observe, IsIdle, Start, AtTheBeginning;
    JobOf(f, job);
    bus := HandshakeBus(f, job.sizes, info, limits.polls, w, []);
    var h := Handshake(f, info, limits.polls, bus, 0);
    HandshakeStep(f, job, info, limits.polls, bus, 0, w, Goods(|h.events|));
    if h.result {
      var x := Led(job.sizes, w, h.events);
      var longer := PassesBus(f, job, limits.passes, limits.tries, x, bus);
      HandshakeLocal(f, info, limits.polls, bus, longer, 0);
      FineJoin(job.sizes, w, h.events,
               Passes(f, job.sizes, limits.passes, false, limits.tries, longer, |bus|).events);
      bus := longer;
    }
    var o := AppBinary(f, job.sizes, info, limits, bus, 0);
    fates := Goods(|o.events|);
    ReachIsObserved(job.sizes, w, o.events, fates);
    GoodIsFaithful(o.events);
    UndisturbedUploadSucceeds(f, job, info, limits, bus, 0, w, fates);
  }

  lemma GoodIsFaithful(events: seq<Event>)
    ensures IsFaithful(events, Goods(|events|))
  {
  }
}
