/**
 * Why the exact image needs the main loop to turn: an upload that loses nothing, on working hardware, and leaves
 * another program than the one that was sent.
 */
module Turnless {
  import opened Wrappers
  import opened BitOps
  import opened Crc64
  import opened CrcImage
  import opened Protocol
  import opened Device
  import opened World
  import opened Transfer
  import opened DataTransfer
  import opened EndToEnd
  import opened Sequences
  import opened UploadSpec
  import opened UploadProps
  import UploadSafety
  import opened DeviceSafety
  import opened Undisturbed
  import opened UndisturbedData
  import opened UndisturbedUpload
  import opened Retries
  import opened Existence
  import opened Losses
  import LostWord

  // ---------- runs in which everything arrives ----------

  /** The frame arrives, and the main loop does not turn before the next event. */
  const AT_ONCE: Fate := Fate(true, [])

  function AtOnce(n: nat): (r: seq<Fate>)
    ensures |r| == n
  {
    seq(n, i => AT_ONCE)
  }

  predicate AllDelivered(fates: seq<Fate>) {
    forall n | 0 <= n < |fates| :: fates[n].delivered
  }

  predicate Runs(sizes: seq<nat>, w: World, events: seq<Event>, fates: seq<Fate>, x: World) {
    && |events| == |fates|
    && AllDelivered(fates) && AllWork(fates)
    && Observe(sizes, w, events, fates) == Some(x)
  }

  lemma RunsOn(
    sizes: seq<nat>, w: World, a: seq<Event>, fates: seq<Fate>, x: World, b: seq<Event>, more: seq<Fate>, y: World)
    requires Runs(sizes, w, a, fates, x) && Runs(sizes, x, b, more, y)
    ensures Runs(sizes, w, a + b, fates + more, y)
  {
    hide Observe;
    assert (fates + more)[..|a|] == fates && (fates + more)[|a|..] == more;
    ObserveConcat(sizes, w, a, b, fates + more);
  }

  lemma FineRuns(sizes: seq<nat>, w: World, events: seq<Event>)
    requires IsFine(sizes, w, events)
    ensures Runs(sizes, w, events, Goods(|events|), Led(sizes, w, events))
  {
    hide Observe, IsUndisturbed, Reach;
    ReachIsObserved(sizes, w, events, Goods(|events|));
  }

  /** A frame that the receiver ignores. */
  lemma {:induction false} IgnoredRuns(sizes: seq<nat>, w: World, frames: seq<Frame>)
    requires forall i | 0 <= i < |frames| :: !frames[i].Request? && Rx(sizes, w.device, frames[i]) == Quiet(w.device)
    ensures Runs(sizes, w, Sends(frames), AtOnce(|Sends(frames)|), w)
    decreases |frames|
  {
    hide Rx;
    if frames != [] {
      assert w.heard + {} == w.heard;
      assert Sends(frames)[0] == Sent(frames[0]) && Sends(frames)[1..] == Sends(frames[1..]);
      IgnoredRuns(sizes, w, frames[1..]);
      assert AtOnce(|Sends(frames)|)[1..] == AtOnce(|Sends(frames[1..])|);
      assert See(sizes, w, Sent(frames[0]), AT_ONCE) == Some(w);
    }
  }

  lemma OneRuns(sizes: seq<nat>, w: World, e: Event, x: World)
    requires See(sizes, w, e, AT_ONCE) == Some(x)
    ensures Runs(sizes, w, [e], AtOnce(1), x)
  {
    hide See;
    ObserveOne(sizes, w, e, AtOnce(1));
  }

  // ---------- the receiver, when its main loop does not turn ----------

  /** An image of one sector with one sub-sector. */
  predicate IsSmall(job: Job) {
    job.sectors == 1 && job.sizes != [] && |job.words| == SUB_SECTOR_LOOPS == Start(job.sizes, 1)
  }

  /** What is stored instead: everything but the last word is cleared. */
  function Cleared(job: Job): Job
    requires |job.words| > 0
  {
    job.(words := Zeros(|job.words| - 1) + [job.words[|job.words| - 1]])
  }

  /** The signature has arrived, and the receiver has not validated the sector yet. */
  lemma CrcPends(job: Job, w: World)
    requires ValidJob(job) && IsSmall(job) && Has(job, w.device, 0, SUB_SECTOR_LOOPS) && w.heard == {}
    ensures var crc := SectorCrc(job, 0);
            var x := w.(device := RxCrc(job.sizes, w.device, crc).device);
            && Runs(job.sizes, w, [Sent(CrcSignature(crc)), AckWaited(ReceivedCrc, ReceivedAndProcessed, NoAck)],
                    AtOnce(2), x)
            && IsFull(job, x.device, 0) && x.device.boot == BootLoad && x.device.info.current == SUB_SECTOR_LOOPS
  {
    hide Start, Chain, SectorCrc, Holds, IsOn, IsStored, RxCrc, Observe;
    CrcArrives(job, w.device, 0);
    var crc := SectorCrc(job, 0);
    var y := Take(w, RxCrc(job.sizes, w.device, crc));
    var events := [Sent(CrcSignature(crc)), AckWaited(ReceivedCrc, ReceivedAndProcessed, NoAck)];
    ObserveTwo(job.sizes, w, events[0], events[1], AtOnce(2));
  }

  /** The loops before the last are ignored, and the last one clears the buffer. */
  lemma LoopClears(job: Job, w: World)
    requires ValidJob(job) && IsSmall(job) && IsFull(job, w.device, 0) && w.heard == {}
    requires w.device.boot == BootLoad && w.device.info.current == SUB_SECTOR_LOOPS
    ensures var events := Sends(Pairs(job.words, 1, SUB_SECTOR_LOOPS - 1)) + [Sent(LoopInfo(SUB_SECTOR_LOOPS))];
            var x := w.(device := RxLoopInfo(w.device, SUB_SECTOR_LOOPS).device);
            && Runs(job.sizes, w, events, AtOnce(|events| - 1) + AtOnce(1), x)
            && AwaitsWord(Cleared(job), x.device, 0, SUB_SECTOR_LOOPS)
  {
    hide Observe, Holds, IsOn, Start, Pairs, ValidJob, Chain;
    var frames := Pairs(job.words, 1, SUB_SECTOR_LOOPS - 1);
    forall i | 0 <= i < |frames|
      ensures !frames[i].Request? && Rx(job.sizes, w.device, frames[i]) == Quiet(w.device)
    {
      PairsFrames(job.words, 1, SUB_SECTOR_LOOPS - 1, i);
    }
    IgnoredRuns(job.sizes, w, frames);
    var x := w.(device := RxLoopInfo(w.device, SUB_SECTOR_LOOPS).device);
    assert w.heard + {} == w.heard;
    OneRuns(job.sizes, w, Sent(LoopInfo(SUB_SECTOR_LOOPS)), x);
    RunsOn(job.sizes, w, Sends(frames), AtOnce(|Sends(frames)|), w, [Sent(LoopInfo(SUB_SECTOR_LOOPS))], AtOnce(1), x);
    ClearedAwaits(job, w.device);
  }

  lemma {:induction false} PairsFrames(words: seq<Word>, first: nat, end: nat, i: nat)
    requires 1 <= first && end <= |words| && i < |Pairs(words, first, end)|
    ensures var frame := Pairs(words, first, end)[i];
            frame.Data? || (frame.LoopInfo? && first <= frame.loop <= end)
    decreases end + 1 - first
  {
    if i >= 2 { PairsFrames(words, first + 1, end, i - 2); }
  }

  lemma ClearedAwaits(job: Job, d: Device)
    requires ValidJob(job) && IsSmall(job) && IsFull(job, d, 0) && d.boot == BootLoad
    requires d.info.current == SUB_SECTOR_LOOPS
    ensures AwaitsWord(Cleared(job), RxLoopInfo(d, SUB_SECTOR_LOOPS).device, 0, SUB_SECTOR_LOOPS)
  {
    hide Chain, Holds;
    LoopInfoKeeps(job.sizes, d, SUB_SECTOR_LOOPS);
    StartOfFirst(job);
    var x := RxLoopInfo(d, SUB_SECTOR_LOOPS).device;
    var words := Cleared(job).words;
    assert x.buffer[..SUB_SECTOR_LOOPS - 1] == words[0..SUB_SECTOR_LOOPS - 1];
  }

  lemma StartOfFirst(job: Job)
    ensures Start(job.sizes, 0) == 0
  {
  }

  lemma ClearedIsValid(job: Job)
    requires ValidJob(job) && IsSmall(job)
    ensures var x := Cleared(job);
            ValidJob(x) && |x.words| == |job.words| && x.words[SUB_SECTOR_LOOPS - 1] == job.words[SUB_SECTOR_LOOPS - 1]
  {
    hide Start;
  }

  // ---------- the tool ----------

  /** The data of such an image: one sub-sector and one signature. */
  lemma SmallData(f: BinaryFile, job: Job, tries: nat, bus: Bus, k: nat)
    requires Describes(f, job.words, job.sizes, job.sectors) && ValidJob(job) && IsSmall(job)
    ensures var t := SubSectorTries(f, 1, SUB_SECTOR_LOOPS, tries, bus, k);
            AppData(f, job.sizes, 1, tries, bus, k)
            == if t.result != Success then t
               else After(t.events, JudgeCrc(SendCrc(SectorCrc(job, 0), false, bus, t.next)))
  {
    hide SubSectorTries, AppData, Sector, SectorLoops, SubSectorLoops, SectorCrc, Column, Describes;
    FirstSector(job);
    SectorCrcRow(job, 0);
    AppDataSector(f, job.words, job.sizes, job.sectors, 0, tries, bus, k);
    SectorSplit(f, job.words, job.sizes, job.sectors, 0, tries, bus, k);
    SectorLoopsSubSector(f, job.sizes, job.sectors, 0, 1, tries, bus, k);
    var t := SubSectorTries(f, 1, SUB_SECTOR_LOOPS, tries, bus, k);
    NoMoreLoops(f, job, SUB_SECTOR_LOOPS, tries, bus, t.next);
    AfterEnd(t.events, t.next, Success);
    var s := Sector(f, 1, |job.words|, LoopsIn(job.sizes, 0), tries, bus, k);
    AppDataEnd(f, job.words, job.sizes, job.sectors, tries, bus, s.next);
    AfterEnd(s.events, s.next, Success);
  }

  /** An acknowledged first attempt. */
  lemma FirstAttempt(f: BinaryFile, job: Job, tries: nat, bus: Bus, k: nat)
    requires Describes(f, job.words, job.sizes, job.sectors) && ValidJob(job) && IsSmall(job) && tries > 0
    requires SubSector(f, 1, SUB_SECTOR_LOOPS, bus, k).result == Success
    ensures SubSectorTries(f, 1, SUB_SECTOR_LOOPS, tries, bus, k) == SubSector(f, 1, SUB_SECTOR_LOOPS, bus, k)
  {
    hide SubSector;
  }

  // ---------- the first pass, up to the signature ----------

  /** The prompt part: the sub-sector is stored and acknowledged. */
  lemma FirstPart(f: BinaryFile, job: Job, w: World, before: Bus) returns (bus: Bus)
    requires Describes(f, job.words, job.sizes, job.sectors) && ValidJob(job) && IsSmall(job)
    requires Awaits(job, w.device, 0, 1)
    ensures before <= bus
    ensures var a := SubSector(f, 1, SUB_SECTOR_LOOPS, bus, |before|);
            var x := Led(job.sizes, w, a.events);
            && a.result == Success && a.next == |bus|
            && IsFine(job.sizes, w, a.events)
            && Has(job, x.device, 0, SUB_SECTOR_LOOPS) && x.heard == {}
  {
    hide IsUndisturbed, Describes, SubSector, Awaits, Has, Start, ValidJob, Reach, Resumes;
    FirstSector(job);
    bus := SubSectorBus(f, job, 1, SUB_SECTOR_LOOPS, w, before);
    var a := SubSector(f, 1, SUB_SECTOR_LOOPS, bus, |before|);
    LostWord.AwaitsResumes(job, w.device, 0, 1);
    SubSectorStep(f, job, job.words, 0, 1, 1, SUB_SECTOR_LOOPS, bus, |before|, w, Goods(|a.events|));
  }

  // ---------- the second pass, from the last word on ----------

  /** The last word, its acknowledgement, and the signature. */
  lemma LastPart(job: Job, w: World, before: Bus) returns (bus: Bus)
    requires ValidJob(job) && IsSmall(job) && SectorCrc(Cleared(job), 0) == SectorCrc(job, 0)
    requires AwaitsWord(Cleared(job), w.device, 0, SUB_SECTOR_LOOPS) && w.heard == {}
    ensures before <= bus && |before| + 2 == |bus| && Answer(bus, |before|).ack != NoAck
    ensures var data := [Sent(Data(job.words[SUB_SECTOR_LOOPS - 1]))];
            var wait := [AckWaited(ReceivedSubSectorData, ReceivedAndProcessed, Answer(bus, |before|).ack)];
            var crc := JudgeCrc(SendCrc(SectorCrc(job, 0), false, bus, |before| + 1));
            var x := Led(job.sizes, w, data + wait + crc.events);
            && IsFine(job.sizes, w, data + wait + crc.events)
            && crc.result == Success && HasAccepted(Cleared(job), x.device, 0)
  {
    hide IsUndisturbed, AwaitsWord, Has, HasAccepted, Start, ValidJob, Reach, SectorCrc, Cleared, IsStill;
    ClearedIsValid(job);
    FirstSector(job);
    var other := Cleared(job);
    OtherShape(job);
    var word := job.words[SUB_SECTOR_LOOPS - 1];
    SentFine(job.sizes, w, Data(word));
    var x := Led(job.sizes, w, [Sent(Data(word))]);
    WordStep(other, w, 0, SUB_SECTOR_LOOPS, Goods(1));
    HasIsStill(other, x.device, 0, SUB_SECTOR_LOOPS);
    var answer := AckAnswer(job.sizes, x, ReceivedSubSectorData, ReceivedAndProcessed);
    var wait := AckWaited(ReceivedSubSectorData, ReceivedAndProcessed, answer.ack);
    WaitFine(job.sizes, x, ReceivedSubSectorData, ReceivedAndProcessed);
    WaitStep(job.sizes, x, ReceivedSubSectorData, ReceivedAndProcessed, answer.ack, Goods(1));
    FineJoin(job.sizes, w, [Sent(Data(word))], [wait]);
    var middle := before + [answer];
    var y := Led(job.sizes, x, [wait]);
    bus := CrcBus(job.sizes, SectorCrc(job, 0), false, y, middle);
    var crc := JudgeCrc(SendCrc(SectorCrc(job, 0), false, bus, |middle|));
    assert bus[|before|] == answer;
    CrcStep(other, 0, bus, |middle|, y, Goods(2));
    FineJoin(job.sizes, w, [Sent(Data(word))] + [wait], crc.events);
  }

  lemma OtherShape(job: Job)
    requires |job.words| > 0
    ensures Cleared(job).sizes == job.sizes && Cleared(job).sectors == job.sectors
  {
  }

  /** The vector table, after the cleared image has been accepted. */
  lemma VectorPart(f: BinaryFile, job: Job, n: nat, tries: nat, w: World, before: Bus) returns (bus: Bus)
    requires Describes(f, job.words, job.sizes, job.sectors) && ValidJob(job) && IsSmall(job) && n > 0
    requires |f.vectorTable| == VECTOR_WORDS && HasAccepted(Cleared(job), w.device, 0)
    ensures before <= bus
    ensures var v := Passes(f, job.sizes, n, true, tries, bus, |before|);
            && v.result == Success && IsFine(job.sizes, w, v.events)
            && IsInstalled(Cleared(job), f, Led(job.sizes, w, v.events).device)
  {
    hide IsUndisturbed, Describes, HasAccepted, Start, ValidJob, Reach, Cleared, Collected, IsInstalled, Passes;
    ClearedIsValid(job);
    OtherShape(job);
    DescribedVector(f, job);
    AcceptedCollects(Cleared(job), f, w.device);
    bus := VectorPassesBus(f, job.sizes, n, tries, w, before);
    LostWord.VectorOnlyStep(f, Cleared(job), n, tries, bus, |before|, w,
                            Goods(|Passes(f, job.sizes, n, true, tries, bus, |before|).events|));
  }

  // ---------- both passes ----------

  /** The first pass fails for want of an answer to its signature. */
  lemma FirstPass(f: BinaryFile, job: Job, n: nat, tries: nat, bus: Bus, k: nat, a: Outcome<Verdict>)
    requires Describes(f, job.words, job.sizes, job.sectors) && ValidJob(job) && IsSmall(job) && n > 0 && tries > 0
    requires |f.vectorTable| == VECTOR_WORDS
    requires a == SubSector(f, 1, SUB_SECTOR_LOOPS, bus, k) && a.result == Success && Answer(bus, a.next).ack == NoAck
    ensures var crc := [Sent(CrcSignature(SectorCrc(job, 0))), AckWaited(ReceivedCrc, ReceivedAndProcessed, NoAck)];
            Passes(f, job.sizes, n, false, tries, bus, k)
            == After(a.events + crc, Passes(f, job.sizes, n - 1, false, tries, bus, a.next + 1))
  {
    hide Describes, SubSector, SubSectorTries, AppData, Passes, SectorCrc;
    SmallData(f, job, tries, bus, k);
    FirstAttempt(f, job, tries, bus, k);
    UploadSafety.PassesSplit(f, job.sizes, n, tries, bus, k);
  }

  /** The second pass succeeds. */
  lemma SecondPass(f: BinaryFile, job: Job, n: nat, tries: nat, bus: Bus, k: nat)
    requires Describes(f, job.words, job.sizes, job.sectors) && ValidJob(job) && IsSmall(job) && n > 0 && tries > 0
    requires |f.vectorTable| == VECTOR_WORDS && Answer(bus, k).ack != NoAck
    requires JudgeCrc(SendCrc(SectorCrc(job, 0), false, bus, k + 1)).result == Success
    ensures var wait := [AckWaited(ReceivedSubSectorData, ReceivedAndProcessed, Answer(bus, k).ack)];
            var crc := JudgeCrc(SendCrc(SectorCrc(job, 0), false, bus, k + 1));
            Passes(f, job.sizes, n, false, tries, bus, k)
            == After(Sends(Pairs(job.words, 1, SUB_SECTOR_LOOPS)) + wait + crc.events,
                     Passes(f, job.sizes, n, true, tries, bus, k + 2))
  {
    hide Describes, SubSector, SubSectorTries, AppData, Passes, SectorCrc, Pairs, Sends;
    SubSectorShape(f, job.words, job.sizes, job.sectors, 1, SUB_SECTOR_LOOPS, bus, k);
    SmallData(f, job, tries, bus, k);
    FirstAttempt(f, job, tries, bus, k);
    UploadSafety.PassesSplit(f, job.sizes, n, tries, bus, k);
  }

  /** The loops of the second pass, up to the one that clears the buffer, and its word. */
  lemma LoopsSplit(words: seq<Word>)
    requires |words| == SUB_SECTOR_LOOPS
    ensures Sends(Pairs(words, 1, SUB_SECTOR_LOOPS))
         == (Sends(Pairs(words, 1, SUB_SECTOR_LOOPS - 1)) + [Sent(LoopInfo(SUB_SECTOR_LOOPS))])
            + [Sent(Data(words[SUB_SECTOR_LOOPS - 1]))]
  {
    hide Pairs, Sends;
    var before := Sends(Pairs(words, 1, SUB_SECTOR_LOOPS - 1));
    PairsConcat(words, 1, SUB_SECTOR_LOOPS - 1, SUB_SECTOR_LOOPS);
    SendsConcat(Pairs(words, 1, SUB_SECTOR_LOOPS - 1), Pairs(words, SUB_SECTOR_LOOPS, SUB_SECTOR_LOOPS));
    PairSends(words, SUB_SECTOR_LOOPS, SUB_SECTOR_LOOPS);
    NoPairs(words, SUB_SECTOR_LOOPS + 1, SUB_SECTOR_LOOPS);
    ConcatAssoc(before, [Sent(LoopInfo(SUB_SECTOR_LOOPS))], [Sent(Data(words[SUB_SECTOR_LOOPS - 1]))]);
  }

  /** The part without turns. */
  lemma MiddlePart(job: Job, w: World) returns (x: World, events: seq<Event>)
    requires ValidJob(job) && IsSmall(job) && Has(job, w.device, 0, SUB_SECTOR_LOOPS) && w.heard == {}
    ensures events == [Sent(CrcSignature(SectorCrc(job, 0))), AckWaited(ReceivedCrc, ReceivedAndProcessed, NoAck)]
                      + (Sends(Pairs(job.words, 1, SUB_SECTOR_LOOPS - 1)) + [Sent(LoopInfo(SUB_SECTOR_LOOPS))])
    ensures Runs(job.sizes, w, events, AtOnce(|events|), x)
    ensures AwaitsWord(Cleared(job), x.device, 0, SUB_SECTOR_LOOPS) && x.heard == {}
  {
    hide Runs, Has, IsFull, AwaitsWord, ValidJob, SectorCrc, RxCrc, RxLoopInfo, Cleared, Pairs, Sends;
    CrcPends(job, w);
    var crc := SectorCrc(job, 0);
    var y := w.(device := RxCrc(job.sizes, w.device, crc).device);
    var a := [Sent(CrcSignature(crc)), AckWaited(ReceivedCrc, ReceivedAndProcessed, NoAck)];
    LoopClears(job, y);
    var b := Sends(Pairs(job.words, 1, SUB_SECTOR_LOOPS - 1)) + [Sent(LoopInfo(SUB_SECTOR_LOOPS))];
    x := y.(device := RxLoopInfo(y.device, SUB_SECTOR_LOOPS).device);
    events := a + b;
    RunsOn(job.sizes, w, a, AtOnce(2), y, b, AtOnce(|b| - 1) + AtOnce(1), x);
    assert AtOnce(2) + (AtOnce(|b| - 1) + AtOnce(1)) == AtOnce(|events|);
  }

  lemma TurnlessPasses(f: BinaryFile, job: Job, n: nat, tries: nat, w: World, before: Bus)
    returns (bus: Bus, fates: seq<Fate>, x: World)
    requires Describes(f, job.words, job.sizes, job.sectors) && ValidJob(job) && IsSmall(job) && n > 1 && tries > 0
    requires |f.vectorTable| == VECTOR_WORDS && SectorCrc(Cleared(job), 0) == SectorCrc(job, 0)
    requires Awaits(job, w.device, 0, 1)
    ensures before <= bus
    ensures var o := Passes(f, job.sizes, n, false, tries, bus, |before|);
            && o.result == Success
            && Runs(job.sizes, w, o.events, fates, x)
            && IsInstalled(Cleared(job), f, x.device)
  {
    hide IsFine, Led, Runs, Describes, SubSector, Passes, ValidJob, SectorCrc, Cleared, IsInstalled, Awaits, AwaitsWord;
    hide Has, HasAccepted, JudgeCrc, SendCrc, Pairs, Sends, Start;
    var one := FirstPart(f, job, w, before);
    var a := SubSector(f, 1, SUB_SECTOR_LOOPS, one, |before|);
    FineRuns(job.sizes, w, a.events);
    var y, middle := MiddlePart(job, Led(job.sizes, w, a.events));
    var two := one + [Reply(NoAck, None, None)];
    var three := LastPart(job, y, two);
    var k := |two|;
    var crc := JudgeCrc(SendCrc(SectorCrc(job, 0), false, three, k + 1));
    var data := [Sent(Data(job.words[SUB_SECTOR_LOOPS - 1]))];
    var wait := [AckWaited(ReceivedSubSectorData, ReceivedAndProcessed, Answer(three, k).ack)];
    var last := data + wait + crc.events;
    bus := VectorPart(f, job, n - 1, tries, Led(job.sizes, y, last), three);
    var v := Passes(f, job.sizes, n - 1, true, tries, bus, k + 2);
    FineJoin(job.sizes, y, last, v.events);
    FineRuns(job.sizes, y, last + v.events);
    x := Led(job.sizes, y, last + v.events);
    RunsOn(job.sizes, Led(job.sizes, w, a.events), middle, AtOnce(|middle|), y, last + v.events,
           Goods(|last + v.events|), x);
    fates := Goods(|a.events|) + (AtOnce(|middle|) + Goods(|last + v.events|));
    RunsOn(job.sizes, w, a.events, Goods(|a.events|), Led(job.sizes, w, a.events), middle + (last + v.events),
           AtOnce(|middle|) + Goods(|last + v.events|), x);
    // the same events, in the order in which the tool makes them
    SubSectorLocal(f, 1, SUB_SECTOR_LOOPS, one, bus, |before|);
    SameAnswers(three, bus, k);
    SameCrc(SectorCrc(job, 0), three, bus, k + 1);
    assert bus[|one|] == Reply(NoAck, None, None);
    FirstPass(f, job, n, tries, bus, |before|, a);
    SecondPass(f, job, n - 1, tries, bus, k);
    LoopsSplit(job.words);
    var p := [Sent(CrcSignature(SectorCrc(job, 0))), AckWaited(ReceivedCrc, ReceivedAndProcessed, NoAck)];
    var q := Sends(Pairs(job.words, 1, SUB_SECTOR_LOOPS - 1)) + [Sent(LoopInfo(SUB_SECTOR_LOOPS))];
    InOrder(a.events, p, q, data, wait, crc.events, v.events);
  }

  lemma SameAnswers(bus: Bus, longer: Bus, k: nat)
    requires bus <= longer && k < |bus|
    ensures Answer(longer, k) == Answer(bus, k)
  {
  }

  lemma SameCrc(crc: Word, bus: Bus, longer: Bus, k: nat)
    requires bus <= longer && k < |bus|
    ensures JudgeCrc(SendCrc(crc, false, longer, k)) == JudgeCrc(SendCrc(crc, false, bus, k))
  {
  }

  lemma InOrder(
    a: seq<Event>, p: seq<Event>, q: seq<Event>, data: seq<Event>, wait: seq<Event>, crc: seq<Event>, v: seq<Event>)
    ensures (a + p) + (((q + data) + wait + crc) + v) == a + ((p + q) + ((data + wait + crc) + v))
  {
    ConcatAssoc(q, data, wait);
    ConcatAssoc(q, data + wait, crc);
    ConcatAssoc(q, data + wait + crc, v);
    ConcatAssoc(p, q, (data + wait + crc) + v);
    ConcatAssoc(a, p, q + ((data + wait + crc) + v));
  }

  // ---------- the whole upload ----------

  /**
   * Whenever the cleared image has the signature of the image: there is an upload in which every frame arrives and the
   * flash works, which returns True, and which leaves the cleared image installed.
   */
  lemma ClearedIsInstalled(f: BinaryFile, job: Job, info: BootloaderStatus, limits: Limits, w: World)
    returns (bus: Bus, fates: seq<Fate>)
    requires Describes(f, job.words, job.sizes, job.sectors) && FitsBuffer(job.sizes)
    requires IsSmall(job) && Chain(Cleared(job).words, 0) == Chain(job.words, 0)
    requires UploadSpec.IsComplete(info) && limits.passes > 1 && limits.tries > 0 && limits.polls > 0
    requires Holds(job.sizes, w.device) && w.device.boot !in {BootRun, BootLeft}
    requires IsCurrent(info, w.device)
    ensures |f.vectorTable| == VECTOR_WORDS
    ensures var o := AppBinary(f, job.sizes, info, limits, bus, 0);
            && o.result == Success
            && |fates| == |o.events| && AllDelivered(fates) && AllWork(fates)
            && Observe(job.sizes, w, o.events, fates).Some?
            && IsInstalled(Cleared(job), f, Observe(job.sizes, w, o.events, fates).value.device)
  {
    hide Holds, Handshake, Passes, Describes, IsInformed, Awaits, ValidJob, IsFine, Led, Observe, IsInstalled, Chain;
    hide IsIdle, Start, AtTheBeginning, Cleared, SectorCrc;
    JobOf(f, job);
    ClearedIsValid(job);
    OtherShape(job);
    WholeChain(job);
    WholeChain(Cleared(job));
    var first := HandshakeBus(f, job.sizes, info, limits.polls, w, []);
    var h := Handshake(f, info, limits.polls, first, 0);
    SmallFits(job);
    HandshakeLeads(f, job, info, limits.polls, first, w);
    var x := Led(job.sizes, w, h.events);
    InformedAwaits(job, x.device);
    var more, y;
    bus, more, y := TurnlessPasses(f, job, limits.passes, limits.tries, x, first);
    HandshakeLocal(f, info, limits.polls, first, bus, 0);
    FineRuns(job.sizes, w, h.events);
    fates := Goods(|h.events|) + more;
    RunsOn(job.sizes, w, h.events, Goods(|h.events|), x,
           Passes(f, job.sizes, limits.passes, false, limits.tries, bus, |first|).events, more, y);
  }

  lemma SmallFits(job: Job)
    requires IsSmall(job)
    ensures 8 * |job.words| <= PROGRAM_SIZE_MAX
  {
  }

  lemma WholeChain(job: Job)
    requires ValidJob(job) && IsSmall(job)
    ensures SectorCrc(job, 0) == Chain(job.words, 0)
  {
    hide Start, Chain, SectorCrc;
    SectorCrcChain(job, 0);
    assert job.words[..|job.words|] == job.words;
  }

  // ---------- an image with the signature of its cleared image ----------

  /** The word 1, its signature, zeros, and any last word. */
  function Colliding(last: Word): seq<Word> {
    [1, Crc(1, 0)] + Zeros(SUB_SECTOR_LOOPS - 3) + [last]
  }

  lemma {:induction false} ChainOfSame(root: Word)
    ensures Crc(root, root) == 0
  {
    CrcInjective(root, root, 0, 0);
    XorSelf(root);
    XorSelf(0);
    CrcOfZero();
  }

  lemma CrcOfZero()
    ensures Crc(0, 0) == 0
  {
    CrcAdd(0, 0, 0, 0);
    XorSelf(0);
    XorSelf(Crc(0, 0));
  }

  lemma CollidingSigns(last: Word)
    ensures |Colliding(last)| == SUB_SECTOR_LOOPS
    ensures var cleared := Zeros(SUB_SECTOR_LOOPS - 1) + [last];
            && Chain(cleared, 0) == Chain(Colliding(last), 0)
            && cleared[0] != Colliding(last)[0] && cleared[1] != Colliding(last)[1]
  {
    hide Chain, Crc;
    var tail := Zeros(SUB_SECTOR_LOOPS - 3) + [last];
    var cleared := Zeros(SUB_SECTOR_LOOPS - 1) + [last];
    assert cleared == [0, 0] + tail;
    assert Colliding(last) == [1, Crc(1, 0)] + tail;
    ChainConcat([0, 0], tail, 0);
    ChainConcat([1, Crc(1, 0)], tail, 0);
    ChainOfTwo(0, 0);
    ChainOfTwo(1, Crc(1, 0));
    CrcOfZero();
    ChainOfSame(Crc(1, 0));
    if Crc(1, 0) == 0 {
      CrcInjective(1, 0, 0, 0);
      XorZero(1);
      assert false;
    }
  }

  lemma ChainOfTwo(a: Word, b: Word)
    ensures Chain([a, b], 0) == Crc(b, Crc(a, 0))
  {
    hide Crc;
    assert [b][1..] == [];
    assert Chain([b], Crc(a, 0)) == Crc(b, Crc(a, 0));
    assert [a, b][1..] == [b];
  }

  /** The file of an image, as preparation makes it. */
  function FileOf(words: seq<Word>, vectorTable: seq<Word>): BinaryFile {
    BinaryFile(8 * |words|, |words|, vectorTable, Chain(vectorTable, 0),
               seq(|words|, i requires 0 <= i < |words| => Some((Column(words, 0)[i], words[i]))))
  }

  lemma FileDescribes(words: seq<Word>, vectorTable: seq<Word>, sizes: seq<nat>, sectors: nat)
    requires ValidMap(sizes) && 1 <= sectors <= |sizes| && |words| == Start(sizes, sectors) && |vectorTable| == 4
    ensures Describes(FileOf(words, vectorTable), words, sizes, sectors)
  {
    hide Chain, Column, Start;
  }

  /** A flash of one sector with one sub-sector. */
  const SMALL_MAP: seq<nat> := [8 * SUB_SECTOR_LOOPS]

  lemma SmallMap()
    ensures ValidMap(SMALL_MAP) && FitsBuffer(SMALL_MAP) && Start(SMALL_MAP, 1) == SUB_SECTOR_LOOPS
  {
    assert LoopsIn(SMALL_MAP, 0) == SUB_SECTOR_LOOPS;
    assert Start(SMALL_MAP, 0) == 0;
  }

  /**
   * Such an image, with any last word and any vector table without a zero word, can be uploaded with every frame
   * delivered, a working flash and the result True, and another program is installed and can be started.
   */
  lemma AnotherProgram(last: Word, vectorTable: seq<Word>, info: BootloaderStatus, limits: Limits, w: World)
    returns (bus: Bus, fates: seq<Fate>)
    requires |vectorTable| == VECTOR_WORDS && 0 !in vectorTable
    requires UploadSpec.IsComplete(info) && limits.passes > 1 && limits.tries > 0 && limits.polls > 0
    requires Holds(SMALL_MAP, w.device) && w.device.boot !in {BootRun, BootLeft}
    requires IsCurrent(info, w.device)
    ensures var f := FileOf(Colliding(last), vectorTable);
            var o := AppBinary(f, SMALL_MAP, info, limits, bus, 0);
            && Describes(f, Colliding(last), SMALL_MAP, 1)
            && o.result == Success
            && |fates| == |o.events| && AllDelivered(fates) && AllWork(fates)
            && Observe(SMALL_MAP, w, o.events, fates).Some?
            && var d := Observe(SMALL_MAP, w, o.events, fates).value.device;
            && IsIdle(d) && IsStartable(d)
            && |d.flash| >= SUB_SECTOR_LOOPS && d.flash[0] == 0 != Colliding(last)[0]
  {
    hide Holds, AppBinary, Describes, Observe, IsInstalled, Chain, AtTheBeginning, Start, IsIdle, Column;
    SmallMap();
    CollidingSigns(last);
    var words := Colliding(last);
    var f := FileOf(words, vectorTable);
    FileDescribes(words, vectorTable, SMALL_MAP, 1);
    var job := Job(words, SMALL_MAP, 1);
    assert Cleared(job).words == Zeros(SUB_SECTOR_LOOPS - 1) + [last];
    bus, fates := ClearedIsInstalled(f, job, info, limits, w);
    var d := Observe(SMALL_MAP, w, AppBinary(f, SMALL_MAP, info, limits, bus, 0).events, fates).value.device;
    ClearedStarts(job, f, d);
  }

  lemma ClearedStarts(job: Job, f: BinaryFile, d: Device)
    requires |job.words| == SUB_SECTOR_LOOPS && IsInstalled(Cleared(job), f, d) && 0 !in f.vectorTable
    requires f.vectorCrc == Chain(f.vectorTable, 0)
    ensures IsIdle(d) && IsStartable(d) && |d.flash| >= SUB_SECTOR_LOOPS && d.flash[0] == Cleared(job).words[0]
  {
    hide Chain;
    assert d.flash[0] == d.flash[..|job.words|][0];
  }
}
