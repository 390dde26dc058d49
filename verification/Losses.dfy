/** Runs in which only one thing goes wrong: an acknowledgement, or a word, is lost. */
module Losses {
  import opened Wrappers
  import opened Crc64
  import opened CrcImage
  import opened Protocol
  import opened Device
  import opened World
  import opened Transfer
  import opened DataTransfer
  import opened EndToEnd
  import opened Sequences
  import opened UploadSpec
  import opened UploadProps
  import UploadSafety
  import opened DeviceSafety
  import opened Undisturbed
  import opened UndisturbedData
  import opened UndisturbedUpload
  import opened Retries
  import opened LostWord
  import Coverage
  import opened Existence

  /** The tool misses the acknowledgement of a sub-sector. */
  const MISSED: Event := AckWaited(ReceivedSubSectorData, ReceivedAndProcessed, NoAck)

  /** The receiver has sent that acknowledgement. */
  predicate IsAcknowledged(heard: set<Ack>) {
    Reported(heard, ReceivedSubSectorData, ReceivedAndProcessed) != NoAck
  }

  /** The world after the wait, in which the acknowledgement is lost. */
  function Missed(w: World): World {
    w.(heard := {})
  }

  /** Everything is fine but for one acknowledgement, which the receiver has sent and the tool does not see. */
  predicate OnlyMisses(sizes: seq<nat>, w: World, events: seq<Event>, fates: seq<Fate>, at: nat)
    requires |events| == |fates| && at < |events|
  {
    && IsUndisturbed(sizes, w, events[..at], fates[..at])
    && var x := Reach(sizes, w, events[..at], fates[..at]);
    && events[at] == MISSED
    && IsWorking(fates[at].turns)
    && IsAcknowledged(Turns(sizes, x, fates[at].turns).heard)
    && See(sizes, x, MISSED, fates[at]).Some?
    && IsUndisturbed(sizes, See(sizes, x, MISSED, fates[at]).value, events[at + 1..], fates[at + 1..])
  }

  /** The first attempt at the first sub-sector, up to the wait. */
  function FirstPairs(job: Job): seq<Event>
    requires |job.words| >= SUB_SECTOR_LOOPS
  {
    Sends(Pairs(job.words, 1, SUB_SECTOR_LOOPS))
  }

  /** After it the receiver has the sub-sector and has said so. */
  lemma FirstStored(job: Job, w: World)
    requires ValidJob(job) && |job.words| > SUB_SECTOR_LOOPS && Awaits(job, w.device, 0, 1)
    ensures var x := Led(job.sizes, w, FirstPairs(job));
            && IsFine(job.sizes, w, FirstPairs(job))
            && IsPast(x.device, SUB_SECTOR_LOOPS) && IsAcknowledged(x.heard)
  {
    hide IsUndisturbed, Awaits, Has, Start, ValidJob, Reach, IsPast, Pairs;
    FirstSector(job);
    SendsFine(job.sizes, w, Pairs(job.words, 1, SUB_SECTOR_LOOPS));
    PairsSteps(job, job.words, w, 0, 1, 1, SUB_SECTOR_LOOPS, Goods(|FirstPairs(job)|));
    HasIsPast(job, Led(job.sizes, w, FirstPairs(job)).device, 0, SUB_SECTOR_LOOPS, SUB_SECTOR_LOOPS);
  }

  /** The wait in which it is lost. */
  lemma Misses(sizes: seq<nat>, w: World, end: nat)
    requires IsPast(w.device, end)
    ensures See(sizes, w, MISSED, GOOD) == Some(Missed(w)) && Turns(sizes, w, GOOD.turns) == w
  {
    hide Poll;
    PastIsStill(sizes, w.device, end);
    StillTurns(sizes, w, GOOD.turns);
  }

  /** All attempts at the first sub-sector when the acknowledgement of the first is lost. */
  lemma MissedTries(f: BinaryFile, job: Job, tries: nat, w: World, before: Bus)
    returns (bus: Bus, rest: seq<Event>)
    requires Describes(f, job.words, job.sizes, job.sectors) && ValidJob(job) && tries > 0
    requires |job.words| > SUB_SECTOR_LOOPS && Awaits(job, w.device, 0, 1)
    ensures before <= bus
    ensures SubSectorTries(f, 1, SUB_SECTOR_LOOPS, tries, bus, |before|)
         == Outcome(FirstPairs(job) + ([MISSED] + rest), |bus|, Failed)
    ensures var x := Missed(Led(job.sizes, w, FirstPairs(job)));
            IsFine(job.sizes, x, rest) && Led(job.sizes, x, rest) == x
  {
    hide IsUndisturbed, Reach, Describes, SubSector, Awaits, Start, ValidJob, IsPast, Pairs;
    FirstStored(job, w);
    var x := Missed(Led(job.sizes, w, FirstPairs(job)));
    var middle := before + [Reply(NoAck, None, None)];
    bus := TriesBus(f, job, 1, SUB_SECTOR_LOOPS, tries - 1, x, middle);
    var t := SubSectorTries(f, 1, SUB_SECTOR_LOOPS, tries - 1, bus, |middle|);
    rest := t.events;
    TriesIgnored(f, job, 1, SUB_SECTOR_LOOPS, tries - 1, bus, |middle|, x, Goods(|rest|));
    SubSectorShape(f, job.words, job.sizes, job.sectors, 1, SUB_SECTOR_LOOPS, bus, |before|);
    assert Answer(bus, |before|) == middle[|before|];
    ConcatAssoc(FirstPairs(job), [MISSED], rest);
  }

  /** All passes. */
  lemma MissedPasses(f: BinaryFile, job: Job, n: nat, tries: nat, w: World, before: Bus)
    returns (bus: Bus, rest: seq<Event>)
    requires Describes(f, job.words, job.sizes, job.sectors) && ValidJob(job) && n > 0 && tries > 0
    requires |f.vectorTable| == VECTOR_WORDS
    requires |job.words| > SUB_SECTOR_LOOPS && Awaits(job, w.device, 0, 1)
    ensures before <= bus
    ensures var o := Passes(f, job.sizes, n, false, tries, bus, |before|);
            o.events == FirstPairs(job) + ([MISSED] + rest) && o.result == Failed
    ensures IsFine(job.sizes, Missed(Led(job.sizes, w, FirstPairs(job))), rest)
  {
    hide IsUndisturbed, Reach, Describes, SubSectorTries, AppData, Passes, Awaits, Start, ValidJob, IsPast, FirstPairs;
    FirstSector(job);
    FirstStored(job, w);
    var x := Missed(Led(job.sizes, w, FirstPairs(job)));
    var middle, tail := MissedTries(f, job, tries, w, before);
    DataStartsWithTries(f, job, 0, tries, middle, |before|);
    bus := PassesBus(f, job, n - 1, tries, x, middle);
    var p := Passes(f, job.sizes, n - 1, false, tries, bus, |middle|);
    AppDataLocal(f, job.sizes, 1, tries, middle, bus, |before|);
    UploadSafety.PassesSplit(f, job.sizes, n, tries, bus, |before|);
    DoomedPasses(f, job, n - 1, tries, bus, |middle|, x, Goods(|p.events|));
    rest := tail + p.events;
    FineJoin(job.sizes, x, tail, p.events);
    ConcatAssoc(FirstPairs(job), [MISSED] + tail, p.events);
    ConcatAssoc([MISSED], tail, p.events);
  }

  /**
   * For every image of more than one sub-sector, any number of passes and attempts, and every state of the receiver
   * but those of starting or having started a program: there is an upload that fails although all frames arrive, all
   * of the hardware works, and all waits but one see what the receiver has sent.
   */
  lemma OneMissedAcknowledgement(f: BinaryFile, job: Job, info: BootloaderStatus, limits: Limits, w: World)
    returns (bus: Bus, fates: seq<Fate>, at: nat)
    requires Describes(f, job.words, job.sizes, job.sectors) && FitsBuffer(job.sizes)
    requires SUB_SECTOR_LOOPS < |job.words| && 8 * |job.words| <= PROGRAM_SIZE_MAX
    requires UploadSpec.IsComplete(info) && limits.passes > 0 && limits.tries > 0 && limits.polls > 0
    requires Holds(job.sizes, w.device) && w.device.boot !in {BootRun, BootLeft}
    requires IsCurrent(info, w.device)
    ensures |f.vectorTable| == VECTOR_WORDS
    ensures var o := AppBinary(f, job.sizes, info, limits, bus, 0);
            && o.result == Failed
            && |fates| == |o.events| && at < |o.events|
            && OnlyMisses(job.sizes, w, o.events, fates, at)
            && IsFaithful(o.events, fates)
  {
    hide Holds, Handshake, Passes, Describes, IsInformed, Awaits, ValidJob, IsUndisturbed, Reach, IsFaithful;
    hide IsIdle, Start, AtTheBeginning, FirstPairs, IsPast, OnlyMisses;
    JobOf(f, job);
    var first := HandshakeBus(f, job.sizes, info, limits.polls, w, []);
    var h := Handshake(f, info, limits.polls, first, 0);
    HandshakeStep(f, job, info, limits.polls, first, 0, w, Goods(|h.events|));
    var x := Led(job.sizes, w, h.events);
    InformedAwaits(job, x.device);
    var rest;
    bus, rest := MissedPasses(f, job, limits.passes, limits.tries, x, first);
    HandshakeLocal(f, info, limits.polls, first, bus, 0);
    var o := AppBinary(f, job.sizes, info, limits, bus, 0);
    fates := Goods(|o.events|);
    FirstStored(job, x);
    at := |h.events| + |FirstPairs(job)|;
    ConcatAssoc(h.events, FirstPairs(job), [MISSED] + rest);
    FineJoin(job.sizes, w, h.events, FirstPairs(job));
    MissesOnce(job.sizes, w, h.events + FirstPairs(job), rest);
    GoodIsFaithful(o.events);
  }

  lemma MissesOnce(sizes: seq<nat>, w: World, a: seq<Event>, b: seq<Event>)
    requires IsFine(sizes, w, a)
    requires var x := Led(sizes, w, a);
             IsPast(x.device, SUB_SECTOR_LOOPS) && IsAcknowledged(x.heard) && IsFine(sizes, Missed(x), b)
    ensures OnlyMisses(sizes, w, a + ([MISSED] + b), Goods(|a| + 1 + |b|), |a|)
  {
    hide IsUndisturbed, Reach, IsPast, See, Turns;
    var events, fates := a + ([MISSED] + b), Goods(|a| + 1 + |b|);
    assert events[..|a|] == a && events[|a| + 1..] == b;
    assert fates[..|a|] == Goods(|a|) && fates[|a| + 1..] == Goods(|b|);
    Misses(sizes, Led(sizes, w, a), SUB_SECTOR_LOOPS);
  }

  // ---------- a run that loses one word ----------

  const LOST: Fate := Fate(false, [Works, Works])

  /** Everything is fine but for the word of event `at`. */
  function LostFates(n: nat, at: nat): (r: seq<Fate>)
    requires at < n
    ensures |r| == n
  {
    Goods(at) + ([LOST] + Goods(n - at - 1))
  }

  predicate IsLossy(sizes: seq<nat>, words: seq<Word>, w: World, events: seq<Event>, c: nat, at: nat) {
    at < |events| && OnlyLoses(sizes, words, w, events, LostFates(|events|, at), c, at)
  }

  function LedAnyway(sizes: seq<nat>, w: World, events: seq<Event>, at: nat): World
    requires at < |events|
  {
    LostReach(sizes, w, events, LostFates(|events|, at), at)
  }

  lemma LossyShape(sizes: seq<nat>, words: seq<Word>, w: World, events: seq<Event>, c: nat, at: nat)
    requires 1 <= at < |events|
    ensures var x := Turns(sizes, Led(sizes, w, events[..at]), LOST.turns);
            && LedAnyway(sizes, w, events, at) == Led(sizes, x, events[at + 1..])
            && (IsLossy(sizes, words, w, events, c, at)
                <==> && 1 <= c <= |words|
                     && events[at - 1] == Sent(LoopInfo(c)) && Sent(LoopInfo(c)) !in events[..at - 1]
                     && events[at] == Sent(Data(words[c - 1]))
                     && IsFine(sizes, w, events[..at]) && IsFine(sizes, x, events[at + 1..]))
  {
    hide IsUndisturbed, Reach, Turns;
    var fates := LostFates(|events|, at);
    assert fates[..at] == Goods(at) && fates[at + 1..] == Goods(|events| - at - 1) && fates[at] == LOST;
  }

  lemma FineThenLossy(
    sizes: seq<nat>, words: seq<Word>, w: World, a: seq<Event>, b: seq<Event>, c: nat, at: nat)
    requires IsFine(sizes, w, a) && Sent(LoopInfo(c)) !in a && IsLossy(sizes, words, Led(sizes, w, a), b, c, at)
    ensures IsLossy(sizes, words, w, a + b, c, |a| + at)
    ensures LedAnyway(sizes, w, a + b, |a| + at) == LedAnyway(sizes, Led(sizes, w, a), b, at)
  {
    hide IsFine, Led, Turns, IsLossy, LedAnyway;
    LossyAt(sizes, words, Led(sizes, w, a), b, c, at);
    LossyShape(sizes, words, Led(sizes, w, a), b, c, at);
    LossyShape(sizes, words, w, a + b, c, |a| + at);
    assert (a + b)[..|a| + at] == a + b[..at] && (a + b)[|a| + at + 1..] == b[at + 1..];
    assert (a + b)[..|a| + at - 1] == a + b[..at - 1];
    FineJoin(sizes, w, a, b[..at]);
  }

  lemma LossyThenFine(
    sizes: seq<nat>, words: seq<Word>, w: World, a: seq<Event>, b: seq<Event>, c: nat, at: nat)
    requires IsLossy(sizes, words, w, a, c, at) && IsFine(sizes, LedAnyway(sizes, w, a, at), b)
    ensures IsLossy(sizes, words, w, a + b, c, at)
    ensures LedAnyway(sizes, w, a + b, at) == Led(sizes, LedAnyway(sizes, w, a, at), b)
  {
    hide IsFine, Led, Turns, IsLossy, LedAnyway;
    LossyAt(sizes, words, w, a, c, at);
    LossyShape(sizes, words, w, a, c, at);
    LossyShape(sizes, words, w, a + b, c, at);
    assert (a + b)[..at] == a[..at] && (a + b)[at + 1..] == a[at + 1..] + b && (a + b)[..at - 1] == a[..at - 1];
    FineJoin(sizes, Turns(sizes, Led(sizes, w, a[..at]), LOST.turns), a[at + 1..], b);
  }

  lemma LossyAt(sizes: seq<nat>, words: seq<Word>, w: World, events: seq<Event>, c: nat, at: nat)
    requires IsLossy(sizes, words, w, events, c, at)
    ensures 1 <= at < |events|
  {
    hide IsUndisturbed, Reach, Turns;
  }

  /** The lossy run of `o` has used up `bus`. */
  ghost predicate LossyRun<T>(
    sizes: seq<nat>, words: seq<Word>, w: World, o: Outcome<T>, bus: Bus, c: nat, at: nat) {
    IsLossy(sizes, words, w, o.events, c, at) && o.next == |bus|
  }

  lemma LossNow(sizes: seq<nat>, words: seq<Word>, w: World, c: nat)
    requires 1 <= c <= |words|
    ensures IsLossy(sizes, words, w, [Sent(LoopInfo(c))] + [Sent(Data(words[c - 1]))], c, 1)
  {
    hide IsFine, Led, Turns, IsLossy;
    var events := [Sent(LoopInfo(c))] + [Sent(Data(words[c - 1]))];
    LossyShape(sizes, words, w, events, c, 1);
    assert events[..1] == [Sent(LoopInfo(c))] && events[2..] == [] && events[..0] == [];
    SentFine(sizes, w, LoopInfo(c));
    LedNowhere(sizes, Turns(sizes, Led(sizes, w, events[..1]), LOST.turns));
  }

  lemma LossyAttemptBus(f: BinaryFile, job: Job, first: nat, end: nat, c: nat, w: World, before: Bus)
    returns (bus: Bus, at: nat)
    requires Describes(f, job.words, job.sizes, job.sectors) && 1 <= first <= c <= end <= |job.words|
    ensures before <= bus
    ensures LossyRun(job.sizes, job.words, w, SubSector(f, first, end, bus, |before|), bus, c, at)
  {
    hide IsFine, Led, Describes, SubSector, Pairs, IsLossy, LedAnyway;
    var sizes := job.sizes;
    var a, b := Pairs(job.words, first, c - 1), Pairs(job.words, c + 1, end);
    var pair := [Sent(LoopInfo(c))] + [Sent(Data(job.words[c - 1]))];
    SendsFine(sizes, w, a);
    SendsLoops(job.words, first, c - 1, c);
    var x := Led(sizes, w, Sends(a));
    LossNow(sizes, job.words, x, c);
    FineThenLossy(sizes, job.words, w, Sends(a), pair, c, 1);
    at := |Sends(a)| + 1;
    var y := LedAnyway(sizes, w, Sends(a) + pair, at);
    SendsFine(sizes, y, b);
    LossyThenFine(sizes, job.words, w, Sends(a) + pair, Sends(b), c, at);
    var z := Led(sizes, y, Sends(b));
    var answer := AckAnswer(sizes, z, ReceivedSubSectorData, ReceivedAndProcessed);
    var wait := AckWaited(ReceivedSubSectorData, ReceivedAndProcessed, answer.ack);
    bus := before + [answer];
    WaitFine(sizes, z, ReceivedSubSectorData, ReceivedAndProcessed);
    LossyThenFine(sizes, job.words, w, Sends(a) + pair + Sends(b), [wait], c, at);
    SubSectorShape(f, job.words, job.sizes, job.sectors, first, end, bus, |before|);
    AttemptInOrder(job.words, first, c, end, wait);
  }

  lemma AttemptInOrder(words: seq<Word>, first: nat, c: nat, end: nat, wait: Event)
    requires 1 <= first <= c <= end <= |words|
    ensures Sends(Pairs(words, first, end)) + [wait]
         == Sends(Pairs(words, first, c - 1)) + ([Sent(LoopInfo(c))] + [Sent(Data(words[c - 1]))])
            + Sends(Pairs(words, c + 1, end)) + [wait]
  {
    hide Pairs, Sends;
    var a, l, d := Sends(Pairs(words, first, c - 1)), [Sent(LoopInfo(c))], [Sent(Data(words[c - 1]))];
    var b := Sends(Pairs(words, c + 1, end));
    AttemptParts(words, first, c, end, wait);
    ConcatAssoc(l, d, b + [wait]);
    ConcatAssoc(a, l + d, b + [wait]);
    ConcatAssoc(a + (l + d), b, [wait]);
  }

  lemma LossyTriesBus(
    f: BinaryFile, job: Job, first: nat, end: nat, c: nat, tries: nat, w: World, before: Bus)
    returns (bus: Bus, at: nat)
    requires Describes(f, job.words, job.sizes, job.sectors) && 1 <= first <= c <= end <= |job.words| && tries > 0
    ensures before <= bus
    ensures LossyRun(job.sizes, job.words, w, SubSectorTries(f, first, end, tries, bus, |before|), bus, c, at)
  {
    hide IsFine, Led, Describes, SubSector, IsLossy, LedAnyway;
    bus, at := LossyAttemptBus(f, job, first, end, c, w, before);
    var a := SubSector(f, first, end, bus, |before|);
    if a.result == Failed {
      LossyAt(job.sizes, job.words, w, a.events, c, at);
      var longer := TriesBus(f, job, first, end, tries - 1, LedAnyway(job.sizes, w, a.events, at), bus);
      SubSectorLocal(f, first, end, bus, longer, |before|);
      LossyThenFine(job.sizes, job.words, w, a.events,
                    SubSectorTries(f, first, end, tries - 1, longer, |bus|).events, c, at);
      bus := longer;
    }
  }

  lemma {:induction false} LossySectorLoopsBus(
    f: BinaryFile, job: Job, j: nat, i: nat, c: nat, tries: nat, w: World, before: Bus) returns (bus: Bus, at: nat)
    requires Describes(f, job.words, job.sizes, job.sectors) && ValidJob(job) && j < job.sectors && tries > 0
    requires Awaits(job, w.device, j, i) && w.heard == {} && i % SUB_SECTOR_LOOPS == 1
    requires Start(job.sizes, j) < i <= c <= Start(job.sizes, j + 1) <= |job.words|
    ensures before <= bus
    ensures LossyRun(job.sizes, job.words, w,
                     SectorLoops(f, i, Start(job.sizes, j + 1), |job.words|, tries, bus, |before|), bus, c, at)
    decreases Start(job.sizes, j + 1) - i
  {
    hide IsFine, Led, Describes, SubSectorTries, SectorLoops, SubSectorLoops, Start, ValidJob, Awaits, Has, Resumes;
    hide IsLossy, LedAnyway;
    PartsOf(job);
    var last := Start(job.sizes, j + 1);
    var end := i + SUB_SECTOR_LOOPS - 1;
    SectorLoopsSubSector(f, job.sizes, job.sectors, j, i, tries, before, |before|);
    if c <= end {
      bus, at := LossyTriesBus(f, job, i, end, c, tries, w, before);
      var t := SubSectorTries(f, i, end, tries, bus, |before|);
      if t.result == Success {
        LossyAt(job.sizes, job.words, w, t.events, c, at);
        var longer := SectorLoopsBus(f, job, j, end + 1, tries, LedAnyway(job.sizes, w, t.events, at), bus);
        TriesLocal(f, i, end, tries, bus, longer, |before|);
        LossyThenFine(job.sizes, job.words, w, t.events,
                      SectorLoops(f, end + 1, last, |job.words|, tries, longer, |bus|).events, c, at);
        bus := longer;
      }
    } else {
      var middle := TriesBus(f, job, i, end, tries, w, before);
      var t := SubSectorTries(f, i, end, tries, middle, |before|);
      FirstTries(f, job, j, i, end, tries, middle, |before|, w);
      TriesEnd(f, job, i, end, tries, middle, |before|);
      Coverage.TriesSend(f, i, end, tries, middle, |before|, c);
      var m: nat;
      bus, m := LossySectorLoopsBus(f, job, j, end + 1, c, tries, Led(job.sizes, w, t.events), middle);
      TriesLocal(f, i, end, tries, middle, bus, |before|);
      FineThenLossy(job.sizes, job.words, w, t.events,
                    SectorLoops(f, end + 1, last, |job.words|, tries, bus, |middle|).events, c, m);
      at := |t.events| + m;
    }
    SectorLoopsSubSector(f, job.sizes, job.sectors, j, i, tries, bus, |before|);
  }

  /** A sub-sector before the loss. */
  lemma FirstTries(
    f: BinaryFile, job: Job, j: nat, i: nat, end: nat, tries: nat, bus: Bus, k: nat, w: World)
    requires Describes(f, job.words, job.sizes, job.sectors) && ValidJob(job) && j < job.sectors && tries > 0
    requires Awaits(job, w.device, j, i) && 1 <= i <= end < Start(job.sizes, j + 1) <= |job.words|
    requires end % SUB_SECTOR == 0 && IsFine(job.sizes, w, SubSectorTries(f, i, end, tries, bus, k).events)
    ensures var t := SubSectorTries(f, i, end, tries, bus, k);
            var x := Led(job.sizes, w, t.events);
            t.result == Success && Awaits(job, x.device, j, end + 1) && x.heard == {}
  {
    hide IsUndisturbed, Describes, SubSectorTries, Awaits, Has, Start, ValidJob, Reach, Resumes;
    AwaitsResumes(job, w.device, j, i);
    var t := SubSectorTries(f, i, end, tries, bus, k);
    TriesStep(f, job, job.words, j, i, i, end, tries, bus, k, w, Goods(|t.events|));
    HasAwaits(job, Led(job.sizes, w, t.events).device, j, end);
  }

  lemma LossySectorBus(f: BinaryFile, job: Job, j: nat, c: nat, tries: nat, w: World, before: Bus)
    returns (bus: Bus, at: nat)
    requires Describes(f, job.words, job.sizes, job.sectors) && ValidJob(job) && j < job.sectors && tries > 0
    requires Awaits(job, w.device, j, Start(job.sizes, j) + 1) && w.heard == {}
    requires Start(job.sizes, j) < c <= Start(job.sizes, j + 1)
    ensures before <= bus
    ensures LossyRun(job.sizes, job.words, w,
                     Sector(f, Start(job.sizes, j) + 1, |job.words|, LoopsIn(job.sizes, j), tries, bus, |before|),
                     bus, c, at)
  {
    hide IsFine, Led, Describes, Sector, SectorLoops, Start, ValidJob, SendCrc, JudgeCrc, Column, Awaits;
    hide IsLossy, LedAnyway;
    PartsOf(job);
    var i, last := Start(job.sizes, j) + 1, Start(job.sizes, j + 1);
    SectorSplit(f, job.words, job.sizes, job.sectors, j, tries, before, |before|);
    bus, at := LossySectorLoopsBus(f, job, j, i, c, tries, w, before);
    var l := SectorLoops(f, i, last, |job.words|, tries, bus, |before|);
    if l.result == Success {
      var crc := Column(job.words, 0)[last - 1];
      LossyAt(job.sizes, job.words, w, l.events, c, at);
      var longer := CrcBus(job.sizes, crc, false, LedAnyway(job.sizes, w, l.events, at), bus);
      SectorLoopsLocal(f, i, last, |job.words|, tries, bus, longer, |before|);
      LossyThenFine(job.sizes, job.words, w, l.events, JudgeCrc(SendCrc(crc, false, longer, |bus|)).events, c, at);
      bus := longer;
    }
    SectorSplit(f, job.words, job.sizes, job.sectors, j, tries, bus, |before|);
  }

  lemma {:induction false} LossyDataBus(f: BinaryFile, job: Job, j: nat, c: nat, tries: nat, w: World, before: Bus)
    returns (bus: Bus, at: nat)
    requires Describes(f, job.words, job.sizes, job.sectors) && ValidJob(job) && j < job.sectors <= |job.sizes|
    requires Awaits(job, w.device, j, Start(job.sizes, j) + 1) && w.heard == {} && tries > 0
    requires Start(job.sizes, j) < c <= |job.words|
    ensures before <= bus
    ensures LossyRun(job.sizes, job.words, w,
                     AppData(f, job.sizes, Start(job.sizes, j) + 1, tries, bus, |before|), bus, c, at)
    decreases job.sectors - j
  {
    hide IsFine, Led, Describes, AppData, Sector, Start, ValidJob, Awaits, IsLossy, LedAnyway, HasAccepted;
    PartsOf(job);
    var i, size := Start(job.sizes, j) + 1, LoopsIn(job.sizes, j);
    if c <= Start(job.sizes, j + 1) {
      bus, at := LossySectorBus(f, job, j, c, tries, w, before);
      var s := Sector(f, i, |job.words|, size, tries, bus, |before|);
      if s.result == Success {
        LossyAt(job.sizes, job.words, w, s.events, c, at);
        var longer := DataBus(f, job, j + 1, tries, LedAnyway(job.sizes, w, s.events, at), bus);
        SectorLocal(f, i, |job.words|, size, tries, bus, longer, |before|);
        LossyThenFine(job.sizes, job.words, w, s.events,
                      AppData(f, job.sizes, Start(job.sizes, j + 1) + 1, tries, longer, |bus|).events, c, at);
        bus := longer;
      }
    } else {
      var middle := SectorBus(f, job, j, tries, w, before);
      var s := Sector(f, i, |job.words|, size, tries, middle, |before|);
      FirstSectors(f, job, j, tries, middle, |before|, w);
      SectorBelow(f, job, j, c, tries, middle, |before|);
      var x := Led(job.sizes, w, s.events);
      if j + 1 < job.sectors { NextSector(job, x.device, j); }
      var m: nat;
      bus, m := LossyDataBus(f, job, j + 1, c, tries, x, middle);
      SectorLocal(f, i, |job.words|, size, tries, middle, bus, |before|);
      FineThenLossy(job.sizes, job.words, w, s.events,
                    AppData(f, job.sizes, Start(job.sizes, j + 1) + 1, tries, bus, |middle|).events, c, m);
      at := |s.events| + m;
    }
    AppDataSector(f, job.words, job.sizes, job.sectors, j, tries, bus, |before|);
  }

  /** A sector before the loss. */
  lemma FirstSectors(f: BinaryFile, job: Job, j: nat, tries: nat, bus: Bus, k: nat, w: World)
    requires Describes(f, job.words, job.sizes, job.sectors) && ValidJob(job) && j < job.sectors <= |job.sizes|
    requires Awaits(job, w.device, j, Start(job.sizes, j) + 1) && tries > 0
    requires var o := Sector(f, Start(job.sizes, j) + 1, |job.words|, LoopsIn(job.sizes, j), tries, bus, k);
             IsFine(job.sizes, w, o.events)
    ensures var o := Sector(f, Start(job.sizes, j) + 1, |job.words|, LoopsIn(job.sizes, j), tries, bus, k);
            var x := Led(job.sizes, w, o.events);
            o.result == Success && HasAccepted(job, x.device, j) && x.heard == {}
  {
    hide IsUndisturbed, Describes, Sector, Awaits, HasAccepted, Start, ValidJob, Reach, GoesOn, SignsAs;
    var o := Sector(f, Start(job.sizes, j) + 1, |job.words|, LoopsIn(job.sizes, j), tries, bus, k);
    AwaitsGoesOn(job, w.device, j);
    SignsAsSent(job);
    SectorStep(f, job, job.words, j, Start(job.sizes, j) + 1, tries, bus, k, w, Goods(|o.events|));
  }

  lemma LossyPassesBus(f: BinaryFile, job: Job, c: nat, n: nat, tries: nat, w: World, before: Bus)
    returns (bus: Bus, at: nat)
    requires Describes(f, job.words, job.sizes, job.sectors) && ValidJob(job) && |f.vectorTable| == VECTOR_WORDS
    requires Awaits(job, w.device, 0, 1) && w.heard == {} && n > 0 && tries > 0 && 1 <= c <= |job.words|
    ensures before <= bus
    ensures LossyRun(job.sizes, job.words, w, Passes(f, job.sizes, n, false, tries, bus, |before|), bus, c, at)
  {
    hide IsFine, Led, Describes, AppData, Passes, Start, ValidJob, Awaits, IsLossy, LedAnyway;
    FirstSector(job);
    bus, at := LossyDataBus(f, job, 0, c, tries, w, before);
    var middle := bus;
    var a := AppData(f, job.sizes, 1, tries, middle, |before|);
    LossyAt(job.sizes, job.words, w, a.events, c, at);
    var x := LedAnyway(job.sizes, w, a.events, at);
    if a.result == Failed {
      bus := PassesBus(f, job, n - 1, tries, x, middle);
      LossyThenFine(job.sizes, job.words, w, a.events,
                    Passes(f, job.sizes, n - 1, false, tries, bus, |middle|).events, c, at);
    } else if a.result == Success {
      bus := VectorPassesBus(f, job.sizes, n, tries, x, middle);
      LossyThenFine(job.sizes, job.words, w, a.events,
                    Passes(f, job.sizes, n, true, tries, bus, |middle|).events, c, at);
    }
    AppDataLocal(f, job.sizes, 1, tries, middle, bus, |before|);
    UploadSafety.PassesSplit(f, job.sizes, n, tries, bus, |before|);
  }

  /**
   * For every image that fits, every loop of it, any number of passes and attempts, and every state of the receiver but
   * those of starting or having started a program, there is an upload that loses exactly the word of that loop.
   */
  lemma OneLostWord(f: BinaryFile, job: Job, c: nat, info: BootloaderStatus, limits: Limits, w: World)
    returns (bus: Bus, fates: seq<Fate>, at: nat)
    requires Describes(f, job.words, job.sizes, job.sectors) && FitsBuffer(job.sizes)
    requires 1 <= c <= |job.words| && 8 * |job.words| <= PROGRAM_SIZE_MAX
    requires UploadSpec.IsComplete(info) && limits.passes > 0 && limits.tries > 0 && limits.polls > 0
    requires Holds(job.sizes, w.device) && w.device.boot !in {BootRun, BootLeft}
    requires IsCurrent(info, w.device)
    ensures |f.vectorTable| == VECTOR_WORDS && job.sizes != []
    ensures var o := AppBinary(f, job.sizes, info, limits, bus, 0);
            && |fates| == |o.events|
            && OnlyLoses(job.sizes, job.words, w, o.events, fates, c, at)
            && Observe(job.sizes, w, o.events, fates).Some?
            && o.result == Judge(Recovers(job, limits.passes, limits.tries, c))
  {
    hide Holds, Handshake, Passes, Describes, IsInformed, Awaits, ValidJob, IsIdle, Start, AtTheBeginning;
    hide IsFine, Led, LedAnyway, Recovers, UploadSafety.NoPayload, UploadSafety.StartsSafely, OnlyLoses;
    hide Observe;
    JobOf(f, job);
    var first := HandshakeBus(f, job.sizes, info, limits.polls, w, []);
    var h := Handshake(f, info, limits.polls, first, 0);
    HandshakeLeads(f, job, info, limits.polls, first, w);
    UploadSafety.HandshakeSafe(f, info, limits.polls, first, 0);
    NoLoopYet(h.events, c);
    var x := Led(job.sizes, w, h.events);
    InformedAwaits(job, x.device);
    var m: nat;
    bus, m := LossyPassesBus(f, job, c, limits.passes, limits.tries, x, first);
    HandshakeLocal(f, info, limits.polls, first, bus, 0);
    var o := AppBinary(f, job.sizes, info, limits, bus, 0);
    FineThenLossy(job.sizes, job.words, w, h.events,
                  Passes(f, job.sizes, limits.passes, false, limits.tries, bus, |first|).events, c, m);
    at := |h.events| + m;
    fates := LostFates(|o.events|, at);
    LossIsObserved(job.sizes, job.words, w, o.events, fates, c, at);
    LosingOneWord(f, job, c, info, limits, bus, 0, w, fates, at);
  }

  lemma HandshakeLeads(f: BinaryFile, job: Job, info: BootloaderStatus, polls: nat, bus: Bus, w: World)
    requires f.lenInBytes == 8 * |job.words| && f.lenInWords == |job.words| && polls > 0
    requires Holds(job.sizes, w.device) && w.device.boot !in {BootRun, BootLeft}
    requires IsCurrent(info, w.device)
    requires IsFine(job.sizes, w, Handshake(f, info, polls, bus, 0).events)
    ensures var h := Handshake(f, info, polls, bus, 0);
            var x := Led(job.sizes, w, h.events);
            && h.result == (8 * |job.words| <= PROGRAM_SIZE_MAX)
            && (h.result ==> IsInformed(job, x.device) && Holds(job.sizes, x.device) && x.heard == {})
  {
    hide IsUndisturbed, Reach, Handshake, Holds, IsInformed, IsIdle, AtTheBeginning;
    HandshakeStep(f, job, info, polls, bus, 0, w, Goods(|Handshake(f, info, polls, bus, 0).events|));
  }
}
