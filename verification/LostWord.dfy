/**
 * An upload in which one word is lost after its loop number, in the first attempt, and nothing else goes wrong: when
 * it succeeds nevertheless.
 */
module LostWord {
  import opened Wrappers
  import opened Crc64
  import opened CrcImage
  import opened Protocol
  import opened Device
  import opened World
  import opened Transfer
  import opened DataTransfer
  import opened EndToEnd
  import opened Refusal
  import opened UploadSpec
  import opened UploadProps
  import UploadSafety
  import Coverage
  import opened DeviceSafety
  import opened Undisturbed
  import opened UndisturbedData
  import opened UndisturbedUpload
  import opened Retries

  // ---------- runs that lose one word ----------

  /** The world after the lost word: only the main loop has turned. */
  function AfterLoss(sizes: seq<nat>, w: World, events: seq<Event>, fates: seq<Fate>, at: nat): World
    requires at < |events| == |fates|
  {
    Turns(sizes, Reach(sizes, w, events[..at], fates[..at]), fates[at].turns)
  }

  /** The first time that loop number c is sent is event at - 1, and the word that follows it is the only loss. */
  predicate OnlyLoses(
    sizes: seq<nat>, words: seq<Word>, w: World, events: seq<Event>, fates: seq<Fate>, c: nat, at: nat)
    requires |events| == |fates|
  {
    && 1 <= c <= |words|
    && 1 <= at < |events|
    && events[at - 1] == Sent(LoopInfo(c)) && Sent(LoopInfo(c)) !in events[..at - 1]
    && events[at] == Sent(Data(words[c - 1]))
    && IsUndisturbed(sizes, w, events[..at], fates[..at])
    && !fates[at].delivered && IsWorking(fates[at].turns)
    && IsUndisturbed(sizes, AfterLoss(sizes, w, events, fates, at), events[at + 1..], fates[at + 1..])
  }

  /** Where the whole run leads. */
  function LostReach(sizes: seq<nat>, w: World, events: seq<Event>, fates: seq<Fate>, at: nat): World
    requires at < |events| == |fates|
  {
    Reach(sizes, AfterLoss(sizes, w, events, fates, at), events[at + 1..], fates[at + 1..])
  }

  /** It is a run like any other. */
  lemma LossIsObserved(
    sizes: seq<nat>, words: seq<Word>, w: World, events: seq<Event>, fates: seq<Fate>, c: nat, at: nat)
    requires |events| == |fates| && OnlyLoses(sizes, words, w, events, fates, c, at)
    ensures Observe(sizes, w, events, fates) == Some(LostReach(sizes, w, events, fates, at))
  {
    hide IsUndisturbed, Reach, Observe, Turns;
    var a, e, b := events[..at], [events[at]], events[at + 1..];
    assert events == a + (e + b);
    ReachIsObserved(sizes, w, a, fates[..at]);
    ObserveConcat(sizes, w, a, e + b, fates);
    var x := Reach(sizes, w, a, fates[..at]);
    ObserveConcat(sizes, x, e, b, fates[at..]);
    ObserveOne(sizes, x, events[at], fates[at..][..1]);
    assert fates[at..][1..] == fates[at + 1..];
    ReachIsObserved(sizes, AfterLoss(sizes, w, events, fates, at), b, fates[at + 1..]);
  }

  lemma InSecond(a: seq<Event>, b: seq<Event>, i: nat, e: Event)
    requires i < |a| + |b| && (a + b)[i] == e && e !in a
    ensures |a| <= i
  {
  }

  lemma InFirst(a: seq<Event>, b: seq<Event>, i: nat, e: Event)
    requires i < |a| + |b| && e !in (a + b)[..i] && e in a
    ensures i < |a|
  {
    assert forall m | 0 <= m < i :: (a + b)[..i][m] == (a + b)[m];
    var n :| 0 <= n < |a| && a[n] == e;
    assert (a + b)[n] == e;
  }

  /** What comes before the loop is undisturbed. */
  lemma LosesLater(
    sizes: seq<nat>, words: seq<Word>, w: World, a: seq<Event>, b: seq<Event>, fates: seq<Fate>, c: nat, at: nat)
    requires |a| + |b| == |fates| && OnlyLoses(sizes, words, w, a + b, fates, c, at)
    requires Sent(LoopInfo(c)) !in a
    ensures |a| < at && IsUndisturbed(sizes, w, a, fates[..|a|])
    ensures OnlyLoses(sizes, words, Reach(sizes, w, a, fates[..|a|]), b, fates[|a|..], c, at - |a|)
    ensures LostReach(sizes, w, a + b, fates, at)
         == LostReach(sizes, Reach(sizes, w, a, fates[..|a|]), b, fates[|a|..], at - |a|)
  {
    hide IsUndisturbed, Reach, Turns;
    InSecond(a, b, at - 1, Sent(LoopInfo(c)));
    var m := at - |a|;
    assert (a + b)[..at] == a + b[..m] && (a + b)[at + 1..] == b[m + 1..] && (a + b)[..at - 1] == a + b[..m - 1];
    UndisturbedConcat(sizes, w, a, b[..m], fates[..at]);
    assert fates[..at][..|a|] == fates[..|a|] && fates[..at][|a|..] == fates[|a|..][..m];
    assert fates[at + 1..] == fates[|a|..][m + 1..];
  }

  /** What comes after the part with the loss is undisturbed. */
  lemma LosesHere(
    sizes: seq<nat>, words: seq<Word>, w: World, a: seq<Event>, b: seq<Event>, fates: seq<Fate>, c: nat, at: nat)
    requires |a| + |b| == |fates| && OnlyLoses(sizes, words, w, a + b, fates, c, at)
    requires Sent(LoopInfo(c)) in a && a[|a| - 1].AckWaited?
    ensures at < |a| && OnlyLoses(sizes, words, w, a, fates[..|a|], c, at)
    ensures IsUndisturbed(sizes, LostReach(sizes, w, a, fates[..|a|], at), b, fates[|a|..])
    ensures LostReach(sizes, w, a + b, fates, at)
         == Reach(sizes, LostReach(sizes, w, a, fates[..|a|], at), b, fates[|a|..])
  {
    hide IsUndisturbed, Reach, Turns;
    InFirst(a, b, at - 1, Sent(LoopInfo(c)));
    assert (a + b)[at - 1] == a[at - 1];
    assert (a + b)[..at] == a[..at] && (a + b)[at] == a[at] && (a + b)[at + 1..] == a[at + 1..] + b;
    assert fates[..|a|][..at] == fates[..at];
    UndisturbedConcat(sizes, AfterLoss(sizes, w, a + b, fates, at), a[at + 1..], b, fates[at + 1..]);
    assert fates[at + 1..][..|a| - at - 1] == fates[..|a|][at + 1..];
    assert fates[at + 1..][|a| - at - 1..] == fates[|a|..];
    assert (a + b)[..at - 1] == a[..at - 1];
  }

  /** The loss is right after the first event. */
  lemma LosesNow(
    sizes: seq<nat>, words: seq<Word>, w: World, b: seq<Event>, fates: seq<Fate>, c: nat, at: nat)
    requires |b| + 2 == |fates| && 1 <= c <= |words|
    requires OnlyLoses(sizes, words, w, [Sent(LoopInfo(c))] + ([Sent(Data(words[c - 1]))] + b), fates, c, at)
    ensures at == 1 && IsUndisturbed(sizes, w, [Sent(LoopInfo(c))], fates[..1]) && IsWorking(fates[1].turns)
    ensures var x := Turns(sizes, Reach(sizes, w, [Sent(LoopInfo(c))], fates[..1]), fates[1].turns);
            && IsUndisturbed(sizes, x, b, fates[2..])
            && LostReach(sizes, w, [Sent(LoopInfo(c))] + ([Sent(Data(words[c - 1]))] + b), fates, at)
               == Reach(sizes, x, b, fates[2..])
  {
    hide IsUndisturbed, Reach, Turns, IsWorking;
    var events := [Sent(LoopInfo(c))] + ([Sent(Data(words[c - 1]))] + b);
    InFirst([Sent(LoopInfo(c))], [Sent(Data(words[c - 1]))] + b, at - 1, Sent(LoopInfo(c)));
    assert events[..1] == [Sent(LoopInfo(c))] && events[2..] == b;
  }

  // ---------- which loops are sent ----------

  lemma {:induction false} SendsLoops(words: seq<Word>, first: nat, end: nat, n: nat)
    requires 1 <= first && end <= |words|
    ensures Sent(LoopInfo(n)) in Sends(Pairs(words, first, end)) <==> first <= n <= end
    decreases end + 1 - first
  {
    if first <= end {
      SendsLoops(words, first + 1, end, n);
      PairSends(words, first, end);
    }
  }

  lemma {:induction false} StreamLoops(events: seq<Event>, words: seq<Word>, last: nat, n: nat)
    requires last <= |words| && IsStream(events, words, last) && Sent(LoopInfo(n)) in events
    ensures n <= last
    decreases |events|
  {
    if events[0].AckWaited? {
      assert events == [events[0]] + events[1..];
      StreamLoops(events[1..], words, last, n);
    } else {
      assert events == [events[0], events[1]] + events[2..];
      if events[0] != Sent(LoopInfo(n)) { StreamLoops(events[2..], words, last, n); }
    }
  }

  // ---------- the sub-sector ----------

  /** The word that the receiver takes for the lost one of loop c. */
  function LateWord(job: Job, c: nat): Word
    requires 1 <= c <= |job.words|
  {
    if c == |job.words| then job.words[c - 1]
    else if c % SUB_SECTOR == 0 then job.words[c - SUB_SECTOR]
    else job.words[c]
  }

  /** Where the first attempt at its sub-sector leaves the receiver. */
  ghost predicate IsStuck(job: Job, d: Device, j: nat, c: nat) {
    && 1 <= c <= |job.words|
    && if c % SUB_SECTOR == 0 then AwaitsWord(job, d, j, c)
       else c < |job.words| && Awaits(With(job, c, job.words[c]), d, j, c + 1)
  }

  /** The loop number arrives, and the main loop turns while its word is lost. */
  lemma LoopStep(job: Job, w: World, j: nat, i: nat, fates: seq<Fate>, turns: seq<Hardware>)
    requires ValidJob(job) && j < job.sectors && Awaits(job, w.device, j, i) && |fates| == 1 && IsWorking(turns)
    requires IsUndisturbed(job.sizes, w, [Sent(LoopInfo(i))], fates)
    ensures var x := Turns(job.sizes, Reach(job.sizes, w, [Sent(LoopInfo(i))], fates), turns);
            AwaitsWord(job, x.device, j, i) && x.heard == w.heard
  {
    hide Holds, IsOn, IsStored, Start, Turns, RxLoopInfo, IsUndisturbed, Reach, ValidJob, IsStill;
    UndisturbedOne(job.sizes, w, Sent(LoopInfo(i)), fates);
    TakesLoop(job, w.device, j, i);
    LoadingTurns(job, Receive(job.sizes, w, LoopInfo(i)), j, i, fates[0].turns);
    var x := Reach(job.sizes, w, [Sent(LoopInfo(i))], fates);
    LoopNumberIgnored(job, x.device, j, i, i);
    StillTurns(job.sizes, x, turns);
  }

  /** The rest of the sub-sector: its first word is taken, and the others are ignored. */
  lemma RestAfterLoss(job: Job, w: World, j: nat, c: nat, end: nat, fates: seq<Fate>)
    requires ValidJob(job) && j < job.sectors && AwaitsWord(job, w.device, j, c) && w.heard == {}
    requires 1 <= c <= end <= Start(job.sizes, j + 1) <= |job.words|
    requires end % SUB_SECTOR == 0 && end < c + SUB_SECTOR
    requires |fates| == |Sends(Pairs(job.words, c + 1, end))|
    requires IsUndisturbed(job.sizes, w, Sends(Pairs(job.words, c + 1, end)), fates)
    ensures var x := Reach(job.sizes, w, Sends(Pairs(job.words, c + 1, end)), fates);
            IsStuck(job, x.device, j, c) && IsStill(job.sizes, x.device) && x.heard == {}
  {
    hide Holds, IsOn, IsStored, Start, IsUndisturbed, Reach, ValidJob, IsStill, Awaits, AwaitsWord, Has, IsBetween;
    if c == end {
      NoPairs(job.words, c + 1, end);
      ReachNothing(job.sizes, w, fates);
      LoopNumberIgnored(job, w.device, j, c, c);
    } else {
      var word := job.words[c];
      PairSends(job.words, c + 1, end);
      UndisturbedConcat(job.sizes, w, Pair(c + 1, word), Sends(Pairs(job.words, c + 2, end)), fates);
      PairTaken(job, w, j, c, c + 1, word, fates[..2]);
      NothingHeard(|job.words|, c, end);
      var x := Reach(job.sizes, w, Pair(c + 1, word), fates[..2]);
      assert x.heard == {};
      WithShape(job, c, word);
      HasAwaits(With(job, c, word), x.device, j, c);
      AwaitsCurrent(With(job, c, word), x.device, j, c + 1);
      BetweenIsStill(job.sizes, x.device);
      PairsIgnored(job.sizes, job.words, x, c + 2, end, fates[2..]);
    }
  }

  lemma NothingHeard(total: nat, c: nat, end: nat)
    requires 1 <= c < end <= total && end % SUB_SECTOR == 0 && end < c + SUB_SECTOR
    ensures c % SUB_SECTOR != 0 && WordAcks(total, c) == {}
  {
  }

  /** The first attempt is not acknowledged. */
  lemma LoseAttempt(
    f: BinaryFile, job: Job, j: nat, c: nat, first: nat, end: nat, bus: Bus, k: nat, w: World, fates: seq<Fate>,
    at: nat)
    requires Describes(f, job.words, job.sizes, job.sectors) && ValidJob(job) && j < job.sectors
    requires Awaits(job, w.device, j, first) && w.heard == {}
    requires 1 <= first <= c <= end <= Start(job.sizes, j + 1) <= |job.words|
    requires end == first + SUB_SECTOR - 1 && end % SUB_SECTOR == 0
    requires var o := SubSector(f, first, end, bus, k);
             |fates| == |o.events| && OnlyLoses(job.sizes, job.words, w, o.events, fates, c, at)
    ensures var o := SubSector(f, first, end, bus, k);
            var x := LostReach(job.sizes, w, o.events, fates, at);
            o.result == Failed && IsStuck(job, x.device, j, c) && x.heard == {}
  {
    hide Awaits, AwaitsWord, Start, Reach, IsUndisturbed, ValidJob, SubSector, IsStill, Describes, IsStuck;
    hide OnlyLoses, LostReach, Turns, IsWorking;
    SubSectorShape(f, job.words, job.sizes, job.sectors, first, end, bus, k);
    var reply := Answer(bus, k).ack;
    var wait := AckWaited(ReceivedSubSectorData, ReceivedAndProcessed, reply);
    var before, after := Sends(Pairs(job.words, first, c - 1)), Sends(Pairs(job.words, c + 1, end));
    var rest := [Sent(LoopInfo(c))] + ([Sent(Data(job.words[c - 1]))] + (after + [wait]));
    AttemptParts(job.words, first, c, end, wait);
    SendsLoops(job.words, first, c - 1, c);
    LosesLater(job.sizes, job.words, w, before, rest, fates, c, at);
    var x := Reach(job.sizes, w, before, fates[..|before|]);
    BeforeLoss(job, w, j, c, first, end, fates[..|before|]);
    var more := fates[|before|..];
    LosesNow(job.sizes, job.words, x, after + [wait], more, c, at - |before|);
    LoopStep(job, x, j, c, more[..1], more[1].turns);
    var y := Turns(job.sizes, Reach(job.sizes, x, [Sent(LoopInfo(c))], more[..1]), more[1].turns);
    UndisturbedConcat(job.sizes, y, after, [wait], more[2..]);
    RestAfterLoss(job, y, j, c, end, more[2..][..|after|]);
    var z := Reach(job.sizes, y, after, more[2..][..|after|]);
    WaitStep(job.sizes, z, ReceivedSubSectorData, ReceivedAndProcessed, reply, more[2..][|after|..]);
  }

  lemma AttemptParts(words: seq<Word>, first: nat, c: nat, end: nat, wait: Event)
    requires 1 <= first <= c <= end <= |words|
    ensures Sends(Pairs(words, first, end)) + [wait]
         == Sends(Pairs(words, first, c - 1))
            + ([Sent(LoopInfo(c))] + ([Sent(Data(words[c - 1]))] + (Sends(Pairs(words, c + 1, end)) + [wait])))
  {
    PairsConcat(words, first, c - 1, end);
    SendsConcat(Pairs(words, first, c - 1), Pairs(words, c, end));
    PairSends(words, c, end);
  }

  /** The loops before the loss. */
  lemma BeforeLoss(job: Job, w: World, j: nat, c: nat, first: nat, end: nat, fates: seq<Fate>)
    requires ValidJob(job) && j < job.sectors && Awaits(job, w.device, j, first) && w.heard == {}
    requires 1 <= first <= c <= end <= Start(job.sizes, j + 1) <= |job.words|
    requires end == first + SUB_SECTOR - 1 && end % SUB_SECTOR == 0
    requires |fates| == |Sends(Pairs(job.words, first, c - 1))|
    requires IsUndisturbed(job.sizes, w, Sends(Pairs(job.words, first, c - 1)), fates)
    ensures var x := Reach(job.sizes, w, Sends(Pairs(job.words, first, c - 1)), fates);
            Awaits(job, x.device, j, c) && x.heard == {}
  {
    hide Awaits, Has, Start, Reach, IsUndisturbed, ValidJob;
    if c == first {
      NoPairs(job.words, first, c - 1);
      ReachNothing(job.sizes, w, fates);
    } else {
      PairsSteps(job, job.words, w, j, first, first, c - 1, fates);
      HasAwaits(job, Reach(job.sizes, w, Sends(Pairs(job.words, first, c - 1)), fates).device, j, c - 1);
      SilentBefore(|job.words|, c - 1, first, end);
    }
  }

  lemma SilentBefore(total: nat, i: nat, first: nat, end: nat)
    requires 1 <= first <= i < end <= total && end == first + SUB_SECTOR - 1 && end % SUB_SECTOR == 0
    ensures (first - 1) / SUB_SECTOR == (i - 1) / SUB_SECTOR && WordAcks(total, i) == {}
  {
  }

  /** From there the next attempt goes through, with the late word. */
  lemma StuckResumes(job: Job, d: Device, j: nat, c: nat, first: nat, end: nat) returns (from: nat)
    requires ValidJob(job) && IsStuck(job, d, j, c) && 1 <= first <= c <= end <= |job.words|
    requires end == first + SUB_SECTOR - 1 && end % SUB_SECTOR == 0
    ensures first <= from <= end && Resumes(With(job, c, LateWord(job, c)), job.words, d, j, from, first)
  {
    hide Holds, IsOn, IsStored, Start, ValidJob;
    var other := With(job, c, LateWord(job, c));
    if c % SUB_SECTOR == 0 {
      hide Awaits;
      assert c == end;
      AwaitsAnyWord(job, d, j, c, LateWord(job, c));
      from := c;
    } else {
      AwaitsState(other, d, j, c + 1);
      from := c + 1;
    }
  }

  /** What one attempt, or several, at the sub-sector, the sector or the data leave behind. */
  ghost predicate HasLost(job: Job, tries: nat, c: nat, w: World, j: nat, end: nat, result: Verdict) {
    && 1 <= c <= |job.words|
    && w.heard == {}
    && if tries >= 2 then result == Success && Has(With(job, c, LateWord(job, c)), w.device, j, end)
       else result == Failed && IsStuck(job, w.device, j, c)
  }

  lemma LoseTries(
    f: BinaryFile, job: Job, j: nat, c: nat, first: nat, end: nat, tries: nat, bus: Bus, k: nat, w: World,
    fates: seq<Fate>, at: nat)
    requires Describes(f, job.words, job.sizes, job.sectors) && ValidJob(job) && j < job.sectors && tries > 0
    requires Awaits(job, w.device, j, first) && w.heard == {}
    requires 1 <= first <= c <= end <= Start(job.sizes, j + 1) <= |job.words|
    requires end == first + SUB_SECTOR - 1 && end % SUB_SECTOR == 0
    requires var o := SubSectorTries(f, first, end, tries, bus, k);
             |fates| == |o.events| && OnlyLoses(job.sizes, job.words, w, o.events, fates, c, at)
    ensures var o := SubSectorTries(f, first, end, tries, bus, k);
            HasLost(job, tries, c, LostReach(job.sizes, w, o.events, fates, at), j, end, o.result)
  {
    hide Awaits, Has, Start, Reach, IsUndisturbed, ValidJob, SubSector, Describes, IsStuck, OnlyLoses, LostReach;
    hide Resumes, With, LateWord;
    var a := SubSector(f, first, end, bus, k);
    if a.result != Failed {
      LoseAttempt(f, job, j, c, first, end, bus, k, w, fates, at);
      assert false;
    } else {
      var rest := SubSectorTries(f, first, end, tries - 1, bus, a.next);
      SubSectorShape(f, job.words, job.sizes, job.sectors, first, end, bus, k);
      SendsLoops(job.words, first, end, c);
      LosesHere(job.sizes, job.words, w, a.events, rest.events, fates, c, at);
      LoseAttempt(f, job, j, c, first, end, bus, k, w, fates[..|a.events|], at);
      var x := LostReach(job.sizes, w, a.events, fates[..|a.events|], at);
      if tries == 1 {
        ReachNothing(job.sizes, x, fates[|a.events|..]);
      } else {
        var from := StuckResumes(job, x.device, j, c, first, end);
        var other := With(job, c, LateWord(job, c));
        WithIsValid(job, c, LateWord(job, c));
        WithShape(job, c, LateWord(job, c));
        TriesStep(f, other, job.words, j, from, first, end, tries - 1, bus, a.next, x, fates[|a.events|..]);
      }
    }
  }

  // ---------- the sector ----------

  lemma {:induction false} LoseSectorLoops(
    f: BinaryFile, job: Job, j: nat, c: nat, i: nat, tries: nat, bus: Bus, k: nat, w: World, fates: seq<Fate>,
    at: nat)
    requires Describes(f, job.words, job.sizes, job.sectors) && ValidJob(job) && j < job.sectors && tries > 0
    requires Awaits(job, w.device, j, i) && w.heard == {} && i % SUB_SECTOR_LOOPS == 1
    requires Start(job.sizes, j) < i <= c <= Start(job.sizes, j + 1) <= |job.words|
    requires var o := SectorLoops(f, i, Start(job.sizes, j + 1), |job.words|, tries, bus, k);
             |fates| == |o.events| && OnlyLoses(job.sizes, job.words, w, o.events, fates, c, at)
    ensures var o := SectorLoops(f, i, Start(job.sizes, j + 1), |job.words|, tries, bus, k);
            HasLost(job, tries, c, LostReach(job.sizes, w, o.events, fates, at), j, Start(job.sizes, j + 1), o.result)
    decreases Start(job.sizes, j + 1) - i
  {
    hide Awaits, Has, Start, Reach, IsUndisturbed, ValidJob, Describes, SubSectorTries, SectorLoops, SubSectorLoops;
    hide OnlyLoses, LostReach, HasLost, Coverage.SendsAll, Delivers;
    PartsOf(job);
    var last := Start(job.sizes, j + 1);
    SectorLoopsSubSector(f, job.sizes, job.sectors, j, i, tries, bus, k);
    var end := i + SUB_SECTOR_LOOPS - 1;
    var t := SubSectorTries(f, i, end, tries, bus, k);
    TriesEnd(f, job, i, end, tries, bus, k);
    Coverage.TriesSend(f, i, end, tries, bus, k, c);
    var rest := SectorLoops(f, end + 1, last, |job.words|, tries, bus, t.next);
    if c <= end {
      if t.result != Success {
        NotThere(job.sizes, job.words, w, t.events, fates, c, at);
        LoseTries(f, job, j, c, i, end, tries, bus, k, w, fates, at);
        LostFails(job, tries, c, LostReach(job.sizes, w, t.events, fates, at), j, end, last, t.result);
      } else {
        LosesHere(job.sizes, job.words, w, t.events, rest.events, fates, c, at);
        LoseTries(f, job, j, c, i, end, tries, bus, k, w, fates[..|t.events|], at);
        var x := LostReach(job.sizes, w, t.events, fates[..|t.events|], at);
        LoopsAfterLoss(f, job, j, c, end, tries, bus, t.next, x, fates[|t.events|..]);
      }
    } else {
      if t.result != Success {
        NotThere(job.sizes, job.words, w, t.events, fates, c, at);
        assert false;
      } else {
        LosesLater(job.sizes, job.words, w, t.events, rest.events, fates, c, at);
        AwaitsResumes(job, w.device, j, i);
        TriesStep(f, job, job.words, j, i, i, end, tries, bus, k, w, fates[..|t.events|]);
        var x := Reach(job.sizes, w, t.events, fates[..|t.events|]);
        HasAwaits(job, x.device, j, end);
        LoseSectorLoops(f, job, j, c, end + 1, tries, bus, t.next, x, fates[|t.events|..], at - |t.events|);
      }
    }
  }

  lemma NotThere(
    sizes: seq<nat>, words: seq<Word>, w: World, events: seq<Event>, fates: seq<Fate>, c: nat, at: nat)
    requires |events| == |fates| && OnlyLoses(sizes, words, w, events, fates, c, at)
    ensures Sent(LoopInfo(c)) in events && at < |events|
  {
    hide IsUndisturbed, Reach, Turns;
  }

  /** The attempts do not leave by an exception, and end with a wait. */
  lemma TriesEnd(f: BinaryFile, job: Job, first: nat, end: nat, tries: nat, bus: Bus, k: nat)
    requires Describes(f, job.words, job.sizes, job.sectors) && 1 <= first <= end <= |job.words| && tries > 0
    ensures var t := SubSectorTries(f, first, end, tries, bus, k);
            t.result != Exit && t.events != [] && t.events[|t.events| - 1].AckWaited?
  {
    hide Describes, LoopFrames;
    TriesDeliver(f, job.words, job.sizes, job.sectors, first, end, tries, bus, k);
    Coverage.TriesSend(f, first, end, tries, bus, k, first);
  }

  lemma LostFails(job: Job, tries: nat, c: nat, w: World, j: nat, end: nat, last: nat, result: Verdict)
    requires HasLost(job, tries, c, w, j, end, result) && result != Success
    ensures HasLost(job, tries, c, w, j, last, result)
  {
    hide Has;
  }

  lemma AwaitsResumes(job: Job, d: Device, j: nat, i: nat)
    requires Awaits(job, d, j, i)
    ensures Resumes(job, job.words, d, j, i, i)
  {
    hide Awaits;
    AwaitsState(job, d, j, i);
  }

  /** The sub-sectors after the one with the loss. */
  lemma LoopsAfterLoss(
    f: BinaryFile, job: Job, j: nat, c: nat, end: nat, tries: nat, bus: Bus, k: nat, w: World, fates: seq<Fate>)
    requires Describes(f, job.words, job.sizes, job.sectors) && ValidJob(job) && j < job.sectors && tries > 0
    requires HasLost(job, tries, c, w, j, end, Success) && c <= end <= Start(job.sizes, j + 1) <= |job.words|
    requires Start(job.sizes, j) <= end && end % SUB_SECTOR_LOOPS == 0
    requires var o := SectorLoops(f, end + 1, Start(job.sizes, j + 1), |job.words|, tries, bus, k);
             |fates| == |o.events| && IsUndisturbed(job.sizes, w, o.events, fates)
    ensures var o := SectorLoops(f, end + 1, Start(job.sizes, j + 1), |job.words|, tries, bus, k);
            HasLost(job, tries, c, Reach(job.sizes, w, o.events, fates), j, Start(job.sizes, j + 1), o.result)
  {
    hide Has, Start, Reach, IsUndisturbed, ValidJob, Describes, SectorLoops, IsStuck, Resumes, LateWord, With;
    var word := LateWord(job, c);
    var other := With(job, c, word);
    WithIsValid(job, c, word);
    WithShape(job, c, word);
    PartsOf(job);
    if end < Start(job.sizes, j + 1) {
      OtherResumes(job, w.device, j, c, word, end);
      SectorLoopsStep(f, other, job.words, j, end + 1, end + 1, tries, bus, k, w, fates);
    } else {
      NoMoreLoops(f, job, end, tries, bus, k);
      ReachNothing(job.sizes, w, fates);
    }
  }

  lemma OtherResumes(job: Job, d: Device, j: nat, c: nat, word: Word, end: nat)
    requires j + 1 <= |job.sizes|
    requires 1 <= c <= end < Start(job.sizes, j + 1) <= |job.words| && Has(With(job, c, word), d, j, end)
    ensures Resumes(With(job, c, word), job.words, d, j, end + 1, end + 1)
  {
    hide Awaits, Has, Start, With, AgreeFrom;
    WithShape(job, c, word);
    WithAgrees(job, c, word, end + 1);
    HasAwaits(With(job, c, word), d, j, end);
    AwaitsState(With(job, c, word), d, j, end + 1);
  }

  lemma WithAgrees(job: Job, c: nat, word: Word, from: nat)
    requires 1 <= c <= |job.words| && c < from
    ensures AgreeFrom(job.words, With(job, c, word).words, from)
  {
  }

  /** The word that is taken is the one that was lost. */
  predicate IsSame(job: Job, c: nat)
    requires 1 <= c <= |job.words|
  {
    LateWord(job, c) == job.words[c - 1]
  }

  /** After the sector, or all data: accepted, refused for good, or stuck in sector j. */
  ghost predicate IsDecided(job: Job, tries: nat, c: nat, w: World, j: nat, accepted: nat, result: Verdict) {
    && 1 <= c <= |job.words|
    && (tries == 1 ==> result == Failed && IsStuck(job, w.device, j, c) && w.heard == {})
    && (tries >= 2 && !IsSame(job, c) ==> result == Failed && IsDead(w))
    && (tries >= 2 && IsSame(job, c) ==> result == Success && HasAccepted(job, w.device, accepted) && w.heard == {})
  }

  lemma LoseSector(
    f: BinaryFile, job: Job, j: nat, c: nat, tries: nat, bus: Bus, k: nat, w: World, fates: seq<Fate>, at: nat)
    requires Describes(f, job.words, job.sizes, job.sectors) && ValidJob(job) && j < job.sectors && tries > 0
    requires Awaits(job, w.device, j, Start(job.sizes, j) + 1) && w.heard == {}
    requires Start(job.sizes, j) < c <= Start(job.sizes, j + 1)
    requires var o := Sector(f, Start(job.sizes, j) + 1, |job.words|, LoopsIn(job.sizes, j), tries, bus, k);
             |fates| == |o.events| && OnlyLoses(job.sizes, job.words, w, o.events, fates, c, at)
    ensures var o := Sector(f, Start(job.sizes, j) + 1, |job.words|, LoopsIn(job.sizes, j), tries, bus, k);
            IsDecided(job, tries, c, LostReach(job.sizes, w, o.events, fates, at), j, j, o.result)
  {
    hide Awaits, Has, HasAccepted, Start, Reach, IsUndisturbed, ValidJob, Sector, SectorLoops, JudgeCrc, SendCrc;
    hide Describes, OnlyLoses, LostReach, SectorCrc, IsDead, IsStuck, LateWord, With, Delivers;
    PartsOf(job);
    SectorSplit(f, job.words, job.sizes, job.sectors, j, tries, bus, k);
    SectorCrcRow(job, j);
    var i, last := Start(job.sizes, j) + 1, Start(job.sizes, j + 1);
    var a := SectorLoops(f, i, last, |job.words|, tries, bus, k);
    if a.result != Success {
      LoseSectorLoops(f, job, j, c, i, tries, bus, k, w, fates, at);
    } else {
      var crc := JudgeCrc(SendCrc(SectorCrc(job, j), false, bus, a.next));
      SomeLoops(f, job, j, tries, bus, k);
      CrcIsNoLoop(SectorCrc(job, j), bus, a.next, c);
      NotThere(job.sizes, job.words, w, a.events + crc.events, fates, c, at);
      LoopsEnd(f, job, j, tries, bus, k);
      LosesHere(job.sizes, job.words, w, a.events, crc.events, fates, c, at);
      LoseSectorLoops(f, job, j, c, i, tries, bus, k, w, fates[..|a.events|], at);
      var x := LostReach(job.sizes, w, a.events, fates[..|a.events|], at);
      var word := LateWord(job, c);
      WithIsValid(job, c, word);
      WithShape(job, c, word);
      OneWordSigns(job, c, word, j);
      if IsSame(job, c) {
        CrcStep(job, j, bus, a.next, x, fates[|a.events|..]);
      } else {
        CrcRefused(With(job, c, word), j, SectorCrc(job, j), bus, a.next, x, fates[|a.events|..]);
      }
    }
  }

  lemma CrcIsNoLoop(crc: Word, bus: Bus, k: nat, c: nat)
    ensures var o := JudgeCrc(SendCrc(crc, false, bus, k)); |o.events| == 2 && Sent(LoopInfo(c)) !in o.events
  {
  }

  lemma LoopsEnd(f: BinaryFile, job: Job, j: nat, tries: nat, bus: Bus, k: nat)
    requires Describes(f, job.words, job.sizes, job.sectors) && j < job.sectors
    requires SectorLoops(f, Start(job.sizes, j) + 1, Start(job.sizes, j + 1), |job.words|, tries, bus, k).events != []
    ensures var events := SectorLoops(f, Start(job.sizes, j) + 1, Start(job.sizes, j + 1), |job.words|, tries, bus,
                                      k).events;
            events[|events| - 1].AckWaited?
  {
    hide Acked, Pairs, Column, Chain, SectorSize;
    hide Start, SectorLoops;
    SectorPlace(job.sizes, job.sectors, j);
    SectorLoopsDeliver(f, job.words, job.sizes, job.sectors, j, Start(job.sizes, j) + 1, tries, bus, k);
  }

  // ---------- all data ----------

  /** A successful sector has sent all of its loops. */
  lemma SectorSends(f: BinaryFile, job: Job, j: nat, c: nat, tries: nat, bus: Bus, k: nat)
    requires Describes(f, job.words, job.sizes, job.sectors) && j < job.sectors <= |job.sizes|
    requires Start(job.sizes, j) < c <= Start(job.sizes, j + 1)
    requires Sector(f, Start(job.sizes, j) + 1, |job.words|, LoopsIn(job.sizes, j), tries, bus, k).result == Success
    ensures var o := Sector(f, Start(job.sizes, j) + 1, |job.words|, LoopsIn(job.sizes, j), tries, bus, k);
            Sent(LoopInfo(c)) in o.events
  {
    hide Describes, Start, Sector, SectorLoops, JudgeCrc, SendCrc, Column, Coverage.IsOnePiece;
    SectorSplit(f, job.words, job.sizes, job.sectors, j, tries, bus, k);
    Coverage.SectorLoopsCover(f, Start(job.sizes, j) + 1, Start(job.sizes, j + 1), |job.words|, tries, bus, k);
  }

  /** A sector sends none of the loops after it. */
  lemma SectorBelow(f: BinaryFile, job: Job, j: nat, c: nat, tries: nat, bus: Bus, k: nat)
    requires Describes(f, job.words, job.sizes, job.sectors) && j < job.sectors <= |job.sizes|
    requires Start(job.sizes, j + 1) < c
    ensures var o := Sector(f, Start(job.sizes, j) + 1, |job.words|, LoopsIn(job.sizes, j), tries, bus, k);
            Sent(LoopInfo(c)) !in o.events
  {
    hide Describes, Start, Sector, SectorLoops, JudgeCrc, SendCrc, Column, IsStream;
    var i, last := Start(job.sizes, j) + 1, Start(job.sizes, j + 1);
    SectorSplit(f, job.words, job.sizes, job.sectors, j, tries, bus, k);
    SectorLoopsStream(f, job.words, job.sizes, job.sectors, j, i, tries, bus, k);
    var a := SectorLoops(f, i, last, |job.words|, tries, bus, k);
    if Sent(LoopInfo(c)) in a.events { StreamLoops(a.events, job.words, last, c); }
    CrcIsNoLoop(Column(job.words, 0)[last - 1], bus, a.next, c);
  }

  /** A sector that has sent something ends with a wait. */
  lemma SectorEnd(f: BinaryFile, job: Job, j: nat, tries: nat, bus: Bus, k: nat)
    requires Describes(f, job.words, job.sizes, job.sectors) && j < job.sectors <= |job.sizes|
    ensures var o := Sector(f, Start(job.sizes, j) + 1, |job.words|, LoopsIn(job.sizes, j), tries, bus, k);
            o.events != [] ==> o.events[|o.events| - 1].AckWaited?
  {
    hide Acked, SectorFrames, Describes;
    hide Start, Sector;
    SectorDelivers(f, job.words, job.sizes, job.sectors, j, tries, bus, k);
  }

  /** Sector j, when its loops include the one whose word is lost. */
  lemma LoseHereData(
    f: BinaryFile, job: Job, j: nat, c: nat, tries: nat, bus: Bus, k: nat, w: World, fates: seq<Fate>, at: nat)
    requires Describes(f, job.words, job.sizes, job.sectors) && ValidJob(job) && j < job.sectors && tries > 0
    requires Awaits(job, w.device, j, Start(job.sizes, j) + 1) && w.heard == {}
    requires Start(job.sizes, j) < c <= Start(job.sizes, j + 1)
    requires var o := AppData(f, job.sizes, Start(job.sizes, j) + 1, tries, bus, k);
             |fates| == |o.events| && OnlyLoses(job.sizes, job.words, w, o.events, fates, c, at)
    ensures var o := AppData(f, job.sizes, Start(job.sizes, j) + 1, tries, bus, k);
            at < |o.events|
            && IsDecided(job, tries, c, LostReach(job.sizes, w, o.events, fates, at), j, job.sectors - 1, o.result)
  {
    hide Awaits, HasAccepted, Start, Reach, IsUndisturbed, ValidJob, Sector, AppData, Describes, OnlyLoses, LostReach;
    hide IsDead, IsStuck, IsSame, SignsAs, GoesOn;
    PartsOf(job);
    AppDataSector(f, job.words, job.sizes, job.sectors, j, tries, bus, k);
    var a := Sector(f, Start(job.sizes, j) + 1, |job.words|, LoopsIn(job.sizes, j), tries, bus, k);
    var o := AppData(f, job.sizes, Start(job.sizes, j) + 1, tries, bus, k);
    NotThere(job.sizes, job.words, w, o.events, fates, c, at);
    if a.result != Success {
      LoseSector(f, job, j, c, tries, bus, k, w, fates, at);
    } else {
      var rest := AppData(f, job.sizes, Start(job.sizes, j + 1) + 1, tries, bus, a.next);
      SectorSends(f, job, j, c, tries, bus, k);
      SectorEnd(f, job, j, tries, bus, k);
      LosesHere(job.sizes, job.words, w, a.events, rest.events, fates, c, at);
      LoseSector(f, job, j, c, tries, bus, k, w, fates[..|a.events|], at);
      var x := LostReach(job.sizes, w, a.events, fates[..|a.events|], at);
      if j + 1 < job.sectors {
        AgreesWithItself(job, Start(job.sizes, j + 1) + 1);
        AcceptedGoesOn(job, job.words, x.device, j);
        SignsAsSent(job);
        DataGoesThrough(f, job, job.words, j + 1, Start(job.sizes, j + 1) + 1, tries, bus, a.next, x,
                        fates[|a.events|..]);
      } else {
        AppDataEnd(f, job.words, job.sizes, job.sectors, tries, bus, a.next);
        ReachNothing(job.sizes, x, fates[|a.events|..]);
      }
    }
  }

  lemma AgreesWithItself(job: Job, from: nat)
    ensures AgreeFrom(job.words, job.words, from)
  {
  }

  lemma AwaitsGoesOn(job: Job, d: Device, j: nat)
    requires j < |job.sizes| && Awaits(job, d, j, Start(job.sizes, j) + 1)
    ensures GoesOn(job, job.words, d, j, Start(job.sizes, j) + 1) && d.can != ReceivedLoopNumber
  {
    hide Awaits, Start;
    AwaitsState(job, d, j, Start(job.sizes, j) + 1);
  }

  /** The data of sectors j and on; the receiver can be stuck in the sector of the lost word. */
  lemma {:induction false} LoseData(
    f: BinaryFile, job: Job, j: nat, c: nat, tries: nat, bus: Bus, k: nat, w: World, fates: seq<Fate>, at: nat)
    returns (stuck: nat)
    requires Describes(f, job.words, job.sizes, job.sectors) && ValidJob(job) && j < job.sectors && tries > 0
    requires Awaits(job, w.device, j, Start(job.sizes, j) + 1) && w.heard == {}
    requires Start(job.sizes, j) < c
    requires var o := AppData(f, job.sizes, Start(job.sizes, j) + 1, tries, bus, k);
             |fates| == |o.events| && OnlyLoses(job.sizes, job.words, w, o.events, fates, c, at)
    ensures var o := AppData(f, job.sizes, Start(job.sizes, j) + 1, tries, bus, k);
            && stuck < job.sectors && at < |o.events|
            && IsDecided(job, tries, c, LostReach(job.sizes, w, o.events, fates, at), stuck, job.sectors - 1, o.result)
    decreases job.sectors - j
  {
    hide Awaits, HasAccepted, Start, Reach, IsUndisturbed, ValidJob, Sector, AppData, Describes, OnlyLoses, LostReach;
    hide IsDecided, SignsAs, GoesOn;
    PartsOf(job);
    if c <= Start(job.sizes, j + 1) {
      LoseHereData(f, job, j, c, tries, bus, k, w, fates, at);
      return j;
    }
    AppDataSector(f, job.words, job.sizes, job.sectors, j, tries, bus, k);
    SectorBelow(f, job, j, c, tries, bus, k);
    var a := Sector(f, Start(job.sizes, j) + 1, |job.words|, LoopsIn(job.sizes, j), tries, bus, k);
    if a.result != Success {
      NotThere(job.sizes, job.words, w, a.events, fates, c, at);
      assert false;
    } else {
      var rest := AppData(f, job.sizes, Start(job.sizes, j + 1) + 1, tries, bus, a.next);
      LosesLater(job.sizes, job.words, w, a.events, rest.events, fates, c, at);
      AwaitsGoesOn(job, w.device, j);
      SignsAsSent(job);
      SectorStep(f, job, job.words, j, Start(job.sizes, j) + 1, tries, bus, k, w, fates[..|a.events|]);
      var x := Reach(job.sizes, w, a.events, fates[..|a.events|]);
      LoopInJob(job.sizes, job.words, x, rest.events, fates[|a.events|..], c, at - |a.events|);
      if j + 1 == job.sectors {
        assert false;
      } else {
        NextSector(job, x.device, j);
        stuck := LoseData(f, job, j + 1, c, tries, bus, a.next, x, fates[|a.events|..], at - |a.events|);
      }
    }
  }

  lemma LoopInJob(
    sizes: seq<nat>, words: seq<Word>, w: World, events: seq<Event>, fates: seq<Fate>, c: nat, at: nat)
    requires |events| == |fates| && OnlyLoses(sizes, words, w, events, fates, c, at)
    ensures 1 <= c <= |words|
  {
  }

  // ---------- all passes ----------

  /** When the upload recovers from the loss of the word of loop c. */
  predicate Recovers(job: Job, passes: nat, tries: nat, c: nat)
    requires 1 <= c <= |job.words| && job.sizes != []
  {
    && IsSame(job, c)
    && (|| tries >= 2
        || (passes >= 2 && (c <= SUB_SECTOR_LOOPS
                            || c == |job.words| == 2 * SUB_SECTOR_LOOPS == Start(job.sizes, 1))))
  }

  lemma VectorHasNoLoops(events: seq<Event>, c: nat)
    requires UploadSafety.VectorPhase(events)
    ensures Sent(LoopInfo(c)) !in events
  {
  }

  /** The vector table after all data. */
  lemma VectorOnlyStep(
    f: BinaryFile, job: Job, n: nat, tries: nat, bus: Bus, k: nat, w: World, fates: seq<Fate>)
    requires |f.vectorTable| == VECTOR_WORDS && f.vectorCrc == Chain(f.vectorTable, 0) && n > 0
    requires Collected(job, f, w.device, 0)
    requires var o := Passes(f, job.sizes, n, true, tries, bus, k);
             |fates| == |o.events| && IsUndisturbed(job.sizes, w, o.events, fates)
    ensures var o := Passes(f, job.sizes, n, true, tries, bus, k);
            o.result == Success && IsInstalled(job, f, Reach(job.sizes, w, o.events, fates).device)
  {
    hide Collected, IsInstalled, Reach, IsUndisturbed, VectorTable, Chain, Passes;
    UploadSafety.VectorPass(f, job.sizes, n, tries, bus, k);
    var v := VectorTable(f, bus, k);
    if v.result == Success {
      VectorTableStep(job, f, bus, k, w, fates);
    } else {
      var rest := Passes(f, job.sizes, n - 1, true, tries, bus, v.next);
      UndisturbedConcat(job.sizes, w, v.events, rest.events, fates);
      VectorTableStep(job, f, bus, k, w, fates[..|v.events|]);
      assert false;
    }
  }

  /** The passes after the one that got stuck. */
  lemma PassesAfterStuck(
    f: BinaryFile, job: Job, j: nat, c: nat, n: nat, tries: nat, bus: Bus, k: nat, w: World, fates: seq<Fate>)
    requires Describes(f, job.words, job.sizes, job.sectors) && ValidJob(job) && |f.vectorTable| == VECTOR_WORDS
    requires j < job.sectors && job.sizes != [] && IsStuck(job, w.device, j, c) && w.heard == {} && tries == 1
    requires var o := Passes(f, job.sizes, n, false, tries, bus, k);
             |fates| == |o.events| && IsUndisturbed(job.sizes, w, o.events, fates)
    ensures var o := Passes(f, job.sizes, n, false, tries, bus, k);
            && o.result == Judge(Recovers(job, n + 1, tries, c))
            && (o.result == Success ==> IsInstalled(job, f, Reach(job.sizes, w, o.events, fates).device))
  {
    hide Awaits, AwaitsWord, Reach, IsUndisturbed, Passes, Describes, Start, ValidJob, IsInstalled, With;
    hide PassHelps, AgreeFrom, CanComplete;
    if n == 0 {
      NoPassesFail(f, job, tries, bus, k);
    } else {
      var from := if c % SUB_SECTOR == 0 then c else c + 1;
      var held := if c % SUB_SECTOR == 0 then job else With(job, c, job.words[c]);
      StuckIsAt(job, w.device, j, c, from, held);
      RepeatingHelps(f, job, held, j, from, n, tries, bus, k, w, fates);
      StuckHelps(job, w.device, c, from, held);
      if PassHelps(job, held, w.device, from) {
        RepeatingSucceeds(f, job, held, j, from, n, tries, bus, k, w, fates);
        StuckCompletes(job, w.device, c, from, held);
      }
    }
  }

  lemma StuckIsAt(job: Job, d: Device, j: nat, c: nat, from: nat, held: Job)
    requires ValidJob(job) && IsStuck(job, d, j, c)
    requires from == if c % SUB_SECTOR == 0 then c else c + 1
    requires held == if c % SUB_SECTOR == 0 then job else With(job, c, job.words[c])
    ensures IsHeld(job, held) && AgreeFrom(job.words, held.words, from) && IsAt(held, d, j, from)
    ensures d.can == ReceivedLoopNumber <==> c % SUB_SECTOR == 0
  {
    hide Holds, IsOn, IsStored, Start;
  }

  lemma StuckHelps(job: Job, d: Device, c: nat, from: nat, held: Job)
    requires ValidJob(job) && 1 <= c <= |job.words| && (c % SUB_SECTOR != 0 ==> c < |job.words|)
    requires from == if c % SUB_SECTOR == 0 then c else c + 1
    requires held == if c % SUB_SECTOR == 0 then job else With(job, c, job.words[c])
    requires d.can == ReceivedLoopNumber <==> c % SUB_SECTOR == 0
    ensures IsHeld(job, held) && from <= |job.words| && job.sizes != []
    ensures PassHelps(job, held, d, from) <==> Recovers(job, 2, 1, c)
  {
    hide Start, SectorCrc, PassHelps, With;
    FirstSector(job);
    if c % SUB_SECTOR == 0 {
      RightSoFar(job, d, c);
    } else {
      WithShape(job, c, job.words[c]);
      OneMayBeWrong(job, d, c + 1, c, job.words[c]);
    }
  }

  lemma StuckCompletes(job: Job, d: Device, c: nat, from: nat, held: Job)
    requires ValidJob(job) && 1 <= c <= |job.words| && (c % SUB_SECTOR != 0 ==> c < |job.words|)
    requires from == if c % SUB_SECTOR == 0 then c else c + 1
    requires held == if c % SUB_SECTOR == 0 then job else With(job, c, job.words[c])
    requires d.can == ReceivedLoopNumber <==> c % SUB_SECTOR == 0
    requires IsHeld(job, held) && from <= |job.words| && job.sizes != [] && Recovers(job, 2, 1, c)
    ensures Completed(job, held, d, from) == job
  {
    hide Start;
    WithIsValid(job, c, LateWord(job, c));
  }

  /** The passes of an upload that loses one word in the first of them. */
  lemma LosePasses(
    f: BinaryFile, job: Job, c: nat, n: nat, tries: nat, bus: Bus, k: nat, w: World, fates: seq<Fate>, at: nat)
    requires Describes(f, job.words, job.sizes, job.sectors) && ValidJob(job) && n > 0 && tries > 0
    requires job.sizes != [] && Awaits(job, w.device, 0, 1) && w.heard == {}
    requires |f.vectorTable| == VECTOR_WORDS && f.vectorCrc == Chain(f.vectorTable, 0)
    requires var o := Passes(f, job.sizes, n, false, tries, bus, k);
             |fates| == |o.events| && OnlyLoses(job.sizes, job.words, w, o.events, fates, c, at)
    ensures 1 <= c <= |job.words|
    ensures var o := Passes(f, job.sizes, n, false, tries, bus, k);
            && at < |o.events|
            && o.result == Judge(Recovers(job, n, tries, c))
            && (o.result == Success ==> IsInstalled(job, f, LostReach(job.sizes, w, o.events, fates, at).device))
  {
    hide Awaits, HasAccepted, Start, Reach, IsUndisturbed, ValidJob, AppData, Describes, OnlyLoses, LostReach, Passes;
    hide IsInstalled, Collected, IsDead, IsStuck, SignsAs, GoesOn, IsSame, Chain, Expected;
    FirstSector(job);
    var a := AppData(f, job.sizes, 1, tries, bus, k);
    var o := Passes(f, job.sizes, n, false, tries, bus, k);
    NotThere(job.sizes, job.words, w, o.events, fates, c, at);
    LoopInJob(job.sizes, job.words, w, o.events, fates, c, at);
    UploadSafety.PassesSplit(f, job.sizes, n, tries, bus, k);
    AppDataDelivers(f, job.words, job.sizes, job.sectors, 0, tries, bus, k);
    LossInData(f, job, c, n, tries, bus, k, w, fates, at);
    var rest := if a.result == Failed then Passes(f, job.sizes, n - 1, false, tries, bus, a.next)
                else Passes(f, job.sizes, n, true, tries, bus, a.next);
    LosesHere(job.sizes, job.words, w, a.events, rest.events, fates, c, at);
    var stuck := LoseData(f, job, 0, c, tries, bus, k, w, fates[..|a.events|], at);
    var x := LostReach(job.sizes, w, a.events, fates[..|a.events|], at);
    if a.result == Success {
      AcceptedCollects(job, f, x.device);
      VectorOnlyStep(f, job, n, tries, bus, a.next, x, fates[|a.events|..]);
    } else if tries == 1 {
      PassesAfterStuck(f, job, stuck, c, n - 1, tries, bus, a.next, x, fates[|a.events|..]);
    } else {
      DoomedPasses(f, job, n - 1, tries, bus, a.next, x, fates[|a.events|..]);
    }
  }

  /** The loss is in the data part of the first pass. */
  lemma LossInData(
    f: BinaryFile, job: Job, c: nat, n: nat, tries: nat, bus: Bus, k: nat, w: World, fates: seq<Fate>, at: nat)
    requires Describes(f, job.words, job.sizes, job.sectors) && ValidJob(job) && n > 0 && tries > 0
    requires job.sizes != [] && Awaits(job, w.device, 0, 1) && |f.vectorTable| == VECTOR_WORDS
    requires var o := Passes(f, job.sizes, n, false, tries, bus, k);
             |fates| == |o.events| && OnlyLoses(job.sizes, job.words, w, o.events, fates, c, at)
    ensures var events := AppData(f, job.sizes, 1, tries, bus, k).events;
            Sent(LoopInfo(c)) in events && events[|events| - 1].AckWaited?
  {
    hide Awaits, HasAccepted, Start, Reach, IsUndisturbed, ValidJob, AppData, Describes, OnlyLoses, LostReach, Passes;
    hide SignsAs, GoesOn, UploadSafety.VectorPhase, Expected;
    FirstSector(job);
    var a := AppData(f, job.sizes, 1, tries, bus, k);
    UploadSafety.PassesSplit(f, job.sizes, n, tries, bus, k);
    AppDataDelivers(f, job.words, job.sizes, job.sectors, 0, tries, bus, k);
    if Sent(LoopInfo(c)) !in a.events {
      var rest := if a.result == Failed then Passes(f, job.sizes, n - 1, false, tries, bus, a.next)
                  else Passes(f, job.sizes, n, true, tries, bus, a.next);
      LosesLater(job.sizes, job.words, w, a.events, rest.events, fates, c, at);
      AwaitsGoesOn(job, w.device, 0);
      SignsAsSent(job);
      DataGoesThrough(f, job, job.words, 0, 1, tries, bus, k, w, fates[..|a.events|]);
      UploadSafety.VectorOnlyPhase(f, job.sizes, n, tries, bus, a.next);
      VectorHasNoLoops(rest.events, c);
      NotThere(job.sizes, job.words, Reach(job.sizes, w, a.events, fates[..|a.events|]), rest.events,
               fates[|a.events|..], c, at - |a.events|);
      assert false;
    }
  }

  // ---------- the whole upload ----------

  /**
   * An upload that loses exactly the word of loop c, in the first attempt, returns True exactly if the word that the
   * receiver takes instead is the same, and there is another attempt at the sub-sector or else another pass that
   * starts again where the receiver still is.  Then the image is installed, like without the loss.
   */
  lemma LosingOneWord(
    f: BinaryFile, job: Job, c: nat, info: BootloaderStatus, limits: Limits, bus: Bus, k: nat, w: World,
    fates: seq<Fate>, at: nat)
    requires Describes(f, job.words, job.sizes, job.sectors) && FitsBuffer(job.sizes)
    requires UploadSpec.IsComplete(info) && limits.passes > 0 && limits.tries > 0 && limits.polls > 0
    requires Holds(job.sizes, w.device) && w.device.boot !in {BootRun, BootLeft}
    requires IsCurrent(info, w.device)
    requires var o := AppBinary(f, job.sizes, info, limits, bus, k);
             |fates| == |o.events| && OnlyLoses(job.sizes, job.words, w, o.events, fates, c, at)
    ensures 1 <= c <= |job.words| && job.sizes != []
    ensures var o := AppBinary(f, job.sizes, info, limits, bus, k);
            && at < |o.events|
            && o.result == Judge(Recovers(job, limits.passes, limits.tries, c))
            && (o.result == Success ==> IsInstalled(job, f, LostReach(job.sizes, w, o.events, fates, at).device))
  {
    hide Reach, IsUndisturbed, Holds, IsInformed, Handshake, Passes, IsInstalled, Awaits, Describes, OnlyLoses;
    hide LostReach, IsIdle, AtTheBeginning, UploadSafety.NoPayload, UploadSafety.StartsSafely, Recovers, Chain;
    JobOf(f, job);
    FirstSector(job);
    DescribedVector(f, job);
    var h := Handshake(f, info, limits.polls, bus, k);
    var o := AppBinary(f, job.sizes, info, limits, bus, k);
    UploadSafety.HandshakeSafe(f, info, limits.polls, bus, k);
    NoLoopYet(h.events, c);
    NotThere(job.sizes, job.words, w, o.events, fates, c, at);
    var p := Passes(f, job.sizes, limits.passes, false, limits.tries, bus, h.next);
    assert o == After(h.events, p);
    LosesLater(job.sizes, job.words, w, h.events, p.events, fates, c, at);
    HandshakeStep(f, job, info, limits.polls, bus, k, w, fates[..|h.events|]);
    var x := Reach(job.sizes, w, h.events, fates[..|h.events|]);
    InformedAwaits(job, x.device);
    LosePasses(f, job, c, limits.passes, limits.tries, bus, h.next, x, fates[|h.events|..], at - |h.events|);
  }

  lemma NoLoopYet(events: seq<Event>, c: nat)
    requires UploadSafety.NoPayload(events)
    ensures Sent(LoopInfo(c)) !in events
  {
  }
}
