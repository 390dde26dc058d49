/**
 * The data part of an upload seen by tool and receiver together: whatever is lost on the way, when the tool has
 * seen all sector signatures accepted the flash has the signature of the image, and is the image if no word
 * was lost after its loop number and the main loop turned between any two events.
 */
module DataTransfer {
  import opened Wrappers
  import opened Crc64
  import opened CrcImage
  import opened Protocol
  import opened Device
  import opened World
  import opened Transfer
  import opened UploadSpec
  import opened UploadProps
  import opened DeviceSafety

  predicate IsLoopFrame(e: Event) {
    e.Sent? && e.frame.LoopInfo?
  }

  predicate IsCarried(events: seq<Event>, fates: seq<Fate>, n: nat)
    requires n < |events| == |fates|
  {
    && fates[n].turns != []
    && (events[n].Sent? && events[n].frame.Data? ==>
          fates[n].delivered || (n > 0 && IsLoopFrame(events[n - 1]) && !fates[n - 1].delivered))
  }

  /**
   * No word is lost, unless its loop number is lost as well, and the receiver's main loop turns at least once
   * between two events.
   */
  predicate IsFaithful(events: seq<Event>, fates: seq<Fate>)
    requires |events| == |fates|
  {
    forall n | 0 <= n < |events| :: IsCarried(events, fates, n)
  }

  lemma FaithfulParts(a: seq<Event>, b: seq<Event>, fates: seq<Fate>)
    requires |a| + |b| == |fates| && IsFaithful(a + b, fates)
    ensures IsFaithful(a, fates[..|a|])
    ensures a == [] || !IsLoopFrame(a[|a| - 1]) ==> IsFaithful(b, fates[|a|..])
  {
    forall n | 0 <= n < |a|
      ensures IsCarried(a, fates[..|a|], n)
    {
      assert IsCarried(a + b, fates, n);
    }
    if a == [] || !IsLoopFrame(a[|a| - 1]) {
      forall n | 0 <= n < |b|
        ensures IsCarried(b, fates[|a|..], n)
      {
        assert IsCarried(a + b, fates, |a| + n);
      }
    }
  }

  // ---------- the receiver between two events ----------

  ghost predicate WorldKept(job: Job, w: World, j: nat, faithful: bool, settled: bool, expected: nat) {
    Holds(job.sizes, w.device) && Kept(job, w.device, j, faithful, settled, expected)
  }

  /** A turn leads back to the same place, also when it accepts the sector. */
  lemma KeptTurn(job: Job, w: World, j: nat, faithful: bool, settled: bool, expected: nat, hw: Hardware)
    requires ValidJob(job) && j < job.sectors && WorldKept(job, w, j, faithful, settled, expected)
    ensures WorldKept(job, Take(w, Poll(job.sizes, w.device, hw)), j, faithful, true, expected)
  {
    hide Holds, Kept, Passed, Poll, ValidJob;
    PollKeeps(job.sizes, w.device, hw);
    KeptPoll(job, w.device, j, faithful, settled, expected, hw);
    var r := Poll(job.sizes, w.device, hw);
    if CRC_YES in r.acks { PassedStays(job, r.device, j, faithful, expected); }
  }

  /** Seen from the sector that has just been accepted, the receiver is still on its way. */
  lemma PassedStays(job: Job, d: Device, j: nat, faithful: bool, expected: nat)
    requires Passed(job, d, j, faithful) && j < job.sectors
    ensures Kept(job, d, j, faithful, true, expected)
  {
    hide Start, Chain;
  }

  lemma {:induction false} KeptTurns(
    job: Job, w: World, j: nat, faithful: bool, settled: bool, expected: nat, turns: seq<Hardware>)
    requires ValidJob(job) && j < job.sectors && WorldKept(job, w, j, faithful, settled, expected)
    ensures WorldKept(job, Turns(job.sizes, w, turns), j, faithful, settled || turns != [], expected)
    decreases |turns|
  {
    hide WorldKept, Poll, ValidJob;
    if turns != [] {
      KeptTurn(job, w, j, faithful, settled, expected, turns[0]);
      KeptTurns(job, Take(w, Poll(job.sizes, w.device, turns[0])), j, faithful, true, expected, turns[1..]);
    }
  }

  // ---------- loops of sector j ----------

  /** Pairs of loop numbers and words up to loop `last`, each block followed by a wait for its acknowledgement. */
  predicate IsStream(events: seq<Event>, words: seq<Word>, last: nat)
    requires last <= |words|
    decreases |events|
  {
    || events == []
    || (&& events[0].AckWaited?
        && events[0].message == ReceivedSubSectorData
        && IsStream(events[1..], words, last))
    || (&& |events| > 2
        && IsLoopFrame(events[0])
        && 1 <= events[0].frame.loop <= last
        && events[1] == Sent(Data(words[events[0].frame.loop - 1]))
        && IsStream(events[2..], words, last))
  }

  lemma KeptExpects(job: Job, w: World, j: nat, faithful: bool, expected: nat)
    requires WorldKept(job, w, j, faithful, true, 0)
    ensures WorldKept(job, w, j, faithful, true, expected)
  {
    hide Start, Chain;
  }

  lemma SeeLoopInfo(job: Job, w: World, j: nat, faithful: bool, loop: nat, fate: Fate)
    requires ValidJob(job) && j < job.sectors && loop <= Start(job.sizes, j + 1)
    requires WorldKept(job, w, j, faithful, true, 0) && (faithful ==> fate.turns != [])
    ensures var x := See(job.sizes, w, Sent(LoopInfo(loop)), fate);
            x.Some? && WorldKept(job, x.value, j, faithful, true, if fate.delivered then loop else 0)
  {
    hide Holds, Kept, RxLoopInfo, ValidJob, Start, Turns;
    if fate.delivered {
      LoopInfoKeeps(job.sizes, w.device, loop);
      KeptLoopInfo(job, w.device, j, faithful, loop);
      var x := Receive(job.sizes, w, LoopInfo(loop));
      KeptTurns(job, x, j, faithful, false, loop, fate.turns);
      SettledOrNot(job, Turns(job.sizes, x, fate.turns).device, j, faithful, fate.turns != [], loop);
    } else {
      KeptTurns(job, w, j, faithful, true, 0, fate.turns);
    }
  }

  lemma SettledOrNot(job: Job, d: Device, j: nat, faithful: bool, settled: bool, expected: nat)
    requires Kept(job, d, j, faithful, settled, expected) && (faithful ==> settled)
    ensures Kept(job, d, j, faithful, true, expected)
  {
  }

  /** The word of loop `loop` may be lost if its loop number was not delivered. */
  lemma SeeData(job: Job, w: World, j: nat, faithful: bool, loop: nat, fate: Fate, announced: bool)
    requires ValidJob(job) && j < job.sectors && 1 <= loop <= |job.words|
    requires WorldKept(job, w, j, faithful, true, if announced then loop else 0)
    requires faithful ==> fate.turns != [] && (fate.delivered || !announced)
    ensures var x := See(job.sizes, w, Sent(Data(job.words[loop - 1])), fate);
            x.Some? && WorldKept(job, x.value, j, faithful, true, 0)
  {
    hide Holds, Kept, RxData, ValidJob, Turns;
    var word := job.words[loop - 1];
    if fate.delivered {
      if !announced { KeptExpects(job, w, j, faithful, loop); }
      DataKeeps(job.sizes, w.device, word);
      KeptData(job, w.device, j, faithful, loop, word);
      var x := Receive(job.sizes, w, Data(word));
      KeptTurns(job, x, j, faithful, false, 0, fate.turns);
      SettledOrNot(job, Turns(job.sizes, x, fate.turns).device, j, faithful, fate.turns != [], 0);
    } else {
      if announced { NotFaithful(job, w.device, j, loop, faithful); }
      KeptTurns(job, w, j, faithful, true, 0, fate.turns);
    }
  }

  lemma NotFaithful(job: Job, d: Device, j: nat, expected: nat, faithful: bool)
    requires Kept(job, d, j, faithful, true, expected) && !faithful
    ensures Kept(job, d, j, faithful, true, 0)
  {
  }

  lemma SeeSubSectorWait(job: Job, w: World, j: nat, faithful: bool, e: Event, fate: Fate)
    requires ValidJob(job) && j < job.sectors && WorldKept(job, w, j, faithful, true, 0)
    requires e.AckWaited? && e.message == ReceivedSubSectorData
    ensures var x := See(job.sizes, w, e, fate);
            x.Some? && WorldKept(job, x.value, j, faithful, true, 0) && x.value.heard == {}
  {
    hide Holds, Kept, ValidJob, Turns;
    KeptTurns(job, w, j, faithful, true, 0, fate.turns);
  }

  /** Sending loops of sector j leaves the receiver where it can still only accept sector j or a later one. */
  lemma {:induction false} StreamKept(
    job: Job, w: World, events: seq<Event>, fates: seq<Fate>, j: nat, faithful: bool)
    requires ValidJob(job) && j < job.sectors && Start(job.sizes, j + 1) <= |job.words|
    requires |events| == |fates| && IsStream(events, job.words, Start(job.sizes, j + 1))
    requires WorldKept(job, w, j, faithful, true, 0) && (faithful ==> IsFaithful(events, fates))
    ensures var x := Observe(job.sizes, w, events, fates);
            && x.Some?
            && WorldKept(job, x.value, j, faithful, true, 0)
            && (events != [] ==> x.value.heard == {})
    decreases |events|
  {
    hide WorldKept, ValidJob, Start, See;
    if faithful && events != [] { assert IsCarried(events, fates, 0); }
    if events == [] {
    } else if events[0].AckWaited? {
      SeeSubSectorWait(job, w, j, faithful, events[0], fates[0]);
      var x := See(job.sizes, w, events[0], fates[0]).value;
      if faithful { FaithfulRest(events, fates, 1); }
      StreamKept(job, x, events[1..], fates[1..], j, faithful);
    } else {
      var loop := events[0].frame.loop;
      SeeLoopInfo(job, w, j, faithful, loop, fates[0]);
      var x := See(job.sizes, w, events[0], fates[0]).value;
      assert events[1..][1..] == events[2..] && fates[1..][1..] == fates[2..];
      if faithful { assert IsCarried(events, fates, 1); }
      SeeData(job, x, j, faithful, loop, fates[1], fates[0].delivered);
      var y := See(job.sizes, x, events[1], fates[1]).value;
      if faithful { FaithfulRest(events, fates, 2); }
      StreamKept(job, y, events[2..], fates[2..], j, faithful);
    }
  }

  lemma FaithfulRest(events: seq<Event>, fates: seq<Fate>, n: nat)
    requires |events| == |fates| && IsFaithful(events, fates)
    requires 1 <= n <= |events| && !IsLoopFrame(events[n - 1])
    ensures IsFaithful(events[n..], fates[n..])
  {
    assert events[..n] + events[n..] == events;
    FaithfulParts(events[..n], events[n..], fates);
  }

  // ---------- what the tool sends is such a stream ----------

  lemma {:induction false} StreamConcat(a: seq<Event>, b: seq<Event>, words: seq<Word>, last: nat)
    requires last <= |words| && IsStream(a, words, last) && IsStream(b, words, last)
    ensures IsStream(a + b, words, last)
    decreases |a|
  {
    if a == [] {
      assert a + b == b;
    } else if a[0].AckWaited? {
      assert (a + b)[1..] == a[1..] + b;
      StreamConcat(a[1..], b, words, last);
    } else {
      assert (a + b)[2..] == a[2..] + b;
      StreamConcat(a[2..], b, words, last);
    }
  }

  lemma {:induction false} PairsStream(words: seq<Word>, first: nat, end: nat, last: nat, wait: Event)
    requires 1 <= first <= end + 1 && end <= last <= |words|
    requires wait.AckWaited? && wait.message == ReceivedSubSectorData
    ensures IsStream(Sends(Pairs(words, first, end)) + [wait], words, last)
    decreases end + 1 - first
  {
    if first > end {
      assert Sends(Pairs(words, first, end)) + [wait] == [wait];
    } else {
      var pair := [LoopInfo(first), Data(words[first - 1])];
      var rest := Sends(Pairs(words, first + 1, end)) + [wait];
      SendsConcat(pair, Pairs(words, first + 1, end));
      assert pair[1..] == [Data(words[first - 1])];
      assert Sends([Data(words[first - 1])]) == [Sent(Data(words[first - 1]))];
      assert Sends(pair) == [Sent(LoopInfo(first)), Sent(Data(words[first - 1]))];
      PairsStream(words, first + 1, end, last, wait);
      var events := Sends(Pairs(words, first, end)) + [wait];
      assert events == Sends(pair) + rest;
      assert events[2..] == rest;
    }
  }

  lemma {:induction false} TriesStream(
    f: BinaryFile, words: seq<Word>, sizes: seq<nat>, sectors: nat,
    first: nat, end: nat, last: nat, tries: nat, bus: Bus, k: nat)
    requires Describes(f, words, sizes, sectors) && 1 <= first <= end + 1 && end <= last <= |words|
    ensures IsStream(SubSectorTries(f, first, end, tries, bus, k).events, words, last)
    decreases tries
  {
    hide SubSector, Describes, Pairs;
    if tries > 0 {
      var a := SubSector(f, first, end, bus, k);
      SubSectorShape(f, words, sizes, sectors, first, end, bus, k);
      PairsStream(words, first, end, last, AckWaited(ReceivedSubSectorData, ReceivedAndProcessed, Answer(bus, k).ack));
      TriesStream(f, words, sizes, sectors, first, end, last, tries - 1, bus, a.next);
      StreamConcat(a.events, SubSectorTries(f, first, end, tries - 1, bus, a.next).events, words, last);
    }
  }

  lemma {:induction false} SectorLoopsStream(
    f: BinaryFile, words: seq<Word>, sizes: seq<nat>, sectors: nat,
    j: nat, i: nat, tries: nat, bus: Bus, k: nat)
    requires Describes(f, words, sizes, sectors) && j < sectors && Start(sizes, j + 1) <= |words|
    requires Start(sizes, j) < i <= Start(sizes, j + 1) + 1 && i % SUB_SECTOR_LOOPS == 1
    ensures IsStream(SectorLoops(f, i, Start(sizes, j + 1), |words|, tries, bus, k).events, words, Start(sizes, j + 1))
    decreases Start(sizes, j + 1) + SUB_SECTOR_LOOPS - i
  {
    hide Start, SubSectorTries, SubSectorLoops, SectorLoops, IsStream;
    var last := Start(sizes, j + 1);
    if i > last {
      NoLoopsStream(f, words, i, last, tries, bus, k);
    } else {
      SectorLoopsSubSector(f, sizes, sectors, j, i, tries, bus, k);
      var end := i + SUB_SECTOR_LOOPS - 1;
      var a := SubSectorTries(f, i, end, tries, bus, k);
      TriesStream(f, words, sizes, sectors, i, end, last, tries, bus, k);
      SectorLoopsStream(f, words, sizes, sectors, j, end + 1, tries, bus, a.next);
      StreamConcat(a.events, SectorLoops(f, end + 1, last, |words|, tries, bus, a.next).events, words, last);
    }
  }

  lemma NoLoopsStream(f: BinaryFile, words: seq<Word>, i: nat, last: nat, tries: nat, bus: Bus, k: nat)
    requires i > last && last <= |words|
    ensures IsStream(SectorLoops(f, i, last, |words|, tries, bus, k).events, words, last)
  {
  }

  // ---------- the signature of sector j ----------

  /** While the tool waits for the signature: accepted and noticed, or neither. */
  ghost predicate Watched(job: Job, w: World, j: nat, faithful: bool, settled: bool) {
    && Holds(job.sizes, w.device)
    && if CRC_YES in w.heard then Passed(job, w.device, j, faithful)
       else Kept(job, w.device, j, faithful, settled, 0)
  }

  lemma WatchedTurn(job: Job, w: World, j: nat, faithful: bool, settled: bool, hw: Hardware)
    requires ValidJob(job) && j < job.sectors && Watched(job, w, j, faithful, settled)
    ensures Watched(job, Take(w, Poll(job.sizes, w.device, hw)), j, faithful, true)
  {
    hide Holds, Kept, Passed, Poll, ValidJob;
    PollKeeps(job.sizes, w.device, hw);
    if CRC_YES in w.heard {
      PassedPoll(job, w.device, j, faithful, hw);
    } else {
      KeptPoll(job, w.device, j, faithful, settled, 0, hw);
    }
  }

  lemma {:induction false} WatchedTurns(
    job: Job, w: World, j: nat, faithful: bool, settled: bool, turns: seq<Hardware>)
    requires ValidJob(job) && j < job.sectors && Watched(job, w, j, faithful, settled)
    ensures Watched(job, Turns(job.sizes, w, turns), j, faithful, settled || turns != [])
    decreases |turns|
  {
    hide Watched, Poll, ValidJob;
    if turns != [] {
      WatchedTurn(job, w, j, faithful, settled, turns[0]);
      WatchedTurns(job, Take(w, Poll(job.sizes, w.device, turns[0])), j, faithful, true, turns[1..]);
    }
  }

  lemma SeeCrc(job: Job, w: World, j: nat, faithful: bool, fate: Fate)
    requires ValidJob(job) && j < job.sectors && WorldKept(job, w, j, faithful, true, 0) && w.heard == {}
    requires faithful ==> fate.turns != []
    ensures var x := See(job.sizes, w, Sent(CrcSignature(SectorCrc(job, j))), fate);
            x.Some? && Watched(job, x.value, j, faithful, true)
  {
    hide Holds, Kept, Passed, RxCrc, ValidJob, Turns, SectorCrc;
    var crc := SectorCrc(job, j);
    if fate.delivered {
      CrcKeeps(job.sizes, w.device, crc);
      KeptCrc(job, w.device, j, faithful);
      var x := Receive(job.sizes, w, CrcSignature(crc));
      WatchedTurns(job, x, j, faithful, false, fate.turns);
      WatchedSettled(job, Turns(job.sizes, x, fate.turns), j, faithful, fate.turns != []);
    } else {
      WatchedTurns(job, w, j, faithful, true, fate.turns);
    }
  }

  lemma WatchedSettled(job: Job, w: World, j: nat, faithful: bool, settled: bool)
    requires Watched(job, w, j, faithful, settled) && (faithful ==> settled)
    ensures Watched(job, w, j, faithful, true)
  {
    hide Holds, Passed;
    if CRC_YES !in w.heard { SettledOrNot(job, w.device, j, faithful, settled, 0); }
  }

  /** A signature seen accepted has been accepted by the receiver. */
  lemma SeeCrcWait(job: Job, w: World, j: nat, faithful: bool, reply: AckReply, fate: Fate)
    requires ValidJob(job) && j < job.sectors && Watched(job, w, j, faithful, true)
    requires See(job.sizes, w, AckWaited(ReceivedCrc, ReceivedAndProcessed, reply), fate).Some?
    ensures var x := See(job.sizes, w, AckWaited(ReceivedCrc, ReceivedAndProcessed, reply), fate).value;
            && x.heard == {}
            && Holds(job.sizes, x.device)
            && (reply == Yes ==> Passed(job, x.device, j, faithful))
            && Kept(job, x.device, j, faithful, true, 0)
  {
    hide Holds, Kept, Passed, ValidJob, Turns;
    WatchedTurns(job, w, j, faithful, true, fate.turns);
    var x := Turns(job.sizes, w, fate.turns);
    if CRC_YES in x.heard { PassedStays(job, x.device, j, faithful, 0); }
  }

  /** The exchange of the signature of sector j. */
  lemma CrcExchange(job: Job, w: World, j: nat, faithful: bool, bus: Bus, k: nat, fates: seq<Fate>)
    requires ValidJob(job) && j < job.sectors && WorldKept(job, w, j, faithful, true, 0) && w.heard == {}
    requires |fates| == 2
    requires var o := JudgeCrc(SendCrc(SectorCrc(job, j), false, bus, k));
             && (faithful ==> IsFaithful(o.events, fates))
             && Observe(job.sizes, w, o.events, fates).Some?
    ensures var o := JudgeCrc(SendCrc(SectorCrc(job, j), false, bus, k));
            var x := Observe(job.sizes, w, o.events, fates).value;
            && WorldKept(job, x, j, faithful, true, 0)
            && (o.result == Success ==> Passed(job, x.device, j, faithful))
  {
    hide Holds, Kept, Passed, ValidJob, See, SectorCrc, Watched;
    var o := JudgeCrc(SendCrc(SectorCrc(job, j), false, bus, k));
    if faithful { assert IsCarried(o.events, fates, 0); }
    ObserveTwo(job.sizes, w, o.events[0], o.events[1], fates);
    SeeCrc(job, w, j, faithful, fates[0]);
    var x := See(job.sizes, w, o.events[0], fates[0]).value;
    SeeCrcWait(job, x, j, faithful, Answer(bus, k).ack, fates[1]);
  }

  // ---------- all sectors ----------

  /** The tool has sent the data of sectors j and on. */
  ghost predicate AfterData(job: Job, w: World, faithful: bool, result: Verdict) {
    && 1 <= job.sectors
    && Holds(job.sizes, w.device)
    && Kept(job, w.device, 0, faithful, true, 0)
    && (result == Success ==> Passed(job, w.device, job.sectors - 1, faithful))
  }

  /** One sector: its loops, then its signature. */
  lemma SectorKept(
    f: BinaryFile, job: Job, j: nat, tries: nat, bus: Bus, k: nat,
    w: World, fates: seq<Fate>, faithful: bool)
    requires Describes(f, job.words, job.sizes, job.sectors) && ValidJob(job) && j < job.sectors
    requires WorldKept(job, w, j, faithful, true, 0)
    requires var o := Sector(f, Start(job.sizes, j) + 1, |job.words|, LoopsIn(job.sizes, j), tries, bus, k);
             && |fates| == |o.events|
             && (faithful ==> IsFaithful(o.events, fates))
             && Observe(job.sizes, w, o.events, fates).Some?
    ensures var o := Sector(f, Start(job.sizes, j) + 1, |job.words|, LoopsIn(job.sizes, j), tries, bus, k);
            var x := Observe(job.sizes, w, o.events, fates).value;
            && WorldKept(job, x, j, faithful, true, 0)
            && (o.result == Success ==> Passed(job, x.device, j, faithful))
  {
    hide WorldKept, Passed, ValidJob, Observe, Sector, SectorLoops, Start, IsFaithful, IsStream, SendCrc, JudgeCrc;
    SectorSplit(f, job.words, job.sizes, job.sectors, j, tries, bus, k);
    var last := Start(job.sizes, j + 1);
    var a := SectorLoops(f, Start(job.sizes, j) + 1, last, |job.words|, tries, bus, k);
    SectorLoopsStream(f, job.words, job.sizes, job.sectors, j, Start(job.sizes, j) + 1, tries, bus, k);
    if a.result != Success {
      StreamKept(job, w, a.events, fates, j, faithful);
    } else {
      var c := JudgeCrc(SendCrc(SectorCrc(job, j), false, bus, a.next));
      SomeLoops(f, job, j, tries, bus, k);
      CrcEvents(SectorCrc(job, j), bus, a.next);
      if faithful { FaithfulParts(a.events, c.events, fates); }
      ObserveConcat(job.sizes, w, a.events, c.events, fates);
      StreamKept(job, w, a.events, fates[..|a.events|], j, faithful);
      CrcExchange(job, Observe(job.sizes, w, a.events, fates[..|a.events|]).value, j, faithful, bus, a.next,
                  fates[|a.events|..]);
    }
  }

  /** A successful sector has sent something, and its last event is a wait. */
  lemma SomeLoops(f: BinaryFile, job: Job, j: nat, tries: nat, bus: Bus, k: nat)
    requires Describes(f, job.words, job.sizes, job.sectors) && j < job.sectors
    requires var i, last := Start(job.sizes, j) + 1, Start(job.sizes, j + 1);
             SectorLoops(f, i, last, |job.words|, tries, bus, k).result == Success
    ensures var i, last := Start(job.sizes, j) + 1, Start(job.sizes, j + 1);
            var events := SectorLoops(f, i, last, |job.words|, tries, bus, k).events;
            events != [] && !IsLoopFrame(events[|events| - 1])
  {
    hide Start, SectorLoops;
    SectorPlace(job.sizes, job.sectors, j);
    SectorLoopsDeliver(f, job.words, job.sizes, job.sectors, j, Start(job.sizes, j) + 1, tries, bus, k);
  }

  lemma CrcEvents(crc: Word, bus: Bus, k: nat)
    ensures |JudgeCrc(SendCrc(crc, false, bus, k)).events| == 2
  {
  }

  lemma {:induction false} AppDataKept(
    f: BinaryFile, job: Job, j: nat, tries: nat, bus: Bus, k: nat,
    w: World, fates: seq<Fate>, faithful: bool)
    requires Describes(f, job.words, job.sizes, job.sectors) && ValidJob(job) && j < job.sectors
    requires WorldKept(job, w, j, faithful, true, 0)
    requires var o := AppData(f, job.sizes, Start(job.sizes, j) + 1, tries, bus, k);
             && |fates| == |o.events|
             && (faithful ==> IsFaithful(o.events, fates))
             && Observe(job.sizes, w, o.events, fates).Some?
    ensures var o := AppData(f, job.sizes, Start(job.sizes, j) + 1, tries, bus, k);
            AfterData(job, Observe(job.sizes, w, o.events, fates).value, faithful, o.result)
    decreases job.sectors - j
  {
    hide Holds, Kept, Passed, ValidJob, Observe, Sector, AppData, Start, IsFaithful;
    AppDataSector(f, job.words, job.sizes, job.sectors, j, tries, bus, k);
    var a := Sector(f, Start(job.sizes, j) + 1, |job.words|, LoopsIn(job.sizes, j), tries, bus, k);
    if a.result != Success {
      SectorKept(f, job, j, tries, bus, k, w, fates, faithful);
      KeptAgain(job, Observe(job.sizes, w, a.events, fates).value.device, j, faithful);
    } else {
      var rest := AppData(f, job.sizes, Start(job.sizes, j + 1) + 1, tries, bus, a.next);
      SomeSector(f, job, j, tries, bus, k);
      if faithful { FaithfulParts(a.events, rest.events, fates); }
      ObserveConcat(job.sizes, w, a.events, rest.events, fates);
      SectorKept(f, job, j, tries, bus, k, w, fates[..|a.events|], faithful);
      var x := Observe(job.sizes, w, a.events, fates[..|a.events|]).value;
      if j + 1 < job.sectors {
        PassedIsKept(job, x.device, j, faithful);
        AppDataKept(f, job, j + 1, tries, bus, a.next, x, fates[|a.events|..], faithful);
      } else {
        AppDataEnd(f, job.words, job.sizes, job.sectors, tries, bus, a.next);
        ObserveNothing(job.sizes, x, fates[|a.events|..]);
        KeptAgain(job, x.device, j, faithful);
      }
    }
  }

  lemma ObserveNothing(sizes: seq<nat>, w: World, fates: seq<Fate>)
    requires fates == []
    ensures Observe(sizes, w, [], fates) == Some(w)
  {
  }

  /** A successful sector ends with a wait. */
  lemma SomeSector(f: BinaryFile, job: Job, j: nat, tries: nat, bus: Bus, k: nat)
    requires Describes(f, job.words, job.sizes, job.sectors) && j < job.sectors
    ensures var events := Sector(f, Start(job.sizes, j) + 1, |job.words|, LoopsIn(job.sizes, j), tries, bus, k).events;
            events == [] || !IsLoopFrame(events[|events| - 1])
  {
    hide Start, Sector;
    SectorDelivers(f, job.words, job.sizes, job.sectors, j, tries, bus, k);
  }
}
