/**
 * When repeating helps: what the receiver has left behind it does not store again, so a pass that is repeated can
 * only succeed while the receiver is still where a pass begins.
 */
module Retries {
  import opened Crc64
  import opened CrcImage
  import opened Protocol
  import opened Device
  import opened World
  import opened Transfer
  import opened DataTransfer
  import opened Refusal
  import opened UploadSpec
  import opened UploadProps
  import UploadSafety
  import opened DeviceSafety
  import opened Undisturbed
  import opened UndisturbedData
  import opened UndisturbedUpload

  // ---------- runs that cannot succeed any more ----------

  /** The receiver has left the loops up to `end` behind, or accepts nothing any more. */
  ghost predicate IsDoomed(w: World, end: nat) {
    IsDead(w) || (IsPast(w.device, end) && w.heard == {})
  }

  lemma DoomedBefore(w: World, end: nat, before: nat)
    requires IsDoomed(w, end) && before <= end
    ensures IsDoomed(w, before)
  {
    hide IsDead;
  }

  /** The data of a sector and on starts with the tries of its first sub-sector, and fails with them. */
  lemma DataStartsWithTries(f: BinaryFile, job: Job, j: nat, tries: nat, bus: Bus, k: nat)
    requires Describes(f, job.words, job.sizes, job.sectors) && j < job.sectors <= |job.sizes|
    ensures Start(job.sizes, j) + SUB_SECTOR_LOOPS <= |job.words|
    ensures var from := Start(job.sizes, j);
            var t := SubSectorTries(f, from + 1, from + SUB_SECTOR_LOOPS, tries, bus, k);
            var a := AppData(f, job.sizes, from + 1, tries, bus, k);
            t.events <= a.events && (t.result == Failed ==> a == t)
  {
    hide Start, SubSectorTries, Sector, SectorLoops, AppData, SubSectorLoops, JudgeCrc, SendCrc, Column, Chain;
    SectorPlace(job.sizes, job.sectors, j);
    AppDataSector(f, job.words, job.sizes, job.sectors, j, tries, bus, k);
    SectorSplit(f, job.words, job.sizes, job.sectors, j, tries, bus, k);
    SectorLoopsSubSector(f, job.sizes, job.sectors, j, Start(job.sizes, j) + 1, tries, bus, k);
  }

  lemma PastData(
    f: BinaryFile, job: Job, j: nat, tries: nat, bus: Bus, k: nat, w: World, fates: seq<Fate>)
    requires Describes(f, job.words, job.sizes, job.sectors) && j < job.sectors <= |job.sizes|
    requires IsPast(w.device, Start(job.sizes, j) + SUB_SECTOR_LOOPS) && w.heard == {}
    requires var o := AppData(f, job.sizes, Start(job.sizes, j) + 1, tries, bus, k);
             |fates| == |o.events| && IsUndisturbed(job.sizes, w, o.events, fates)
    ensures var o := AppData(f, job.sizes, Start(job.sizes, j) + 1, tries, bus, k);
            o.result == Failed && Reach(job.sizes, w, o.events, fates) == w
  {
    hide IsPast, Reach, IsUndisturbed, SubSectorTries, AppData, Describes, Start;
    DataStartsWithTries(f, job, j, tries, bus, k);
    var first, end := Start(job.sizes, j) + 1, Start(job.sizes, j) + SUB_SECTOR_LOOPS;
    var t := SubSectorTries(f, first, end, tries, bus, k);
    var a := AppData(f, job.sizes, first, tries, bus, k);
    if t.result != Failed {
      var rest := a.events[|t.events|..];
      assert a.events == t.events + rest;
      UndisturbedConcat(job.sizes, w, t.events, rest, fates);
      TriesIgnored(f, job, first, end, tries, bus, k, w, fates[..|t.events|]);
      assert false;
    } else {
      TriesIgnored(f, job, first, end, tries, bus, k, w, fates);
    }
  }

  /** The data of sector j and on fails, and leaves it at that. */
  lemma DoomedData(
    f: BinaryFile, job: Job, j: nat, tries: nat, bus: Bus, k: nat, w: World, fates: seq<Fate>)
    requires Describes(f, job.words, job.sizes, job.sectors) && j < job.sectors <= |job.sizes|
    requires IsDoomed(w, Start(job.sizes, j) + SUB_SECTOR_LOOPS)
    requires var o := AppData(f, job.sizes, Start(job.sizes, j) + 1, tries, bus, k);
             |fates| == |o.events| && IsUndisturbed(job.sizes, w, o.events, fates)
    ensures var o := AppData(f, job.sizes, Start(job.sizes, j) + 1, tries, bus, k);
            && o.result != Success
            && IsDoomed(Reach(job.sizes, w, o.events, fates), Start(job.sizes, j) + SUB_SECTOR_LOOPS)
  {
    hide IsPast, IsDead, Reach, IsUndisturbed, Observe, AppData, Describes, Start;
    if IsDead(w) {
      var o := AppData(f, job.sizes, Start(job.sizes, j) + 1, tries, bus, k);
      DataStartsWithTries(f, job, j, tries, bus, k);
      WordsOf(f, job);
      ReachIsObserved(job.sizes, w, o.events, fates);
      DeadData(f, job.sizes, Start(job.sizes, j) + 1, tries, bus, k, w, fates);
    } else {
      PastData(f, job, j, tries, bus, k, w, fates);
    }
  }

  lemma WordsOf(f: BinaryFile, job: Job)
    requires Describes(f, job.words, job.sizes, job.sectors)
    ensures f.lenInWords == |job.words|
  {
    hide Start;
  }

  lemma {:induction false} DoomedPasses(
    f: BinaryFile, job: Job, n: nat, tries: nat, bus: Bus, k: nat, w: World, fates: seq<Fate>)
    requires Describes(f, job.words, job.sizes, job.sectors) && ValidJob(job) && |f.vectorTable| == VECTOR_WORDS
    requires IsDoomed(w, SUB_SECTOR_LOOPS)
    requires var o := Passes(f, job.sizes, n, false, tries, bus, k);
             |fates| == |o.events| && IsUndisturbed(job.sizes, w, o.events, fates)
    ensures Passes(f, job.sizes, n, false, tries, bus, k).result == Failed
    decreases n
  {
    hide IsDoomed, Reach, IsUndisturbed, AppData, Describes, ValidJob, Start, Expected;
    if n > 0 {
      hide Passes;
      FirstSector(job);
      var a := AppData(f, job.sizes, 1, tries, bus, k);
      var rest := PassesRest(f, job, n, tries, bus, k);
      UndisturbedConcat(job.sizes, w, a.events, rest.events, fates);
      DoomedData(f, job, 0, tries, bus, k, w, fates[..|a.events|]);
      AppDataDelivers(f, job.words, job.sizes, job.sectors, 0, tries, bus, k);
      DoomedPasses(f, job, n - 1, tries, bus, a.next, Reach(job.sizes, w, a.events, fates[..|a.events|]),
                   fates[|a.events|..]);
    }
  }

  lemma FirstSector(job: Job)
    requires ValidJob(job)
    ensures 1 <= job.sectors <= |job.sizes| && Start(job.sizes, 0) == 0
    ensures SUB_SECTOR_LOOPS <= Start(job.sizes, 1) <= |job.words|
  {
    SectorBounds(job.sizes, 0);
    StartMono(job.sizes, 1, job.sectors);
  }

  /** What follows the first data part. */
  lemma PassesRest(f: BinaryFile, job: Job, n: nat, tries: nat, bus: Bus, k: nat) returns (rest: Outcome<Verdict>)
    requires |f.vectorTable| == VECTOR_WORDS && n > 0
    ensures var a := AppData(f, job.sizes, 1, tries, bus, k);
            var o := Passes(f, job.sizes, n, false, tries, bus, k);
            && o.events == a.events + rest.events
            && o.result == rest.result
            && (a.result == Exit ==> rest.result == Exit)
            && (a.result == Failed ==> rest == Passes(f, job.sizes, n - 1, false, tries, bus, a.next))
  {
    hide AppData, Passes;
    UploadSafety.PassesSplit(f, job.sizes, n, tries, bus, k);
    var a := AppData(f, job.sizes, 1, tries, bus, k);
    rest := match a.result
            case Exit => Outcome([], a.next, Exit)
            case Failed => Passes(f, job.sizes, n - 1, false, tries, bus, a.next)
            case Success => Passes(f, job.sizes, n, true, tries, bus, a.next);
  }

  // ---------- a wrong word in the first sector ----------

  /** A signature that is not that of the complete sector is refused. */
  lemma CrcRefused(job: Job, j: nat, crc: Word, bus: Bus, k: nat, w: World, fates: seq<Fate>)
    requires ValidJob(job) && j < job.sectors && Has(job, w.device, j, Start(job.sizes, j + 1)) && |fates| == 2
    requires w.heard == {} && crc != SectorCrc(job, j)
    requires IsUndisturbed(job.sizes, w, JudgeCrc(SendCrc(crc, false, bus, k)).events, fates)
    ensures var o := JudgeCrc(SendCrc(crc, false, bus, k));
            o.result == Failed && IsDead(Reach(job.sizes, w, o.events, fates))
  {
    hide Has, Start, Reach, IsUndisturbed, ValidJob, IsStill, SectorCrc, RxCrc, Poll, Holds, IsOff, Turns;
    var o := JudgeCrc(SendCrc(crc, false, bus, k));
    var reply := Answer(bus, k).ack;
    var wait := AckWaited(ReceivedCrc, ReceivedAndProcessed, reply);
    assert o.events == [Sent(CrcSignature(crc))] + [wait];
    UndisturbedConcat(job.sizes, w, [Sent(CrcSignature(crc))], [wait], fates);
    UndisturbedOne(job.sizes, w, Sent(CrcSignature(crc)), fates[..1]);
    WrongCrc(job, w.device, j, crc);
    TurnsOnce(job.sizes, Receive(job.sizes, w, CrcSignature(crc)), fates[..1][0].turns);
    var z := Reach(job.sizes, w, [Sent(CrcSignature(crc))], fates[..1]);
    WaitStep(job.sizes, z, ReceivedCrc, ReceivedAndProcessed, reply, fates[1..]);
  }

  lemma WrongCrc(job: Job, d: Device, j: nat, crc: Word)
    requires ValidJob(job) && j < job.sectors && Has(job, d, j, Start(job.sizes, j + 1)) && crc != SectorCrc(job, j)
    ensures var r := RxCrc(job.sizes, d, crc);
            var x := Poll(job.sizes, r.device, Works);
            && CRC_YES !in r.acks && CRC_YES !in x.acks
            && IsOff(x.device) && IsStill(job.sizes, x.device)
    ensures d.boot != BootLeft
  {
    hide Start, Chain, SectorCrc, Holds, WriteSector, SectorFull, IsStored;
    CrcArrives(job, d, j);
    var right := RxCrc(job.sizes, d, SectorCrc(job, j)).device;
    WrittenSigns(job, right, j);
    var wrong := RxCrc(job.sizes, d, crc).device;
    assert wrong == right.(info := right.info.(crc := crc));
    SameSector(job.sizes, right, wrong);
  }

  /** What is written does not depend on the signature. */
  lemma SameSector(sizes: seq<nat>, d: Device, x: Device)
    requires CanWrite(sizes, d) && x == d.(info := d.info.(crc := x.info.crc))
    ensures CanWrite(sizes, x) && WriteSector(sizes, x, Works) == WriteSector(sizes, d, Works)
  {
    hide Start;
  }

  /** A sector that the receiver completes with other words is refused, if they have another signature. */
  lemma RefusedSector(
    f: BinaryFile, job: Job, sent: seq<Word>, j: nat, c: nat, tries: nat, bus: Bus, k: nat, w: World,
    fates: seq<Fate>)
    requires Describes(f, sent, job.sizes, job.sectors) && ValidJob(job) && j < job.sectors && tries > 0
    requires |sent| == |job.words| && !SignsAs(job, sent, j)
    requires GoesOn(job, sent, w.device, j, c) && (w.device.can == ReceivedLoopNumber ==> w.heard == {})
    requires var o := Sector(f, Start(job.sizes, j) + 1, |sent|, LoopsIn(job.sizes, j), tries, bus, k);
             |fates| == |o.events| && IsUndisturbed(job.sizes, w, o.events, fates)
    ensures var o := Sector(f, Start(job.sizes, j) + 1, |sent|, LoopsIn(job.sizes, j), tries, bus, k);
            o.result == Failed && IsDead(Reach(job.sizes, w, o.events, fates))
  {
    hide AgreeFrom, Column, LoopsIn;
    hide Has, GoesOn, Start, Reach, IsUndisturbed, ValidJob, Sector, SectorLoops, JudgeCrc, SendCrc, Describes;
    hide SectorCrc, IsDead;
    PartsOf(job);
    SentIsValid(job, sent);
    SectorCrcRow(job.(words := sent), j);
    SectorSplit(f, sent, job.sizes, job.sectors, j, tries, bus, k);
    var a := SectorLoops(f, Start(job.sizes, j) + 1, Start(job.sizes, j + 1), |sent|, tries, bus, k);
    if a.result != Success {
      SectorLoopsGo(f, job, sent, j, c, tries, bus, k, w, fates);
      assert false;
    } else {
      var crc := SectorCrc(job.(words := sent), j);
      CrcEvents(crc, bus, a.next);
      UndisturbedConcat(job.sizes, w, a.events, JudgeCrc(SendCrc(crc, false, bus, a.next)).events, fates);
      SectorLoopsGo(f, job, sent, j, c, tries, bus, k, w, fates[..|a.events|]);
      CrcRefused(job, j, crc, bus, a.next, Reach(job.sizes, w, a.events, fates[..|a.events|]), fates[|a.events|..]);
    }
  }

  /** And so the data part fails, for good. */
  lemma RefusedData(
    f: BinaryFile, job: Job, sent: seq<Word>, j: nat, c: nat, tries: nat, bus: Bus, k: nat, w: World,
    fates: seq<Fate>)
    requires Describes(f, sent, job.sizes, job.sectors) && ValidJob(job) && j < job.sectors && tries > 0
    requires |sent| == |job.words| && !SignsAs(job, sent, j)
    requires GoesOn(job, sent, w.device, j, c) && (w.device.can == ReceivedLoopNumber ==> w.heard == {})
    requires var o := AppData(f, job.sizes, Start(job.sizes, j) + 1, tries, bus, k);
             |fates| == |o.events| && IsUndisturbed(job.sizes, w, o.events, fates)
    ensures var o := AppData(f, job.sizes, Start(job.sizes, j) + 1, tries, bus, k);
            o.result != Success && IsDead(Reach(job.sizes, w, o.events, fates))
  {
    hide GoesOn, Start, Reach, IsUndisturbed, ValidJob, Sector, Describes, AppData, IsDead, SignsAs;
    PartsOf(job);
    AppDataSector(f, sent, job.sizes, job.sectors, j, tries, bus, k);
    var a := Sector(f, Start(job.sizes, j) + 1, |sent|, LoopsIn(job.sizes, j), tries, bus, k);
    if a.result != Success {
      RefusedSector(f, job, sent, j, c, tries, bus, k, w, fates);
    } else {
      var rest := AppData(f, job.sizes, Start(job.sizes, j + 1) + 1, tries, bus, a.next);
      UndisturbedConcat(job.sizes, w, a.events, rest.events, fates);
      RefusedSector(f, job, sent, j, c, tries, bus, k, w, fates[..|a.events|]);
      assert false;
    }
  }

  lemma WithShape(job: Job, at: nat, word: Word)
    requires 1 <= at <= |job.words|
    ensures var x := With(job, at, word);
            x.sizes == job.sizes && x.sectors == job.sectors && |x.words| == |job.words|
  {
  }

  /** One other word changes the signature of its sector. */
  lemma OneWordSigns(job: Job, at: nat, word: Word, j: nat)
    requires ValidJob(job) && j < job.sectors && 1 <= at <= |job.words| && at <= Start(job.sizes, j + 1)
    ensures ValidJob(With(job, at, word))
    ensures SectorCrc(With(job, at, word), j) == SectorCrc(job, j) <==> word == job.words[at - 1]
  {
    hide Start, Chain, Column, SectorCrc;
    WithIsValid(job, at, word);
    WithShape(job, at, word);
    SectorCrcRow(job, j);
    SectorCrcRow(With(job, at, word), j);
    if word != job.words[at - 1] { OneWordDetected(job.words, at - 1, word, 0, Start(job.sizes, j + 1) - 1); }
  }

  // ---------- a word that is missing behind the first sub-sector ----------

  /** `held` is what the receiver has, or will have, instead of the words of `job`. */
  predicate IsHeld(job: Job, held: Job) {
    held.sizes == job.sizes && held.sectors == job.sectors && |held.words| == |job.words|
  }

  lemma HeldIsValid(job: Job, held: Job)
    requires ValidJob(job) && IsHeld(job, held)
    ensures ValidJob(held) && held.(words := job.words) == job
  {
    hide Start;
  }

  /**
   * The first sub-sector has been acknowledged for a later one: what the receiver does not have is at most the
   * last loop, or lies behind the second sub-sector.
   */
  predicate IsAhead(d: Device) {
    && d.boot == BootLoad && d.can == Received8BytesData && d.checks == 0
    && d.info.current > SUB_SECTOR_LOOPS
    && (d.info.current == d.info.total || d.info.current > 2 * SUB_SECTOR_LOOPS)
  }

  lemma HasIsAhead(job: Job, d: Device, j: nat, c: nat)
    requires Has(job, d, j, c) && c > SUB_SECTOR_LOOPS && (c % SUB_SECTOR == 0 || c == |job.words|)
    ensures IsAhead(d) && IsPast(d, SUB_SECTOR_LOOPS)
  {
    hide Holds, Start, Chain;
  }

  /** The signature of the first sector reaches a receiver that is ahead of it. */
  lemma CrcAhead(sizes: seq<nat>, d: Device, crc: Word)
    requires IsAhead(d)
    ensures var r := RxCrc(sizes, d, crc);
            var x := Poll(sizes, r.device, Works);
            var y := Poll(sizes, x.device, Works);
            && CRC_YES !in r.acks && y.acks == {} && IsStill(sizes, y.device)
            && (CRC_YES in x.acks ==> IsOff(y.device) || IsPast(y.device, 2 * SUB_SECTOR_LOOPS))
            && (CRC_YES !in x.acks ==> IsOff(y.device) || IsPast(y.device, SUB_SECTOR_LOOPS))
    ensures d.boot != BootLeft
  {
    hide Start, Chain, WriteSector, SectorFull;
  }

  lemma CrcAheadStep(
    sizes: seq<nat>, crc: Word, bus: Bus, k: nat, w: World, fates: seq<Fate>)
    requires IsAhead(w.device) && w.heard == {} && |fates| == 2
    requires IsUndisturbed(sizes, w, JudgeCrc(SendCrc(crc, false, bus, k)).events, fates)
    ensures var o := JudgeCrc(SendCrc(crc, false, bus, k));
            var x := Reach(sizes, w, o.events, fates);
            o.result != Exit && IsDoomed(x, if o.result == Success then 2 * SUB_SECTOR_LOOPS else SUB_SECTOR_LOOPS)
  {
    hide Reach, IsUndisturbed, IsStill, RxCrc, Poll, IsOff, Turns, IsPast, IsAhead;
    var o := JudgeCrc(SendCrc(crc, false, bus, k));
    var reply := Answer(bus, k).ack;
    var wait := AckWaited(ReceivedCrc, ReceivedAndProcessed, reply);
    assert o.events == [Sent(CrcSignature(crc))] + [wait];
    UndisturbedConcat(sizes, w, [Sent(CrcSignature(crc))], [wait], fates);
    UndisturbedOne(sizes, w, Sent(CrcSignature(crc)), fates[..1]);
    CrcAhead(sizes, w.device, crc);
    TurnsTwice(sizes, Receive(sizes, w, CrcSignature(crc)), fates[..1][0].turns);
    var z := Reach(sizes, w, [Sent(CrcSignature(crc))], fates[..1]);
    WaitStep(sizes, z, ReceivedCrc, ReceivedAndProcessed, reply, fates[1..]);
  }

  /** The first sector after its first sub-sector. */
  lemma SectorRest(f: BinaryFile, job: Job, tries: nat, bus: Bus, k: nat) returns (rest: Outcome<Verdict>)
    requires Describes(f, job.words, job.sizes, job.sectors) && ValidJob(job) && job.sizes != []
    requires SubSectorTries(f, 1, SUB_SECTOR_LOOPS, tries, bus, k).result == Success
    ensures 1 <= Start(job.sizes, 1) <= |job.words|
    ensures var t := SubSectorTries(f, 1, SUB_SECTOR_LOOPS, tries, bus, k);
            var u := SubSectorTries(f, SUB_SECTOR_LOOPS + 1, 2 * SUB_SECTOR_LOOPS, tries, bus, t.next);
            && Sector(f, 1, |job.words|, LoopsIn(job.sizes, 0), tries, bus, k) == After(t.events, rest)
            && (if Start(job.sizes, 1) == SUB_SECTOR_LOOPS then
                  rest == JudgeCrc(SendCrc(Column(job.words, 0)[Start(job.sizes, 1) - 1], false, bus, t.next))
                else
                  && 2 * SUB_SECTOR_LOOPS <= Start(job.sizes, 1)
                  && u.events <= rest.events && (u.result == Failed ==> rest == u))
  {
    hide Start, SubSectorTries, Sector, SectorLoops, SubSectorLoops, JudgeCrc, SendCrc, Column, ValidJob;
    FirstSector(job);
    PartsOf(job);
    SectorSplit(f, job.words, job.sizes, job.sectors, 0, tries, bus, k);
    SectorLoopsSubSector(f, job.sizes, job.sectors, 0, 1, tries, bus, k);
    var t := SubSectorTries(f, 1, SUB_SECTOR_LOOPS, tries, bus, k);
    var last := Start(job.sizes, 1);
    var b := SectorLoops(f, SUB_SECTOR_LOOPS + 1, last, |job.words|, tries, bus, t.next);
    var crc := JudgeCrc(SendCrc(Column(job.words, 0)[last - 1], false, bus, b.next));
    rest := if b.result != Success then b else After(b.events, crc);
    AfterAfter(t.events, b.events, crc);
    if last == SUB_SECTOR_LOOPS {
      NoMoreLoops(f, job, last, tries, bus, t.next);
      AfterNothing(crc);
    } else {
      SectorLoopsSubSector(f, job.sizes, job.sectors, 0, SUB_SECTOR_LOOPS + 1, tries, bus, t.next);
    }
  }

  /** A sub-sector that has been acknowledged for a later one does not help. */
  lemma AheadFails(
    f: BinaryFile, job: Job, tries: nat, bus: Bus, k: nat, rest: Outcome<Verdict>, w: World, fates: seq<Fate>)
    requires Describes(f, job.words, job.sizes, job.sectors) && ValidJob(job) && job.sizes != []
    requires 1 <= Start(job.sizes, 1) <= |job.words| && w.heard == {} && IsAhead(w.device)
    requires IsPast(w.device, SUB_SECTOR_LOOPS)
    requires Start(job.sizes, 1) > SUB_SECTOR_LOOPS ==> IsPast(w.device, 2 * SUB_SECTOR_LOOPS)
    requires var u := SubSectorTries(f, SUB_SECTOR_LOOPS + 1, 2 * SUB_SECTOR_LOOPS, tries, bus, k);
             if Start(job.sizes, 1) == SUB_SECTOR_LOOPS then
               rest == JudgeCrc(SendCrc(Column(job.words, 0)[Start(job.sizes, 1) - 1], false, bus, k))
             else
               && 2 * SUB_SECTOR_LOOPS <= Start(job.sizes, 1)
               && u.events <= rest.events && (u.result == Failed ==> rest == u)
    requires |fates| == |rest.events| && IsUndisturbed(job.sizes, w, rest.events, fates)
    ensures var x := Reach(job.sizes, w, rest.events, fates);
            if rest.result == Success then
              Start(job.sizes, 1) == SUB_SECTOR_LOOPS && IsDoomed(x, 2 * SUB_SECTOR_LOOPS)
            else IsDoomed(x, SUB_SECTOR_LOOPS)
  {
    hide Start, Reach, IsUndisturbed, ValidJob, JudgeCrc, SendCrc, Describes, IsPast, IsDead, SubSectorTries, IsAhead;
    hide Column;
    if Start(job.sizes, 1) == SUB_SECTOR_LOOPS {
      var crc := Column(job.words, 0)[Start(job.sizes, 1) - 1];
      CrcEvents(crc, bus, k);
      CrcAheadStep(job.sizes, crc, bus, k, w, fates);
    } else {
      var u := SubSectorTries(f, SUB_SECTOR_LOOPS + 1, 2 * SUB_SECTOR_LOOPS, tries, bus, k);
      if u.result != Failed {
        var more := rest.events[|u.events|..];
        assert rest.events == u.events + more;
        UndisturbedConcat(job.sizes, w, u.events, more, fates);
        TriesIgnored(f, job, SUB_SECTOR_LOOPS + 1, 2 * SUB_SECTOR_LOOPS, tries, bus, k, w, fates[..|u.events|]);
        assert false;
      } else {
        TriesIgnored(f, job, SUB_SECTOR_LOOPS + 1, 2 * SUB_SECTOR_LOOPS, tries, bus, k, w, fates);
      }
    }
  }

  /** Where the receiver is once the first word has been taken for the missing one. */
  lemma BehindIsPast(job: Job, d: Device, j: nat, c: nat, word: Word)
    requires ValidJob(job) && 1 <= job.sectors <= |job.sizes| && c > SUB_SECTOR_LOOPS && c <= |job.words|
    requires Has(With(job, c, word), d, j, c)
    requires !(c == |job.words| == 2 * SUB_SECTOR_LOOPS == Start(job.sizes, 1))
    ensures IsPast(d, SUB_SECTOR_LOOPS)
    ensures c % SUB_SECTOR == 0 || c == |job.words| ==>
              && IsAhead(d)
              && (Start(job.sizes, 1) > SUB_SECTOR_LOOPS ==> IsPast(d, 2 * SUB_SECTOR_LOOPS))
  {
    hide Has, Start, IsPast, IsAhead;
    FirstSector(job);
    PartsOf(job);
    StartAligned(job.sizes, 1);
    WithShape(job, c, word);
    HasIsPast(With(job, c, word), d, j, c, SUB_SECTOR_LOOPS);
    if c % SUB_SECTOR == 0 || c == |job.words| {
      HasIsAhead(With(job, c, word), d, j, c);
      if Start(job.sizes, 1) > SUB_SECTOR_LOOPS {
        HasIsPast(With(job, c, word), d, j, c, 2 * SUB_SECTOR_LOOPS);
      }
    }
  }

  /** Sending the first sector again while the word of a loop behind its first sub-sector is missing. */
  lemma SectorBehind(
    f: BinaryFile, job: Job, held: Job, j: nat, c: nat, tries: nat, bus: Bus, k: nat, w: World,
    fates: seq<Fate>)
    requires Describes(f, job.words, job.sizes, job.sectors) && ValidJob(job) && j < job.sectors && tries > 0
    requires job.sizes != [] && IsHeld(job, held) && w.heard == {}
    requires AwaitsWord(held, w.device, j, c) && c > SUB_SECTOR_LOOPS
    requires !(c == |job.words| == 2 * SUB_SECTOR_LOOPS == Start(job.sizes, 1))
    requires var o := Sector(f, 1, |job.words|, LoopsIn(job.sizes, 0), tries, bus, k);
             |fates| == |o.events| && IsUndisturbed(job.sizes, w, o.events, fates)
    ensures var o := Sector(f, 1, |job.words|, LoopsIn(job.sizes, 0), tries, bus, k);
            var x := Reach(job.sizes, w, o.events, fates);
            && |job.words| > SUB_SECTOR_LOOPS
            && if o.result == Success then
                 Start(job.sizes, 1) == SUB_SECTOR_LOOPS && IsDoomed(x, 2 * SUB_SECTOR_LOOPS)
               else IsDoomed(x, SUB_SECTOR_LOOPS)
  {
    hide Has, AwaitsWord, Start, Reach, IsUndisturbed, ValidJob, Sector, SectorLoops, JudgeCrc, SendCrc, Describes;
    hide IsPast, IsDead, With, SubSectorTries, SubSectorLoops, IsAhead, Column;
    HeldIsValid(job, held);
    FirstSector(job);
    PartsOf(job);
    MissingWord(held, w.device, j, c);
    SectorSplit(f, job.words, job.sizes, job.sectors, 0, tries, bus, k);
    SectorLoopsSubSector(f, job.sizes, job.sectors, 0, 1, tries, bus, k);
    var t := SubSectorTries(f, 1, SUB_SECTOR_LOOPS, tries, bus, k);
    if t.result != Success {
      TriesBehind(f, held, job.words, j, c, 1, SUB_SECTOR_LOOPS, tries, bus, k, w, fates);
      BehindIsPast(held, Reach(job.sizes, w, t.events, fates).device, j, c, job.words[0]);
    } else {
      var rest := SectorRest(f, job, tries, bus, k);
      UndisturbedConcat(job.sizes, w, t.events, rest.events, fates);
      TriesBehind(f, held, job.words, j, c, 1, SUB_SECTOR_LOOPS, tries, bus, k, w, fates[..|t.events|]);
      var x := Reach(job.sizes, w, t.events, fates[..|t.events|]);
      BehindIsPast(held, x.device, j, c, job.words[0]);
      AheadFails(f, job, tries, bus, t.next, rest, x, fates[|t.events|..]);
    }
  }

  lemma MissingWord(job: Job, d: Device, j: nat, c: nat)
    requires AwaitsWord(job, d, j, c)
    ensures 1 <= c <= |job.words|
  {
    hide Start, Holds, Chain;
  }

  /** The whole data part. */
  lemma DataBehind(
    f: BinaryFile, job: Job, held: Job, j: nat, c: nat, tries: nat, bus: Bus, k: nat, w: World,
    fates: seq<Fate>)
    requires Describes(f, job.words, job.sizes, job.sectors) && ValidJob(job) && j < job.sectors && tries > 0
    requires job.sizes != [] && IsHeld(job, held) && w.heard == {}
    requires AwaitsWord(held, w.device, j, c) && c > SUB_SECTOR_LOOPS
    requires !(c == |job.words| == 2 * SUB_SECTOR_LOOPS == Start(job.sizes, 1))
    requires var o := AppData(f, job.sizes, 1, tries, bus, k);
             |fates| == |o.events| && IsUndisturbed(job.sizes, w, o.events, fates)
    ensures var o := AppData(f, job.sizes, 1, tries, bus, k);
            o.result != Success && IsDoomed(Reach(job.sizes, w, o.events, fates), SUB_SECTOR_LOOPS)
  {
    hide AwaitsWord, Start, Reach, IsUndisturbed, ValidJob, Sector, Describes, AppData, IsDoomed;
    FirstSector(job);
    PartsOf(job);
    AppDataSector(f, job.words, job.sizes, job.sectors, 0, tries, bus, k);
    var a := Sector(f, 1, |job.words|, LoopsIn(job.sizes, 0), tries, bus, k);
    if a.result != Success {
      SectorBehind(f, job, held, j, c, tries, bus, k, w, fates);
    } else {
      var rest := AppData(f, job.sizes, Start(job.sizes, 1) + 1, tries, bus, a.next);
      UndisturbedConcat(job.sizes, w, a.events, rest.events, fates);
      SectorBehind(f, job, held, j, c, tries, bus, k, w, fates[..|a.events|]);
      var x := Reach(job.sizes, w, a.events, fates[..|a.events|]);
      MoreSectors(job);
      DoomedData(f, job, 1, tries, bus, a.next, x, fates[|a.events|..]);
      DoomedBefore(Reach(job.sizes, x, rest.events, fates[|a.events|..]), 2 * SUB_SECTOR_LOOPS, SUB_SECTOR_LOOPS);
    }
  }

  lemma MoreSectors(job: Job)
    requires ValidJob(job) && 1 <= |job.sizes| && Start(job.sizes, 1) < |job.words|
    ensures 1 < job.sectors <= |job.sizes|
  {
  }

  // ---------- the exact condition ----------

  /** The receiver has stored the words of `held` before loop c, and loop c comes next, or only its word is missing. */
  ghost predicate IsAt(held: Job, d: Device, j: nat, c: nat) {
    if d.can == ReceivedLoopNumber then AwaitsWord(held, d, j, c) else Awaits(held, d, j, c)
  }

  /** A pass that starts again can complete the first sector. */
  predicate CanComplete(job: Job, d: Device, c: nat)
    requires job.sizes != []
  {
    || c <= SUB_SECTOR_LOOPS
    || (d.can == ReceivedLoopNumber && c == |job.words| == 2 * SUB_SECTOR_LOOPS == Start(job.sizes, 1))
  }

  /** What it completes: the first word is taken for a missing one, and the last one is stored again. */
  function Completed(job: Job, held: Job, d: Device, c: nat): Job
    requires IsHeld(job, held) && 1 <= c <= |job.words|
  {
    if d.can == ReceivedLoopNumber && c < |job.words| then With(held, c, job.words[0]) else held
  }

  /** When repeated passes succeed: the first sector can be completed, and then has its signature. */
  predicate PassHelps(job: Job, held: Job, d: Device, c: nat)
    requires ValidJob(job) && IsHeld(job, held) && 1 <= c <= |job.words|
  {
    CompletedIsValid(job, held, d, c);
    CanComplete(job, d, c) && SectorCrc(Completed(job, held, d, c), 0) == SectorCrc(job, 0)
  }

  lemma CompletedIsValid(job: Job, held: Job, d: Device, c: nat)
    requires ValidJob(job) && IsHeld(job, held) && 1 <= c <= |job.words|
    ensures job.sizes != [] && 1 <= job.sectors
    ensures ValidJob(Completed(job, held, d, c)) && IsHeld(job, Completed(job, held, d, c))
  {
    hide Start;
    HeldIsValid(job, held);
    WithIsValid(held, c, job.words[0]);
  }

  lemma IsAtPlace(held: Job, d: Device, j: nat, c: nat)
    requires ValidJob(held) && j < held.sectors && IsAt(held, d, j, c)
    ensures 1 <= c <= |held.words|
  {
    hide Holds, IsOn, IsStored, Start;
  }

  /** Where the first sector can be completed the receiver is in it. */
  lemma CompletesFirst(job: Job, held: Job, d: Device, j: nat, c: nat)
    requires ValidJob(job) && IsHeld(job, held) && 1 <= c <= |job.words| && AgreeFrom(job.words, held.words, c)
    requires j < job.sectors && IsAt(held, d, j, c) && job.sizes != [] && CanComplete(job, d, c)
    ensures GoesOn(Completed(job, held, d, c), job.words, d, 0, c)
  {
    hide Holds, IsOn, IsStored, Start;
    FirstSector(job);
    PartsOf(job);
    if j > 0 { StartMono(job.sizes, 1, j); }
    if d.can == ReceivedLoopNumber { AwaitsAnyWord(held, d, j, c, job.words[0]); }
  }

  /** Behind the first sector the signatures follow from its own. */
  lemma LaterSigns(job: Job, sent: seq<Word>, from: nat)
    requires ValidJob(job) && |sent| == |job.words| && 1 <= job.sectors && SignsAs(job, sent, 0)
    requires AgreeFrom(sent, job.words, from) && from <= Start(job.sizes, 1) + 1
    ensures forall i | 0 <= i < job.sectors :: SignsAs(job, sent, i)
  {
    hide Start, Column, Chain;
    SentIsValid(job, sent);
    var other := job.(words := sent);
    forall i | 0 <= i < job.sectors
      ensures SignsAs(job, sent, i)
    {
      var m, n := Start(job.sizes, 1), Start(job.sizes, i + 1);
      StartMono(job.sizes, 1, i + 1);
      SectorCrcChain(job, 0);
      SectorCrcChain(job, i);
      SectorCrcChain(other, 0);
      SectorCrcChain(other, i);
      assert sent[m..n] == job.words[m..n];
      assert sent[..n] == sent[..m] + sent[m..n] && job.words[..n] == job.words[..m] + job.words[m..n];
      ChainConcat(sent[..m], sent[m..n], 0);
      ChainConcat(job.words[..m], job.words[m..n], 0);
    }
  }

  lemma SectorCrcChain(job: Job, j: nat)
    requires ValidJob(job) && j < job.sectors
    ensures Start(job.sizes, j + 1) <= |job.words|
    ensures SectorCrc(job, j) == Chain(job.words[..Start(job.sizes, j + 1)], 0)
  {
    hide Start, Chain, Column, SectorCrc;
    SectorCrcRow(job, j);
    ColumnAt(job.words, 0, Start(job.sizes, j + 1) - 1);
  }

  lemma CompletedAgrees(job: Job, held: Job, d: Device, c: nat)
    requires IsHeld(job, held) && 1 <= c <= |job.words| && AgreeFrom(job.words, held.words, c)
    ensures AgreeFrom(job.words, Completed(job, held, d, c).words, c + 1)
  {
  }

  /** When the first sector gets its signature, the rest goes through. */
  lemma RepeatingSucceeds(
    f: BinaryFile, job: Job, held: Job, j: nat, c: nat, n: nat, tries: nat, bus: Bus, k: nat, w: World,
    fates: seq<Fate>)
    requires Describes(f, job.words, job.sizes, job.sectors) && ValidJob(job) && |f.vectorTable| == VECTOR_WORDS
    requires IsHeld(job, held) && 1 <= c <= |job.words| && AgreeFrom(job.words, held.words, c)
    requires j < job.sectors && IsAt(held, w.device, j, c) && w.heard == {} && n > 0 && tries > 0
    requires PassHelps(job, held, w.device, c)
    requires var o := Passes(f, job.sizes, n, false, tries, bus, k);
             |fates| == |o.events| && IsUndisturbed(job.sizes, w, o.events, fates)
    ensures var o := Passes(f, job.sizes, n, false, tries, bus, k);
            && o.result == Success
            && IsInstalled(Completed(job, held, w.device, c), f, Reach(job.sizes, w, o.events, fates).device)
  {
    hide IsAt, Reach, IsUndisturbed, Passes, Describes, Start, ValidJob, IsInstalled, GoesOn, SectorCrc, AgreeFrom;
    hide CanComplete;
    CompletedIsValid(job, held, w.device, c);
    var other := Completed(job, held, w.device, c);
    HeldIsValid(job, other);
    CompletesFirst(job, held, w.device, j, c);
    CompletedAgrees(job, held, w.device, c);
    WithinFirst(job, w.device, c);
    LaterSigns(other, job.words, c + 1);
    PassesStep(f, other, job.words, c, n, tries, bus, k, w, fates);
  }

  lemma WithinFirst(job: Job, d: Device, c: nat)
    requires ValidJob(job) && job.sizes != [] && CanComplete(job, d, c)
    ensures c <= Start(job.sizes, 1)
  {
    FirstSector(job);
  }

  lemma RepeatingFails(
    f: BinaryFile, job: Job, held: Job, j: nat, c: nat, n: nat, tries: nat, bus: Bus, k: nat, w: World,
    fates: seq<Fate>)
    requires Describes(f, job.words, job.sizes, job.sectors) && ValidJob(job) && |f.vectorTable| == VECTOR_WORDS
    requires IsHeld(job, held) && 1 <= c <= |job.words| && AgreeFrom(job.words, held.words, c)
    requires j < job.sectors && IsAt(held, w.device, j, c) && w.heard == {} && n > 0 && tries > 0
    requires !PassHelps(job, held, w.device, c)
    requires var o := Passes(f, job.sizes, n, false, tries, bus, k);
             |fates| == |o.events| && IsUndisturbed(job.sizes, w, o.events, fates)
    ensures Passes(f, job.sizes, n, false, tries, bus, k).result == Failed
  {
    hide Awaits, AwaitsWord, Reach, IsUndisturbed, Passes, AppData, Describes, Start, ValidJob, IsDead, IsPast;
    hide GoesOn, With, Expected, SectorCrc, AgreeFrom, Completed;
    CompletedIsValid(job, held, w.device, c);
    FirstSector(job);
    if !CanComplete(job, w.device, c) && w.device.can != ReceivedLoopNumber {
      AwaitsIsPast(held, w.device, j, c, SUB_SECTOR_LOOPS);
      DoomedPasses(f, job, n, tries, bus, k, w, fates);
    } else {
      var a := AppData(f, job.sizes, 1, tries, bus, k);
      var rest := PassesRest(f, job, n, tries, bus, k);
      UndisturbedConcat(job.sizes, w, a.events, rest.events, fates);
      if CanComplete(job, w.device, c) {
        var other := Completed(job, held, w.device, c);
        HeldIsValid(job, other);
        CompletesFirst(job, held, w.device, j, c);
        RefusedData(f, other, job.words, 0, c, tries, bus, k, w, fates[..|a.events|]);
      } else {
        DataBehind(f, job, held, j, c, tries, bus, k, w, fates[..|a.events|]);
      }
      AppDataDelivers(f, job.words, job.sizes, job.sectors, 0, tries, bus, k);
      DoomedPasses(f, job, n - 1, tries, bus, a.next, Reach(job.sizes, w, a.events, fates[..|a.events|]),
                   fates[|a.events|..]);
    }
  }

  /**
   * Passes that are repeated under the best conditions succeed exactly under this condition, whatever the receiver has
   * stored before loop c; otherwise no number of passes and attempts helps.
   */
  lemma RepeatingHelps(
    f: BinaryFile, job: Job, held: Job, j: nat, c: nat, n: nat, tries: nat, bus: Bus, k: nat, w: World,
    fates: seq<Fate>)
    requires Describes(f, job.words, job.sizes, job.sectors) && ValidJob(job) && |f.vectorTable| == VECTOR_WORDS
    requires IsHeld(job, held) && AgreeFrom(job.words, held.words, c)
    requires j < job.sectors && IsAt(held, w.device, j, c) && w.heard == {} && n > 0 && tries > 0
    requires var o := Passes(f, job.sizes, n, false, tries, bus, k);
             |fates| == |o.events| && IsUndisturbed(job.sizes, w, o.events, fates)
    ensures 1 <= c <= |job.words|
    ensures Passes(f, job.sizes, n, false, tries, bus, k).result == Judge(PassHelps(job, held, w.device, c))
  {
    hide IsAt, Reach, IsUndisturbed, Passes, Describes, Start, ValidJob, IsInstalled, PassHelps, AgreeFrom;
    HeldIsValid(job, held);
    IsAtPlace(held, w.device, j, c);
    if PassHelps(job, held, w.device, c) {
      RepeatingSucceeds(f, job, held, j, c, n, tries, bus, k, w, fates);
    } else {
      RepeatingFails(f, job, held, j, c, n, tries, bus, k, w, fates);
    }
  }

  /** If all words before loop c are right, only the missing word counts. */
  lemma RightSoFar(job: Job, d: Device, c: nat)
    requires ValidJob(job) && 1 <= c <= |job.words|
    ensures job.sizes != []
    ensures PassHelps(job, job, d, c)
       <==> && CanComplete(job, d, c)
            && (d.can == ReceivedLoopNumber ==> c == |job.words| || job.words[0] == job.words[c - 1])
  {
    hide Start, SectorCrc, CanComplete;
    CompletedIsValid(job, job, d, c);
    if CanComplete(job, d, c) {
      WithinFirst(job, d, c);
      OneWordSigns(job, c, job.words[0], 0);
    }
  }

  /** If one word before loop c may be wrong, and none is missing, it must be right. */
  lemma OneMayBeWrong(job: Job, d: Device, c: nat, at: nat, word: Word)
    requires ValidJob(job) && 1 <= at < c <= |job.words| && d.can != ReceivedLoopNumber
    ensures IsHeld(job, With(job, at, word))
    ensures PassHelps(job, With(job, at, word), d, c) <==> c <= SUB_SECTOR_LOOPS && word == job.words[at - 1]
  {
    hide Start, SectorCrc;
    WithShape(job, at, word);
    CompletedIsValid(job, With(job, at, word), d, c);
    FirstSector(job);
    if c <= SUB_SECTOR_LOOPS { OneWordSigns(job, at, word, 0); }
  }

  /**
   * A sub-sector that lies before loop c is acknowledged again exactly if the word of loop c is missing and loop c
   * ends a sub-sector or the image.
   */
  lemma LeftBehind(
    f: BinaryFile, job: Job, held: Job, j: nat, c: nat, first: nat, end: nat, tries: nat, bus: Bus, k: nat,
    w: World, fates: seq<Fate>)
    requires Describes(f, job.words, job.sizes, job.sectors) && ValidJob(job) && j < job.sectors && tries > 0
    requires IsHeld(job, held) && IsAt(held, w.device, j, c) && 1 <= first <= end < c && w.heard == {}
    requires var o := SubSectorTries(f, first, end, tries, bus, k);
             |fates| == |o.events| && IsUndisturbed(job.sizes, w, o.events, fates)
    ensures c <= |job.words|
    ensures SubSectorTries(f, first, end, tries, bus, k).result
         == Judge(w.device.can == ReceivedLoopNumber && (c % SUB_SECTOR == 0 || c == |job.words|))
  {
    hide Awaits, AwaitsWord, Reach, IsUndisturbed, SubSectorTries, Describes, ValidJob, IsPast, Has, With, Start;
    HeldIsValid(job, held);
    if w.device.can == ReceivedLoopNumber {
      MissingWord(held, w.device, j, c);
      TriesBehind(f, held, job.words, j, c, first, end, tries, bus, k, w, fates);
    } else {
      ExpectedLoop(held, w.device, j, c);
      AwaitsIsPast(held, w.device, j, c, end);
      TriesIgnored(f, job, first, end, tries, bus, k, w, fates);
    }
  }

  lemma ExpectedLoop(job: Job, d: Device, j: nat, c: nat)
    requires Awaits(job, d, j, c)
    ensures 1 <= c <= |job.words|
  {
    hide Start, Holds, Chain;
  }

  // ---------- lost words ----------

  /**
   * When the word of a loop is lost after its loop number, any loop number is ignored and the next word is stored in
   * its place.  The acknowledgement, if there is one, is the one that the lost word would have had.
   */
  lemma LostWordShifts(d: Device, loop: nat, next: Word)
    requires d.can == ReceivedLoopNumber && 0 < d.info.current <= d.info.total && d.info.pos < |d.buffer|
    ensures var x := RxData(RxLoopInfo(d, loop).device, next);
            && RxLoopInfo(d, loop).acks == {} && x.acks == WordAcks(d.info.total, d.info.current)
            && x.device.buffer == d.buffer[d.info.pos := next]
            && x.device.can == Received8BytesData
            && x.device.info.current == if d.info.current < d.info.total then d.info.current + 1 else d.info.current
  {
    assert RxLoopInfo(d, loop) == Quiet(d);
  }

  /**
   * A loop number that is repeated between a signature and the turn of the main loop that would have validated it
   * clears the buffer; the receiver goes on as if the sector had been stored.
   */
  lemma RepeatClearsBuffer(d: Device)
    requires IsPending(d) && d.info.current > 0
    ensures var x := RxLoopInfo(d, d.info.current).device;
            && x.buffer == Zeros(BUFFER_WORDS) && x.info == d.info
            && x.can == ReceivedLoopNumber
  {
  }
}
