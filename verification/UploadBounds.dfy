/** How much one upload can send at most, whatever the bus answers. */
module UploadBounds {
  import opened Crc64
  import opened CrcImage
  import opened Protocol
  import opened UploadSpec
  import opened UploadProps
  import UploadSafety

  /** How many loop numbers, words and signatures are sent. */
  datatype Load = Load(loops: nat, words: nat, crcs: nat)

  function Add(x: Load, y: Load): Load {
    Load(x.loops + y.loops, x.words + y.words, x.crcs + y.crcs)
  }

  datatype Kind = LoopFrame | WordFrame | CrcFrame

  predicate IsKind(kind: Kind, e: Event) {
    e.Sent? && match kind
               case LoopFrame => e.frame.LoopInfo?
               case WordFrame => e.frame.Data?
               case CrcFrame => e.frame.CrcSignature?
  }

  function Count(kind: Kind, events: seq<Event>): nat {
    if events == [] then 0 else (if IsKind(kind, events[0]) then 1 else 0) + Count(kind, events[1..])
  }

  lemma {:induction false} CountConcat(kind: Kind, a: seq<Event>, b: seq<Event>)
    ensures Count(kind, a + b) == Count(kind, a) + Count(kind, b)
  {
    hide IsKind;
    if a == [] {
      assert a + b == b;
    } else {
      assert (a + b)[1..] == a[1..] + b;
      CountConcat(kind, a[1..], b);
    }
  }

  predicate Within(events: seq<Event>, most: Load) {
    Count(LoopFrame, events) <= most.loops && Count(WordFrame, events) <= most.words
    && Count(CrcFrame, events) <= most.crcs
  }

  /** A run that is followed by another one, or stops before it. */
  lemma WithinBoth(a: seq<Event>, x: Load, b: seq<Event>, y: Load)
    requires Within(a, x) && Within(b, y)
    ensures Within(a, Add(x, y)) && Within(a + b, Add(x, y))
  {
    hide Count;
    CountConcat(LoopFrame, a, b);
    CountConcat(WordFrame, a, b);
    CountConcat(CrcFrame, a, b);
  }

  lemma {:induction false} WithinNone(events: seq<Event>, most: Load)
    requires UploadSafety.NoPayload(events)
    ensures Within(events, most)
  {
    if events != [] {
      assert !UploadSafety.IsPayload(events[0]);
      WithinNone(events[1..], Load(0, 0, 0));
    }
  }

  lemma WithinOne(frame: Frame)
    ensures Within([Sent(frame)], Load(if frame.LoopInfo? then 1 else 0, if frame.Data? then 1 else 0,
                                       if frame.CrcSignature? then 1 else 0))
  {
  }

  /** Sending n loops t times. */
  function Loops(t: nat, n: nat): Load {
    Load(t * n, t * n, 0)
  }

  lemma LoopsAdd(t: nat, m: nat, n: nat)
    ensures Loops(t, m + n) == Add(Loops(t, m), Loops(t, n))
  {
  }

  lemma LoopsAgain(t: nat, n: nat)
    requires t > 0
    ensures Loops(t, n) == Add(Loops(1, n), Loops(t - 1, n))
  {
  }

  /** The data of some sectors, each with its signature. */
  function DataLoad(t: nat, n: nat, sectors: nat): Load {
    Load(t * n, t * n, sectors)
  }

  lemma DataLoadAdd(t: nat, m: nat, n: nat, sectors: nat)
    ensures DataLoad(t, m + n, 1 + sectors) == Add(DataLoad(t, m, 1), DataLoad(t, n, sectors))
    ensures Add(Loops(t, m), Load(0, 0, 1)) == DataLoad(t, m, 1)
  {
  }

  lemma {:induction false} PairsWithin(words: seq<Word>, first: nat, last: nat)
    requires 1 <= first <= last + 1 && last <= |words|
    ensures Within(Sends(Pairs(words, first, last)), Loops(1, last + 1 - first))
    decreases last + 1 - first
  {
    hide Within;
    if first > last {
      WithinNone([], Loops(1, last + 1 - first));
    } else {
      PairWithin(first, words[first - 1]);
      SendsConcat([LoopInfo(first), Data(words[first - 1])], Pairs(words, first + 1, last));
      PairsWithin(words, first + 1, last);
      LoopsAdd(1, 1, last - first);
      WithinBoth(Sends([LoopInfo(first), Data(words[first - 1])]), Loops(1, 1),
                 Sends(Pairs(words, first + 1, last)), Loops(1, last - first));
    }
  }

  lemma PairWithin(loop: nat, word: Word)
    ensures Within(Sends([LoopInfo(loop), Data(word)]), Loops(1, 1))
  {
    hide Within;
    WithinOne(LoopInfo(loop));
    WithinOne(Data(word));
    WithinBoth([Sent(LoopInfo(loop))], Load(1, 0, 0), [Sent(Data(word))], Load(0, 1, 0));
    assert [LoopInfo(loop), Data(word)][1..] == [Data(word)];
    assert Sends([Data(word)]) == [Sent(Data(word))];
    assert Sends([LoopInfo(loop), Data(word)]) == [Sent(LoopInfo(loop))] + [Sent(Data(word))];
  }

  lemma SubSectorWithin(
    f: BinaryFile, words: seq<Word>, sizes: seq<nat>, sectors: nat, first: nat, last: nat, bus: Bus, k: nat)
    requires Describes(f, words, sizes, sectors) && 1 <= first <= last + 1 && last <= |words|
    ensures Within(SubSector(f, first, last, bus, k).events, Loops(1, last + 1 - first))
  {
    hide Within, SubSector, Pairs;
    SubSectorShape(f, words, sizes, sectors, first, last, bus, k);
    PairsWithin(words, first, last);
    var wait := [AckWaited(ReceivedSubSectorData, ReceivedAndProcessed, Answer(bus, k).ack)];
    WithinNone(wait, Load(0, 0, 0));
    WithinBoth(Sends(Pairs(words, first, last)), Loops(1, last + 1 - first), wait, Load(0, 0, 0));
  }

  lemma {:induction false} TriesWithin(
    f: BinaryFile, words: seq<Word>, sizes: seq<nat>, sectors: nat,
    first: nat, last: nat, tries: nat, bus: Bus, k: nat)
    requires Describes(f, words, sizes, sectors) && 1 <= first <= last + 1 && last <= |words|
    ensures Within(SubSectorTries(f, first, last, tries, bus, k).events, Loops(tries, last + 1 - first))
    decreases tries
  {
    hide Within, Loops, Add, SubSector, Describes;
    if tries == 0 {
      WithinNone([], Loops(0, last + 1 - first));
    } else {
      var a := SubSector(f, first, last, bus, k);
      SubSectorWithin(f, words, sizes, sectors, first, last, bus, k);
      TriesWithin(f, words, sizes, sectors, first, last, tries - 1, bus, a.next);
      LoopsAgain(tries, last + 1 - first);
      WithinBoth(a.events, Loops(1, last + 1 - first),
                 SubSectorTries(f, first, last, tries - 1, bus, a.next).events, Loops(tries - 1, last + 1 - first));
    }
  }

  lemma {:induction false} SectorLoopsWithin(
    f: BinaryFile, words: seq<Word>, sizes: seq<nat>, sectors: nat,
    j: nat, i: nat, tries: nat, bus: Bus, k: nat)
    requires Describes(f, words, sizes, sectors) && j < sectors && Start(sizes, j + 1) <= |words|
    requires Start(sizes, j) < i <= Start(sizes, j + 1) + 1 && i % SUB_SECTOR_LOOPS == 1
    ensures Within(SectorLoops(f, i, Start(sizes, j + 1), |words|, tries, bus, k).events,
                   Loops(tries, Start(sizes, j + 1) + 1 - i))
    decreases Start(sizes, j + 1) + SUB_SECTOR_LOOPS - i
  {
    hide Within, Loops, Start, SubSectorTries, SubSectorLoops, SectorLoops;
    var last := Start(sizes, j + 1);
    if i > last {
      SectorLoopsNone(f, sizes, j, tries, |words|, bus, k);
    } else {
      SectorLoopsSubSector(f, sizes, sectors, j, i, tries, bus, k);
      var end := i + SUB_SECTOR_LOOPS - 1;
      var a := SubSectorTries(f, i, end, tries, bus, k);
      TriesWithin(f, words, sizes, sectors, i, end, tries, bus, k);
      SectorLoopsWithin(f, words, sizes, sectors, j, end + 1, tries, bus, a.next);
      LoopsAdd(tries, SUB_SECTOR_LOOPS, last - end);
      WithinBoth(a.events, Loops(tries, SUB_SECTOR_LOOPS),
                 SectorLoops(f, end + 1, last, |words|, tries, bus, a.next).events, Loops(tries, last - end));
    }
  }

  lemma SectorLoopsNone(f: BinaryFile, sizes: seq<nat>, j: nat, tries: nat, total: nat, bus: Bus, k: nat)
    requires j < |sizes|
    ensures Within(SectorLoops(f, Start(sizes, j + 1) + 1, Start(sizes, j + 1), total, tries, bus, k).events,
                   Loops(tries, 0))
  {
    WithinNone([], Loops(tries, 0));
  }

  lemma SectorWithin(
    f: BinaryFile, words: seq<Word>, sizes: seq<nat>, sectors: nat, j: nat, tries: nat, bus: Bus, k: nat)
    requires Describes(f, words, sizes, sectors) && j < sectors
    ensures Within(Sector(f, Start(sizes, j) + 1, |words|, LoopsIn(sizes, j), tries, bus, k).events,
                   DataLoad(tries, LoopsIn(sizes, j), 1))
  {
    hide Within, Loops, DataLoad, Add, Start, SectorLoops, Sector, JudgeCrc;
    DataLoadAdd(tries, LoopsIn(sizes, j), 0, 0);
    SectorSplit(f, words, sizes, sectors, j, tries, bus, k);
    SectorBounds(sizes, j);
    SectorLoopsWithin(f, words, sizes, sectors, j, Start(sizes, j) + 1, tries, bus, k);
    var a := SectorLoops(f, Start(sizes, j) + 1, Start(sizes, j + 1), |words|, tries, bus, k);
    var crc := Column(words, 0)[Start(sizes, j + 1) - 1];
    CrcWithin(crc, false, bus, a.next);
    WithinBoth(a.events, Loops(tries, LoopsIn(sizes, j)),
               JudgeCrc(SendCrc(crc, false, bus, a.next)).events, Load(0, 0, 1));
  }

  lemma CrcWithin(crc: Word, isVectorTable: bool, bus: Bus, k: nat)
    ensures Within(JudgeCrc(SendCrc(crc, isVectorTable, bus, k)).events, Load(0, 0, 1))
  {
    hide Within;
    var events := JudgeCrc(SendCrc(crc, isVectorTable, bus, k)).events;
    WithinOne(CrcSignature(crc));
    WithinNone([events[1]], Load(0, 0, 0));
    WithinBoth([events[0]], Load(0, 0, 1), [events[1]], Load(0, 0, 0));
    assert events == [events[0]] + [events[1]];
  }

  lemma DescribedMap(f: BinaryFile, words: seq<Word>, sizes: seq<nat>, sectors: nat)
    requires Describes(f, words, sizes, sectors)
    ensures ValidMap(sizes) && sectors <= |sizes| && |words| == Start(sizes, sectors)
  {
    hide Start, Chain;
  }

  /** The data of sectors j and on. */
  lemma {:induction false} AppDataWithin(
    f: BinaryFile, words: seq<Word>, sizes: seq<nat>, sectors: nat, j: nat, tries: nat, bus: Bus, k: nat)
    requires Describes(f, words, sizes, sectors) && j <= sectors
    ensures Start(sizes, j) <= |words|
    ensures Within(AppData(f, sizes, Start(sizes, j) + 1, tries, bus, k).events,
                   DataLoad(tries, |words| - Start(sizes, j), sectors - j))
    decreases sectors - j
  {
    hide Within, DataLoad, Add, Start, Sector, AppData, LoopsIn, Describes;
    DescribedMap(f, words, sizes, sectors);
    StartMono(sizes, j, sectors);
    if j == sectors {
      AppDataEnd(f, words, sizes, sectors, tries, bus, k);
      WithinNone([], DataLoad(tries, 0, 0));
    } else {
      AppDataSector(f, words, sizes, sectors, j, tries, bus, k);
      SectorBounds(sizes, j);
      SectorWithin(f, words, sizes, sectors, j, tries, bus, k);
      var a := Sector(f, Start(sizes, j) + 1, |words|, LoopsIn(sizes, j), tries, bus, k);
      var rest := AppData(f, sizes, Start(sizes, j + 1) + 1, tries, bus, a.next);
      AppDataWithin(f, words, sizes, sectors, j + 1, tries, bus, a.next);
      DataLoadAdd(tries, LoopsIn(sizes, j), |words| - Start(sizes, j + 1), sectors - (j + 1));
      WithinBoth(a.events, DataLoad(tries, LoopsIn(sizes, j), 1),
                 rest.events, DataLoad(tries, |words| - Start(sizes, j + 1), sectors - (j + 1)));
    }
  }

  /** What one pass may send: everything `tries` times, a signature per sector, then the vector table. */
  function PassLoad(tries: nat, loops: nat, sectors: nat): Load {
    Load(tries * loops, tries * loops + 4, sectors + 1)
  }

  function Times(n: nat, x: Load): Load {
    Load(n * x.loops, n * x.words, n * x.crcs)
  }

  lemma TimesNext(n: nat, x: Load)
    requires n > 0
    ensures Times(n, x) == Add(x, Times(n - 1, x))
  {
  }

  lemma VectorTableWithin(f: BinaryFile, bus: Bus, k: nat)
    requires |f.vectorTable| == 4
    ensures Within(VectorTable(f, bus, k).events, Load(0, 4, 1))
  {
    hide Within, SendCrc, JudgeCrc;
    var a, b, c, d := f.vectorTable[0], f.vectorTable[1], f.vectorTable[2], f.vectorTable[3];
    WithinOne(Data(a));
    WithinOne(Data(b));
    WithinOne(Data(c));
    WithinOne(Data(d));
    WithinBoth([Sent(Data(a))], Load(0, 1, 0), [Sent(Data(b))], Load(0, 1, 0));
    WithinBoth([Sent(Data(c))], Load(0, 1, 0), [Sent(Data(d))], Load(0, 1, 0));
    assert [Sent(Data(a))] + [Sent(Data(b))] == [Sent(Data(a)), Sent(Data(b))];
    assert [Sent(Data(c))] + [Sent(Data(d))] == [Sent(Data(c)), Sent(Data(d))];
    WithinBoth([Sent(Data(a)), Sent(Data(b))], Load(0, 2, 0), [Sent(Data(c)), Sent(Data(d))], Load(0, 2, 0));
    var wait := [AckWaited(ReceivedVectorTable, ReceivedAndProcessed, Answer(bus, k).ack)];
    WithinNone(wait, Load(0, 0, 0));
    assert VectorFrames(f) == [Sent(Data(a)), Sent(Data(b))] + [Sent(Data(c)), Sent(Data(d))];
    WithinBoth(VectorFrames(f), Load(0, 4, 0), wait, Load(0, 0, 0));
    CrcWithin(f.vectorCrc, true, bus, k + 1);
    WithinBoth(VectorFrames(f) + wait, Load(0, 4, 0),
               JudgeCrc(SendCrc(f.vectorCrc, true, bus, k + 1)).events, Load(0, 0, 1));
  }

  lemma PassWithin(
    f: BinaryFile, words: seq<Word>, sizes: seq<nat>, sectors: nat,
    onlyVector: bool, tries: nat, bus: Bus, k: nat)
    requires Describes(f, words, sizes, sectors)
    ensures Within(Pass(f, sizes, onlyVector, tries, bus, k).events, PassLoad(tries, |words|, sectors))
  {
    hide Within, AppData, VectorTable;
    var a := PassData(f, sizes, onlyVector, tries, bus, k);
    AppDataWithin(f, words, sizes, sectors, 0, tries, bus, k);
    var v := VectorTable(f, bus, a.next);
    VectorTableWithin(f, bus, a.next);
    if onlyVector { WithinNone([], DataLoad(tries, |words|, sectors)); }
    WithinBoth(a.events, DataLoad(tries, |words|, sectors), v.events, Load(0, 4, 1));
  }

  lemma {:induction false} PassesWithin(
    f: BinaryFile, words: seq<Word>, sizes: seq<nat>, sectors: nat,
    n: nat, onlyVector: bool, tries: nat, bus: Bus, k: nat)
    requires Describes(f, words, sizes, sectors)
    ensures Within(Passes(f, sizes, n, onlyVector, tries, bus, k).events, Times(n, PassLoad(tries, |words|, sectors)))
    decreases n
  {
    hide Within, Pass, PassLoad, Times;
    if n == 0 {
      WithinNone([], Times(0, PassLoad(tries, |words|, sectors)));
    } else {
      var most := PassLoad(tries, |words|, sectors);
      var t := Pass(f, sizes, onlyVector, tries, bus, k);
      PassWithin(f, words, sizes, sectors, onlyVector, tries, bus, k);
      TimesNext(n, most);
      var only := t.result == VectorTableFailed || onlyVector;
      PassesWithin(f, words, sizes, sectors, n - 1, only, tries, bus, t.next);
      WithinBoth(t.events, most, Passes(f, sizes, n - 1, only, tries, bus, t.next).events, Times(n - 1, most));
    }
  }

  /**
   * The bound of a whole upload of a prepared image of N loops in `sectors` sectors: each pass sends at most
   * `tries` * N loops with their words, one signature per sector, and the vector table with its signature.
   */
  lemma AppBinaryWithin(
    f: BinaryFile, words: seq<Word>, sizes: seq<nat>, sectors: nat,
    info: BootloaderStatus, limits: Limits, bus: Bus, k: nat)
    requires Describes(f, words, sizes, sectors) && limits.polls > 0
    ensures Within(AppBinary(f, sizes, info, limits, bus, k).events,
                   Load(limits.passes * (limits.tries * |words|),
                        limits.passes * (limits.tries * |words| + 4),
                        limits.passes * (sectors + 1)))
  {
    hide Handshake, Passes, Within;
    var most := Times(limits.passes, PassLoad(limits.tries, |words|, sectors));
    WithinNone([], most);
    if IsComplete(info) {
      var h := Handshake(f, info, limits.polls, bus, k);
      UploadSafety.HandshakeSafe(f, info, limits.polls, bus, k);
      WithinNone(h.events, Load(0, 0, 0));
      WithinNone(h.events, most);
      if h.result {
        PassesWithin(f, words, sizes, sectors, limits.passes, false, limits.tries, bus, h.next);
        WithinBoth(h.events, Load(0, 0, 0),
                   Passes(f, sizes, limits.passes, false, limits.tries, bus, h.next).events,
                   most);
      }
    }
  }
}
