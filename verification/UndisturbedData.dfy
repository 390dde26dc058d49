/**
 * The data part when nothing goes wrong, also where the receiver goes on from an earlier attempt that did not get
 * through completely.
 */
module UndisturbedData {
  import opened Wrappers
  import opened Crc64
  import opened CrcImage
  import opened Protocol
  import opened Device
  import opened World
  import opened Transfer
  import opened DataTransfer
  import opened UploadSpec
  import opened UploadProps
  import opened DeviceSafety
  import opened Undisturbed

  // ---------- where the receiver can be ----------

  /** The receiver expects loop i, which is in sector j, and its loop number first. */
  ghost predicate Awaits(job: Job, d: Device, j: nat, i: nat) {
    && Holds(job.sizes, d)
    && IsOn(job, d, j) && d.info.sector == j
    && IsStored(job, d, true, 0)
    && Start(job.sizes, j) < i <= Start(job.sizes, j + 1) && i <= |job.words|
    && if d.can == WaitForDataLoops then i == 1 && d.info.current <= 1
       else (d.can == Received8BytesData || d.can == Received8BytesCrc) && d.info.current == i
  }

  /** The receiver has the loop number i, in sector j, and expects its word; the word may have been lost. */
  ghost predicate AwaitsWord(job: Job, d: Device, j: nat, i: nat) {
    && Holds(job.sizes, d)
    && IsOn(job, d, j) && d.info.sector == j
    && IsStored(job, d, true, i)
    && Start(job.sizes, j) < i <= Start(job.sizes, j + 1) && i <= |job.words|
    && d.can == ReceivedLoopNumber && d.info.current == i
  }

  /** The receiver has stored loops up to i, which is in sector j. */
  ghost predicate Has(job: Job, d: Device, j: nat, i: nat) {
    && Holds(job.sizes, d)
    && IsOn(job, d, j) && d.info.sector == j
    && IsStored(job, d, true, 0)
    && Start(job.sizes, j) < i <= Start(job.sizes, j + 1) && i <= |job.words|
    && d.can == Received8BytesData
    && if i < |job.words| then d.info.current == i + 1
       else d.info.current == i && d.info.pos < |d.buffer| && d.buffer[d.info.pos] == job.words[i - 1]
  }

  /** The receiver is loading, nothing is pending, and no word is missing. */
  predicate IsBetween(d: Device) {
    && d.boot == BootLoad
    && d.info.current > 0
    && ((d.can == Received8BytesData && d.checks == 0) || (d.can == Received8BytesCrc && d.checks > 0))
  }

  /** The receiver has left the loops up to `end` behind. */
  predicate IsPast(d: Device, end: nat) {
    IsBetween(d) && d.info.current > end
  }

  /** Two images that agree from loop i on. */
  predicate AgreeFrom(a: seq<Word>, b: seq<Word>, i: nat) {
    |a| == |b| && forall n | 0 <= n < |a| && i <= n + 1 :: a[n] == b[n]
  }

  /** The image with another word for loop i. */
  function With(job: Job, i: nat, word: Word): Job
    requires 1 <= i <= |job.words|
  {
    job.(words := job.words[i - 1 := word])
  }

  lemma HasAwaits(job: Job, d: Device, j: nat, i: nat)
    requires Has(job, d, j, i) && i < Start(job.sizes, j + 1) <= |job.words|
    ensures Awaits(job, d, j, i + 1)
  {
    hide Holds, IsOn, IsStored, Start;
  }

  /** After the last loop of the image, that loop is expected again. */
  lemma HasLastAwaits(job: Job, d: Device, j: nat, word: Word)
    requires |job.words| > 0 && Has(With(job, |job.words|, word), d, j, |job.words|)
    ensures Awaits(job, d, j, |job.words|)
  {
    hide Holds, Start, Chain;
    var other := With(job, |job.words|, word);
    StoredOther(other, job, d, |job.words| - 1, 0);
  }

  /** What the receiver has stored does not depend on later words. */
  lemma StoredOther(job: Job, other: Job, d: Device, n: nat, expected: nat)
    requires IsStored(job, d, true, expected) && job.sizes == other.sizes && |job.words| == |other.words|
    requires Start(job.sizes, d.info.sector) + d.info.pos <= n <= |job.words| && job.words[..n] == other.words[..n]
    ensures IsStored(other, d, true, expected)
  {
    hide Start;
    var from, to := Start(job.sizes, d.info.sector), Start(job.sizes, d.info.sector) + d.info.pos;
    assert job.words[..from] == job.words[..n][..from] == other.words[..from];
    assert job.words[from..to] == job.words[..n][from..to] == other.words[from..to];
  }

  /** Which image the missing word belongs to is still open. */
  lemma AwaitsAnyWord(job: Job, d: Device, j: nat, i: nat, word: Word)
    requires AwaitsWord(job, d, j, i)
    ensures 1 <= i <= |job.words| && AwaitsWord(With(job, i, word), d, j, i)
  {
    hide Holds, Start, Chain;
    StoredOther(job, With(job, i, word), d, i - 1, i);
  }

  lemma AwaitsIsPast(job: Job, d: Device, j: nat, c: nat, end: nat)
    requires Awaits(job, d, j, c) && 1 <= end < c
    ensures IsPast(d, end)
  {
    hide Holds, IsOn, Start;
  }

  lemma AwaitsCurrent(job: Job, d: Device, j: nat, c: nat)
    requires Awaits(job, d, j, c) && c > 1
    ensures IsBetween(d) && d.info.current == c
  {
    hide Holds, IsOn, Start;
  }

  lemma HasIsStill(job: Job, d: Device, j: nat, i: nat)
    requires Has(job, d, j, i)
    ensures IsStill(job.sizes, d)
  {
    hide Holds, IsOn, Start;
  }

  lemma HasIsPast(job: Job, d: Device, j: nat, i: nat, end: nat)
    requires Has(job, d, j, i) && end <= i && (i == |job.words| ==> end < i)
    ensures IsPast(d, end)
  {
    hide Holds, IsOn, Start;
  }

  // ---------- one loop ----------

  lemma TakesLoop(job: Job, d: Device, j: nat, i: nat)
    requires ValidJob(job) && j < job.sectors && Awaits(job, d, j, i)
    ensures var x := RxLoopInfo(d, i).device;
            && x.can == ReceivedLoopNumber && x.info.current == i && x.info.sector == j
            && Holds(job.sizes, x) && IsOn(job, x, j) && IsStored(job, x, false, i)
            && RxLoopInfo(d, i).acks == {}
    ensures d.boot != BootLeft
  {
    hide Start, Chain, Holds, IsOn, IsStored;
    LoopInfoKeeps(job.sizes, d, i);
    OnLoopInfo(job, d, j, i);
    StoredLoopInfo(job, d, j, i);
    AwaitsState(job, d, j, i);
  }

  lemma AwaitsState(job: Job, d: Device, j: nat, i: nat)
    requires Awaits(job, d, j, i)
    ensures d.info.sector == j
    ensures d.can == WaitForDataLoops || d.can == Received8BytesData || d.can == Received8BytesCrc
    ensures if d.can == WaitForDataLoops then i == 1 && d.info.current <= 1 else d.info.current == i
  {
    hide Start, Chain, Holds, IsOn, IsStored;
  }

  /** While a loop number or a word is the last that arrived, a turn only forgets old validations. */
  lemma LoadingTurns(job: Job, w: World, j: nat, expected: nat, turns: seq<Hardware>)
    requires ValidJob(job) && j < job.sectors && Holds(job.sizes, w.device) && IsOn(job, w.device, j)
    requires IsStored(job, w.device, false, expected) && IsWorking(turns)
    requires w.device.can == ReceivedLoopNumber || w.device.can == Received8BytesData
    ensures var x := Turns(job.sizes, w, turns);
            && x == w.(device := w.device.(checks := 0))
            && Holds(job.sizes, x.device) && IsOn(job, x.device, j) && IsStored(job, x.device, true, expected)
  {
    hide Start, Chain, Holds;
    TurnsOnce(job.sizes, w, turns);
    assert w.heard + {} == w.heard;
    PollKeeps(job.sizes, w.device, Works);
  }

  /** What the receiver answers to the word of loop i. */
  function WordAcks(total: nat, i: nat): set<Ack> {
    if i == total then {Ack(ReceivedSubSectorData, ReceivedAndProcessed, true)}
    else if i % SUB_SECTOR == 0 then {Ack(ReceivedSubSectorData, ReceivedAndProcessed, false)}
    else {}
  }

  lemma StoresWord(job: Job, d: Device, j: nat, i: nat)
    requires ValidJob(job) && j < job.sectors && 1 <= i <= |job.words|
    requires Start(job.sizes, j) < i <= Start(job.sizes, j + 1)
    requires d.can == ReceivedLoopNumber && d.info.current == i && d.info.sector == j
    requires Holds(job.sizes, d) && IsOn(job, d, j) && IsStored(job, d, true, i)
    ensures var r := RxData(d, job.words[i - 1]);
            && r.device.can == Received8BytesData && r.device.info.sector == j
            && Holds(job.sizes, r.device) && IsOn(job, r.device, j) && IsStored(job, r.device, false, 0)
            && (if i < |job.words| then r.device.info.current == i + 1
                else r.device.info.current == i && r.device.info.pos < |r.device.buffer|
                     && r.device.buffer[r.device.info.pos] == job.words[i - 1])
            && r.acks == WordAcks(|job.words|, i)
    ensures d.boot != BootLeft
  {
    hide Chain, Start, Holds, IsStored;
    DataKeeps(job.sizes, d, job.words[i - 1]);
    OnData(job, d, j, job.words[i - 1]);
    StoredData(job, d, j, i, job.words[i - 1]);
    RoomInBuffer(job, d, j);
  }

  lemma RoomInBuffer(job: Job, d: Device, j: nat)
    requires ValidJob(job) && Holds(job.sizes, d) && IsOn(job, d, j) && d.can == ReceivedLoopNumber
    ensures d.info.pos < |d.buffer| && d.info.total == |job.words|
  {
    hide Chain, Start;
    SectorBounds(job.sizes, d.info.sector);
    assert LoopsIn(job.sizes, d.info.sector) <= BUFFER_WORDS;
  }

  /** The word that was missing. */
  lemma WordStep(job: Job, w: World, j: nat, i: nat, fates: seq<Fate>)
    requires ValidJob(job) && j < job.sectors && AwaitsWord(job, w.device, j, i) && |fates| == 1
    requires 1 <= i <= |job.words| && IsUndisturbed(job.sizes, w, [Sent(Data(job.words[i - 1]))], fates)
    ensures var x := Reach(job.sizes, w, [Sent(Data(job.words[i - 1]))], fates);
            Has(job, x.device, j, i) && x.heard == w.heard + WordAcks(|job.words|, i)
  {
    hide Holds, IsOn, IsStored, Start, Turns, RxData, IsUndisturbed, Reach, ValidJob;
    var word := job.words[i - 1];
    UndisturbedOne(job.sizes, w, Sent(Data(word)), fates);
    StoresWord(job, w.device, j, i);
    LoadingTurns(job, Receive(job.sizes, w, Data(word)), j, 0, fates[0].turns);
  }

  /** A loop number and its word. */
  function Pair(loop: nat, word: Word): seq<Event> {
    [Sent(LoopInfo(loop))] + [Sent(Data(word))]
  }

  /** One loop number and its word. */
  lemma PairStep(job: Job, w: World, j: nat, i: nat, fates: seq<Fate>)
    requires ValidJob(job) && j < job.sectors && Awaits(job, w.device, j, i) && |fates| == 2
    requires 1 <= i <= |job.words| && IsUndisturbed(job.sizes, w, Pair(i, job.words[i - 1]), fates)
    ensures var x := Reach(job.sizes, w, Pair(i, job.words[i - 1]), fates);
            Has(job, x.device, j, i) && x.heard == w.heard + WordAcks(|job.words|, i)
  {
    hide Holds, IsOn, IsStored, Start, Turns, RxLoopInfo, IsUndisturbed, Reach, ValidJob, Has, WordAcks;
    UndisturbedConcat(job.sizes, w, [Sent(LoopInfo(i))], [Sent(Data(job.words[i - 1]))], fates);
    UndisturbedOne(job.sizes, w, Sent(LoopInfo(i)), fates[..1]);
    TakesLoop(job, w.device, j, i);
    LoadingTurns(job, Receive(job.sizes, w, LoopInfo(i)), j, i, fates[..1][0].turns);
    var x := Reach(job.sizes, w, [Sent(LoopInfo(i))], fates[..1]);
    assert x.heard == w.heard;
    WordStep(job, x, j, i, fates[1..]);
  }

  /** A loop number does not matter while a word is missing, and the next word is taken for it. */
  lemma PairTaken(job: Job, w: World, j: nat, c: nat, loop: nat, word: Word, fates: seq<Fate>)
    requires ValidJob(job) && j < job.sectors && AwaitsWord(job, w.device, j, c) && |fates| == 2
    requires IsUndisturbed(job.sizes, w, Pair(loop, word), fates)
    ensures 1 <= c <= |job.words|
    ensures var x := Reach(job.sizes, w, Pair(loop, word), fates);
            Has(With(job, c, word), x.device, j, c) && x.heard == w.heard + WordAcks(|job.words|, c)
  {
    hide Turns, IsUndisturbed, Reach, ValidJob, Has, WordAcks, AwaitsWord, IsStill, Start;
    UndisturbedConcat(job.sizes, w, [Sent(LoopInfo(loop))], [Sent(Data(word))], fates);
    UndisturbedOne(job.sizes, w, Sent(LoopInfo(loop)), fates[..1]);
    LoopNumberIgnored(job, w.device, j, c, loop);
    assert w.heard + {} == w.heard;
    StillTurns(job.sizes, w, fates[..1][0].turns);
    AwaitsAnyWord(job, w.device, j, c, word);
    WithIsValid(job, c, word);
    WordStep(With(job, c, word), w, j, c, fates[1..]);
  }

  lemma WithIsValid(job: Job, c: nat, word: Word)
    requires ValidJob(job) && 1 <= c <= |job.words|
    ensures ValidJob(With(job, c, word))
    ensures word == job.words[c - 1] ==> With(job, c, word) == job
  {
    hide Start;
    if word == job.words[c - 1] { assert job.words[c - 1 := word] == job.words; }
  }

  lemma LoopNumberIgnored(job: Job, d: Device, j: nat, c: nat, loop: nat)
    requires AwaitsWord(job, d, j, c)
    ensures IsStill(job.sizes, d) && RxLoopInfo(d, loop) == Quiet(d)
    ensures d.boot != BootLeft
  {
    hide Holds, IsOn, Start;
  }

  // ---------- loops that are left behind ----------

  /** A loop number other than the expected one is ignored, and so is its word. */
  lemma PairIgnored(sizes: seq<nat>, w: World, loop: nat, word: Word, fates: seq<Fate>)
    requires IsBetween(w.device) && loop != w.device.info.current && |fates| == 2
    requires IsUndisturbed(sizes, w, Pair(loop, word), fates)
    ensures Reach(sizes, w, Pair(loop, word), fates) == w
  {
    hide Turns, IsUndisturbed, Reach, IsStill;
    UndisturbedConcat(sizes, w, [Sent(LoopInfo(loop))], [Sent(Data(word))], fates);
    UndisturbedOne(sizes, w, Sent(LoopInfo(loop)), fates[..1]);
    BetweenIsStill(sizes, w.device);
    assert w.heard + {} == w.heard;
    StillTurns(sizes, w, fates[..1][0].turns);
    UndisturbedOne(sizes, w, Sent(Data(word)), fates[1..]);
    StillTurns(sizes, w, fates[1..][0].turns);
  }

  lemma BetweenIsStill(sizes: seq<nat>, d: Device)
    requires IsBetween(d)
    ensures IsStill(sizes, d) && d.boot != BootLeft
  {
  }

  lemma PastIsStill(sizes: seq<nat>, d: Device, end: nat)
    requires IsPast(d, end)
    ensures IsStill(sizes, d)
    ensures d.boot != BootLeft
  {
  }

  /** Loops among which the expected one is not change nothing and are not acknowledged. */
  lemma {:induction false} PairsIgnored(
    sizes: seq<nat>, words: seq<Word>, w: World, first: nat, end: nat, fates: seq<Fate>)
    requires 1 <= first && end <= |words|
    requires first <= end ==> IsBetween(w.device) && !(first <= w.device.info.current <= end)
    requires |fates| == |Sends(Pairs(words, first, end))|
    requires IsUndisturbed(sizes, w, Sends(Pairs(words, first, end)), fates)
    ensures Reach(sizes, w, Sends(Pairs(words, first, end)), fates) == w
    decreases end + 1 - first
  {
    hide Reach, IsUndisturbed, IsBetween;
    if first > end {
      NoPairs(words, first, end);
      ReachNothing(sizes, w, fates);
    } else {
      PairSends(words, first, end);
      UndisturbedConcat(sizes, w, Pair(first, words[first - 1]), Sends(Pairs(words, first + 1, end)), fates);
      PairIgnored(sizes, w, first, words[first - 1], fates[..2]);
      PairsIgnored(sizes, words, w, first + 1, end, fates[2..]);
    }
  }

  lemma NoPairs(words: seq<Word>, first: nat, end: nat)
    requires 1 <= first && end < first && end <= |words|
    ensures Sends(Pairs(words, first, end)) == []
  {
  }

  lemma PairSends(words: seq<Word>, first: nat, end: nat)
    requires 1 <= first <= end <= |words|
    ensures Sends(Pairs(words, first, end)) == Pair(first, words[first - 1]) + Sends(Pairs(words, first + 1, end))
  {
    var pair := [LoopInfo(first), Data(words[first - 1])];
    SendsConcat(pair, Pairs(words, first + 1, end));
    assert pair[1..] == [Data(words[first - 1])];
    assert Sends([Data(words[first - 1])]) == [Sent(Data(words[first - 1]))];
  }

  // ---------- one sub-sector ----------

  predicate SubSectorDone(job: Job, heard: set<Ack>, i: nat) {
    WordAcks(|job.words|, i) <= heard
  }

  /** Before the last loop of a sub-sector nothing is acknowledged. */
  lemma NotYet(total: nat, heard: set<Ack>, i: nat, end: nat)
    requires 1 <= i < end <= total
    ensures (i - 1) / SUB_SECTOR == (end - 1) / SUB_SECTOR ==>
              i / SUB_SECTOR == (end - 1) / SUB_SECTOR && heard + WordAcks(total, i) == heard
  {
    if (i - 1) / SUB_SECTOR == (end - 1) / SUB_SECTOR {
      assert i % SUB_SECTOR != 0;
      assert heard + {} == heard;
    }
  }

  /**
   * Loops `first` to `end` are sent while the receiver, which may have stored some of them in an earlier
   * attempt, expects loop c of them.
   */
  lemma {:induction false} PairsSteps(
    job: Job, sent: seq<Word>, w: World, j: nat, c: nat, first: nat, end: nat, fates: seq<Fate>)
    requires ValidJob(job) && j < job.sectors && Awaits(job, w.device, j, c) && AgreeFrom(sent, job.words, c)
    requires 1 <= first <= c <= end <= Start(job.sizes, j + 1) <= |job.words|
    requires |fates| == |Sends(Pairs(sent, first, end))|
    requires IsUndisturbed(job.sizes, w, Sends(Pairs(sent, first, end)), fates)
    ensures var x := Reach(job.sizes, w, Sends(Pairs(sent, first, end)), fates);
            && Has(job, x.device, j, end) && SubSectorDone(job, x.heard, end)
            && ((c - 1) / SUB_SECTOR == (end - 1) / SUB_SECTOR ==> x.heard == w.heard + WordAcks(|job.words|, end))
    decreases end - first
  {
    hide Has, Awaits, Start, Reach, IsUndisturbed, ValidJob, IsPast, IsBetween, WordAcks;
    var pair := Pair(first, sent[first - 1]);
    var rest := Sends(Pairs(sent, first + 1, end));
    PairSends(sent, first, end);
    UndisturbedConcat(job.sizes, w, pair, rest, fates);
    if first < c {
      AwaitsCurrent(job, w.device, j, c);
      PairIgnored(job.sizes, w, first, sent[first - 1], fates[..2]);
      PairsSteps(job, sent, w, j, c, first + 1, end, fates[2..]);
    } else {
      PairStep(job, w, j, first, fates[..2]);
      var x := Reach(job.sizes, w, pair, fates[..2]);
      if first < end {
        HasAwaits(job, x.device, j, first);
        NotYet(|job.words|, w.heard, first, end);
        PairsSteps(job, sent, x, j, first + 1, first + 1, end, fates[2..]);
      } else {
        NoPairs(sent, first + 1, end);
        ReachNothing(job.sizes, x, fates[2..]);
      }
    }
  }

  /**
   * The receiver will have stored the image once loops `first` and on are sent: it expects a loop from which the
   * words sent are those of the image, or the word of a loop, for which the first word sent is taken.
   */
  ghost predicate Resumes(job: Job, sent: seq<Word>, d: Device, j: nat, c: nat, first: nat) {
    if d.can == ReceivedLoopNumber then
      && AwaitsWord(job, d, j, c)
      && 1 <= first <= |sent|
      && if c == |job.words| then AgreeFrom(sent, job.words, c)
         else AgreeFrom(sent, job.words, c + 1) && sent[first - 1] == job.words[c - 1]
    else Awaits(job, d, j, c) && AgreeFrom(sent, job.words, c)
  }

  lemma PairsAfterWord(
    job: Job, sent: seq<Word>, w: World, j: nat, c: nat, first: nat, end: nat, fates: seq<Fate>)
    requires ValidJob(job) && j < job.sectors && w.device.can == ReceivedLoopNumber
    requires Resumes(job, sent, w.device, j, c, first)
    requires 1 <= first <= c <= end <= Start(job.sizes, j + 1) <= |job.words|
    requires |fates| == |Sends(Pairs(sent, first, end))|
    requires IsUndisturbed(job.sizes, w, Sends(Pairs(sent, first, end)), fates)
    ensures var x := Reach(job.sizes, w, Sends(Pairs(sent, first, end)), fates);
            Has(job, x.device, j, end) && SubSectorDone(job, x.heard, end)
  {
    hide Has, Awaits, AwaitsWord, Start, Reach, IsUndisturbed, ValidJob, IsBetween, WordAcks, With;
    var word := sent[first - 1];
    PairSends(sent, first, end);
    UndisturbedConcat(job.sizes, w, Pair(first, word), Sends(Pairs(sent, first + 1, end)), fates);
    PairTaken(job, w, j, c, first, word, fates[..2]);
    WithIsValid(job, c, word);
    var x := Reach(job.sizes, w, Pair(first, word), fates[..2]);
    if c < end {
      HasAwaits(job, x.device, j, c);
      PairsSteps(job, sent, x, j, c + 1, first + 1, end, fates[2..]);
    } else if c == |job.words| && first < end {
      HasLastAwaits(job, x.device, j, word);
      PairsSteps(job, sent, x, j, c, first + 1, end, fates[2..]);
    } else {
      if first < end { HasIsPast(job, x.device, j, c, end); }
      PairsIgnored(job.sizes, sent, x, first + 1, end, fates[2..]);
    }
  }

  lemma SubSectorStep(
    f: BinaryFile, job: Job, sent: seq<Word>, j: nat, c: nat, first: nat, end: nat, bus: Bus, k: nat,
    w: World, fates: seq<Fate>)
    requires Describes(f, sent, job.sizes, job.sectors) && ValidJob(job) && j < job.sectors
    requires Resumes(job, sent, w.device, j, c, first)
    requires 1 <= first <= c <= end <= Start(job.sizes, j + 1) <= |job.words| == |sent|
    requires end % SUB_SECTOR == 0
    requires var o := SubSector(f, first, end, bus, k);
             |fates| == |o.events| && IsUndisturbed(job.sizes, w, o.events, fates)
    ensures var o := SubSector(f, first, end, bus, k);
            var x := Reach(job.sizes, w, o.events, fates);
            o.result == Success && Has(job, x.device, j, end) && x.heard == {}
  {
    hide Has, Awaits, AwaitsWord, Start, Reach, IsUndisturbed, ValidJob, SubSector, IsStill, Pairs, Describes;
    SubSectorShape(f, sent, job.sizes, job.sectors, first, end, bus, k);
    var sends := Sends(Pairs(sent, first, end));
    var reply := Answer(bus, k).ack;
    var wait := AckWaited(ReceivedSubSectorData, ReceivedAndProcessed, reply);
    UndisturbedConcat(job.sizes, w, sends, [wait], fates);
    if w.device.can == ReceivedLoopNumber {
      PairsAfterWord(job, sent, w, j, c, first, end, fates[..|sends|]);
    } else {
      PairsSteps(job, sent, w, j, c, first, end, fates[..|sends|]);
    }
    var x := Reach(job.sizes, w, sends, fates[..|sends|]);
    HasIsStill(job, x.device, j, end);
    WaitStep(job.sizes, x, ReceivedSubSectorData, ReceivedAndProcessed, reply, fates[|sends|..]);
    HasAnyHeard(job, x, j, end);
  }

  lemma HasAnyHeard(job: Job, w: World, j: nat, i: nat)
    requires Has(job, w.device, j, i)
    ensures Has(job, w.(heard := {}).device, j, i)
  {
  }

  /** The first attempt at a sub-sector is the only one. */
  lemma TriesStep(
    f: BinaryFile, job: Job, sent: seq<Word>, j: nat, c: nat, first: nat, end: nat, tries: nat, bus: Bus, k: nat,
    w: World, fates: seq<Fate>)
    requires Describes(f, sent, job.sizes, job.sectors) && ValidJob(job) && j < job.sectors && tries > 0
    requires Resumes(job, sent, w.device, j, c, first)
    requires 1 <= first <= c <= end <= Start(job.sizes, j + 1) <= |job.words| == |sent|
    requires end % SUB_SECTOR == 0
    requires var o := SubSectorTries(f, first, end, tries, bus, k);
             |fates| == |o.events| && IsUndisturbed(job.sizes, w, o.events, fates)
    ensures var o := SubSectorTries(f, first, end, tries, bus, k);
            var x := Reach(job.sizes, w, o.events, fates);
            o.result == Success && Has(job, x.device, j, end) && x.heard == {}
  {
    hide Has, Resumes, Start, Reach, IsUndisturbed, ValidJob, SubSector, Describes;
    var a := SubSector(f, first, end, bus, k);
    if a.result == Failed {
      var rest := SubSectorTries(f, first, end, tries - 1, bus, a.next);
      UndisturbedConcat(job.sizes, w, a.events, rest.events, fates);
      SubSectorStep(f, job, sent, j, c, first, end, bus, k, w, fates[..|a.events|]);
      assert false;
    } else {
      SubSectorStep(f, job, sent, j, c, first, end, bus, k, w, fates);
    }
  }

  // ---------- one sector ----------

  lemma {:induction false} SectorLoopsStep(
    f: BinaryFile, job: Job, sent: seq<Word>, j: nat, c: nat, i: nat, tries: nat, bus: Bus, k: nat,
    w: World, fates: seq<Fate>)
    requires Describes(f, sent, job.sizes, job.sectors) && ValidJob(job) && j < job.sectors && tries > 0
    requires Resumes(job, sent, w.device, j, c, i) && i % SUB_SECTOR_LOOPS == 1 && i <= c < i + SUB_SECTOR_LOOPS
    requires Start(job.sizes, j) < i <= Start(job.sizes, j + 1) <= |job.words| == |sent|
    requires var o := SectorLoops(f, i, Start(job.sizes, j + 1), |sent|, tries, bus, k);
             |fates| == |o.events| && IsUndisturbed(job.sizes, w, o.events, fates)
    ensures var o := SectorLoops(f, i, Start(job.sizes, j + 1), |sent|, tries, bus, k);
            var x := Reach(job.sizes, w, o.events, fates);
            o.result == Success && Has(job, x.device, j, Start(job.sizes, j + 1)) && x.heard == {}
    decreases Start(job.sizes, j + 1) - i
  {
    hide Has, Resumes, Start, Reach, IsUndisturbed, ValidJob, Describes, SubSectorTries, SectorLoops, SubSectorLoops;
    PartsOf(job);
    var last := Start(job.sizes, j + 1);
    SectorLoopsSubSector(f, job.sizes, job.sectors, j, i, tries, bus, k);
    var end := i + SUB_SECTOR_LOOPS - 1;
    var a := SubSectorTries(f, i, end, tries, bus, k);
    if a.result != Success {
      TriesStep(f, job, sent, j, c, i, end, tries, bus, k, w, fates);
      assert false;
    } else {
      var rest := SectorLoops(f, end + 1, last, |sent|, tries, bus, a.next);
      UndisturbedConcat(job.sizes, w, a.events, rest.events, fates);
      TriesStep(f, job, sent, j, c, i, end, tries, bus, k, w, fates[..|a.events|]);
      var x := Reach(job.sizes, w, a.events, fates[..|a.events|]);
      if end < last {
        HasResumes(job, sent, w.device, x.device, j, c, i, end);
        SectorLoopsStep(f, job, sent, j, end + 1, end + 1, tries, bus, a.next, x, fates[|a.events|..]);
      } else {
        NoMoreLoops(f, job, last, tries, bus, a.next);
        ReachNothing(job.sizes, x, fates[|a.events|..]);
      }
    }
  }

  /** From where the receiver has got to it goes on. */
  lemma HasResumes(job: Job, sent: seq<Word>, d: Device, x: Device, j: nat, c: nat, first: nat, end: nat)
    requires Resumes(job, sent, d, j, c, first) && c <= end
    requires Has(job, x, j, end) && end < Start(job.sizes, j + 1) <= |job.words|
    ensures Resumes(job, sent, x, j, end + 1, end + 1)
  {
    hide Awaits, AwaitsWord, Start;
    HasAwaits(job, x, j, end);
    AwaitsState(job, x, j, end + 1);
  }

  lemma PartsOf(job: Job)
    requires ValidJob(job)
    ensures ValidMap(job.sizes) && job.sectors <= |job.sizes| && |job.words| == Start(job.sizes, job.sectors)
  {
    hide Start;
  }

  lemma NoMoreLoops(f: BinaryFile, job: Job, last: nat, tries: nat, bus: Bus, k: nat)
    ensures SectorLoops(f, last + 1, last, |job.words|, tries, bus, k) == Outcome([], k, Success)
  {
  }

  // ---------- sub-sectors that are left behind ----------

  lemma SubSectorIgnored(
    f: BinaryFile, job: Job, first: nat, end: nat, bus: Bus, k: nat, w: World, fates: seq<Fate>)
    requires Describes(f, job.words, job.sizes, job.sectors)
    requires IsPast(w.device, end) && 1 <= first && end <= |job.words| && w.heard == {}
    requires var o := SubSector(f, first, end, bus, k);
             |fates| == |o.events| && IsUndisturbed(job.sizes, w, o.events, fates)
    ensures var o := SubSector(f, first, end, bus, k);
            o.result == Failed && Reach(job.sizes, w, o.events, fates) == w
  {
    hide IsBetween, Reach, IsUndisturbed, SubSector, IsStill, Pairs, Describes;
    SubSectorShape(f, job.words, job.sizes, job.sectors, first, end, bus, k);
    var sends := Sends(Pairs(job.words, first, end));
    var reply := Answer(bus, k).ack;
    UndisturbedConcat(job.sizes, w, sends, [AckWaited(ReceivedSubSectorData, ReceivedAndProcessed, reply)], fates);
    PairsIgnored(job.sizes, job.words, w, first, end, fates[..|sends|]);
    PastIsStill(job.sizes, w.device, end);
    WaitStep(job.sizes, w, ReceivedSubSectorData, ReceivedAndProcessed, reply, fates[|sends|..]);
  }

  /** No number of attempts gets a sub-sector acknowledged that the receiver has left behind. */
  lemma {:induction false} TriesIgnored(
    f: BinaryFile, job: Job, first: nat, end: nat, tries: nat, bus: Bus, k: nat, w: World, fates: seq<Fate>)
    requires Describes(f, job.words, job.sizes, job.sectors)
    requires IsPast(w.device, end) && 1 <= first && end <= |job.words| && w.heard == {}
    requires var o := SubSectorTries(f, first, end, tries, bus, k);
             |fates| == |o.events| && IsUndisturbed(job.sizes, w, o.events, fates)
    ensures var o := SubSectorTries(f, first, end, tries, bus, k);
            o.result == Failed && Reach(job.sizes, w, o.events, fates) == w
    decreases tries
  {
    hide IsPast, Reach, IsUndisturbed, SubSector, Describes;
    if tries == 0 {
      ReachNothing(job.sizes, w, fates);
    } else {
      var a := SubSector(f, first, end, bus, k);
      if a.result != Failed {
        SubSectorIgnored(f, job, first, end, bus, k, w, fates);
        assert false;
      } else {
        var rest := SubSectorTries(f, first, end, tries - 1, bus, a.next);
        UndisturbedConcat(job.sizes, w, a.events, rest.events, fates);
        SubSectorIgnored(f, job, first, end, bus, k, w, fates[..|a.events|]);
        TriesIgnored(f, job, first, end, tries - 1, bus, a.next, w, fates[|a.events|..]);
      }
    }
  }

  /** The first word of a sub-sector is taken for the missing one, and the rest is ignored. */
  lemma PairsBehind(job: Job, sent: seq<Word>, w: World, j: nat, c: nat, first: nat, end: nat, fates: seq<Fate>)
    requires ValidJob(job) && j < job.sectors && AwaitsWord(job, w.device, j, c)
    requires 1 <= first <= end < c <= |job.words| == |sent|
    requires |fates| == |Sends(Pairs(sent, first, end))|
    requires IsUndisturbed(job.sizes, w, Sends(Pairs(sent, first, end)), fates)
    ensures var x := Reach(job.sizes, w, Sends(Pairs(sent, first, end)), fates);
            && Has(With(job, c, sent[first - 1]), x.device, j, c)
            && x.heard == w.heard + WordAcks(|job.words|, c)
  {
    hide Has, AwaitsWord, Start, Reach, IsUndisturbed, ValidJob, IsBetween, WordAcks;
    var word := sent[first - 1];
    PairSends(sent, first, end);
    UndisturbedConcat(job.sizes, w, Pair(first, word), Sends(Pairs(sent, first + 1, end)), fates);
    PairTaken(job, w, j, c, first, word, fates[..2]);
    var x := Reach(job.sizes, w, Pair(first, word), fates[..2]);
    HasIsPast(With(job, c, word), x.device, j, c, end);
    PairsIgnored(job.sizes, sent, x, first + 1, end, fates[2..]);
  }

  lemma SubSectorBehind(
    f: BinaryFile, job: Job, sent: seq<Word>, j: nat, c: nat, first: nat, end: nat, bus: Bus, k: nat,
    w: World, fates: seq<Fate>)
    requires Describes(f, sent, job.sizes, job.sectors) && ValidJob(job) && j < job.sectors
    requires AwaitsWord(job, w.device, j, c) && 1 <= first <= end < c <= |job.words| == |sent| && w.heard == {}
    requires var o := SubSector(f, first, end, bus, k);
             |fates| == |o.events| && IsUndisturbed(job.sizes, w, o.events, fates)
    ensures var o := SubSector(f, first, end, bus, k);
            var x := Reach(job.sizes, w, o.events, fates);
            && o.result == Judge(WordAcks(|job.words|, c) != {})
            && Has(With(job, c, sent[first - 1]), x.device, j, c)
            && x.heard == {}
  {
    hide Has, AwaitsWord, Start, Reach, IsUndisturbed, ValidJob, SubSector, IsStill, Pairs, Describes;
    SubSectorShape(f, sent, job.sizes, job.sectors, first, end, bus, k);
    var sends := Sends(Pairs(sent, first, end));
    var reply := Answer(bus, k).ack;
    var wait := AckWaited(ReceivedSubSectorData, ReceivedAndProcessed, reply);
    UndisturbedConcat(job.sizes, w, sends, [wait], fates);
    PairsBehind(job, sent, w, j, c, first, end, fates[..|sends|]);
    var x := Reach(job.sizes, w, sends, fates[..|sends|]);
    HasIsStill(With(job, c, sent[first - 1]), x.device, j, c);
    WaitStep(job.sizes, x, ReceivedSubSectorData, ReceivedAndProcessed, reply, fates[|sends|..]);
    HasAnyHeard(With(job, c, sent[first - 1]), x, j, c);
  }

  /**
   * While the word of loop c is missing, a sub-sector before c is acknowledged exactly if loop c ends a sub-sector
   * or the image: its first word completes that one instead.
   */
  lemma TriesBehind(
    f: BinaryFile, job: Job, sent: seq<Word>, j: nat, c: nat, first: nat, end: nat, tries: nat, bus: Bus, k: nat,
    w: World, fates: seq<Fate>)
    requires Describes(f, sent, job.sizes, job.sectors) && ValidJob(job) && j < job.sectors && tries > 0
    requires AwaitsWord(job, w.device, j, c) && 1 <= first <= end < c <= |job.words| == |sent| && w.heard == {}
    requires var o := SubSectorTries(f, first, end, tries, bus, k);
             |fates| == |o.events| && IsUndisturbed(job.sizes, w, o.events, fates)
    ensures var o := SubSectorTries(f, first, end, tries, bus, k);
            var x := Reach(job.sizes, w, o.events, fates);
            && o.result == Judge(c % SUB_SECTOR == 0 || c == |job.words|)
            && Has(With(job, c, sent[first - 1]), x.device, j, c)
            && x.heard == {}
  {
    hide Has, AwaitsWord, Start, Reach, IsUndisturbed, ValidJob, SubSector, Describes, IsPast;
    var a := SubSector(f, first, end, bus, k);
    if a.result == Failed {
      var rest := SubSectorTries(f, first, end, tries - 1, bus, a.next);
      UndisturbedConcat(job.sizes, w, a.events, rest.events, fates);
      SubSectorBehind(f, job, sent, j, c, first, end, bus, k, w, fates[..|a.events|]);
      var x := Reach(job.sizes, w, a.events, fates[..|a.events|]);
      HasIsPast(With(job, c, sent[first - 1]), x.device, j, c, end);
      TriesIgnored(f, job.(words := sent), first, end, tries - 1, bus, a.next, x, fates[|a.events|..]);
    } else {
      SubSectorBehind(f, job, sent, j, c, first, end, bus, k, w, fates);
    }
  }

  /** With the very last word missing, the sub-sector before the last is passed over. */
  lemma SectorLoopsJump(
    f: BinaryFile, job: Job, sent: seq<Word>, j: nat, tries: nat, bus: Bus, k: nat, w: World, fates: seq<Fate>)
    requires Describes(f, sent, job.sizes, job.sectors) && ValidJob(job) && j < job.sectors && tries > 0
    requires AwaitsWord(job, w.device, j, |job.words|) && w.heard == {}
    requires |job.words| > 0 && AgreeFrom(sent, job.words, |job.words|)
    requires |job.words| == Start(job.sizes, j) + 2 * SUB_SECTOR_LOOPS == Start(job.sizes, j + 1)
    requires var o := SectorLoops(f, Start(job.sizes, j) + 1, Start(job.sizes, j + 1), |sent|, tries, bus, k);
             |fates| == |o.events| && IsUndisturbed(job.sizes, w, o.events, fates)
    ensures var o := SectorLoops(f, Start(job.sizes, j) + 1, Start(job.sizes, j + 1), |sent|, tries, bus, k);
            var x := Reach(job.sizes, w, o.events, fates);
            o.result == Success && Has(job, x.device, j, Start(job.sizes, j + 1)) && x.heard == {}
  {
    hide Has, Awaits, AwaitsWord, Start, Reach, IsUndisturbed, ValidJob, Describes, SubSectorTries, SectorLoops;
    hide SubSectorLoops, With;
    PartsOf(job);
    var i, last := Start(job.sizes, j) + 1, Start(job.sizes, j + 1);
    SectorSplit(f, sent, job.sizes, job.sectors, j, tries, bus, k);
    SectorLoopsSubSector(f, job.sizes, job.sectors, j, i, tries, bus, k);
    var end := i + SUB_SECTOR_LOOPS - 1;
    var a := SubSectorTries(f, i, end, tries, bus, k);
    if a.result != Success {
      TriesBehind(f, job, sent, j, last, i, end, tries, bus, k, w, fates);
      assert false;
    } else {
      var rest := SectorLoops(f, end + 1, last, |sent|, tries, bus, a.next);
      UndisturbedConcat(job.sizes, w, a.events, rest.events, fates);
      TriesBehind(f, job, sent, j, last, i, end, tries, bus, k, w, fates[..|a.events|]);
      var x := Reach(job.sizes, w, a.events, fates[..|a.events|]);
      HasLastAwaits(job, x.device, j, sent[i - 1]);
      AwaitsState(job, x.device, j, last);
      SectorLoopsStep(f, job, sent, j, last, end + 1, tries, bus, a.next, x, fates[|a.events|..]);
    }
  }

  // ---------- the signature of a sector ----------

  /** The receiver has accepted sector j and goes on, or is done. */
  ghost predicate HasAccepted(job: Job, d: Device, j: nat) {
    && Holds(job.sizes, d)
    && j < job.sectors <= |job.sizes|
    && if j == job.sectors - 1 then IsDone(job, d) && d.checks == 0 && d.flash[..|job.words|] == job.words
       else Awaits(job, d, j + 1, Start(job.sizes, j + 1) + 1)
  }

  /** All words of sector j are in the buffer, and its signature has arrived. */
  ghost predicate IsFull(job: Job, d: Device, j: nat) {
    && Holds(job.sizes, d)
    && IsOn(job, d, j) && d.info.sector == j && IsStored(job, d, false, 0) && IsPending(d)
    && if Start(job.sizes, j + 1) < |job.words| then d.info.current == Start(job.sizes, j + 1) + 1
       else d.info.current == |job.words| && d.info.pos < |d.buffer|
            && d.buffer[d.info.pos] == job.words[|job.words| - 1]
  }

  /** Writing the complete sector j makes the flash the image up to its end. */
  lemma WritesSector(job: Job, d: Device, j: nat)
    requires ValidJob(job) && j < job.sectors && IsFull(job, d, j)
    ensures CanWrite(job.sizes, d)
    ensures var to := Start(job.sizes, j + 1);
            var flash := WriteSector(job.sizes, d, Works);
            to <= |job.words| && to <= |flash| && flash[..to] == job.words[..to]
  {
    hide Start, Chain, WriteSector, Holds;
    LastSector(job, d, j);
    ShapeOf(job.sizes, d);
    WriteSectorSigns(job.sizes, d, Works);
    SectorBounds(job.sizes, j);
    StartMono(job.sizes, j + 1, job.sectors);
    if d.info.current == |job.words| {
      WholeBuffer(job, d, Start(job.sizes, j), Start(job.sizes, j + 1));
    } else {
      StoredSector(job, d, j);
    }
  }

  /** The signature of the written sector is the one that the tool sends. */
  lemma WrittenSigns(job: Job, d: Device, j: nat)
    requires ValidJob(job) && j < job.sectors && IsFull(job, d, j)
    ensures CanWrite(job.sizes, d)
    ensures Start(job.sizes, j) <= Start(job.sizes, j + 1) <= |WriteSector(job.sizes, d, Works)|
    ensures Chain(WriteSector(job.sizes, d, Works)[Start(job.sizes, j)..Start(job.sizes, j + 1)], d.info.crcOnBoard)
         == SectorCrc(job, j)
  {
    hide Start, Chain, WriteSector, SectorCrc, IsStored;
    WritesSector(job, d, j);
    ValidateSigns(job.sizes, d, Works);
    SignsImage(job, WriteSector(job.sizes, d, Works), j);
  }

  /** In the last sector the last word completes the buffer. */
  lemma WholeBuffer(job: Job, d: Device, from: nat, to: nat)
    requires from < to == |job.words| && from <= |d.flash|
    requires d.info.pos == to - from - 1 < |d.buffer|
    requires d.buffer[d.info.pos] == job.words[to - 1]
    requires d.buffer[..d.info.pos] == job.words[from..from + d.info.pos]
    requires d.flash[..from] == job.words[..from]
    ensures d.flash[..from] + d.buffer[..to - from] == job.words[..to]
  {
    assert d.buffer[..to - from] == d.buffer[..d.info.pos] + [job.words[to - 1]];
  }

  lemma SignsImage(job: Job, flash: seq<Word>, j: nat)
    requires ValidJob(job) && j < job.sectors
    requires Start(job.sizes, j + 1) <= |flash| && Start(job.sizes, j + 1) <= |job.words|
    requires flash[..Start(job.sizes, j + 1)] == job.words[..Start(job.sizes, j + 1)]
    ensures Chain(flash[..Start(job.sizes, j + 1)], 0) == SectorCrc(job, j)
  {
    hide Start, Chain, Column;
    SectorBounds(job.sizes, j);
    StartMono(job.sizes, j + 1, job.sectors);
    ColumnAt(job.words, 0, Start(job.sizes, j + 1) - 1);
  }

  /** The signature arrives at the receiver. */
  lemma CrcArrives(job: Job, d: Device, j: nat)
    requires ValidJob(job) && j < job.sectors && Has(job, d, j, Start(job.sizes, j + 1))
    ensures var r := RxCrc(job.sizes, d, SectorCrc(job, j));
            IsFull(job, r.device, j) && r.device.info.crc == SectorCrc(job, j) && r.device.boot == BootLoad
    ensures d.boot != BootLeft
  {
    hide Start, Chain, SectorCrc, Holds;
    CrcKeeps(job.sizes, d, SectorCrc(job, j));
    OnCrc(job, d, j);
    StoredCrc(job, d, j, SectorCrc(job, j));
    SectorBounds(job.sizes, j);
  }

  /** The receiver validates it. */
  lemma Validates(job: Job, d: Device, j: nat)
    requires ValidJob(job) && j < job.sectors && IsFull(job, d, j)
    requires d.info.crc == SectorCrc(job, j) && d.boot == BootLoad
    ensures var r := Validate(job.sizes, d, Works);
            && CRC_YES in r.acks
            && Holds(job.sizes, r.device)
            && Passed(job, r.device, j, true)
            && r.device.boot == BootLoad
            && (j < job.sectors - 1 ==> IsOn(job, r.device, j + 1) && r.device.info.sector == j + 1)
  {
    hide Start, Chain, SectorCrc, WriteSector, Holds, IsStored;
    WrittenSigns(job, d, j);
    ValidateKeeps(job.sizes, d, Works);
    StoredValidate(job, d, j, Works);
    LastSector(job, d, j);
  }

  /** After the validation the receiver waits for the next sector, or is done. */
  lemma Settles(job: Job, d: Device, j: nat)
    requires ValidJob(job) && j < job.sectors
    requires Holds(job.sizes, d) && Passed(job, d, j, true) && d.boot == BootLoad
    requires j < job.sectors - 1 ==> IsOn(job, d, j + 1) && d.info.sector == j + 1 && d.can == Received8BytesCrc
    ensures var x := Poll(job.sizes, d, Works);
            x.acks == {} && HasAccepted(job, x.device, j) && IsStill(job.sizes, x.device)
  {
    hide Start, Chain, Holds;
    PollKeeps(job.sizes, d, Works);
    if j < job.sectors - 1 {
      SectorBounds(job.sizes, j);
      SectorBounds(job.sizes, j + 1);
      StartMono(job.sizes, j + 2, job.sectors);
    }
  }

  /** The exchange of the signature of a completely stored sector. */
  lemma CrcStep(job: Job, j: nat, bus: Bus, k: nat, w: World, fates: seq<Fate>)
    requires ValidJob(job) && j < job.sectors && Has(job, w.device, j, Start(job.sizes, j + 1)) && |fates| == 2
    requires IsUndisturbed(job.sizes, w, JudgeCrc(SendCrc(SectorCrc(job, j), false, bus, k)).events, fates)
    ensures var o := JudgeCrc(SendCrc(SectorCrc(job, j), false, bus, k));
            var x := Reach(job.sizes, w, o.events, fates);
            o.result == Success && HasAccepted(job, x.device, j) && x.heard == {}
  {
    hide Has, HasAccepted, IsFull, Start, Reach, IsUndisturbed, ValidJob, IsStill, SectorCrc, RxCrc, Validate, Holds;
    hide Passed, IsOn, Turns;
    var crc := SectorCrc(job, j);
    var o := JudgeCrc(SendCrc(crc, false, bus, k));
    var reply := Answer(bus, k).ack;
    var wait := AckWaited(ReceivedCrc, ReceivedAndProcessed, reply);
    assert o.events == [Sent(CrcSignature(crc))] + [wait];
    UndisturbedConcat(job.sizes, w, [Sent(CrcSignature(crc))], [wait], fates);
    UndisturbedOne(job.sizes, w, Sent(CrcSignature(crc)), fates[..1]);
    CrcArrives(job, w.device, j);
    var x := Receive(job.sizes, w, CrcSignature(crc));
    FullIsPending(job, x.device, j);
    Validates(job, x.device, j);
    var y := Take(x, Validate(job.sizes, x.device, Works));
    AcceptedState(job, x.device, j);
    Settles(job, y.device, j);
    TurnsTwice(job.sizes, x, fates[..1][0].turns);
    var z := Reach(job.sizes, w, [Sent(CrcSignature(crc))], fates[..1]);
    WaitStep(job.sizes, z, ReceivedCrc, ReceivedAndProcessed, reply, fates[1..]);
  }

  lemma FullIsPending(job: Job, d: Device, j: nat)
    requires IsFull(job, d, j) && d.boot == BootLoad
    ensures Poll(job.sizes, d, Works) == Validate(job.sizes, d, Works)
  {
    hide Start, Chain, Holds, Validate;
  }

  lemma AcceptedState(job: Job, d: Device, j: nat)
    requires ValidJob(job) && j < job.sectors && IsFull(job, d, j)
    requires CRC_YES in Validate(job.sizes, d, Works).acks
    ensures var x := Validate(job.sizes, d, Works).device; x.info.sector == j + 1 ==> x.can == Received8BytesCrc
  {
    hide Start, Chain, Holds, IsStored;
  }

  // ---------- all sectors ----------

  /**
   * Sending sector j makes the receiver have its words: it expects a loop of the first sub-sector, or the word of
   * one; or the very last word is missing, and the sector has just two sub-sectors.
   */
  ghost predicate GoesOn(job: Job, sent: seq<Word>, d: Device, j: nat, c: nat)
    requires j < |job.sizes|
  {
    var start := Start(job.sizes, j);
    || (c <= start + SUB_SECTOR_LOOPS && Resumes(job, sent, d, j, c, start + 1))
    || (&& d.can == ReceivedLoopNumber && AwaitsWord(job, d, j, c)
        && c == |job.words| == start + 2 * SUB_SECTOR_LOOPS
        && AgreeFrom(sent, job.words, c))
  }

  /** The signature of sector j that the tool sends is that of what the receiver has. */
  predicate SignsAs(job: Job, sent: seq<Word>, j: nat)
    requires ValidJob(job) && |sent| == |job.words| && j < job.sectors
  {
    SectorCrc(job.(words := sent), j) == SectorCrc(job, j)
  }

  lemma SentIsValid(job: Job, sent: seq<Word>)
    requires ValidJob(job) && |sent| == |job.words|
    ensures ValidJob(job.(words := sent)) && 1 <= job.sectors <= |job.sizes|
  {
    hide Start;
  }

  /** A signature is the row of the last loop of its sector. */
  lemma SectorCrcRow(job: Job, j: nat)
    requires ValidJob(job) && j < job.sectors
    ensures 1 <= Start(job.sizes, j + 1) <= |job.words|
    ensures SectorCrc(job, j) == Column(job.words, 0)[Start(job.sizes, j + 1) - 1]
  {
    hide Column;
    SectorBounds(job.sizes, j);
    StartMono(job.sizes, j + 1, job.sectors);
  }

  lemma PlaceOfLoop(job: Job, sent: seq<Word>, d: Device, j: nat, c: nat)
    requires j < |job.sizes| && GoesOn(job, sent, d, j, c)
    ensures Start(job.sizes, j) < c <= Start(job.sizes, j + 1) && c <= |job.words| == |sent|
    ensures AgreeFrom(sent, job.words, c + 1)
  {
    hide Holds, IsOn, IsStored, Start;
  }

  lemma SectorLoopsGo(
    f: BinaryFile, job: Job, sent: seq<Word>, j: nat, c: nat, tries: nat, bus: Bus, k: nat, w: World,
    fates: seq<Fate>)
    requires Describes(f, sent, job.sizes, job.sectors) && ValidJob(job) && j < job.sectors <= |job.sizes|
    requires GoesOn(job, sent, w.device, j, c) && (w.device.can == ReceivedLoopNumber ==> w.heard == {}) && tries > 0
    requires var o := SectorLoops(f, Start(job.sizes, j) + 1, Start(job.sizes, j + 1), |sent|, tries, bus, k);
             |fates| == |o.events| && IsUndisturbed(job.sizes, w, o.events, fates)
    ensures var o := SectorLoops(f, Start(job.sizes, j) + 1, Start(job.sizes, j + 1), |sent|, tries, bus, k);
            var x := Reach(job.sizes, w, o.events, fates);
            o.result == Success && Has(job, x.device, j, Start(job.sizes, j + 1)) && x.heard == {}
  {
    hide Has, Start, Reach, IsUndisturbed, ValidJob, SectorLoops, Describes, AwaitsWord, Awaits, Resumes;
    PlaceOfLoop(job, sent, w.device, j, c);
    SectorSplit(f, sent, job.sizes, job.sectors, j, tries, bus, k);
    if c <= Start(job.sizes, j) + SUB_SECTOR_LOOPS && Resumes(job, sent, w.device, j, c, Start(job.sizes, j) + 1) {
      SectorLoopsStep(f, job, sent, j, c, Start(job.sizes, j) + 1, tries, bus, k, w, fates);
    } else {
      SectorLoopsJump(f, job, sent, j, tries, bus, k, w, fates);
    }
  }

  lemma SectorStep(
    f: BinaryFile, job: Job, sent: seq<Word>, j: nat, c: nat, tries: nat, bus: Bus, k: nat, w: World,
    fates: seq<Fate>)
    requires Describes(f, sent, job.sizes, job.sectors) && ValidJob(job) && j < job.sectors && tries > 0
    requires |sent| == |job.words| && SignsAs(job, sent, j)
    requires GoesOn(job, sent, w.device, j, c) && (w.device.can == ReceivedLoopNumber ==> w.heard == {})
    requires var o := Sector(f, Start(job.sizes, j) + 1, |sent|, LoopsIn(job.sizes, j), tries, bus, k);
             |fates| == |o.events| && IsUndisturbed(job.sizes, w, o.events, fates)
    ensures var o := Sector(f, Start(job.sizes, j) + 1, |sent|, LoopsIn(job.sizes, j), tries, bus, k);
            var x := Reach(job.sizes, w, o.events, fates);
            o.result == Success && HasAccepted(job, x.device, j) && x.heard == {}
  {
    hide Has, HasAccepted, GoesOn, Start, Reach, IsUndisturbed, ValidJob, Sector, SectorLoops, JudgeCrc, SendCrc;
    hide Describes, SectorCrc;
    PartsOf(job);
    SentIsValid(job, sent);
    SectorCrcRow(job.(words := sent), j);
    SectorSplit(f, sent, job.sizes, job.sectors, j, tries, bus, k);
    var last := Start(job.sizes, j + 1);
    var a := SectorLoops(f, Start(job.sizes, j) + 1, last, |sent|, tries, bus, k);
    if a.result != Success {
      SectorLoopsGo(f, job, sent, j, c, tries, bus, k, w, fates);
      assert false;
    } else {
      var crc := JudgeCrc(SendCrc(SectorCrc(job, j), false, bus, a.next));
      CrcEvents(SectorCrc(job, j), bus, a.next);
      UndisturbedConcat(job.sizes, w, a.events, crc.events, fates);
      SectorLoopsGo(f, job, sent, j, c, tries, bus, k, w, fates[..|a.events|]);
      CrcStep(job, j, bus, a.next, Reach(job.sizes, w, a.events, fates[..|a.events|]), fates[|a.events|..]);
    }
  }

  /** The data of sectors j and on. */
  lemma {:induction false} DataGoesThrough(
    f: BinaryFile, job: Job, sent: seq<Word>, j: nat, c: nat, tries: nat, bus: Bus, k: nat, w: World,
    fates: seq<Fate>)
    requires Describes(f, sent, job.sizes, job.sectors) && ValidJob(job) && j < job.sectors && tries > 0
    requires |sent| == |job.words| && forall i | j <= i < job.sectors :: SignsAs(job, sent, i)
    requires GoesOn(job, sent, w.device, j, c) && (w.device.can == ReceivedLoopNumber ==> w.heard == {})
    requires var o := AppData(f, job.sizes, Start(job.sizes, j) + 1, tries, bus, k);
             |fates| == |o.events| && IsUndisturbed(job.sizes, w, o.events, fates)
    ensures var o := AppData(f, job.sizes, Start(job.sizes, j) + 1, tries, bus, k);
            var x := Reach(job.sizes, w, o.events, fates);
            o.result == Success && HasAccepted(job, x.device, job.sectors - 1) && x.heard == {}
    decreases job.sectors - j
  {
    hide HasAccepted, GoesOn, Start, Reach, IsUndisturbed, ValidJob, Sector, AppData, SignsAs, Describes;
    PartsOf(job);
    AppDataSector(f, sent, job.sizes, job.sectors, j, tries, bus, k);
    var a := Sector(f, Start(job.sizes, j) + 1, |sent|, LoopsIn(job.sizes, j), tries, bus, k);
    if a.result != Success {
      SectorStep(f, job, sent, j, c, tries, bus, k, w, fates);
      assert false;
    } else {
      var rest := AppData(f, job.sizes, Start(job.sizes, j + 1) + 1, tries, bus, a.next);
      UndisturbedConcat(job.sizes, w, a.events, rest.events, fates);
      SectorStep(f, job, sent, j, c, tries, bus, k, w, fates[..|a.events|]);
      var x := Reach(job.sizes, w, a.events, fates[..|a.events|]);
      if j + 1 < job.sectors {
        PlaceOfLoop(job, sent, w.device, j, c);
        AcceptedGoesOn(job, sent, x.device, j);
        DataGoesThrough(f, job, sent, j + 1, Start(job.sizes, j + 1) + 1, tries, bus, a.next, x, fates[|a.events|..]);
      } else {
        AppDataEnd(f, sent, job.sizes, job.sectors, tries, bus, a.next);
        ReachNothing(job.sizes, x, fates[|a.events|..]);
      }
    }
  }

  /** The receiver goes on with the next sector. */
  lemma NextSector(job: Job, d: Device, j: nat)
    requires HasAccepted(job, d, j) && j + 1 < job.sectors
    ensures Awaits(job, d, j + 1, Start(job.sizes, j + 1) + 1)
  {
    hide Awaits, Start;
  }

  lemma AcceptedGoesOn(job: Job, sent: seq<Word>, d: Device, j: nat)
    requires HasAccepted(job, d, j) && j + 1 < job.sectors
    requires AgreeFrom(sent, job.words, Start(job.sizes, j + 1) + 1)
    ensures GoesOn(job, sent, d, j + 1, Start(job.sizes, j + 1) + 1) && d.can != ReceivedLoopNumber
  {
    hide Awaits, AwaitsWord, HasAccepted, AgreeFrom, Start;
    EnoughSectors(job, d, j);
    NextSector(job, d, j);
    AwaitsState(job, d, j + 1, Start(job.sizes, j + 1) + 1);
  }

  lemma EnoughSectors(job: Job, d: Device, j: nat)
    requires HasAccepted(job, d, j)
    ensures job.sectors <= |job.sizes|
  {
    hide Awaits, Start, Chain;
  }

  /** What is sent has its own signatures. */
  lemma SignsAsSent(job: Job)
    requires ValidJob(job)
    ensures forall i | 0 <= i < job.sectors :: SignsAs(job, job.words, i)
  {
    hide Start, SectorCrc;
    assert job.(words := job.words) == job;
  }
}
