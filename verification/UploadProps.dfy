/**
 * What every upload of a prepared image does, whatever the bus answers: it never leaves by an exception, the
 * acknowledged frames are exactly the image in order, and the number of frames is bounded.
 */
module UploadProps {
  import opened Wrappers
  import opened Crc64
  import opened CrcImage
  import opened FirmwareImage
  import opened Protocol
  import opened UploadSpec
  import Bytes

  // ---------- prepared images ----------

  /** Sector sizes are positive multiples of the size of a sub-sector. */
  predicate ValidMap(sizes: seq<nat>) {
    forall i | 0 <= i < |sizes| :: sizes[i] > 0 && sizes[i] % (8 * 1024) == 0
  }

  function LoopsIn(sizes: seq<nat>, j: nat): nat
    requires j < |sizes|
  {
    sizes[j] / 8
  }

  /** The number of loops before sector j; sector j is loops Start(j) + 1 to Start(j + 1). */
  function Start(sizes: seq<nat>, j: nat): nat
    requires j <= |sizes|
  {
    if j == 0 then 0 else Start(sizes, j - 1) + LoopsIn(sizes, j - 1)
  }

  /** `f` is the file of an image of `words` that fills the first `sectors` sectors. */
  ghost predicate Describes(f: BinaryFile, words: seq<Word>, sizes: seq<nat>, sectors: nat) {
    && ValidMap(sizes)
    && 1 <= sectors <= |sizes|
    && |words| == f.lenInWords == Start(sizes, sectors)
    && f.lenInBytes == 8 * |words|
    && |f.vectorTable| == 4
    && f.vectorCrc == Chain(f.vectorTable, 0)
    && forall i: nat :: Entry(f, i) == if i < |words| then Some((Column(words, 0)[i], words[i])) else None
  }

  lemma SectorBounds(sizes: seq<nat>, j: nat)
    requires ValidMap(sizes) && j < |sizes|
    ensures Start(sizes, j + 1) == Start(sizes, j) + LoopsIn(sizes, j)
    ensures LoopsIn(sizes, j) >= SUB_SECTOR_LOOPS
  {
  }

  lemma {:induction false} StartAligned(sizes: seq<nat>, j: nat)
    requires ValidMap(sizes) && j <= |sizes|
    ensures Start(sizes, j) % SUB_SECTOR_LOOPS == 0
  {
    if j > 0 {
      StartAligned(sizes, j - 1);
      WholeLoops(sizes[j - 1]);
    }
  }

  lemma {:induction false} StartMono(sizes: seq<nat>, i: nat, j: nat)
    requires i <= j <= |sizes|
    ensures Start(sizes, i) <= Start(sizes, j)
  {
    if i < j { StartMono(sizes, i, j - 1); }
  }

  lemma {:induction false} StartInBytes(sizes: seq<nat>, j: nat)
    requires ValidMap(sizes) && j <= |sizes|
    ensures PrefixSum(sizes, j) == BYTES_PER_LOOP * Start(sizes, j)
  {
    if j > 0 {
      StartInBytes(sizes, j - 1);
      WholeLoops(sizes[j - 1]);
    }
  }

  lemma WholeLoops(size: nat)
    requires size % (BYTES_PER_LOOP * SUB_SECTOR_LOOPS) == 0
    ensures size == BYTES_PER_LOOP * (size / BYTES_PER_LOOP)
    ensures size / BYTES_PER_LOOP % SUB_SECTOR_LOOPS == 0
  {
    var q := size / (BYTES_PER_LOOP * SUB_SECTOR_LOOPS);
    assert size == 8192 * q;
    assert size / 8 == 1024 * q;
  }

  /** Every loop of a sector, and in particular its first, is looked up to that sector's size. */
  lemma {:induction false} SectorSizeFound(sizes: seq<nat>, n: nat, i: nat, j: nat)
    requires n <= j < |sizes|
    requires Start(sizes, j) < i <= Start(sizes, j + 1)
    ensures SectorSize(sizes, n, Start(sizes, n) + 1, i) == Some(LoopsIn(sizes, j))
    decreases j - n
  {
    assert Start(sizes, n + 1) == Start(sizes, n) + LoopsIn(sizes, n);
    if n < j {
      StartMono(sizes, n + 1, j);
      SectorSizeFound(sizes, n + 1, i, j);
    }
  }

  /** What the preparation step produces is what the upload step needs. */
  lemma PreparedDescribes(binary: seq<Bytes.Byte>, sizes: seq<nat>, p: Program)
    requires IsPrepared(binary, sizes, p) && ValidMap(sizes)
    ensures exists k | 1 <= k <= |sizes| :: Describes(LoadFile(p), DataWords(binary, p.lenInBytes), sizes, k)
  {
    var k :| 1 <= k <= |sizes| && PrefixSum(sizes, k) == p.lenInBytes;
    StartInBytes(sizes, k);
    var words := DataWords(binary, p.lenInBytes);
    forall i: nat
      ensures Entry(LoadFile(p), i) == if i < |words| then Some((Column(words, 0)[i], words[i])) else None
    {
      LookupTable(words, i);
    }
    assert Describes(LoadFile(p), words, sizes, k);
  }

  // ---------- the shape of a successful or failed attempt ----------

  /** Loops `first` to `last` of the image as frames. */
  function Pairs(words: seq<Word>, first: nat, last: nat): seq<Frame>
    requires first >= 1 && last <= |words|
    decreases last + 1 - first
  {
    if first > last then [] else [LoopInfo(first), Data(words[first - 1])] + Pairs(words, first + 1, last)
  }

  function Sends(frames: seq<Frame>): seq<Event> {
    if frames == [] then [] else [Sent(frames[0])] + Sends(frames[1..])
  }

  lemma {:induction false} SendsConcat(a: seq<Frame>, b: seq<Frame>)
    ensures Sends(a + b) == Sends(a) + Sends(b)
  {
    if a == [] {
      assert a + b == b;
    } else {
      assert (a + b)[1..] == a[1..] + b;
      SendsConcat(a[1..], b);
    }
  }

  lemma {:induction false} PairsConcat(words: seq<Word>, first: nat, mid: nat, last: nat)
    requires 1 <= first <= mid + 1 && mid <= last <= |words|
    ensures Pairs(words, first, last) == Pairs(words, first, mid) + Pairs(words, mid + 1, last)
    decreases mid + 1 - first
  {
    if first <= mid { PairsConcat(words, first + 1, mid, last); }
  }

  lemma {:induction false} LoopFramesShape(
    f: BinaryFile, words: seq<Word>, sizes: seq<nat>, sectors: nat, first: nat, last: nat)
    requires Describes(f, words, sizes, sectors) && 1 <= first && last <= |words|
    ensures LoopFrames(f, first, last) == (Sends(Pairs(words, first, last)), true)
    decreases last + 1 - first
  {
    if first <= last {
      LoopFramesShape(f, words, sizes, sectors, first + 1, last);
      SendsConcat([LoopInfo(first), Data(words[first - 1])], Pairs(words, first + 1, last));
      assert Sends([LoopInfo(first), Data(words[first - 1])])
          == [Sent(LoopInfo(first)), Sent(Data(words[first - 1]))];
    }
  }

  lemma SubSectorShape(
    f: BinaryFile, words: seq<Word>, sizes: seq<nat>, sectors: nat, first: nat, last: nat, bus: Bus, k: nat)
    requires Describes(f, words, sizes, sectors) && 1 <= first && last <= |words|
    ensures SubSector(f, first, last, bus, k)
         == Outcome(Sends(Pairs(words, first, last))
                    + [AckWaited(ReceivedSubSectorData, ReceivedAndProcessed, Answer(bus, k).ack)],
                    k + 1, Judge(Answer(bus, k).ack != NoAck))
  {
    LoopFramesShape(f, words, sizes, sectors, first, last);
  }

  /** Inside sector j a sub-sector is 1024 loops, and ends in the sector. */
  lemma SubSectorInside(sizes: seq<nat>, sectors: nat, j: nat, i: nat)
    requires ValidMap(sizes) && j < sectors <= |sizes|
    requires Start(sizes, j) < i <= Start(sizes, j + 1) && i % SUB_SECTOR_LOOPS == 1
    ensures SubSectorLoops(i, Start(sizes, sectors)) == Some((i, i + SUB_SECTOR_LOOPS - 1))
    ensures i + SUB_SECTOR_LOOPS - 1 <= Start(sizes, j + 1) <= Start(sizes, sectors)
  {
    StartAligned(sizes, j + 1);
    StartAligned(sizes, sectors);
    StartMono(sizes, j + 1, sectors);
    StartMono(sizes, 1, sectors);
    SectorBounds(sizes, 0);
    AlignedNext(i, Start(sizes, j + 1));
  }

  lemma AlignedNext(i: nat, end: nat)
    requires i % SUB_SECTOR_LOOPS == 1 && end % SUB_SECTOR_LOOPS == 0 && i <= end
    ensures i + SUB_SECTOR_LOOPS - 1 <= end
    ensures (i + SUB_SECTOR_LOOPS - 1) / SUB_SECTOR_LOOPS * SUB_SECTOR_LOOPS == i + SUB_SECTOR_LOOPS - 1
    ensures end / SUB_SECTOR_LOOPS * SUB_SECTOR_LOOPS == end
  {
  }

  /** Where sector j lies, as the two loops of the upload compute it. */
  lemma SectorPlace(sizes: seq<nat>, sectors: nat, j: nat)
    requires ValidMap(sizes) && j < sectors <= |sizes|
    ensures var i, size, total := Start(sizes, j) + 1, LoopsIn(sizes, j), Start(sizes, sectors);
            && SectorSize(sizes, 0, 1, i) == Some(size)
            && i + size == Start(sizes, j + 1) + 1
            && i <= LastLoop(i, total, size) == Start(sizes, j + 1) <= total
            && i % SUB_SECTOR_LOOPS == 1
  {
    hide LoopsIn, SectorSize;
    SectorBounds(sizes, j);
    StartAligned(sizes, j);
    StartMono(sizes, j + 1, sectors);
    SectorSizeFound(sizes, 0, Start(sizes, j) + 1, j);
  }

  /** One turn over the sectors of a described image. */
  lemma AppDataSector(
    f: BinaryFile, words: seq<Word>, sizes: seq<nat>, sectors: nat, j: nat, tries: nat, bus: Bus, k: nat)
    requires Describes(f, words, sizes, sectors) && j < sectors
    ensures var a := Sector(f, Start(sizes, j) + 1, |words|, LoopsIn(sizes, j), tries, bus, k);
            AppData(f, sizes, Start(sizes, j) + 1, tries, bus, k)
            == if a.result != Success then a
               else After(a.events, AppData(f, sizes, Start(sizes, j + 1) + 1, tries, bus, a.next))
  {
    hide Start, Sector, SectorSize;
    SectorPlace(sizes, sectors, j);
  }

  // ---------- acknowledged frames ----------

  /**
   * The frames that count: what was sent before a wait is kept when the wait was answered and dropped when it
   * timed out, because it is then sent again.
   */
  function Acked(events: seq<Event>, pending: seq<Frame>): seq<Frame> {
    if events == [] then []
    else
      match events[0]
      case Sent(frame) => Acked(events[1..], pending + [frame])
      case AckWaited(_, _, reply) => (if reply == NoAck then [] else pending) + Acked(events[1..], [])
      case _ => Acked(events[1..], pending)
  }

  /** Whether nothing has been sent since the last wait. */
  predicate Settled(events: seq<Event>) {
    events == [] || events[|events| - 1].AckWaited?
  }

  lemma {:induction false} AckedConcat(a: seq<Event>, b: seq<Event>, pending: seq<Frame>)
    requires Settled(a) && (a == [] ==> pending == [])
    ensures Acked(a + b, pending) == Acked(a, pending) + Acked(b, [])
  {
    if a == [] {
      assert a + b == b;
    } else {
      assert (a + b)[1..] == a[1..] + b;
      if |a| == 1 {
        assert a[1..] + b == b;
      } else {
        match a[0]
        case Sent(frame) => AckedConcat(a[1..], b, pending + [frame]);
        case AckWaited(_, _, _) => AckedConcat(a[1..], b, []);
        case _ => AckedConcat(a[1..], b, pending);
      }
    }
  }

  /** Frames followed by one wait. */
  lemma {:induction false} AckedSends(
    frames: seq<Frame>, m: AckMessage, s: StatusCode, r: AckReply, pending: seq<Frame>)
    ensures Acked(Sends(frames) + [AckWaited(m, s, r)], pending) == if r == NoAck then [] else pending + frames
  {
    var events := Sends(frames) + [AckWaited(m, s, r)];
    if frames == [] {
      assert events == [AckWaited(m, s, r)];
    } else {
      assert events[1..] == Sends(frames[1..]) + [AckWaited(m, s, r)];
      AckedSends(frames[1..], m, s, r, pending + [frames[0]]);
      assert (pending + [frames[0]]) + frames[1..] == pending + frames;
    }
  }

  /** What sector j must get acknowledged: its loops, then the signature of the image up to its end. */
  function SectorFrames(words: seq<Word>, sizes: seq<nat>, j: nat): seq<Frame>
    requires ValidMap(sizes) && j < |sizes| && Start(sizes, j + 1) <= |words|
  {
    SectorBounds(sizes, j);
    Pairs(words, Start(sizes, j) + 1, Start(sizes, j + 1)) + [CrcSignature(Column(words, 0)[Start(sizes, j + 1) - 1])]
  }

  /** Everything the upload of sectors `j` and on must get acknowledged. */
  function Expected(words: seq<Word>, sizes: seq<nat>, j: nat, sectors: nat): seq<Frame>
    requires j <= sectors <= |sizes| && ValidMap(sizes) && Start(sizes, sectors) == |words|
    decreases sectors - j
  {
    if j == sectors then []
    else
      StartMono(sizes, j + 1, sectors);
      SectorBounds(sizes, j);
      SectorFrames(words, sizes, j) + Expected(words, sizes, j + 1, sectors)
  }

  /** A run that does not leave by an exception and, if it succeeds, gets `frames` acknowledged. */
  predicate Delivers(o: Outcome<Verdict>, frames: seq<Frame>) {
    && o.result != Exit
    && Settled(o.events)
    && (o.result == Success ==> Acked(o.events, []) == frames)
  }

  lemma DeliversBoth(a: Outcome<Verdict>, x: seq<Frame>, b: Outcome<Verdict>, y: seq<Frame>)
    requires Delivers(a, x) && a.result == Success && Delivers(b, y)
    ensures Delivers(After(a.events, b), x + y)
  {
    AckedConcat(a.events, b.events, []);
  }

  lemma DeliversRetry(a: seq<Event>, b: Outcome<Verdict>, frames: seq<Frame>)
    requires Settled(a) && Acked(a, []) == [] && Delivers(b, frames)
    ensures Delivers(After(a, b), frames)
  {
    AckedConcat(a, b.events, []);
  }

  lemma SubSectorDelivers(
    f: BinaryFile, words: seq<Word>, sizes: seq<nat>, sectors: nat, first: nat, last: nat, bus: Bus, k: nat)
    requires Describes(f, words, sizes, sectors) && 1 <= first && last <= |words|
    ensures var o := SubSector(f, first, last, bus, k);
            && Delivers(o, Pairs(words, first, last))
            && (o.result == Failed ==> Acked(o.events, []) == [])
  {
    SubSectorShape(f, words, sizes, sectors, first, last, bus, k);
    AckedSends(Pairs(words, first, last), ReceivedSubSectorData, ReceivedAndProcessed, Answer(bus, k).ack, []);
  }

  lemma {:induction false} TriesDeliver(
    f: BinaryFile, words: seq<Word>, sizes: seq<nat>, sectors: nat,
    first: nat, last: nat, tries: nat, bus: Bus, k: nat)
    requires Describes(f, words, sizes, sectors) && 1 <= first && last <= |words|
    ensures Delivers(SubSectorTries(f, first, last, tries, bus, k), Pairs(words, first, last))
    decreases tries
  {
    if tries > 0 {
      var a := SubSector(f, first, last, bus, k);
      SubSectorDelivers(f, words, sizes, sectors, first, last, bus, k);
      if a.result == Failed {
        TriesDeliver(f, words, sizes, sectors, first, last, tries - 1, bus, a.next);
        DeliversRetry(a.events, SubSectorTries(f, first, last, tries - 1, bus, a.next), Pairs(words, first, last));
      }
    }
  }

  /** One turn over the sub-sectors of sector j. */
  lemma SectorLoopsSubSector(
    f: BinaryFile, sizes: seq<nat>, sectors: nat, j: nat, i: nat, tries: nat, bus: Bus, k: nat)
    requires ValidMap(sizes) && j < sectors <= |sizes|
    requires Start(sizes, j) < i <= Start(sizes, j + 1) && i % SUB_SECTOR_LOOPS == 1
    ensures var last, total := Start(sizes, j + 1), Start(sizes, sectors);
            var end := i + SUB_SECTOR_LOOPS - 1;
            var a := SubSectorTries(f, i, end, tries, bus, k);
            && i <= end <= last <= total
            && (i + SUB_SECTOR_LOOPS) % SUB_SECTOR_LOOPS == 1
            && SectorLoops(f, i, last, total, tries, bus, k)
               == if a.result != Success then a
                  else After(a.events, SectorLoops(f, end + 1, last, total, tries, bus, a.next))
  {
    SubSectorInside(sizes, sectors, j, i);
  }

  lemma NothingDelivers(f: BinaryFile, i: nat, last: nat, total: nat, tries: nat, bus: Bus, k: nat)
    requires 1 <= i && last < i
    ensures Delivers(SectorLoops(f, i, last, total, tries, bus, k), [])
  {
  }

  lemma {:induction false} SectorLoopsDeliver(
    f: BinaryFile, words: seq<Word>, sizes: seq<nat>, sectors: nat,
    j: nat, i: nat, tries: nat, bus: Bus, k: nat)
    requires Describes(f, words, sizes, sectors) && j < sectors && Start(sizes, j + 1) <= |words|
    requires Start(sizes, j) < i <= Start(sizes, j + 1) + 1 && i % SUB_SECTOR_LOOPS == 1
    ensures Delivers(SectorLoops(f, i, Start(sizes, j + 1), |words|, tries, bus, k),
                     Pairs(words, i, Start(sizes, j + 1)))
    decreases Start(sizes, j + 1) + SUB_SECTOR_LOOPS - i
  {
    hide Start, SubSectorTries, Settled, Acked, Column, Entry;
    var last := Start(sizes, j + 1);
    if i > last {
      NothingDelivers(f, i, last, |words|, tries, bus, k);
    } else {
      SectorLoopsSubSector(f, sizes, sectors, j, i, tries, bus, k);
      var end := i + SUB_SECTOR_LOOPS - 1;
      TriesDeliver(f, words, sizes, sectors, i, end, tries, bus, k);
      PairsConcat(words, i, end, last);
      var a := SubSectorTries(f, i, end, tries, bus, k);
      if a.result == Success {
        SectorLoopsDeliver(f, words, sizes, sectors, j, end + 1, tries, bus, a.next);
        DeliversBoth(a, Pairs(words, i, end),
                     SectorLoops(f, end + 1, last, |words|, tries, bus, a.next), Pairs(words, end + 1, last));
      }
    }
  }

  lemma CrcDelivers(crc: Word, bus: Bus, k: nat)
    ensures Delivers(JudgeCrc(SendCrc(crc, false, bus, k)), [CrcSignature(crc)])
  {
    AckedSends([CrcSignature(crc)], ReceivedCrc, ReceivedAndProcessed, Answer(bus, k).ack, []);
    assert Sends([CrcSignature(crc)]) == [Sent(CrcSignature(crc))];
  }

  /** Sector j is its loops and then the signature of the image up to its end. */
  lemma SectorSplit(
    f: BinaryFile, words: seq<Word>, sizes: seq<nat>, sectors: nat, j: nat, tries: nat, bus: Bus, k: nat)
    requires Describes(f, words, sizes, sectors) && j < sectors
    ensures var i, last := Start(sizes, j) + 1, Start(sizes, j + 1);
            var a := SectorLoops(f, i, last, |words|, tries, bus, k);
            && i % SUB_SECTOR_LOOPS == 1
            && i <= last <= |words|
            && Sector(f, i, |words|, LoopsIn(sizes, j), tries, bus, k)
               == if a.result != Success then a
                  else After(a.events, JudgeCrc(SendCrc(Column(words, 0)[last - 1], false, bus, a.next)))
  {
    hide Start, SectorLoops, JudgeCrc, SendCrc;
    SectorPlace(sizes, sectors, j);
  }

  lemma SectorDelivers(
    f: BinaryFile, words: seq<Word>, sizes: seq<nat>, sectors: nat, j: nat, tries: nat, bus: Bus, k: nat)
    requires Describes(f, words, sizes, sectors) && j < sectors
    ensures Start(sizes, j + 1) <= |words|
    ensures Delivers(Sector(f, Start(sizes, j) + 1, |words|, LoopsIn(sizes, j), tries, bus, k),
                     SectorFrames(words, sizes, j))
  {
    hide Sector, SectorLoops, Acked, SendCrc, JudgeCrc, Pairs;
    var i, last := Start(sizes, j) + 1, Start(sizes, j + 1);
    SectorSplit(f, words, sizes, sectors, j, tries, bus, k);
    SectorLoopsDeliver(f, words, sizes, sectors, j, i, tries, bus, k);
    var a := SectorLoops(f, i, last, |words|, tries, bus, k);
    var crc := Column(words, 0)[last - 1];
    CrcDelivers(crc, bus, a.next);
    if a.result == Success {
      DeliversBoth(a, Pairs(words, i, last), JudgeCrc(SendCrc(crc, false, bus, a.next)), [CrcSignature(crc)]);
    }
  }

  /** One sector, given that the sectors after it deliver. */
  lemma AppDataStep(
    f: BinaryFile, words: seq<Word>, sizes: seq<nat>, sectors: nat, j: nat, tries: nat, bus: Bus, k: nat,
    a: Outcome<Verdict>)
    requires Describes(f, words, sizes, sectors) && j < sectors
    requires a == Sector(f, Start(sizes, j) + 1, |words|, LoopsIn(sizes, j), tries, bus, k)
    requires a.result == Success ==>
               Delivers(AppData(f, sizes, Start(sizes, j + 1) + 1, tries, bus, a.next),
                        Expected(words, sizes, j + 1, sectors))
    ensures Delivers(AppData(f, sizes, Start(sizes, j) + 1, tries, bus, k), Expected(words, sizes, j, sectors))
  {
    hide Start;
    AppDataSector(f, words, sizes, sectors, j, tries, bus, k);
    SectorDelivers(f, words, sizes, sectors, j, tries, bus, k);
    if a.result == Success {
      DeliversBoth(a, SectorFrames(words, sizes, j),
                   AppData(f, sizes, Start(sizes, j + 1) + 1, tries, bus, a.next),
                   Expected(words, sizes, j + 1, sectors));
    }
  }

  /**
   * Whatever the bus answers, sending the data of a prepared image ends in success or in failure and never
   * by an exception; on success the acknowledged frames are the image, sector by sector.
   */
  lemma {:induction false} AppDataDelivers(
    f: BinaryFile, words: seq<Word>, sizes: seq<nat>, sectors: nat, j: nat, tries: nat, bus: Bus, k: nat)
    requires Describes(f, words, sizes, sectors) && j <= sectors
    ensures Delivers(AppData(f, sizes, Start(sizes, j) + 1, tries, bus, k), Expected(words, sizes, j, sectors))
    decreases sectors - j
  {
    hide Start, AppData, Sector, Delivers;
    if j == sectors {
      AppDataEnd(f, words, sizes, sectors, tries, bus, k);
    } else {
      var a := Sector(f, Start(sizes, j) + 1, |words|, LoopsIn(sizes, j), tries, bus, k);
      if a.result == Success {
        AppDataDelivers(f, words, sizes, sectors, j + 1, tries, bus, a.next);
      }
      AppDataStep(f, words, sizes, sectors, j, tries, bus, k, a);
    }
  }

  lemma AppDataEnd(
    f: BinaryFile, words: seq<Word>, sizes: seq<nat>, sectors: nat, tries: nat, bus: Bus, k: nat)
    requires Describes(f, words, sizes, sectors)
    ensures AppData(f, sizes, Start(sizes, sectors) + 1, tries, bus, k) == Outcome([], k, Success)
    ensures Delivers(Outcome([], k, Success), [])
  {
  }

  // ---------- exactly once, in order ----------

  /** The words with their loop numbers, in the order in which they are sent. */
  function Uploaded(frames: seq<Frame>): seq<(nat, Word)> {
    if |frames| < 2 then []
    else if frames[0].LoopInfo? && frames[1].Data? then
      [(frames[0].loop, frames[1].word)] + Uploaded(frames[2..])
    else Uploaded(frames[1..])
  }

  function Numbered(words: seq<Word>, first: nat, last: nat): seq<(nat, Word)>
    requires 1 <= first <= last + 1 && last <= |words|
  {
    seq(last + 1 - first, n requires 0 <= n < last + 1 - first => (first + n, words[first + n - 1]))
  }

  lemma {:induction false} UploadedPairs(words: seq<Word>, first: nat, last: nat, rest: seq<Frame>)
    requires 1 <= first <= last + 1 && last <= |words|
    ensures Uploaded(Pairs(words, first, last) + rest) == Numbered(words, first, last) + Uploaded(rest)
    decreases last + 1 - first
  {
    var frames := Pairs(words, first, last) + rest;
    if first > last {
      assert frames == rest;
    } else {
      assert frames[2..] == Pairs(words, first + 1, last) + rest;
      UploadedPairs(words, first + 1, last, rest);
      assert Numbered(words, first, last)
          == [(first, words[first - 1])] + Numbered(words, first + 1, last);
    }
  }

  lemma UploadedCrc(crc: Word, rest: seq<Frame>)
    ensures Uploaded([CrcSignature(crc)] + rest) == Uploaded(rest)
  {
    assert ([CrcSignature(crc)] + rest)[1..] == rest;
  }

  lemma UploadedSector(words: seq<Word>, sizes: seq<nat>, j: nat, rest: seq<Frame>)
    requires ValidMap(sizes) && j < |sizes| && Start(sizes, j + 1) <= |words|
    ensures Start(sizes, j) <= Start(sizes, j + 1)
    ensures Uploaded(SectorFrames(words, sizes, j) + rest)
         == Numbered(words, Start(sizes, j) + 1, Start(sizes, j + 1)) + Uploaded(rest)
  {
    SectorBounds(sizes, j);
    var crc := Column(words, 0)[Start(sizes, j + 1) - 1];
    var pairs := Pairs(words, Start(sizes, j) + 1, Start(sizes, j + 1));
    assert (pairs + [CrcSignature(crc)]) + rest == pairs + ([CrcSignature(crc)] + rest);
    UploadedPairs(words, Start(sizes, j) + 1, Start(sizes, j + 1), [CrcSignature(crc)] + rest);
    UploadedCrc(crc, rest);
  }

  lemma NumberedConcat(words: seq<Word>, first: nat, mid: nat, last: nat)
    requires 1 <= first <= mid + 1 && mid <= last <= |words|
    ensures Numbered(words, first, last) == Numbered(words, first, mid) + Numbered(words, mid + 1, last)
  {
  }

  lemma NothingExpected(words: seq<Word>, sizes: seq<nat>, sectors: nat)
    requires sectors <= |sizes| && ValidMap(sizes) && Start(sizes, sectors) == |words|
    ensures Uploaded(Expected(words, sizes, sectors, sectors)) == Numbered(words, |words| + 1, |words|)
  {
  }

  lemma {:induction false} ExpectedInOrder(words: seq<Word>, sizes: seq<nat>, j: nat, sectors: nat)
    requires j <= sectors <= |sizes| && ValidMap(sizes) && Start(sizes, sectors) == |words|
    ensures Start(sizes, j) <= |words|
    ensures Uploaded(Expected(words, sizes, j, sectors)) == Numbered(words, Start(sizes, j) + 1, |words|)
    decreases sectors - j
  {
    hide Start, Numbered, Uploaded, SectorFrames;
    StartMono(sizes, j, sectors);
    if j == sectors {
      NothingExpected(words, sizes, sectors);
    } else {
      StartMono(sizes, j + 1, sectors);
      ExpectedInOrder(words, sizes, j + 1, sectors);
      UploadedSector(words, sizes, j, Expected(words, sizes, j + 1, sectors));
      NumberedConcat(words, Start(sizes, j) + 1, Start(sizes, j + 1), |words|);
    }
  }

  /**
   * Coverage: in a successful pass the acknowledged loops are 1 to N, each once, in order, each with its
   * word; no acknowledged frame is missing or doubled.
   */
  lemma AppDataCovers(
    f: BinaryFile, words: seq<Word>, sizes: seq<nat>, sectors: nat, tries: nat, bus: Bus, k: nat)
    requires Describes(f, words, sizes, sectors)
    ensures var o := AppData(f, sizes, 1, tries, bus, k);
            && o.result != Exit
            && (o.result == Success ==>
                  && Acked(o.events, []) == Expected(words, sizes, 0, sectors)
                  && Uploaded(Acked(o.events, [])) == Numbered(words, 1, |words|))
  {
    hide AppData, Acked, Expected, Uploaded, Numbered;
    AppDataDelivers(f, words, sizes, sectors, 0, tries, bus, k);
    ExpectedInOrder(words, sizes, 0, sectors);
  }
}
