/** Which loops the loop over sub-sectors sends, from any start. */
module Coverage {
  import opened Protocol
  import opened UploadSpec

  /** Loop n is in one of the sub-sectors that the loop from i to `last` goes through. */
  predicate IsCovered(i: nat, last: nat, total: nat, n: nat)
    decreases last + SUB_SECTOR_LOOPS - i
  {
    && i <= last
    && SubSectorLoops(i, total).Some?
    && (i <= n <= SubSectorLoops(i, total).value.1 || IsCovered(i + SUB_SECTOR_LOOPS, last, total, n))
  }

  predicate CoversAll(i: nat, last: nat, total: nat) {
    forall n: nat | i <= n <= last :: IsCovered(i, last, total, n)
  }

  /** Loops i to `last` have all been sent. */
  predicate SendsAll(events: seq<Event>, i: nat, last: nat) {
    forall n: nat | i <= n <= last :: Sent(LoopInfo(n)) in events
  }

  lemma InConcat(a: seq<Event>, b: seq<Event>, e: Event)
    ensures e in a + b <==> e in a || e in b
  {
  }

  lemma {:induction false} LoopFramesSend(f: BinaryFile, i: nat, last: nat, n: nat)
    requires i >= 1 && LoopFrames(f, i, last).1
    ensures Sent(LoopInfo(n)) in LoopFrames(f, i, last).0 <==> i <= n <= last
    decreases last + 1 - i
  {
    if i <= last {
      LoopFramesSend(f, i + 1, last, n);
      var pair := [Sent(LoopInfo(i)), Sent(Data(Entry(f, i - 1).value.1))];
      assert Sent(LoopInfo(n)) in pair <==> n == i;
      InConcat(pair, LoopFrames(f, i + 1, last).0, Sent(LoopInfo(n)));
    }
  }

  lemma {:induction false} TriesSend(f: BinaryFile, first: nat, last: nat, tries: nat, bus: Bus, k: nat, n: nat)
    requires first >= 1 && tries > 0 && SubSectorTries(f, first, last, tries, bus, k).result != Exit
    ensures Sent(LoopInfo(n)) in SubSectorTries(f, first, last, tries, bus, k).events <==> first <= n <= last
    decreases tries
  {
    hide LoopFrames;
    LoopFramesSend(f, first, last, n);
    var a := SubSector(f, first, last, bus, k);
    if a.result == Failed && tries > 1 { TriesSend(f, first, last, tries - 1, bus, a.next, n); }
  }

  /** A successful run sends exactly the loops of the sub-sectors that it goes through. */
  lemma {:induction false} SectorLoopsSend(
    f: BinaryFile, i: nat, last: nat, total: nat, tries: nat, bus: Bus, k: nat, n: nat)
    requires i >= 1 && SectorLoops(f, i, last, total, tries, bus, k).result == Success
    ensures Sent(LoopInfo(n)) in SectorLoops(f, i, last, total, tries, bus, k).events <==> IsCovered(i, last, total, n)
    decreases last + SUB_SECTOR_LOOPS - i
  {
    hide SubSectorTries;
    if i <= last {
      var end := SubSectorLoops(i, total).value.1;
      var a := SubSectorTries(f, i, end, tries, bus, k);
      NoTries(f, i, end, bus, k);
      TriesSend(f, i, end, tries, bus, k, n);
      SectorLoopsSend(f, i + SUB_SECTOR_LOOPS, last, total, tries, bus, a.next, n);
      InConcat(a.events, SectorLoops(f, i + SUB_SECTOR_LOOPS, last, total, tries, bus, a.next).events,
               Sent(LoopInfo(n)));
    }
  }

  lemma NoTries(f: BinaryFile, first: nat, last: nat, bus: Bus, k: nat)
    requires first >= 1
    ensures SubSectorTries(f, first, last, 0, bus, k).result == Failed
  {
  }

  lemma Piece(i: nat, total: nat)
    requires i >= 1 && total >= SUB_SECTOR_LOOPS
    ensures SubSectorLoops(i, total).Some?
    ensures var end := SubSectorLoops(i, total).value.1;
            && (i <= total ==> i <= end)
            && (total / SUB_SECTOR_LOOPS * SUB_SECTOR_LOOPS < i ==> end == total)
            && (i <= total / SUB_SECTOR_LOOPS * SUB_SECTOR_LOOPS ==>
                  && end < i + SUB_SECTOR_LOOPS
                  && (end + 1 == i + SUB_SECTOR_LOOPS <==> i % SUB_SECTOR_LOOPS == 1)
                  && end == (i + SUB_SECTOR_LOOPS - 1) / SUB_SECTOR_LOOPS * SUB_SECTOR_LOOPS)
  {
  }

  /** From an aligned start nothing is left out. */
  lemma {:induction false} AlignedCovers(i: nat, last: nat, total: nat, n: nat)
    requires i % SUB_SECTOR_LOOPS == 1 && i <= n <= last <= total && total >= SUB_SECTOR_LOOPS
    ensures IsCovered(i, last, total, n)
    decreases n - i
  {
    hide SubSectorLoops;
    Piece(i, total);
    if n > SubSectorLoops(i, total).value.1 { AlignedCovers(i + SUB_SECTOR_LOOPS, last, total, n); }
  }

  lemma {:induction false} CoveredIsLater(i: nat, last: nat, total: nat, n: nat)
    requires IsCovered(i, last, total, n)
    ensures i <= n
    decreases last + SUB_SECTOR_LOOPS - i
  {
    hide SubSectorLoops;
    if !(i <= n <= SubSectorLoops(i, total).value.1) { CoveredIsLater(i + SUB_SECTOR_LOOPS, last, total, n); }
  }

  /** The first sub-sector reaches the last loop. */
  predicate IsOnePiece(i: nat, last: nat, total: nat) {
    || total / 1024 * 1024 < i
    || last <= (i + 1023) / 1024 * 1024
  }

  /** Otherwise the loop right after the first sub-sector is left out. */
  lemma Gap(i: nat, last: nat, total: nat) returns (gap: nat)
    requires 1 <= i <= last <= total && total >= SUB_SECTOR_LOOPS
    requires i % SUB_SECTOR_LOOPS != 1 && !IsOnePiece(i, last, total)
    ensures i <= gap <= last && !IsCovered(i, last, total, gap)
  {
    hide SubSectorLoops;
    Piece(i, total);
    gap := SubSectorLoops(i, total).value.1 + 1;
    if IsCovered(i + SUB_SECTOR_LOOPS, last, total, gap) {
      CoveredIsLater(i + SUB_SECTOR_LOOPS, last, total, gap);
    }
  }

  lemma AllCovered(i: nat, last: nat, total: nat)
    requires 1 <= i <= last <= total && total >= SUB_SECTOR_LOOPS
    requires i % SUB_SECTOR_LOOPS == 1 || IsOnePiece(i, last, total)
    ensures CoversAll(i, last, total)
  {
    hide SubSectorLoops;
    Piece(i, total);
    if i % SUB_SECTOR_LOOPS == 1 {
      forall n: nat | i <= n <= last
        ensures IsCovered(i, last, total, n)
      {
        AlignedCovers(i, last, total, n);
      }
    }
  }

  lemma OnePieceCovers(i: nat, last: nat, total: nat)
    requires 1 <= i <= last <= total && total >= SUB_SECTOR_LOOPS
    ensures CoversAll(i, last, total) <==> i % SUB_SECTOR_LOOPS == 1 || IsOnePiece(i, last, total)
  {
    hide IsCovered, IsOnePiece;
    if i % SUB_SECTOR_LOOPS == 1 || IsOnePiece(i, last, total) {
      AllCovered(i, last, total);
    } else {
      var gap := Gap(i, last, total);
    }
  }

  lemma SameLoops(events: seq<Event>, i: nat, last: nat, total: nat)
    requires forall n: nat :: Sent(LoopInfo(n)) in events <==> IsCovered(i, last, total, n)
    ensures SendsAll(events, i, last) <==> CoversAll(i, last, total)
  {
    hide IsCovered;
  }

  lemma EnoughLoops(f: BinaryFile, i: nat, last: nat, total: nat, tries: nat, bus: Bus, k: nat)
    requires 1 <= i <= last && SectorLoops(f, i, last, total, tries, bus, k).result == Success
    ensures total >= SUB_SECTOR_LOOPS
  {
    hide SubSectorTries;
  }

  /**
   * A successful run from loop i to loop `last` has sent all loops in between exactly if it started right after a
   * multiple of 1024, or if its first sub-sector already reached the last loop.  From any other start it leaves
   * loops out and succeeds nevertheless.
   */
  lemma SectorLoopsCover(f: BinaryFile, i: nat, last: nat, total: nat, tries: nat, bus: Bus, k: nat)
    requires 1 <= i <= last <= total && SectorLoops(f, i, last, total, tries, bus, k).result == Success
    ensures SendsAll(SectorLoops(f, i, last, total, tries, bus, k).events, i, last)
       <==> i % 1024 == 1 || IsOnePiece(i, last, total)
  {
    hide IsCovered, CoversAll, SendsAll, SubSectorLoops, SubSectorTries, SectorLoops, IsOnePiece;
    EnoughLoops(f, i, last, total, tries, bus, k);
    var events := SectorLoops(f, i, last, total, tries, bus, k).events;
    forall n: nat
      ensures Sent(LoopInfo(n)) in events <==> IsCovered(i, last, total, n)
    {
      SectorLoopsSend(f, i, last, total, tries, bus, k, n);
    }
    OnePieceCovers(i, last, total);
    SameLoops(events, i, last, total);
  }

  // ---------- a bus that answers every wait ----------

  predicate IsReadable(f: BinaryFile, total: nat) {
    forall n | 0 <= n < total :: Entry(f, n).Some?
  }

  /** Waits k to k + n - 1 are answered. */
  predicate IsAnswered(bus: Bus, k: nat, n: nat) {
    forall m: nat | k <= m < k + n :: Answer(bus, m).ack != NoAck
  }

  lemma {:induction false} FramesRead(f: BinaryFile, i: nat, last: nat, total: nat)
    requires i >= 1 && last <= total && IsReadable(f, total)
    ensures LoopFrames(f, i, last).1
    decreases last + 1 - i
  {
    if i <= last { FramesRead(f, i + 1, last, total); }
  }

  /** Then a run from any start succeeds. */
  lemma {:induction false} AnsweredSucceeds(
    f: BinaryFile, i: nat, last: nat, total: nat, tries: nat, bus: Bus, k: nat)
    requires 1 <= i && last <= total && total >= SUB_SECTOR_LOOPS && tries > 0 && IsReadable(f, total)
    requires i <= last ==> IsAnswered(bus, k, last + 1 - i)
    ensures SectorLoops(f, i, last, total, tries, bus, k).result == Success
    decreases last + SUB_SECTOR_LOOPS - i
  {
    hide LoopFrames, SubSectorLoops;
    if i <= last {
      Piece(i, total);
      var end := SubSectorLoops(i, total).value.1;
      PieceEnd(i, total);
      FramesRead(f, i, end, total);
      assert Answer(bus, k).ack != NoAck;
      AnsweredSucceeds(f, i + SUB_SECTOR_LOOPS, last, total, tries, bus, k + 1);
    }
  }

  lemma PieceEnd(i: nat, total: nat)
    requires 1 <= i <= total && total >= SUB_SECTOR_LOOPS
    ensures SubSectorLoops(i, total).Some? && SubSectorLoops(i, total).value.0 == i
    ensures SubSectorLoops(i, total).value.1 <= total
  {
  }

  /**
   * Every start that is not right after a multiple of 1024, and from which the first sub-sector does not reach the last
   * loop, leaves loops out and succeeds, on every bus that answers.
   */
  lemma LoopsAreLeftOut(f: BinaryFile, i: nat, last: nat, total: nat, tries: nat, bus: Bus, k: nat)
    requires 1 <= i <= last <= total && total >= SUB_SECTOR_LOOPS && tries > 0 && IsReadable(f, total)
    requires IsAnswered(bus, k, last + 1 - i)
    requires i % SUB_SECTOR_LOOPS != 1 && !IsOnePiece(i, last, total)
    ensures var o := SectorLoops(f, i, last, total, tries, bus, k);
            o.result == Success && !SendsAll(o.events, i, last)
  {
    hide SectorLoops, SendsAll, IsOnePiece;
    AnsweredSucceeds(f, i, last, total, tries, bus, k);
    SectorLoopsCover(f, i, last, total, tries, bus, k);
  }
}
