/**
 * The vector-table part of an upload seen by tool and receiver together: a success that the tool has seen is a
 * program that the receiver installs.
 */
module VectorTransfer {
  import opened Crc64
  import opened CrcImage
  import opened Protocol
  import opened Device
  import opened World
  import opened Transfer
  import opened DataTransfer
  import opened UploadSpec
  import opened UploadProps
  import opened DeviceSafety

  const VECTOR_YES := Ack(ReceivedCrcOfVectorTable, ReceivedAndProcessed, true)

  /** The flash has the signature of the image, and is the image in a faithful run. */
  ghost predicate HasImage(job: Job, flash: seq<Word>, faithful: bool) {
    && |job.words| <= |flash|
    && Chain(flash[..|job.words|], 0) == Chain(job.words, 0)
    && (faithful ==> flash[..|job.words|] == job.words)
  }

  /** What the receiver is about to record about the data. */
  predicate Describing(job: Job, info: Info) {
    info.length == 8 * |job.words| && info.crc == Chain(job.words, 0)
  }

  /** `n` words of a vector table have arrived. */
  ghost predicate IsCollecting(job: Job, f: BinaryFile, d: Device, faithful: bool, n: nat) {
    && d.boot == BootLoad
    && Describing(job, d.info)
    && if d.can == FinishedFinalValidation then
         faithful ==> d.info.vectorCount == n && n <= |d.info.vectorTable| == |f.vectorTable|
                      && d.info.vectorTable[..n] == f.vectorTable[..n]
       else d.can == FinishedTransferVectorTable && (faithful ==> d.info.vectorTable == f.vectorTable)
  }

  /** The record that the upload is for; only its signature is certain if words may have been lost. */
  predicate IsRecord(job: Job, f: BinaryFile, r: Record, faithful: bool) {
    && r.length == 8 * |job.words|
    && r.crc == Chain(job.words, 0)
    && r.vectorCrc == f.vectorCrc == Chain(r.vectorTable, 0)
    && (faithful ==> r.vectorTable == f.vectorTable)
  }

  /**
   * The program is installed, and its vector table has no zero word; or it is about to be; or the receiver has entered
   * the error state, because the vector table that it received has a zero word or because the flash failed, which
   * leaves neither record nor backup and does not happen on `working` hardware.
   */
  ghost predicate IsCommitted(job: Job, f: BinaryFile, d: Device, faithful: bool, working: bool) {
    || (&& d.boot == BootLoad
        && d.can == ValidatedVectorTable
        && Describing(job, d.info)
        && d.info.vectorCrc == f.vectorCrc == Chain(d.info.vectorTable, 0)
        && (faithful ==> d.info.vectorTable == f.vectorTable))
    || (&& d.boot == BootWait
        && d.can == NoCommunication
        && d.record.Some?
        && IsRecord(job, f, d.record.value, faithful)
        && 0 !in d.record.value.vectorTable)
    || (&& d.boot == BootError
        && d.can == ValidatedVectorTable
        && Describing(job, d.info)
        && d.info.vectorCrc == f.vectorCrc == Chain(d.info.vectorTable, 0)
        && (faithful ==> d.info.vectorTable == f.vectorTable)
        && (0 in d.info.vectorTable || (!working && d.record.None? && !d.backup)))
  }

  ghost predicate IsVector(job: Job, f: BinaryFile, d: Device, faithful: bool, working: bool, n: nat) {
    && Holds(job.sizes, d)
    && HasImage(job, d.flash, faithful)
    && (IsCollecting(job, f, d, faithful, n) || IsCommitted(job, f, d, faithful, working))
  }

  lemma DoneIsVector(job: Job, f: BinaryFile, d: Device, faithful: bool, working: bool)
    requires 1 <= job.sectors && Holds(job.sizes, d) && Passed(job, d, job.sectors - 1, faithful)
    requires |f.vectorTable| == VECTOR_WORDS
    ensures IsVector(job, f, d, faithful, working, 0)
  {
    hide Chain, Start;
  }

  lemma VectorData(job: Job, f: BinaryFile, d: Device, faithful: bool, working: bool, n: nat)
    requires IsVector(job, f, d, faithful, working, n) && n < VECTOR_WORDS == |f.vectorTable|
    ensures IsVector(job, f, RxData(d, f.vectorTable[n]).device, faithful, working, n + 1)
    ensures VECTOR_YES !in RxData(d, f.vectorTable[n]).acks
    ensures d.boot != BootLeft
  {
    hide Chain, Start, Holds;
    DataKeeps(job.sizes, d, f.vectorTable[n]);
    ShapeOf(job.sizes, d);
    if faithful && d.can == FinishedFinalValidation && d.boot == BootLoad {
      var table := d.info.vectorTable[n := f.vectorTable[n]];
      assert table[..n + 1] == d.info.vectorTable[..n] + [f.vectorTable[n]];
      assert f.vectorTable[..n + 1] == f.vectorTable[..n] + [f.vectorTable[n]];
      assert table[..VECTOR_WORDS] == table && f.vectorTable[..VECTOR_WORDS] == f.vectorTable;
    }
  }

  lemma VectorCrc(job: Job, f: BinaryFile, d: Device, faithful: bool, working: bool)
    requires IsVector(job, f, d, faithful, working, VECTOR_WORDS) && f.vectorCrc == Chain(f.vectorTable, 0)
    ensures var r := RxCrc(job.sizes, d, f.vectorCrc);
            && IsVector(job, f, r.device, faithful, working, 0)
            && (VECTOR_YES in r.acks ==> IsCommitted(job, f, r.device, faithful, working))
    ensures d.boot != BootLeft
  {
    hide Chain, Start, SectorFull;
    CrcKeeps(job.sizes, d, f.vectorCrc);
  }

  lemma VectorPoll(job: Job, f: BinaryFile, d: Device, faithful: bool, working: bool, n: nat, hw: Hardware)
    requires IsVector(job, f, d, faithful, working, n) && (working ==> hw.Works?)
    ensures var r := Poll(job.sizes, d, hw);
            && IsVector(job, f, r.device, faithful, working, n)
            && VECTOR_YES !in r.acks
            && (IsCommitted(job, f, d, faithful, working) ==> IsCommitted(job, f, r.device, faithful, working))
  {
    hide Chain, Start, Validate;
    PollKeeps(job.sizes, d, hw);
  }

  /** After four words in a faithful run nothing is half collected. */
  lemma VectorAgain(job: Job, f: BinaryFile, d: Device, faithful: bool, working: bool)
    requires IsVector(job, f, d, faithful, working, VECTOR_WORDS)
    ensures IsVector(job, f, d, faithful, working, 0)
  {
    hide Chain, Start;
  }

  // ---------- tool and receiver together ----------

  lemma {:induction false} VectorTurns(
    job: Job, f: BinaryFile, w: World, faithful: bool, working: bool, n: nat, turns: seq<Hardware>)
    requires IsVector(job, f, w.device, faithful, working, n) && (working ==> TurnsWork(turns))
    ensures var x := Turns(job.sizes, w, turns);
            && IsVector(job, f, x.device, faithful, working, n)
            && (VECTOR_YES in x.heard ==> VECTOR_YES in w.heard)
            && (IsCommitted(job, f, w.device, faithful, working) ==> IsCommitted(job, f, x.device, faithful, working))
    decreases |turns|
  {
    hide IsVector, IsCommitted, Poll;
    if turns != [] {
      VectorPoll(job, f, w.device, faithful, working, n, turns[0]);
      VectorTurns(job, f, Take(w, Poll(job.sizes, w.device, turns[0])), faithful, working, n, turns[1..]);
    }
  }

  lemma SeeVectorData(job: Job, f: BinaryFile, w: World, faithful: bool, working: bool, n: nat, fate: Fate)
    requires IsVector(job, f, w.device, faithful, working, n) && n < VECTOR_WORDS == |f.vectorTable|
    requires (faithful ==> fate.delivered) && (working ==> TurnsWork(fate.turns))
    ensures var x := See(job.sizes, w, Sent(Data(f.vectorTable[n])), fate);
            x.Some? && IsVector(job, f, x.value.device, faithful, working, n + 1)
  {
    hide IsVector, IsCommitted, RxData, Turns;
    if fate.delivered {
      VectorData(job, f, w.device, faithful, working, n);
      VectorTurns(job, f, Receive(job.sizes, w, Data(f.vectorTable[n])), faithful, working, n + 1, fate.turns);
    } else {
      LossyVector(job, f, w.device, working, n, n + 1);
      VectorTurns(job, f, w, faithful, working, n + 1, fate.turns);
    }
  }

  /** If words may be lost, how many have arrived is not known. */
  lemma LossyVector(job: Job, f: BinaryFile, d: Device, working: bool, n: nat, m: nat)
    requires IsVector(job, f, d, false, working, n)
    ensures IsVector(job, f, d, false, working, m)
  {
  }

  /** The words of the vector table from the n-th on. */
  lemma {:induction false} VectorWords(
    job: Job, f: BinaryFile, w: World, faithful: bool, working: bool, n: nat, fates: seq<Fate>)
    requires n <= VECTOR_WORDS == |f.vectorTable| && n + |fates| == VECTOR_WORDS
    requires IsVector(job, f, w.device, faithful, working, n)
    requires faithful ==> forall m | 0 <= m < |fates| :: fates[m].delivered
    requires working ==> AllWork(fates)
    ensures var x := Observe(job.sizes, w, VectorFrames(f)[n..], fates);
            x.Some? && IsVector(job, f, x.value.device, faithful, working, VECTOR_WORDS)
    decreases |fates|
  {
    hide IsVector, See;
    if n < VECTOR_WORDS {
      var events := VectorFrames(f)[n..];
      assert events[0] == Sent(Data(f.vectorTable[n])) && events[1..] == VectorFrames(f)[n + 1..];
      SeeVectorData(job, f, w, faithful, working, n, fates[0]);
      VectorWords(job, f, See(job.sizes, w, events[0], fates[0]).value, faithful, working, n + 1, fates[1..]);
    }
  }

  lemma SeeVectorWait(job: Job, f: BinaryFile, w: World, faithful: bool, working: bool, reply: AckReply, fate: Fate)
    requires IsVector(job, f, w.device, faithful, working, VECTOR_WORDS) && (working ==> TurnsWork(fate.turns))
    ensures var x := See(job.sizes, w, AckWaited(ReceivedVectorTable, ReceivedAndProcessed, reply), fate);
            x.Some? && IsVector(job, f, x.value.device, faithful, working, VECTOR_WORDS) && x.value.heard == {}
  {
    hide IsVector, IsCommitted, Turns;
    VectorTurns(job, f, w, faithful, working, VECTOR_WORDS, fate.turns);
  }

  /** The exchange of the vector table's signature: seen valid, it has been found valid. */
  lemma VectorExchange(
    job: Job, f: BinaryFile, w: World, faithful: bool, working: bool, bus: Bus, k: nat, fates: seq<Fate>)
    requires IsVector(job, f, w.device, faithful, working, VECTOR_WORDS) && w.heard == {} && |fates| == 2
    requires f.vectorCrc == Chain(f.vectorTable, 0) && (working ==> AllWork(fates))
    requires Observe(job.sizes, w, JudgeCrc(SendCrc(f.vectorCrc, true, bus, k)).events, fates).Some?
    ensures var o := JudgeCrc(SendCrc(f.vectorCrc, true, bus, k));
            var x := Observe(job.sizes, w, o.events, fates).value;
            && IsVector(job, f, x.device, faithful, working, 0)
            && (o.result == Success ==> IsCommitted(job, f, x.device, faithful, working))
  {
    hide IsVector, IsCommitted, Turns, RxCrc, Chain;
    var o := JudgeCrc(SendCrc(f.vectorCrc, true, bus, k));
    ObserveTwo(job.sizes, w, o.events[0], o.events[1], fates);
    VectorAgain(job, f, w.device, faithful, working);
    VectorCrc(job, f, w.device, faithful, working);
    var x := if fates[0].delivered then Receive(job.sizes, w, CrcSignature(f.vectorCrc)) else w;
    VectorTurns(job, f, x, faithful, working, 0, fates[0].turns);
    VectorTurns(job, f, Turns(job.sizes, x, fates[0].turns), faithful, working, 0, fates[1].turns);
  }

  /** One attempt at the vector table. */
  lemma VectorTableKept(
    job: Job, f: BinaryFile, w: World, faithful: bool, working: bool, bus: Bus, k: nat, fates: seq<Fate>)
    requires IsVector(job, f, w.device, faithful, working, 0) && |f.vectorTable| == VECTOR_WORDS
    requires f.vectorCrc == Chain(f.vectorTable, 0) && (working ==> AllWork(fates))
    requires var o := VectorTable(f, bus, k);
             && |fates| == |o.events|
             && (faithful ==> IsFaithful(o.events, fates))
             && Observe(job.sizes, w, o.events, fates).Some?
    ensures var o := VectorTable(f, bus, k);
            var x := Observe(job.sizes, w, o.events, fates).value;
            && IsVector(job, f, x.device, faithful, working, 0)
            && (o.result == Success ==> IsCommitted(job, f, x.device, faithful, working))
  {
    hide IsVector, IsCommitted, See, Observe, Chain;
    var o := VectorTable(f, bus, k);
    var reply := Answer(bus, k).ack;
    var wait := AckWaited(ReceivedVectorTable, ReceivedAndProcessed, reply);
    var frames := VectorFrames(f);
    var rest := if reply == NoAck then [] else JudgeCrc(SendCrc(f.vectorCrc, true, bus, k + 1)).events;
    assert o.events == frames + ([wait] + rest);
    if faithful { WordsDelivered(f, [wait] + rest, fates); }
    ObserveConcat(job.sizes, w, frames, [wait] + rest, fates);
    assert frames[0..] == frames;
    VectorWords(job, f, w, faithful, working, 0, fates[..4]);
    var x := Observe(job.sizes, w, frames, fates[..4]).value;
    ObserveConcat(job.sizes, x, [wait], rest, fates[4..]);
    ObserveOne(job.sizes, x, wait, fates[4..][..1]);
    SeeVectorWait(job, f, x, faithful, working, reply, fates[4..][0]);
    var y := See(job.sizes, x, wait, fates[4..][0]).value;
    if reply == NoAck {
      ObserveNothing(job.sizes, y, fates[4..][1..]);
      VectorAgain(job, f, y.device, faithful, working);
    } else {
      VectorExchange(job, f, y, faithful, working, bus, k + 1, fates[4..][1..]);
    }
  }

  lemma WordsDelivered(f: BinaryFile, rest: seq<Event>, fates: seq<Fate>)
    requires |f.vectorTable| == VECTOR_WORDS && |fates| == VECTOR_WORDS + |rest|
    requires IsFaithful(VectorFrames(f) + rest, fates)
    ensures forall m | 0 <= m < VECTOR_WORDS :: fates[..VECTOR_WORDS][m].delivered
  {
    FaithfulParts(VectorFrames(f), rest, fates);
    forall m | 0 <= m < VECTOR_WORDS
      ensures fates[..VECTOR_WORDS][m].delivered
    {
      assert IsCarried(VectorFrames(f), fates[..VECTOR_WORDS], m);
    }
  }

  lemma VectorEnds(f: BinaryFile, bus: Bus, k: nat)
    requires |f.vectorTable| == VECTOR_WORDS
    ensures var events := VectorTable(f, bus, k).events; events != [] && !IsLoopFrame(events[|events| - 1])
  {
  }

  /** All passes that are left once the data has been accepted. */
  lemma {:induction false} VectorPassesKept(
    job: Job, f: BinaryFile, n: nat, tries: nat, w: World, faithful: bool, working: bool, bus: Bus, k: nat,
    fates: seq<Fate>)
    requires IsVector(job, f, w.device, faithful, working, 0) && |f.vectorTable| == VECTOR_WORDS
    requires f.vectorCrc == Chain(f.vectorTable, 0) && (working ==> AllWork(fates))
    requires var o := Passes(f, job.sizes, n, true, tries, bus, k);
             && |fates| == |o.events|
             && (faithful ==> IsFaithful(o.events, fates))
             && Observe(job.sizes, w, o.events, fates).Some?
             && o.result == Success
    ensures var x := Observe(job.sizes, w, Passes(f, job.sizes, n, true, tries, bus, k).events, fates).value;
            IsVector(job, f, x.device, faithful, working, 0) && IsCommitted(job, f, x.device, faithful, working)
    decreases n
  {
    hide IsVector, IsCommitted, Observe, Chain, VectorTable, IsFaithful;
    var v := VectorTable(f, bus, k);
    AfterNothing(v);
    assert n > 0;
    if v.result == Success {
      assert Passes(f, job.sizes, n, true, tries, bus, k).events == v.events;
      VectorTableKept(job, f, w, faithful, working, bus, k, fates);
    } else {
      var rest := Passes(f, job.sizes, n - 1, true, tries, bus, v.next);
      assert Passes(f, job.sizes, n, true, tries, bus, k) == After(v.events, rest);
      VectorEnds(f, bus, k);
      if faithful { FaithfulParts(v.events, rest.events, fates); }
      ObserveConcat(job.sizes, w, v.events, rest.events, fates);
      VectorTableKept(job, f, w, faithful, working, bus, k, fates[..|v.events|]);
      var x := Observe(job.sizes, w, v.events, fates[..|v.events|]).value;
      VectorPassesKept(job, f, n - 1, tries, x, faithful, working, bus, v.next, fates[|v.events|..]);
    }
  }
}
