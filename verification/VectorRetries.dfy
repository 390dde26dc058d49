/** When repeating the vector table helps, once the data has been accepted. */
module VectorRetries {
  import opened Crc64
  import opened CrcImage
  import opened Protocol
  import opened Device
  import opened World
  import opened EndToEnd
  import opened UploadSpec
  import UploadSafety
  import opened VectorTransfer
  import opened DeviceSafety
  import opened Undisturbed

  /** The receiver collects words of the vector table. */
  predicate IsOpen(d: Device) {
    d.can == FinishedFinalValidation && d.boot != BootLeft
  }

  /** It has a place for a word, and nothing is pending. */
  predicate IsReady(sizes: seq<nat>, d: Device) {
    && IsOpen(d) && IsStill(sizes, d)
    && |d.info.vectorTable| == VECTOR_WORDS && d.info.vectorCount < VECTOR_WORDS
  }

  /** The table after the first words of the one that is sent have filled it up. */
  function Filled(d: Device, words: seq<Word>): seq<Word>
    requires d.info.vectorCount <= |d.info.vectorTable| == |words|
  {
    d.info.vectorTable[..d.info.vectorCount] + words[..|words| - d.info.vectorCount]
  }

  /** The receiver after i words: the table fills up, and what does not fit is ignored. */
  function Loaded(d: Device, words: seq<Word>, i: nat): Device
    requires d.info.vectorCount < |d.info.vectorTable| == |words| == VECTOR_WORDS && i <= VECTOR_WORDS
  {
    var n := d.info.vectorCount;
    if n + i < VECTOR_WORDS then
      d.(info := d.info.(vectorTable := d.info.vectorTable[..n] + words[..i] + d.info.vectorTable[n + i..],
                         vectorCount := n + i))
    else d.(can := FinishedTransferVectorTable, info := d.info.(vectorTable := Filled(d, words),
                                                                vectorCount := VECTOR_WORDS))
  }

  lemma LoadedNext(sizes: seq<nat>, d: Device, words: seq<Word>, i: nat)
    requires IsReady(sizes, d) && |words| == VECTOR_WORDS && i < VECTOR_WORDS
    ensures var r := RxData(Loaded(d, words, i), words[i]);
            && r.device == Loaded(d, words, i + 1)
            && r.acks == (if d.info.vectorCount + i + 1 == VECTOR_WORDS
                          then {Ack(ReceivedVectorTable, ReceivedAndProcessed, false)} else {})
    ensures IsStill(sizes, Loaded(d, words, i + 1)) && Loaded(d, words, i).boot != BootLeft
  {
    var n := d.info.vectorCount;
    if n + i < VECTOR_WORDS {
      var table := d.info.vectorTable[..n] + words[..i] + d.info.vectorTable[n + i..];
      assert words[..i + 1] == words[..i] + [words[i]];
      assert table[n + i := words[i]] == d.info.vectorTable[..n] + words[..i + 1] + d.info.vectorTable[n + i + 1..];
    }
  }

  /** What has been heard after i words. */
  function Heard(d: Device, i: nat): set<Ack> {
    if d.info.vectorCount + i >= VECTOR_WORDS then {Ack(ReceivedVectorTable, ReceivedAndProcessed, false)} else {}
  }

  lemma {:induction false} OpenWords(
    f: BinaryFile, sizes: seq<nat>, d: Device, i: nat, w: World, fates: seq<Fate>)
    requires IsReady(sizes, d) && |f.vectorTable| == VECTOR_WORDS && i + |fates| == VECTOR_WORDS
    requires w.device == Loaded(d, f.vectorTable, i) && w.heard == Heard(d, i)
    requires IsUndisturbed(sizes, w, VectorFrames(f)[i..], fates)
    ensures var x := Reach(sizes, w, VectorFrames(f)[i..], fates);
            x.device == Loaded(d, f.vectorTable, VECTOR_WORDS) && x.heard == Heard(d, VECTOR_WORDS)
    decreases |fates|
  {
    hide Reach, IsUndisturbed, Loaded, RxData, IsStill, Turns, IsReady;
    if i == VECTOR_WORDS {
      assert VectorFrames(f)[i..] == [];
      ReachNothing(sizes, w, fates);
    } else {
      var first, rest := [Sent(Data(f.vectorTable[i]))], VectorFrames(f)[i + 1..];
      assert VectorFrames(f)[i..] == first + rest;
      UndisturbedConcat(sizes, w, first, rest, fates);
      UndisturbedOne(sizes, w, Sent(Data(f.vectorTable[i])), fates[..1]);
      LoadedNext(sizes, d, f.vectorTable, i);
      var x := Receive(sizes, w, Data(f.vectorTable[i]));
      StillTurns(sizes, x, fates[..1][0].turns);
      OpenWords(f, sizes, d, i + 1, Reach(sizes, w, first, fates[..1]), fates[1..]);
    }
  }

  lemma LoadedNothing(sizes: seq<nat>, d: Device, words: seq<Word>)
    requires IsReady(sizes, d) && |words| == VECTOR_WORDS
    ensures Loaded(d, words, 0) == d && Heard(d, 0) == {}
  {
    var n := d.info.vectorCount;
    assert d.info.vectorTable[..n] + words[..0] + d.info.vectorTable[n..] == d.info.vectorTable;
  }

  lemma LoadedAll(sizes: seq<nat>, d: Device, words: seq<Word>)
    requires IsReady(sizes, d) && |words| == VECTOR_WORDS
    ensures var x := Loaded(d, words, VECTOR_WORDS);
            && IsStill(sizes, x) && x.boot != BootLeft
            && x.can == FinishedTransferVectorTable && x.info.vectorTable == Filled(d, words)
    ensures Heard(d, VECTOR_WORDS) == {Ack(ReceivedVectorTable, ReceivedAndProcessed, false)}
  {
  }

  // ---------- the signature ----------

  /** A turn adds to what is heard. */
  lemma {:induction false} TurnsHeard(sizes: seq<nat>, w: World, turns: seq<Hardware>)
    ensures w.heard <= Turns(sizes, w, turns).heard
    decreases |turns|
  {
    hide Poll;
    if turns != [] { TurnsHeard(sizes, Take(w, Poll(sizes, w.device, turns[0])), turns[1..]); }
  }

  /** A signature that does not match empties the table. */
  lemma Emptied(sizes: seq<nat>, d: Device, crc: Word)
    requires d.can == FinishedTransferVectorTable && IsStill(sizes, d) && d.boot != BootLeft
    requires crc != Chain(d.info.vectorTable, 0)
    ensures var r := RxCrc(sizes, d, crc);
            && IsReady(sizes, r.device) && r.device.info.vectorCount == 0
            && r.acks == {Ack(ReceivedCrcOfVectorTable, ReceivedAndProcessed, false)}
  {
    hide Chain;
  }

  lemma CrcExchange(f: BinaryFile, sizes: seq<nat>, bus: Bus, k: nat, w: World, fates: seq<Fate>)
    requires w.device.can == FinishedTransferVectorTable && IsStill(sizes, w.device) && w.device.boot != BootLeft
    requires w.heard == {} && |fates| == 2
    requires IsUndisturbed(sizes, w, JudgeCrc(SendCrc(f.vectorCrc, true, bus, k)).events, fates)
    ensures var o := JudgeCrc(SendCrc(f.vectorCrc, true, bus, k));
            var x := Reach(sizes, w, o.events, fates);
            && o.result == Judge(f.vectorCrc == Chain(w.device.info.vectorTable, 0))
            && (o.result == Failed ==> IsReady(sizes, x.device) && x.device.info.vectorCount == 0 && x.heard == {})
  {
    hide Reach, IsUndisturbed, IsStill, Turns, Chain;
    var o := JudgeCrc(SendCrc(f.vectorCrc, true, bus, k));
    var reply := Answer(bus, k).ack;
    var wait := AckWaited(ReceivedCrcOfVectorTable, ReceivedAndProcessed, reply);
    var crc := Sent(CrcSignature(f.vectorCrc));
    assert o.events == [crc] + [wait];
    UndisturbedConcat(sizes, w, [crc], [wait], fates);
    UndisturbedOne(sizes, w, crc, fates[..1]);
    var x := Receive(sizes, w, CrcSignature(f.vectorCrc));
    var y := Reach(sizes, w, [crc], fates[..1]);
    if f.vectorCrc == Chain(w.device.info.vectorTable, 0) {
      TurnsHeard(sizes, x, fates[..1][0].turns);
      UndisturbedOne(sizes, y, wait, fates[1..]);
      TurnsHeard(sizes, y, fates[1..][0].turns);
    } else {
      Emptied(sizes, w.device, f.vectorCrc);
      StillTurns(sizes, x, fates[..1][0].turns);
      WaitStep(sizes, y, ReceivedCrcOfVectorTable, ReceivedAndProcessed, reply, fates[1..]);
    }
  }

  // ---------- one attempt ----------

  lemma OpenTable(f: BinaryFile, sizes: seq<nat>, bus: Bus, k: nat, w: World, fates: seq<Fate>)
    requires IsReady(sizes, w.device) && w.heard == {} && |f.vectorTable| == VECTOR_WORDS
    requires var o := VectorTable(f, bus, k); |fates| == |o.events| && IsUndisturbed(sizes, w, o.events, fates)
    ensures var o := VectorTable(f, bus, k);
            var x := Reach(sizes, w, o.events, fates);
            && o.result == Judge(f.vectorCrc == Chain(Filled(w.device, f.vectorTable), 0))
            && (o.result == Failed ==> IsReady(sizes, x.device) && x.device.info.vectorCount == 0 && x.heard == {})
  {
    hide Reach, IsUndisturbed, IsStill, Chain, Loaded, Heard, Filled;
    var d := w.device;
    var o := VectorTable(f, bus, k);
    var reply := Answer(bus, k).ack;
    var wait := AckWaited(ReceivedVectorTable, ReceivedAndProcessed, reply);
    var frames := VectorFrames(f);
    var rest := if reply == NoAck then [] else JudgeCrc(SendCrc(f.vectorCrc, true, bus, k + 1)).events;
    assert o.events == frames + ([wait] + rest);
    UndisturbedConcat(sizes, w, frames, [wait] + rest, fates);
    assert frames[0..] == frames;
    LoadedNothing(sizes, d, f.vectorTable);
    OpenWords(f, sizes, d, 0, w, fates[..4]);
    LoadedAll(sizes, d, f.vectorTable);
    var x := Reach(sizes, w, frames, fates[..4]);
    UndisturbedConcat(sizes, x, [wait], rest, fates[4..]);
    WaitStep(sizes, x, ReceivedVectorTable, ReceivedAndProcessed, reply, fates[4..][..1]);
    CrcExchange(f, sizes, bus, k + 1, Reach(sizes, x, [wait], fates[4..][..1]), fates[4..][1..]);
  }

  /** A receiver that collects no words. */
  predicate IsClosed(sizes: seq<nat>, w: World) {
    && !IsOpen(w.device) && IsStill(sizes, w.device)
    && Reported(w.heard, ReceivedVectorTable, ReceivedAndProcessed) == NoAck
  }

  lemma ClosedWord(sizes: seq<nat>, w: World, word: Word, fates: seq<Fate>)
    requires IsClosed(sizes, w) && |fates| == 1 && IsUndisturbed(sizes, w, [Sent(Data(word))], fates)
    ensures var x := Reach(sizes, w, [Sent(Data(word))], fates);
            IsClosed(sizes, x) && (w.device.can != ReceivedLoopNumber ==> x == w)
  {
    hide Reach, IsUndisturbed, IsStill, Turns, Poll, Rx;
    UndisturbedOne(sizes, w, Sent(Data(word)), fates);
    ClosedReacts(sizes, w.device, word);
    assert w.heard + {} == w.heard;
    TurnsTwice(sizes, Receive(sizes, w, Data(word)), fates[0].turns);
  }

  lemma ClosedReacts(sizes: seq<nat>, d: Device, word: Word)
    requires !IsOpen(d) && IsStill(sizes, d)
    ensures var r := Rx(sizes, d, Data(word));
            var x := Poll(sizes, r.device, Works);
            var y := Poll(sizes, x.device, Works);
            && !IsOpen(y.device) && IsStill(sizes, y.device) && x.acks == y.acks == {}
            && (forall yes :: Ack(ReceivedVectorTable, ReceivedAndProcessed, yes) !in r.acks)
            && (d.can != ReceivedLoopNumber ==> r == x == y == Quiet(d))
  {
    hide Validate, Install, StartProgram, Reset;
    StillRuns(sizes, d);
  }

  lemma StillRuns(sizes: seq<nat>, d: Device)
    requires IsStill(sizes, d)
    ensures d.boot !in {BootRun, BootReset} && (d.boot == BootWait ==> d.can == NoCommunication)
    ensures d.boot == BootLoad && d.can == ReceivedLoopNumber ==> d.checks == 0
  {
    hide Validate, Install, IsStartable;
  }

  lemma {:induction false} ClosedWords(f: BinaryFile, sizes: seq<nat>, i: nat, w: World, fates: seq<Fate>)
    requires IsClosed(sizes, w) && |f.vectorTable| == VECTOR_WORDS && i + |fates| == VECTOR_WORDS
    requires IsUndisturbed(sizes, w, VectorFrames(f)[i..], fates)
    ensures var x := Reach(sizes, w, VectorFrames(f)[i..], fates);
            IsClosed(sizes, x) && (w.device.can != ReceivedLoopNumber ==> x == w)
    decreases |fates|
  {
    hide Reach, IsUndisturbed, IsClosed;
    if i == VECTOR_WORDS {
      assert VectorFrames(f)[i..] == [];
      ReachNothing(sizes, w, fates);
    } else {
      var first, rest := [Sent(Data(f.vectorTable[i]))], VectorFrames(f)[i + 1..];
      assert VectorFrames(f)[i..] == first + rest;
      UndisturbedConcat(sizes, w, first, rest, fates);
      ClosedWord(sizes, w, f.vectorTable[i], fates[..1]);
      ClosedWords(f, sizes, i + 1, Reach(sizes, w, first, fates[..1]), fates[1..]);
    }
  }

  lemma ClosedTable(f: BinaryFile, sizes: seq<nat>, bus: Bus, k: nat, w: World, fates: seq<Fate>)
    requires IsClosed(sizes, w) && |f.vectorTable| == VECTOR_WORDS
    requires var o := VectorTable(f, bus, k); |fates| == |o.events| && IsUndisturbed(sizes, w, o.events, fates)
    ensures var o := VectorTable(f, bus, k);
            var x := Reach(sizes, w, o.events, fates);
            && o.result == Failed && IsClosed(sizes, x)
            && (w.device.can != ReceivedLoopNumber ==> x.device == w.device)
  {
    hide Reach, IsUndisturbed, IsStill, IsOpen;
    var o := VectorTable(f, bus, k);
    var reply := Answer(bus, k).ack;
    var wait := AckWaited(ReceivedVectorTable, ReceivedAndProcessed, reply);
    var frames := VectorFrames(f);
    var rest := if reply == NoAck then [] else JudgeCrc(SendCrc(f.vectorCrc, true, bus, k + 1)).events;
    assert o.events == frames + ([wait] + rest);
    UndisturbedConcat(sizes, w, frames, [wait] + rest, fates);
    assert frames[0..] == frames;
    ClosedWords(f, sizes, 0, w, fates[..4]);
    var x := Reach(sizes, w, frames, fates[..4]);
    UndisturbedConcat(sizes, x, [wait], rest, fates[4..]);
    WaitStep(sizes, x, ReceivedVectorTable, ReceivedAndProcessed, reply, fates[4..][..1]);
    ReachNothing(sizes, Reach(sizes, x, [wait], fates[4..][..1]), fates[4..][1..]);
  }

  // ---------- all attempts ----------

  /** Nothing is collected: no number of attempts helps, and apart from a missing word nothing changes. */
  lemma {:induction false} ClosedPasses(
    f: BinaryFile, sizes: seq<nat>, n: nat, tries: nat, bus: Bus, k: nat, w: World, fates: seq<Fate>)
    requires IsClosed(sizes, w) && |f.vectorTable| == VECTOR_WORDS
    requires var o := Passes(f, sizes, n, true, tries, bus, k);
             |fates| == |o.events| && IsUndisturbed(sizes, w, o.events, fates)
    ensures var o := Passes(f, sizes, n, true, tries, bus, k);
            && o.result == Failed
            && (w.device.can != ReceivedLoopNumber ==> Reach(sizes, w, o.events, fates).device == w.device)
    decreases n
  {
    hide Reach, IsUndisturbed, IsClosed, VectorTable;
    if n == 0 {
      ReachNothing(sizes, w, fates);
    } else {
      hide Passes;
      UploadSafety.VectorPass(f, sizes, n, tries, bus, k);
      var v := VectorTable(f, bus, k);
      if v.result == Success {
        ClosedTable(f, sizes, bus, k, w, fates);
        assert false;
      } else {
        var rest := Passes(f, sizes, n - 1, true, tries, bus, v.next);
        UndisturbedConcat(sizes, w, v.events, rest.events, fates);
        ClosedTable(f, sizes, bus, k, w, fates[..|v.events|]);
        ClosedPasses(f, sizes, n - 1, tries, bus, v.next, Reach(sizes, w, v.events, fates[..|v.events|]),
                     fates[|v.events|..]);
      }
    }
  }

  lemma OpenPasses(
    f: BinaryFile, sizes: seq<nat>, n: nat, tries: nat, bus: Bus, k: nat, w: World, fates: seq<Fate>)
    requires IsReady(sizes, w.device) && w.heard == {} && n > 0
    requires |f.vectorTable| == VECTOR_WORDS && f.vectorCrc == Chain(f.vectorTable, 0)
    requires var o := Passes(f, sizes, n, true, tries, bus, k);
             |fates| == |o.events| && IsUndisturbed(sizes, w, o.events, fates)
    ensures Passes(f, sizes, n, true, tries, bus, k).result
         == Judge(n >= 2 || f.vectorCrc == Chain(Filled(w.device, f.vectorTable), 0))
    decreases n
  {
    hide Reach, IsUndisturbed, VectorTable, Passes, Chain, IsReady;
    UploadSafety.VectorPass(f, sizes, n, tries, bus, k);
    ReadyCount(sizes, w.device);
    var v := VectorTable(f, bus, k);
    if v.result == Success {
      OpenTable(f, sizes, bus, k, w, fates);
    } else {
      var rest := Passes(f, sizes, n - 1, true, tries, bus, v.next);
      UndisturbedConcat(sizes, w, v.events, rest.events, fates);
      OpenTable(f, sizes, bus, k, w, fates[..|v.events|]);
      if n == 1 {
        UploadSafety.NoVectorPass(f, sizes, tries, bus, v.next);
      } else {
        var x := Reach(sizes, w, v.events, fates[..|v.events|]);
        ReadyCount(sizes, x.device);
        assert Filled(x.device, f.vectorTable) == f.vectorTable;
        OpenPasses(f, sizes, n - 1, tries, bus, v.next, x, fates[|v.events|..]);
      }
    }
  }

  lemma ReadyCount(sizes: seq<nat>, d: Device)
    requires IsReady(sizes, d)
    ensures d.info.vectorCount < VECTOR_WORDS == |d.info.vectorTable|
  {
  }

  /**
   * From any state that the receiver rests in: repeating the vector table under the best conditions succeeds exactly
   * if the receiver collects its words, and the first attempt completes a table with the signature, or there is
   * another attempt.  A receiver that has all four words, or has installed the program, is not among them.
   */
  lemma VectorRepeatingHelps(
    f: BinaryFile, sizes: seq<nat>, n: nat, tries: nat, bus: Bus, k: nat, w: World, fates: seq<Fate>)
    requires Holds(sizes, w.device) && IsStill(sizes, w.device) && w.heard == {}
    requires |f.vectorTable| == VECTOR_WORDS && f.vectorCrc == Chain(f.vectorTable, 0)
    requires var o := Passes(f, sizes, n, true, tries, bus, k);
             |fates| == |o.events| && IsUndisturbed(sizes, w, o.events, fates)
    ensures IsOpen(w.device) ==> w.device.info.vectorCount < |w.device.info.vectorTable| == VECTOR_WORDS
    ensures Passes(f, sizes, n, true, tries, bus, k).result
         == Judge(&& IsOpen(w.device)
                  && (n >= 2 || (n == 1 && f.vectorCrc == Chain(Filled(w.device, f.vectorTable), 0))))
  {
    hide Reach, IsUndisturbed, Passes, Chain, IsStill;
    if IsOpen(w.device) {
      OpenIsReady(sizes, w.device);
      if n > 0 {
        OpenPasses(f, sizes, n, tries, bus, k, w, fates);
      } else {
        UploadSafety.NoVectorPass(f, sizes, tries, bus, k);
      }
    } else {
      ClosedPasses(f, sizes, n, tries, bus, k, w, fates);
    }
  }

  lemma OpenIsReady(sizes: seq<nat>, d: Device)
    requires Holds(sizes, d) && IsStill(sizes, d) && IsOpen(d)
    ensures IsReady(sizes, d)
  {
    hide Chain;
  }

  /** An installed program that the tool has not seen installed stays so, and the tool never sees it. */
  lemma InstalledIsNotSeen(
    f: BinaryFile, sizes: seq<nat>, n: nat, tries: nat, bus: Bus, k: nat, w: World, fates: seq<Fate>)
    requires IsIdle(w.device) && w.heard == {} && |f.vectorTable| == VECTOR_WORDS
    requires var o := Passes(f, sizes, n, true, tries, bus, k);
             |fates| == |o.events| && IsUndisturbed(sizes, w, o.events, fates)
    ensures var o := Passes(f, sizes, n, true, tries, bus, k);
            o.result == Failed && Reach(sizes, w, o.events, fates).device == w.device
  {
    hide Reach, IsUndisturbed, Passes;
    ClosedPasses(f, sizes, n, tries, bus, k, w, fates);
  }
}
