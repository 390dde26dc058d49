/**
 * Properties of every run of the upload, on any bus and whatever fails: the order of handshake, data and
 * vector table, and a bound on what is sent.
 */
module UploadSafety {
  import opened Wrappers
  import opened Protocol
  import opened UploadSpec

  // ---------- handshake before data ----------

  predicate IsPayload(e: Event) {
    e.Sent? && (e.frame.LoopInfo? || e.frame.Data? || e.frame.CrcSignature?)
  }

  /** The bootloader reports that it waits for data. */
  predicate IsReadyReport(e: Event) {
    e.StatesRead? && InState(e.states, WaitForDataLoops)
  }

  predicate NoPayload(events: seq<Event>) {
    forall i | 0 <= i < |events| :: !IsPayload(events[i])
  }

  /** Event i may start a transfer: the last reports were that the bootloader is at its start. */
  predicate MayStart(events: seq<Event>, i: nat, info: BootloaderStatus)
    requires i <= |events|
  {
    || (&& i == 0
        && info.boot == Some(BootWait) && info.can == Some(NoCommunication) && info.loops == Some(0))
    || (&& i >= 3
        && events[i - 3] == StatesRead(Some((NoCommunication, BootWait)))
        && events[i - 2] == Sent(Request(CmdToGetDataTransferInfo))
        && events[i - 1] == LoopsRead(Some(0)))
  }

  predicate StartsSafely(events: seq<Event>, info: BootloaderStatus) {
    forall i | 0 <= i < |events| ::
      events[i] == Sent(Request(CmdToTransferProgram)) ==> MayStart(events, i, info)
  }

  lemma {:induction false} PollSafe(n: nat, bus: Bus, k: nat)
    requires n > 0
    ensures var o := PollState(n, bus, k);
            && NoPayload(o.events)
            && (forall i | 0 <= i < |o.events| :: o.events[i] != Sent(Request(CmdToTransferProgram)))
            && |o.events| > 0
            && o.events[|o.events| - 1] == StatesRead(o.result)
  {
    var s := GetState(bus, k);
    if s.result.None? && n > 1 { PollSafe(n - 1, bus, s.next); }
  }

  lemma ResetSafe(polls: nat, bus: Bus, k: nat)
    requires polls > 0
    ensures var o := ResetBootloader(polls, bus, k);
            && NoPayload(o.events)
            && (forall i | 0 <= i < |o.events| :: o.events[i] != Sent(Request(CmdToTransferProgram)))
            && (o.result ==>
                  && |o.events| >= 3
                  && o.events[|o.events| - 3..]
                     == [StatesRead(Some((NoCommunication, BootWait))), Sent(Request(CmdToGetDataTransferInfo)),
                         LoopsRead(Some(0))])
  {
    PollSafe(polls, bus, k + 1);
  }

  lemma PreInfoSafe(f: BinaryFile, bus: Bus, k: nat)
    ensures var o := PreInfo(f, bus, k);
            && NoPayload(o.events)
            && |o.events| > 0
            && (forall i | 1 <= i < |o.events| :: o.events[i] != Sent(Request(CmdToTransferProgram)))
            && (o.result ==> IsReadyReport(o.events[|o.events| - 1]))
  {
  }

  lemma HandshakeSafe(f: BinaryFile, info: BootloaderStatus, polls: nat, bus: Bus, k: nat)
    requires polls > 0
    ensures var o := Handshake(f, info, polls, bus, k);
            && NoPayload(o.events)
            && StartsSafely(o.events, info)
            && (o.result ==> |o.events| > 0 && IsReadyReport(o.events[|o.events| - 1]))
  {
    var r := if AtTheBeginning(info) then Outcome([], k, true) else ResetBootloader(polls, bus, k);
    if !AtTheBeginning(info) { ResetSafe(polls, bus, k); }
    PreInfoSafe(f, bus, r.next);
    if r.result { StartAfterReset(r.events, PreInfo(f, bus, r.next).events, info); }
  }

  lemma StartAfterReset(reset: seq<Event>, rest: seq<Event>, info: BootloaderStatus)
    requires forall i | 0 <= i < |reset| :: reset[i] != Sent(Request(CmdToTransferProgram))
    requires forall i | 1 <= i < |rest| :: rest[i] != Sent(Request(CmdToTransferProgram))
    requires if reset == []
             then info.boot == Some(BootWait) && info.can == Some(NoCommunication) && info.loops == Some(0)
             else |reset| >= 3 && reset[|reset| - 3..]
                  == [StatesRead(Some((NoCommunication, BootWait))), Sent(Request(CmdToGetDataTransferInfo)),
                      LoopsRead(Some(0))]
    ensures StartsSafely(reset + rest, info)
  {
    var events := reset + rest;
    forall i | 0 <= i < |events| && events[i] == Sent(Request(CmdToTransferProgram))
      ensures MayStart(events, i, info)
    {
      assert i == |reset|;
      if reset != [] {
        var tail := reset[|reset| - 3..];
        assert events[i - 3] == tail[0] && events[i - 2] == tail[1] && events[i - 1] == tail[2];
      }
    }
  }

  // ---------- the phases of a run ----------

  /** A loop number, a word, a signature, or a wait for their acknowledgements. */
  predicate IsDataEvent(e: Event) {
    IsPayload(e) || (e.AckWaited? && (e.message == ReceivedSubSectorData || e.message == ReceivedCrc))
  }

  predicate IsRejection(e: Event) {
    e.AckWaited? && e.message == ReceivedCrc && e.reply != Yes
  }

  predicate IsStart(e: Event) {
    e == Sent(Request(CmdToTransferProgram))
  }

  /** Nothing but events of the data phase; with `accepted`, no sector signature was left unanswered or refused. */
  predicate DataPhase(events: seq<Event>, accepted: bool) {
    forall i | 0 <= i < |events| :: IsDataEvent(events[i]) && (accepted ==> !IsRejection(events[i]))
  }

  predicate VectorPhase(events: seq<Event>) {
    forall i | 0 <= i < |events| :: !events[i].Sent? || events[i].frame.Data? || events[i].frame.CrcSignature?
  }

  lemma {:induction false} LoopFramesPhase(f: BinaryFile, i: nat, last: nat)
    requires i >= 1
    ensures DataPhase(LoopFrames(f, i, last).0, true)
    decreases last + 1 - i
  {
    if i <= last && Entry(f, i - 1).Some? { LoopFramesPhase(f, i + 1, last); }
  }

  lemma {:induction false} TriesPhase(f: BinaryFile, first: nat, last: nat, tries: nat, bus: Bus, k: nat)
    requires first >= 1
    ensures DataPhase(SubSectorTries(f, first, last, tries, bus, k).events, true)
    decreases tries
  {
    if tries > 0 {
      LoopFramesPhase(f, first, last);
      TriesPhase(f, first, last, tries - 1, bus, SubSector(f, first, last, bus, k).next);
    }
  }

  lemma {:induction false} SectorLoopsPhase(
    f: BinaryFile, i: nat, last: nat, total: nat, tries: nat, bus: Bus, k: nat)
    requires i >= 1
    ensures DataPhase(SectorLoops(f, i, last, total, tries, bus, k).events, true)
    decreases last + SUB_SECTOR_LOOPS - i
  {
    if i <= last && SubSectorLoops(i, total).Some? {
      var end := SubSectorLoops(i, total).value.1;
      TriesPhase(f, i, end, tries, bus, k);
      SectorLoopsPhase(f, i + SUB_SECTOR_LOOPS, last, total, tries, bus,
                       SubSectorTries(f, i, end, tries, bus, k).next);
    }
  }

  lemma SectorPhase(f: BinaryFile, i: nat, total: nat, size: nat, tries: nat, bus: Bus, k: nat)
    requires i >= 1
    ensures var o := Sector(f, i, total, size, tries, bus, k); DataPhase(o.events, o.result == Success)
  {
    SectorLoopsPhase(f, i, LastLoop(i, total, size), total, tries, bus, k);
  }

  lemma {:induction false} AppDataPhase(f: BinaryFile, sizes: seq<nat>, i: nat, tries: nat, bus: Bus, k: nat)
    ensures var o := AppData(f, sizes, i, tries, bus, k);
            DataPhase(o.events, o.result == Success) && DataPhase(o.events, false)
    decreases f.lenInWords + 1 - i
  {
    hide Sector, SectorSize;
    if 1 <= i <= f.lenInWords && SectorSize(sizes, 0, 1, i).Some? {
      SectorSizePositive(sizes, 0, 1, i);
      var size := SectorSize(sizes, 0, 1, i).value;
      SectorPhase(f, i, f.lenInWords, size, tries, bus, k);
      AppDataPhase(f, sizes, i + size, tries, bus, Sector(f, i, f.lenInWords, size, tries, bus, k).next);
    }
  }

  /** The run ends with the signature of the vector table, found valid. */
  predicate EndsAccepted(f: BinaryFile, events: seq<Event>) {
    && |events| >= 2
    && events[|events| - 2] == Sent(CrcSignature(f.vectorCrc))
    && events[|events| - 1] == AckWaited(ReceivedCrcOfVectorTable, ReceivedAndProcessed, Yes)
  }

  lemma VectorTablePhase(f: BinaryFile, bus: Bus, k: nat)
    requires |f.vectorTable| == 4
    ensures var o := VectorTable(f, bus, k);
            && VectorPhase(o.events)
            && |o.events| > 0
            && (o.result == Success ==> EndsAccepted(f, o.events))
  {
  }

  lemma {:induction false} VectorOnlyPhase(
    f: BinaryFile, sizes: seq<nat>, n: nat, tries: nat, bus: Bus, k: nat)
    requires |f.vectorTable| == 4
    ensures var o := Passes(f, sizes, n, true, tries, bus, k);
            && VectorPhase(o.events)
            && (n > 0 ==> |o.events| > 0)
            && (o.result == Success ==> EndsAccepted(f, o.events))
  {
    if n > 0 {
      VectorTablePhase(f, bus, k);
      VectorOnlyPhase(f, sizes, n - 1, tries, bus, VectorTable(f, bus, k).next);
    }
  }

  /** One pass that only repeats the vector table. */
  lemma VectorPass(f: BinaryFile, sizes: seq<nat>, n: nat, tries: nat, bus: Bus, k: nat)
    requires |f.vectorTable| == 4 && n > 0
    ensures var v := VectorTable(f, bus, k);
            Passes(f, sizes, n, true, tries, bus, k)
            == if v.result == Success then Outcome(v.events, v.next, Success)
               else After(v.events, Passes(f, sizes, n - 1, true, tries, bus, v.next))
  {
    hide VectorTable;
    var v := VectorTable(f, bus, k);
    assert [] + v.events == v.events;
  }

  lemma NoVectorPass(f: BinaryFile, sizes: seq<nat>, tries: nat, bus: Bus, k: nat)
    requires |f.vectorTable| == 4
    ensures Passes(f, sizes, 0, true, tries, bus, k).result == Failed
  {
  }

  /** After a successful data part the run is that of the vector table alone, with the passes that are left. */
  lemma PassesSplit(f: BinaryFile, sizes: seq<nat>, n: nat, tries: nat, bus: Bus, k: nat)
    requires |f.vectorTable| == 4 && n > 0
    ensures var a := AppData(f, sizes, 1, tries, bus, k);
            Passes(f, sizes, n, false, tries, bus, k)
            == match a.result
               case Exit => a
               case Failed => After(a.events, Passes(f, sizes, n - 1, false, tries, bus, a.next))
               case Success => After(a.events, Passes(f, sizes, n, true, tries, bus, a.next))
  {
    hide AppData;
    hide VectorTable;
    var a := AppData(f, sizes, 1, tries, bus, k);
    if a.result == Success {
      var v := VectorTable(f, bus, a.next);
      AfterNothing(v);
      AfterAfter(a.events, v.events, Passes(f, sizes, n - 1, true, tries, bus, v.next));
    }
  }

  /**
   * A run of passes splits into a data phase and a vector-table phase.  The vector-table phase is only
   * reached through one complete successful pass, the last of the data phase; no data follows it.
   */
  ghost predicate Phased(
    f: BinaryFile, sizes: seq<nat>, tries: nat, bus: Bus, o: Outcome<Verdict>, cut: nat, last: nat, wait: nat)
  {
    && last <= cut <= |o.events|
    && DataPhase(o.events[..cut], false)
    && VectorPhase(o.events[cut..])
    && (cut < |o.events| ==>
          var pass := AppData(f, sizes, 1, tries, bus, wait);
          pass.result == Success && o.events[last..cut] == pass.events)
    && (o.result == Success ==> cut < |o.events| && EndsAccepted(f, o.events))
  }

  lemma {:induction false} PassesPhases(
    f: BinaryFile, sizes: seq<nat>, n: nat, tries: nat, bus: Bus, k: nat)
    returns (cut: nat, last: nat, wait: nat)
    requires |f.vectorTable| == 4
    ensures Phased(f, sizes, tries, bus, Passes(f, sizes, n, false, tries, bus, k), cut, last, wait)
  {
    hide *;
    cut, last, wait := 0, 0, k;
    if n == 0 {
      PhasedNothing(f, sizes, tries, bus, k);
      return;
    }
    var a := AppData(f, sizes, 1, tries, bus, k);
    AppDataPhase(f, sizes, 1, tries, bus, k);
    PassesSplit(f, sizes, n, tries, bus, k);
    if a.result == Failed {
      cut, last, wait := PassesPhases(f, sizes, n - 1, tries, bus, a.next);
      PhasedLater(f, sizes, tries, bus, a.events, Passes(f, sizes, n - 1, false, tries, bus, a.next), cut, last, wait);
      cut, last := |a.events| + cut, |a.events| + last;
    } else {
      cut, last, wait := |a.events|, 0, k;
      if a.result == Success {
        VectorOnlyPhase(f, sizes, n, tries, bus, a.next);
        PhasedNow(f, sizes, tries, bus, k, Passes(f, sizes, n, true, tries, bus, a.next));
      } else {
        PhasedExit(f, sizes, tries, bus, a, k);
      }
    }
  }

  lemma PhasedNothing(f: BinaryFile, sizes: seq<nat>, tries: nat, bus: Bus, k: nat)
    requires |f.vectorTable| == 4
    ensures Phased(f, sizes, tries, bus, Passes(f, sizes, 0, false, tries, bus, k), 0, 0, k)
  {
  }

  lemma PhasedExit(f: BinaryFile, sizes: seq<nat>, tries: nat, bus: Bus, a: Outcome<Verdict>, wait: nat)
    requires DataPhase(a.events, false) && a.result == Exit
    ensures Phased(f, sizes, tries, bus, a, |a.events|, 0, wait)
  {
    assert a.events[..|a.events|] == a.events;
  }

  lemma PhasedNow(f: BinaryFile, sizes: seq<nat>, tries: nat, bus: Bus, wait: nat, v: Outcome<Verdict>)
    requires var a := AppData(f, sizes, 1, tries, bus, wait); a.result == Success && DataPhase(a.events, false)
    requires VectorPhase(v.events) && |v.events| > 0
    requires v.result == Success ==> EndsAccepted(f, v.events)
    ensures var a := AppData(f, sizes, 1, tries, bus, wait);
            Phased(f, sizes, tries, bus, After(a.events, v), |a.events|, 0, wait)
  {
    hide AppData;
    var a := AppData(f, sizes, 1, tries, bus, wait);
    assert (a.events + v.events)[..|a.events|] == a.events;
    assert (a.events + v.events)[|a.events|..] == v.events;
  }

  lemma PhasedLater(
    f: BinaryFile, sizes: seq<nat>, tries: nat, bus: Bus, a: seq<Event>, rest: Outcome<Verdict>,
    cut: nat, last: nat, wait: nat)
    requires DataPhase(a, false) && Phased(f, sizes, tries, bus, rest, cut, last, wait)
    ensures Phased(f, sizes, tries, bus, After(a, rest), |a| + cut, |a| + last, wait)
  {
    hide AppData;
    ShiftPhases(a, rest.events, cut, last);
  }

  lemma ShiftPhases(a: seq<Event>, rest: seq<Event>, cut: nat, last: nat)
    requires DataPhase(a, false) && last <= cut <= |rest|
    requires DataPhase(rest[..cut], false) && VectorPhase(rest[cut..])
    ensures DataPhase((a + rest)[..|a| + cut], false)
    ensures VectorPhase((a + rest)[|a| + cut..])
    ensures (a + rest)[|a| + last..|a| + cut] == rest[last..cut]
  {
    assert (a + rest)[..|a| + cut] == a + rest[..cut];
    assert (a + rest)[|a| + cut..] == rest[cut..];
  }

  // ---------- the whole upload ----------

  /** No data, loop number or signature is sent before the bootloader reported that it waits for data. */
  lemma PayloadAfterReady(
    f: BinaryFile, sizes: seq<nat>, info: BootloaderStatus, limits: Limits, bus: Bus, k: nat, i: nat)
    requires |f.vectorTable| == 4 && limits.polls > 0
    requires i < |AppBinary(f, sizes, info, limits, bus, k).events|
    requires IsPayload(AppBinary(f, sizes, info, limits, bus, k).events[i])
    ensures exists j | 0 <= j < i :: IsReadyReport(AppBinary(f, sizes, info, limits, bus, k).events[j])
  {
    HandshakeSafe(f, info, limits.polls, bus, k);
    var h := Handshake(f, info, limits.polls, bus, k);
    var events := AppBinary(f, sizes, info, limits, bus, k).events;
    assert events[..|h.events|] == h.events;
    assert i >= |h.events|;
    assert IsReadyReport(events[|h.events| - 1]);
  }

  /** A transfer is started at most where the bootloader was last reported at its start. */
  lemma TransferStartsAtTheBeginning(
    f: BinaryFile, sizes: seq<nat>, info: BootloaderStatus, limits: Limits, bus: Bus, k: nat)
    requires |f.vectorTable| == 4 && limits.polls > 0
    ensures StartsSafely(AppBinary(f, sizes, info, limits, bus, k).events, info)
  {
    hide Handshake, Passes, StartsSafely;
    if !IsComplete(info) {
      NoEventsStartSafely(info);
    } else {
      HandshakeSafe(f, info, limits.polls, bus, k);
      var h := Handshake(f, info, limits.polls, bus, k);
      if h.result {
        var p := Passes(f, sizes, limits.passes, false, limits.tries, bus, h.next);
        var cut, last, wait := PassesPhases(f, sizes, limits.passes, limits.tries, bus, h.next);
        NoStart(f, sizes, limits.tries, bus, p, cut, last, wait);
        NoStartAfter(h.events, p.events, info);
      }
    }
  }

  lemma NoEventsStartSafely(info: BootloaderStatus)
    ensures StartsSafely([], info)
  {
  }

  lemma NoStart(
    f: BinaryFile, sizes: seq<nat>, tries: nat, bus: Bus, o: Outcome<Verdict>, cut: nat, last: nat, wait: nat)
    requires Phased(f, sizes, tries, bus, o, cut, last, wait)
    ensures forall i | 0 <= i < |o.events| :: !IsStart(o.events[i])
  {
    hide AppData;
    forall i | 0 <= i < |o.events|
      ensures !IsStart(o.events[i])
    {
      if i < cut {
        assert o.events[i] == o.events[..cut][i];
      } else {
        assert o.events[i] == o.events[cut..][i - cut];
      }
    }
  }

  lemma NoStartAfter(h: seq<Event>, p: seq<Event>, info: BootloaderStatus)
    requires StartsSafely(h, info) && forall i | 0 <= i < |p| :: !IsStart(p[i])
    ensures StartsSafely(h + p, info)
  {
    var events := h + p;
    forall i | 0 <= i < |events| && IsStart(events[i])
      ensures MayStart(events, i, info)
    {
      assert i < |h| && h[i] == events[i] && MayStart(h, i, info);
    }
  }

  /** True is returned only if the last exchange was the vector table's signature, found valid. */
  lemma SuccessEndsAccepted(
    f: BinaryFile, sizes: seq<nat>, info: BootloaderStatus, limits: Limits, bus: Bus, k: nat)
    requires |f.vectorTable| == 4 && limits.polls > 0
    requires AppBinary(f, sizes, info, limits, bus, k).result == Success
    ensures EndsAccepted(f, AppBinary(f, sizes, info, limits, bus, k).events)
  {
    hide Handshake, Passes, AppData, DataPhase, VectorPhase;
    var h := Handshake(f, info, limits.polls, bus, k);
    var cut, last, wait := PassesPhases(f, sizes, limits.passes, limits.tries, bus, h.next);
  }
}
