/**
 * A receiver that has refused a signature accepts none again before it is reset, so that no repeat of the tool
 * succeeds.
 */
module Refusal {
  import opened Protocol
  import opened Device
  import opened World
  import opened Transfer
  import opened UploadSpec
  import UploadSafety
  import DeviceSafety

  /** The tool sees a sector signature accepted. */
  const CRC_ACCEPTED: Event := AckWaited(ReceivedCrc, ReceivedAndProcessed, Yes)

  /** No acceptance of a sector signature is on its way, and none will be sent. */
  predicate IsDead(w: World) {
    IsOff(w.device) && CRC_YES !in w.heard
  }

  lemma {:induction false} DeadTurns(sizes: seq<nat>, w: World, turns: seq<Hardware>)
    requires IsDead(w)
    ensures IsDead(Turns(sizes, w, turns))
    decreases |turns|
  {
    hide IsOff, Poll;
    if turns != [] {
      OffPoll(sizes, w.device, turns[0]);
      DeadTurns(sizes, Take(w, Poll(sizes, w.device, turns[0])), turns[1..]);
    }
  }

  lemma DeadReceives(sizes: seq<nat>, w: World, frame: Frame)
    requires IsDead(w) && (frame.LoopInfo? || frame.Data? || frame.CrcSignature?)
    ensures IsDead(Receive(sizes, w, frame))
  {
    hide IsOff, RxLoopInfo, RxData, RxCrc;
    match frame
    case LoopInfo(loop) => OffLoopInfo(w.device, loop);
    case Data(word) => OffData(w.device, word);
    case CrcSignature(crc) => OffCrc(sizes, w.device, crc);
  }

  lemma DeadSees(sizes: seq<nat>, w: World, e: Event, fate: Fate)
    requires IsDead(w) && UploadSafety.IsDataEvent(e) && See(sizes, w, e, fate).Some?
    ensures IsDead(See(sizes, w, e, fate).value) && e != CRC_ACCEPTED
  {
    hide IsOff, Rx, Turns;
    match e
    case Sent(frame) =>
      if fate.delivered {
        DeadReceives(sizes, w, frame);
        DeadTurns(sizes, Receive(sizes, w, frame), fate.turns);
      } else {
        DeadTurns(sizes, w, fate.turns);
      }
    case AckWaited(_, _, _) => DeadTurns(sizes, w, fate.turns);
  }

  lemma {:induction false} DeadObserves(sizes: seq<nat>, w: World, events: seq<Event>, fates: seq<Fate>)
    requires IsDead(w) && UploadSafety.DataPhase(events, false)
    requires |events| == |fates| && Observe(sizes, w, events, fates).Some?
    ensures IsDead(Observe(sizes, w, events, fates).value) && CRC_ACCEPTED !in events
    decreases |events|
  {
    hide IsDead, See;
    if events != [] {
      DeadSees(sizes, w, events[0], fates[0]);
      DeadObserves(sizes, See(sizes, w, events[0], fates[0]).value, events[1..], fates[1..]);
    }
  }

  lemma SectorAccepted(f: BinaryFile, i: nat, total: nat, size: nat, tries: nat, bus: Bus, k: nat)
    requires i >= 1 && Sector(f, i, total, size, tries, bus, k).result == Success
    ensures CRC_ACCEPTED in Sector(f, i, total, size, tries, bus, k).events
  {
    hide SectorLoops;
    var last := LastLoop(i, total, size);
    var a := SectorLoops(f, i, last, total, tries, bus, k);
    var c := JudgeCrc(SendCrc(Entry(f, last - 1).value.0, false, bus, a.next));
    assert c.events[1] == CRC_ACCEPTED;
  }

  /** A data part only succeeds when the tool has seen a signature accepted. */
  lemma DataAccepted(f: BinaryFile, sizes: seq<nat>, i: nat, tries: nat, bus: Bus, k: nat)
    requires i <= f.lenInWords && AppData(f, sizes, i, tries, bus, k).result == Success
    ensures CRC_ACCEPTED in AppData(f, sizes, i, tries, bus, k).events
  {
    hide Sector, SectorSize;
    SectorSizePositive(sizes, 0, 1, i);
    SectorAccepted(f, i, f.lenInWords, SectorSize(sizes, 0, 1, i).value, tries, bus, k);
  }

  /** Once no signature is accepted any more, a data part fails and leaves it at that. */
  lemma DeadData(
    f: BinaryFile, sizes: seq<nat>, i: nat, tries: nat, bus: Bus, k: nat, w: World, fates: seq<Fate>)
    requires i <= f.lenInWords && IsDead(w)
    requires var o := AppData(f, sizes, i, tries, bus, k);
             |fates| == |o.events| && Observe(sizes, w, o.events, fates).Some?
    ensures var o := AppData(f, sizes, i, tries, bus, k);
            o.result != Success && IsDead(Observe(sizes, w, o.events, fates).value)
  {
    hide IsDead, Observe, AppData;
    var o := AppData(f, sizes, i, tries, bus, k);
    UploadSafety.AppDataPhase(f, sizes, i, tries, bus, k);
    DeadObserves(sizes, w, o.events, fates);
    if o.result == Success { DataAccepted(f, sizes, i, tries, bus, k); }
  }

  /** And so does any number of passes, on any bus and whatever is lost. */
  lemma {:induction false} DeadPasses(
    f: BinaryFile, sizes: seq<nat>, n: nat, tries: nat, bus: Bus, k: nat, w: World, fates: seq<Fate>)
    requires |f.vectorTable| == VECTOR_WORDS && f.lenInWords > 0 && IsDead(w)
    requires var o := Passes(f, sizes, n, false, tries, bus, k);
             |fates| == |o.events| && Observe(sizes, w, o.events, fates).Some?
    ensures Passes(f, sizes, n, false, tries, bus, k).result != Success
    decreases n
  {
    hide IsDead, Observe, AppData;
    if n > 0 {
      hide Passes;
      var a := AppData(f, sizes, 1, tries, bus, k);
      UploadSafety.PassesSplit(f, sizes, n, tries, bus, k);
      var rest := match a.result
                  case Exit => Outcome([], a.next, Exit)
                  case Failed => Passes(f, sizes, n - 1, false, tries, bus, a.next)
                  case Success => Passes(f, sizes, n, true, tries, bus, a.next);
      assert Passes(f, sizes, n, false, tries, bus, k).events == a.events + rest.events;
      ObserveConcat(sizes, w, a.events, rest.events, fates);
      DeadData(f, sizes, 1, tries, bus, k, w, fates[..|a.events|]);
      if a.result == Failed {
        DeadPasses(f, sizes, n - 1, tries, bus, a.next,
                   Observe(sizes, w, a.events, fates[..|a.events|]).value, fates[|a.events|..]);
      }
    }
  }

  lemma RefusedIsOff(sizes: seq<nat>, d: Device, hw: Hardware)
    requires DeviceSafety.IsPending(d) && d.boot == BootLoad && CRC_YES !in Poll(sizes, d, hw).acks
    ensures IsOff(Poll(sizes, d, hw).device)
  {
    hide Validate;
    DeviceSafety.MismatchIsError(sizes, d, hw);
  }

  /**
   * A turn of the main loop that does not accept the signature it finds is final: however often the tool repeats
   * its passes, and whatever the bus answers, the upload does not succeed without a reset.
   */
  lemma RefusalIsFinal(
    f: BinaryFile, sizes: seq<nat>, n: nat, tries: nat, bus: Bus, k: nat, w: World, hw: Hardware, fates: seq<Fate>)
    requires |f.vectorTable| == VECTOR_WORDS && f.lenInWords > 0
    requires DeviceSafety.IsPending(w.device) && w.device.boot == BootLoad
    requires CRC_YES !in w.heard && CRC_YES !in Poll(sizes, w.device, hw).acks
    requires var o := Passes(f, sizes, n, false, tries, bus, k);
             && |fates| == |o.events|
             && Observe(sizes, Take(w, Poll(sizes, w.device, hw)), o.events, fates).Some?
    ensures Passes(f, sizes, n, false, tries, bus, k).result != Success
  {
    hide IsOff, Poll, Observe, Passes;
    RefusedIsOff(sizes, w.device, hw);
    DeadPasses(f, sizes, n, tries, bus, k, Take(w, Poll(sizes, w.device, hw)), fates);
  }
}
