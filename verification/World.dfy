/**
 * The upload tool and the receiver together: which frames arrive, how often the receiver's main loop turns in
 * between, and which of the tool's observations the receiver really caused.
 */
module World {
  import opened Wrappers
  import opened Protocol
  import opened Device

  /**
   * `heard` are the acknowledgements since the tool's last wait; `states` and `loops` are the receiver's
   * answers to the last request for them.
   */
  datatype World = World(device: Device, heard: set<Ack>, states: Option<States>, loops: Option<nat>)

  /** Whether the frame of an event arrives, and the main-loop turns until the next event. */
  datatype Fate = Fate(delivered: bool, turns: seq<Hardware>)

  /** The flash hardware works whenever it is asked to. */
  predicate TurnsWork(turns: seq<Hardware>) {
    forall i | 0 <= i < |turns| :: turns[i] == Works
  }

  predicate AllWork(fates: seq<Fate>) {
    forall n | 0 <= n < |fates| :: TurnsWork(fates[n].turns)
  }

  function Take(w: World, r: Reaction): World {
    w.(device := r.device, heard := w.heard + r.acks)
  }

  function Turns(sizes: seq<nat>, w: World, turns: seq<Hardware>): World
    decreases |turns|
  {
    if turns == [] then w else Turns(sizes, Take(w, Poll(sizes, w.device, turns[0])), turns[1..])
  }

  /** An old answer is forgotten when the tool asks again. */
  function Forget(w: World, frame: Frame): World {
    if frame == Request(CmdToGetBootloaderInfo) then w.(states := None)
    else if frame == Request(CmdToGetDataTransferInfo) then w.(loops := None)
    else w
  }

  function Receive(sizes: seq<nat>, w: World, frame: Frame): World {
    var x := Take(w, Rx(sizes, w.device, frame));
    if w.device.boot == BootLeft then x
    else if frame == Request(CmdToGetBootloaderInfo) then x.(states := Some((x.device.can, x.device.boot)))
    else if frame == Request(CmdToGetDataTransferInfo) then x.(loops := Some(x.device.info.current))
    else x
  }

  function Transmit(sizes: seq<nat>, w: World, frame: Frame, fate: Fate): World {
    var x := Forget(w, frame);
    Turns(sizes, if fate.delivered then Receive(sizes, x, frame) else x, fate.turns)
  }

  /**
   * One event of the tool.  None stands for an observation that the receiver did not cause: a signature
   * reported valid without its acknowledgement, or a state that the receiver did not report.  All other
   * acknowledgements may be lost, late or made up.
   */
  function See(sizes: seq<nat>, w: World, e: Event, fate: Fate): Option<World> {
    match e
    case Sent(frame) => Some(Transmit(sizes, w, frame, fate))
    case AckWaited(message, status, reply) =>
      var x := Turns(sizes, w, fate.turns);
      if reply == Yes && (message == ReceivedCrc || message == ReceivedCrcOfVectorTable)
         && Ack(message, status, true) !in x.heard then None
      else Some(x.(heard := {}))
    case StatesRead(states) =>
      var x := Turns(sizes, w, fate.turns);
      if states.Some? && x.states != states then None else Some(x)
    case LoopsRead(loops) =>
      var x := Turns(sizes, w, fate.turns);
      if loops.Some? && x.loops != loops then None else Some(x)
  }

  function Observe(sizes: seq<nat>, w: World, events: seq<Event>, fates: seq<Fate>): Option<World>
    requires |events| == |fates|
    decreases |events|
  {
    if events == [] then Some(w)
    else
      var x := See(sizes, w, events[0], fates[0]);
      if x.None? then None else Observe(sizes, x.value, events[1..], fates[1..])
  }

  lemma {:induction false} ObserveConcat(
    sizes: seq<nat>, w: World, a: seq<Event>, b: seq<Event>, fates: seq<Fate>)
    requires |a| + |b| == |fates|
    ensures var x := Observe(sizes, w, a, fates[..|a|]);
            Observe(sizes, w, a + b, fates) == if x.None? then None else Observe(sizes, x.value, b, fates[|a|..])
    decreases |a|
  {
    hide See;
    if a == [] {
      assert a + b == b && fates[0..] == fates;
    } else {
      var x := See(sizes, w, a[0], fates[0]);
      assert (a + b)[1..] == a[1..] + b;
      assert fates[..|a|][1..] == fates[1..][..|a| - 1] && fates[1..][|a| - 1..] == fates[|a|..];
      if x.Some? { ObserveConcat(sizes, x.value, a[1..], b, fates[1..]); }
    }
  }

  lemma ObserveOne(sizes: seq<nat>, w: World, a: Event, fates: seq<Fate>)
    requires |fates| == 1
    ensures Observe(sizes, w, [a], fates) == See(sizes, w, a, fates[0])
  {
    assert [a][1..] == [];
  }

  lemma ObserveTwo(sizes: seq<nat>, w: World, a: Event, b: Event, fates: seq<Fate>)
    requires |fates| == 2
    ensures var x := See(sizes, w, a, fates[0]);
            Observe(sizes, w, [a, b], fates) == if x.None? then None else See(sizes, x.value, b, fates[1])
  {
    hide See;
    assert [a, b][1..] == [b];
    var x := See(sizes, w, a, fates[0]);
    if x.Some? { ObserveOne(sizes, x.value, b, fates[1..]); }
  }
}
