/**
 * The upload when nothing goes wrong: every frame arrives, the receiver's flash works, and every wait of the tool
 * is answered by what the receiver has sent.
 */
module Undisturbed {
  import opened Wrappers
  import opened Protocol
  import opened Device
  import opened World

  /** What the tool is told about an acknowledgement that it waits for. */
  function Reported(heard: set<Ack>, message: AckMessage, status: StatusCode): AckReply {
    if Ack(message, status, true) in heard then Yes
    else if Ack(message, status, false) in heard then No
    else NoAck
  }

  /** Enough turns of the main loop, on working hardware, for the receiver to have reacted. */
  predicate IsWorking(turns: seq<Hardware>) {
    |turns| >= 2 && forall i | 0 <= i < |turns| :: turns[i] == Works
  }

  predicate IsPrompt(sizes: seq<nat>, w: World, e: Event, fate: Fate) {
    && IsWorking(fate.turns)
    && match e
       case Sent(_) => fate.delivered
       case AckWaited(message, status, reply) =>
         reply == Reported(Turns(sizes, w, fate.turns).heard, message, status)
       case StatesRead(states) => states == Turns(sizes, w, fate.turns).states
       case LoopsRead(loops) => loops == Turns(sizes, w, fate.turns).loops
  }

  predicate IsUndisturbed(sizes: seq<nat>, w: World, events: seq<Event>, fates: seq<Fate>)
    requires |events| == |fates|
    decreases |events|
  {
    events != [] ==>
      && IsPrompt(sizes, w, events[0], fates[0])
      && See(sizes, w, events[0], fates[0]).Some?
      && IsUndisturbed(sizes, See(sizes, w, events[0], fates[0]).value, events[1..], fates[1..])
  }

  /** Where the events lead. */
  function Reach(sizes: seq<nat>, w: World, events: seq<Event>, fates: seq<Fate>): World
    requires |events| == |fates|
    decreases |events|
  {
    if events == [] || See(sizes, w, events[0], fates[0]).None? then w
    else Reach(sizes, See(sizes, w, events[0], fates[0]).value, events[1..], fates[1..])
  }

  lemma {:induction false} ReachIsObserved(sizes: seq<nat>, w: World, events: seq<Event>, fates: seq<Fate>)
    requires |events| == |fates| && IsUndisturbed(sizes, w, events, fates)
    ensures Observe(sizes, w, events, fates) == Some(Reach(sizes, w, events, fates))
    decreases |events|
  {
    hide See, IsPrompt;
    if events != [] {
      ReachIsObserved(sizes, See(sizes, w, events[0], fates[0]).value, events[1..], fates[1..]);
    }
  }

  lemma {:induction false} UndisturbedConcat(
    sizes: seq<nat>, w: World, a: seq<Event>, b: seq<Event>, fates: seq<Fate>)
    requires |a| + |b| == |fates| && IsUndisturbed(sizes, w, a + b, fates)
    ensures IsUndisturbed(sizes, w, a, fates[..|a|])
    ensures IsUndisturbed(sizes, Reach(sizes, w, a, fates[..|a|]), b, fates[|a|..])
    ensures Reach(sizes, w, a + b, fates) == Reach(sizes, Reach(sizes, w, a, fates[..|a|]), b, fates[|a|..])
    decreases |a|
  {
    hide See, IsPrompt;
    if a == [] {
      assert a + b == b && fates[0..] == fates;
    } else {
      assert (a + b)[1..] == a[1..] + b;
      assert fates[..|a|][1..] == fates[1..][..|a| - 1] && fates[1..][|a| - 1..] == fates[|a|..];
      UndisturbedConcat(sizes, See(sizes, w, a[0], fates[0]).value, a[1..], b, fates[1..]);
    }
  }

  lemma UndisturbedOne(sizes: seq<nat>, w: World, e: Event, fates: seq<Fate>)
    requires |fates| == 1 && IsUndisturbed(sizes, w, [e], fates)
    ensures IsPrompt(sizes, w, e, fates[0])
    ensures See(sizes, w, e, fates[0]) == Some(Reach(sizes, w, [e], fates))
  {
    hide See, IsPrompt;
    assert [e][1..] == [];
  }

  // ---------- a receiver at rest ----------

  /** A turn on working hardware changes nothing. */
  predicate IsStill(sizes: seq<nat>, d: Device) {
    Poll(sizes, d, Works) == Quiet(d)
  }

  lemma {:induction false} StillTurns(sizes: seq<nat>, w: World, turns: seq<Hardware>)
    requires IsStill(sizes, w.device) && forall i | 0 <= i < |turns| :: turns[i] == Works
    ensures Turns(sizes, w, turns) == w
    decreases |turns|
  {
    hide Poll;
    if turns != [] {
      assert w.heard + {} == w.heard;
      StillTurns(sizes, w, turns[1..]);
    }
  }

  /** After one turn the receiver is at rest. */
  lemma TurnsOnce(sizes: seq<nat>, w: World, turns: seq<Hardware>)
    requires IsWorking(turns) && IsStill(sizes, Poll(sizes, w.device, Works).device)
    ensures Turns(sizes, w, turns) == Take(w, Poll(sizes, w.device, Works))
  {
    hide Poll;
    StillTurns(sizes, Take(w, Poll(sizes, w.device, Works)), turns[1..]);
  }

  /** After two turns the receiver is at rest. */
  lemma TurnsTwice(sizes: seq<nat>, w: World, turns: seq<Hardware>)
    requires IsWorking(turns)
    requires IsStill(sizes, Poll(sizes, Poll(sizes, w.device, Works).device, Works).device)
    ensures var x := Take(w, Poll(sizes, w.device, Works));
            Turns(sizes, w, turns) == Take(x, Poll(sizes, x.device, Works))
  {
    hide Poll;
    var x := Take(w, Poll(sizes, w.device, Works));
    StillTurns(sizes, Take(x, Poll(sizes, x.device, Works)), turns[2..]);
    assert turns[1..][1..] == turns[2..];
    assert Turns(sizes, x, turns[1..]) == Turns(sizes, Take(x, Poll(sizes, x.device, Works)), turns[2..]);
  }

  lemma ReachNothing(sizes: seq<nat>, w: World, fates: seq<Fate>)
    requires fates == []
    ensures Reach(sizes, w, [], fates) == w
  {
  }

  /** A wait of the tool while the receiver is at rest. */
  lemma WaitStep(sizes: seq<nat>, w: World, message: AckMessage, status: StatusCode, reply: AckReply, fates: seq<Fate>)
    requires IsStill(sizes, w.device) && |fates| == 1
    requires IsUndisturbed(sizes, w, [AckWaited(message, status, reply)], fates)
    ensures reply == Reported(w.heard, message, status)
    ensures Reach(sizes, w, [AckWaited(message, status, reply)], fates) == w.(heard := {})
  {
    hide Turns, Poll, Reach, IsUndisturbed;
    UndisturbedOne(sizes, w, AckWaited(message, status, reply), fates);
    StillTurns(sizes, w, fates[0].turns);
  }
}
