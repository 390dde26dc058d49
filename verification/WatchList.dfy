/**
 * The watch list of the BMS shell: requests to log messages, kept in three parallel lists that the shell appends
 * to and the reading process consumes.
 */
module WatchList {
  import opened Sequences

  /** One request: log `amount` messages with this id, in the given output form. */
  datatype Request = Request(id: int, amount: int, output: int)

  /** What happened to a received message. */
  datatype Served = NoRequest | Logged(output: int) | Skipped

  // ---------- the list as a value ----------

  /** The oldest request for the id is served; a request without messages left takes a message and goes. */
  function Receive(requests: seq<Request>, id: int): (seq<Request>, Served) {
    if requests == [] then ([], NoRequest)
    else if requests[0].id != id then
      var (rest, served) := Receive(requests[1..], id);
      ([requests[0]] + rest, served)
    else if requests[0].amount <= 0 then (requests[1..], Skipped)
    else if requests[0].amount == 1 then (requests[1..], Logged(requests[0].output))
    else ([requests[0].(amount := requests[0].amount - 1)] + requests[1..], Logged(requests[0].output))
  }

  function FirstIndex(ids: seq<int>, id: int): nat
    requires id in ids
  {
    if ids[0] == id then 0 else 1 + FirstIndex(ids[1..], id)
  }

  lemma {:induction false} FirstIndexIs(ids: seq<int>, id: int)
    requires id in ids
    ensures var i := FirstIndex(ids, id);
            i < |ids| && ids[i] == id && forall k | 0 <= k < i :: ids[k] != id
  {
    if ids[0] != id {
      FirstIndexIs(ids[1..], id);
      var i := FirstIndex(ids, id);
      forall k | 0 <= k < i
        ensures ids[k] != id
      {
        if k > 0 { assert ids[k] == ids[1..][k - 1]; }
      }
    }
  }

  lemma {:induction false} ReceiveNothing(requests: seq<Request>, id: int)
    requires forall k | 0 <= k < |requests| :: requests[k].id != id
    ensures Receive(requests, id) == (requests, NoRequest)
  {
    if requests != [] {
      ReceiveNothing(requests[1..], id);
      assert [requests[0]] + requests[1..] == requests;
    }
  }

  /** Serving the request at position i. */
  function ServeAt(requests: seq<Request>, i: nat): (seq<Request>, Served)
    requires i < |requests|
  {
    var r := requests[i];
    if r.amount <= 0 then (requests[..i] + requests[i + 1..], Skipped)
    else if r.amount == 1 then (requests[..i] + requests[i + 1..], Logged(r.output))
    else (requests[i := r.(amount := r.amount - 1)], Logged(r.output))
  }

  lemma ServeAtNext(requests: seq<Request>, i: nat)
    requires 0 < i < |requests|
    ensures var (rest, served) := ServeAt(requests[1..], i - 1);
            ServeAt(requests, i) == ([requests[0]] + rest, served)
  {
    var less := requests[i].(amount := requests[i].amount - 1);
    assert requests[1..][i - 1] == requests[i];
    assert [requests[0]] + (requests[1..][..i - 1] + requests[1..][i..]) == requests[..i] + requests[i + 1..];
    assert [requests[0]] + requests[1..][i - 1 := less] == requests[i := less];
  }

  lemma ServeFirst(requests: seq<Request>, id: int)
    requires requests != [] && requests[0].id == id
    ensures Receive(requests, id) == ServeAt(requests, 0)
  {
    assert requests[..0] + requests[1..] == requests[1..];
    var less := requests[0].(amount := requests[0].amount - 1);
    assert [less] + requests[1..] == requests[0 := less];
  }

  /** Serving by position is serving the oldest. */
  lemma {:induction false} ReceiveAt(requests: seq<Request>, id: int, i: nat)
    requires i < |requests| && requests[i].id == id && forall k | 0 <= k < i :: requests[k].id != id
    ensures Receive(requests, id) == ServeAt(requests, i)
  {
    hide ServeAt;
    if i == 0 {
      ServeFirst(requests, id);
    } else {
      ReceiveAt(requests[1..], id, i - 1);
      ServeAtNext(requests, i);
    }
  }

  // ---------- the three lists ----------

  class MessageList {
    var ids: seq<int>
    var amounts: seq<int>
    var outputs: seq<int>

    predicate Valid()
      reads this
    {
      |ids| == |amounts| == |outputs|
    }

    function Requests(): (r: seq<Request>)
      requires Valid()
      reads this
      ensures |r| == |ids|
    {
      seq(|ids|, i requires 0 <= i < |ids| reads this requires Valid() => Request(ids[i], amounts[i], outputs[i]))
    }

    constructor ()
      ensures Valid() && Requests() == []
    {
      ids, amounts, outputs := [], [], [];
    }

    /** `add_msg` with an id that the shell could resolve. */
    method AddMsg(id: int, amount: int, output: int)
      requires Valid()
      modifies this
      ensures Valid() && Requests() == old(Requests()) + [Request(id, amount, output)]
    {
      ids := ids + [id];
      amounts := amounts + [amount];
      outputs := outputs + [output];
    }

    method Pop(i: nat)
      requires Valid() && i < |ids|
      modifies this
      ensures Valid() && Requests() == old(Requests())[..i] + old(Requests())[i + 1..]
    {
      ids := ids[..i] + ids[i + 1..];
      amounts := amounts[..i] + amounts[i + 1..];
      outputs := outputs[..i] + outputs[i + 1..];
    }

    /** `log_can_message` */
    method LogCanMessage(id: int) returns (served: Served)
      requires Valid()
      modifies this
      ensures Valid() && (Requests(), served) == Receive(old(Requests()), id)
    {
      ghost var requests := Requests();
      if id !in ids {
        ReceiveNothing(requests, id);
        return NoRequest;
      }
      FirstIndexIs(ids, id);
      var i := FirstIndex(ids, id);
      ReceiveAt(requests, id, i);
      if amounts[i] > 0 {
        served := Logged(outputs[i]);
        amounts := amounts[i := amounts[i] - 1];
        assert Requests() == requests[i := requests[i].(amount := requests[i].amount - 1)];
        if amounts[i] == 0 {
          assert Requests()[..i] == requests[..i] && Requests()[i + 1..] == requests[i + 1..];
          Pop(i);
        }
      } else {
        served := Skipped;
        Pop(i);
      }
    }
  }

  // ---------- whole sessions ----------

  datatype Event = Added(request: Request) | Received(id: int)

  function Apply(requests: seq<Request>, e: Event): seq<Request> {
    match e
    case Added(request) => requests + [request]
    case Received(id) => Receive(requests, id).0
  }

  /** The list after a session that starts with an empty one. */
  function Session(events: seq<Event>): seq<Request> {
    if events == [] then []
    else Apply(Session(events[..|events| - 1]), events[|events| - 1])
  }

  function Repeat(output: int, n: int): seq<int>
    decreases n
  {
    if n <= 0 then [] else [output] + Repeat(output, n - 1)
  }

  /** The output forms that requests ask for, message by message, for one id. */
  function Pending(requests: seq<Request>, id: int): seq<int> {
    if requests == [] then []
    else (if requests[0].id == id then Repeat(requests[0].output, requests[0].amount) else [])
         + Pending(requests[1..], id)
  }

  /** Everything that the shell has asked for in a session. */
  function Asked(events: seq<Event>): seq<Request> {
    if events == [] then []
    else Asked(events[..|events| - 1])
         + match events[|events| - 1] case Added(request) => [request] case Received(_) => []
  }

  /** The messages with this id that a session has logged, by their output form. */
  function LoggedIn(events: seq<Event>, id: int): seq<int> {
    if events == [] then []
    else
      var before := events[..|events| - 1];
      LoggedIn(before, id)
      + match events[|events| - 1]
        case Added(_) => []
        case Received(other) =>
          var served := Receive(Session(before), other).1;
          if other == id && served.Logged? then [served.output] else []
  }

  lemma {:induction false} PendingConcat(a: seq<Request>, b: seq<Request>, id: int)
    ensures Pending(a + b, id) == Pending(a, id) + Pending(b, id)
  {
    if a == [] {
      assert a + b == b;
    } else {
      assert (a + b)[1..] == a[1..] + b;
      PendingConcat(a[1..], b, id);
    }
  }

  /** A message takes the first thing that is pending for its id, and nothing of any other id. */
  lemma {:induction false} ReceiveTakesFirst(requests: seq<Request>, received: int, id: int)
    ensures var (rest, served) := Receive(requests, received);
            Pending(requests, id)
            == (if received == id && served.Logged? then [served.output] else []) + Pending(rest, id)
  {
    if requests != [] {
      var first, tail := requests[0], requests[1..];
      if first.id != received {
        ReceiveTakesFirst(tail, received, id);
        var (rest, served) := Receive(tail, received);
        assert ([first] + rest)[1..] == rest;
      } else if first.amount > 1 {
        var less := first.(amount := first.amount - 1);
        assert ([less] + tail)[1..] == tail;
      }
    }
  }

  /**
   * Conservation, first come first served: for every id, what has been logged and then what is still pending
   * is what was asked for, message by message in the order of the requests.
   */
  lemma {:induction false} SessionConserves(events: seq<Event>, id: int)
    ensures LoggedIn(events, id) + Pending(Session(events), id) == Pending(Asked(events), id)
  {
    if events != [] {
      var before, last := events[..|events| - 1], events[|events| - 1];
      SessionConserves(before, id);
      match last
      case Added(request) =>
        PendingConcat(Session(before), [request], id);
        PendingConcat(Asked(before), [request], id);
        ConcatAssoc(LoggedIn(before, id), Pending(Session(before), id), Pending([request], id));
      case Received(other) =>
        var (rest, served) := Receive(Session(before), other);
        ReceiveTakesFirst(Session(before), other, id);
        ConcatAssoc(LoggedIn(before, id), if other == id && served.Logged? then [served.output] else [],
                    Pending(rest, id));
        assert Asked(before) + [] == Asked(before);
    }
  }

  /** The sum of the positive amounts for one id. */
  function PositiveAmounts(requests: seq<Request>, id: int): nat {
    if requests == [] then 0
    else (if requests[0].id == id && requests[0].amount > 0 then requests[0].amount else 0)
         + PositiveAmounts(requests[1..], id)
  }

  lemma {:induction false} RepeatLength(output: int, n: int)
    ensures |Repeat(output, n)| == if n <= 0 then 0 else n
    decreases n
  {
    if n > 0 { RepeatLength(output, n - 1); }
  }

  lemma {:induction false} PendingLength(requests: seq<Request>, id: int)
    ensures |Pending(requests, id)| == PositiveAmounts(requests, id)
  {
    if requests != [] {
      RepeatLength(requests[0].output, requests[0].amount);
      PendingLength(requests[1..], id);
    }
  }

  /** In numbers: messages logged plus remaining positive counts are the positive counts requested. */
  lemma SessionCounts(events: seq<Event>, id: int)
    ensures |LoggedIn(events, id)| + PositiveAmounts(Session(events), id) == PositiveAmounts(Asked(events), id)
  {
    SessionConserves(events, id);
    PendingLength(Session(events), id);
    PendingLength(Asked(events), id);
  }

  /** How many messages with this id were dropped although something was pending for it. */
  function Missed(events: seq<Event>, id: int): nat {
    if events == [] then 0
    else
      var before := events[..|events| - 1];
      Missed(before, id)
      + if events[|events| - 1] == Received(id) && !Receive(Session(before), id).1.Logged?
           && Pending(Session(before), id) != [] then 1 else 0
  }

  /** Requests for no messages. */
  function Empty(requests: seq<Request>, id: int): nat {
    if requests == [] then 0
    else (if requests[0].id == id && requests[0].amount <= 0 then 1 else 0) + Empty(requests[1..], id)
  }

  lemma {:induction false} EmptyConcat(a: seq<Request>, b: seq<Request>, id: int)
    ensures Empty(a + b, id) == Empty(a, id) + Empty(b, id)
  {
    if a == [] {
      assert a + b == b;
    } else {
      assert (a + b)[1..] == a[1..] + b;
      EmptyConcat(a[1..], b, id);
    }
  }

  lemma {:induction false} ReceiveSkips(requests: seq<Request>, received: int, id: int)
    ensures var (rest, served) := Receive(requests, received);
            && Empty(requests, id) == (if received == id && served.Skipped? then 1 else 0) + Empty(rest, id)
            && (served.NoRequest? ==> Pending(requests, received) == [])
  {
    if requests != [] {
      var first, tail := requests[0], requests[1..];
      if first.id != received {
        ReceiveSkips(tail, received, id);
        var (rest, served) := Receive(tail, received);
        assert ([first] + rest)[1..] == rest;
      } else if first.amount > 1 {
        var less := first.(amount := first.amount - 1);
        assert ([less] + tail)[1..] == tail;
      }
    }
  }

  /** A message is only missed for a request for no messages, and each such request costs at most one. */
  lemma {:induction false} MissedBound(events: seq<Event>, id: int)
    ensures Missed(events, id) + Empty(Session(events), id) <= Empty(Asked(events), id)
  {
    if events != [] {
      var before, last := events[..|events| - 1], events[|events| - 1];
      MissedBound(before, id);
      match last
      case Added(request) =>
        EmptyConcat(Session(before), [request], id);
        EmptyConcat(Asked(before), [request], id);
      case Received(other) =>
        ReceiveSkips(Session(before), other, id);
        assert Asked(before) + [] == Asked(before);
    }
  }
}
