/**
 * The error window of the two receiving processes: CAN operation errors of the last hour, and the stop when there
 * are too many of them.
 */
module ErrorWindow {
  import opened Wrappers

  const MAX_ERRORS_PER_HOUR: nat := 10
  const HOUR: real := 3600.0

  /** The errors that are kept when one occurs at time t. */
  function Recent(errors: seq<real>, t: real): seq<real> {
    if errors == [] then []
    else (if t - errors[0] > HOUR then [] else [errors[0]]) + Recent(errors[1..], t)
  }

  /** The window after the errors at these times, pruned at each of them. */
  function Window(times: seq<real>): seq<real> {
    if times == [] then []
    else Recent(Window(times[..|times| - 1]), times[|times| - 1]) + [times[|times| - 1]]
  }

  predicate IsSorted(times: seq<real>) {
    forall i, j | 0 <= i < j < |times| :: times[i] <= times[j]
  }

  /** Where the errors of the last hour before t begin. */
  function Cut(times: seq<real>, t: real): (k: nat)
    ensures k <= |times|
    ensures forall i | 0 <= i < k :: t - times[i] > HOUR
    ensures k < |times| ==> t - times[k] <= HOUR
  {
    if times == [] || t - times[0] <= HOUR then 0 else 1 + Cut(times[1..], t)
  }

  lemma {:induction false} RecentAll(times: seq<real>, t: real)
    requires forall i | 0 <= i < |times| :: t - times[i] <= HOUR
    ensures Recent(times, t) == times
  {
    if times != [] {
      RecentAll(times[1..], t);
    }
  }

  /** A later time never brings an error back. */
  lemma CutMonotone(times: seq<real>, s: real, t: real)
    requires s <= t
    ensures Cut(times, s) <= Cut(times, t)
  {
    var i := Cut(times, t);
  }

  lemma {:induction false} CutSnoc(before: seq<real>, t: real)
    ensures Cut(before + [t], t) == Cut(before, t)
  {
    if before != [] {
      assert (before + [t])[1..] == before[1..] + [t];
      CutSnoc(before[1..], t);
    }
  }

  /** Pruning what has been pruned before is pruning everything. */
  lemma {:induction false} RecentOfSuffix(times: seq<real>, t: real, k: nat)
    requires IsSorted(times) && k <= Cut(times, t)
    ensures Recent(times[k..], t) == times[Cut(times, t)..]
    decreases Cut(times, t) - k
  {
    if k < Cut(times, t) {
      assert times[k..][1..] == times[k + 1..];
      RecentOfSuffix(times, t, k + 1);
    } else {
      RecentAll(times[k..], t);
    }
  }

  lemma RecentIsSuffix(times: seq<real>, t: real)
    requires IsSorted(times)
    ensures Recent(times, t) == times[Cut(times, t)..]
  {
    RecentOfSuffix(times, t, 0);
    assert times[0..] == times;
  }

  lemma DropOfSnoc(before: seq<real>, t: real, c: nat)
    requires c <= |before|
    ensures (before + [t])[c..] == before[c..] + [t]
  {
  }

  /** Pruning step by step keeps a suffix of the history: the errors of the last hour. */
  lemma {:induction false} WindowIsSuffix(times: seq<real>)
    requires IsSorted(times) && times != []
    ensures Window(times) == times[Cut(times, times[|times| - 1])..]
  {
    hide Recent, Cut, Window, IsSorted;
    var n, t := |times| - 1, times[|times| - 1];
    var before := times[..n];
    WindowSnoc(times, before, t);
    SortedPrefix(times, before, t);
    CutSnoc(before, t);
    DropOfSnoc(before, t, Cut(before, t));
    if n > 0 {
      WindowIsSuffix(before);
      CutMonotone(before, before[n - 1], t);
      RecentOfSuffix(before, t, Cut(before, before[n - 1]));
    } else {
      RecentOfSuffix(before, t, 0);
      NoErrors();
      assert before[0..] == before == [];
    }
  }

  lemma WindowSnoc(times: seq<real>, before: seq<real>, t: real)
    requires times != [] && before == times[..|times| - 1] && t == times[|times| - 1]
    ensures times == before + [t]
    ensures Window(times) == Recent(Window(before), t) + [t]
  {
    hide Recent;
  }

  lemma SortedPrefix(times: seq<real>, before: seq<real>, t: real)
    requires IsSorted(times) && times == before + [t]
    ensures IsSorted(before)
    ensures before != [] ==> before[|before| - 1] <= t
  {
    assert forall i | 0 <= i < |before| :: before[i] == times[i];
    assert times[|before|] == t;
  }

  /** These are the errors, in order, that are at most 3600 seconds older than the last one. */
  ghost predicate IsLastHour(errors: seq<real>, times: seq<real>)
    requires times != []
  {
    exists k | 0 <= k < |times| ::
      && errors == times[k..]
      && (forall i | 0 <= i < k :: times[|times| - 1] - times[i] > 3600.0)
      && (forall i | k <= i < |times| :: times[|times| - 1] - times[i] <= 3600.0)
  }

  /** So it is the errors of the whole history that are at most an hour old. */
  lemma WindowIsLastHour(times: seq<real>)
    requires IsSorted(times) && times != []
    ensures Window(times) == Recent(times, times[|times| - 1])
    ensures IsLastHour(Window(times), times)
  {
    hide Recent, Window;
    WindowIsSuffix(times);
    RecentIsSuffix(times, times[|times| - 1]);
    var last := times[|times| - 1];
    assert Cut(times, last) < |times|;
  }

  /** At least n errors are in the window exactly if the last n of the history span at most an hour. */
  lemma WindowReaches(times: seq<real>, n: nat)
    requires IsSorted(times) && n > 0
    ensures |Window(times)| >= n <==> |times| >= n && times[|times| - 1] - times[|times| - n] <= HOUR
  {
    if times != [] {
      WindowIsSuffix(times);
      var t := times[|times| - 1];
      var c := Cut(times, t);
      if |times| >= n {
        assert c <= |times| - n ==> times[c] <= times[|times| - n];
      }
    }
  }

  /** Ten errors within a closed hour, the last of them at index n. */
  predicate TooMany(times: seq<real>, n: nat)
    requires n < |times|
  {
    n + 1 >= 10 && times[n] - times[n + 1 - 10] <= 3600.0
  }

  lemma StopCondition(times: seq<real>, n: nat)
    requires IsSorted(times) && n < |times|
    ensures |Window(times[..n + 1])| >= 10 <==> TooMany(times, n)
  {
    WindowReaches(times[..n + 1], 10);
  }

  /** Some closed hour holds ten of the first n + 1 errors exactly if one of them was the tenth within an hour. */
  lemma AnyHour(times: seq<real>, n: nat)
    requires IsSorted(times) && n < |times|
    ensures (exists m | 0 <= m <= n :: TooMany(times, m))
        <==> (exists i, j | 0 <= i && i + 9 <= j <= n :: times[j] - times[i] <= 3600.0)
  {
    if m :| 0 <= m <= n && TooMany(times, m) {
      assert times[m] - times[m - 9] <= 3600.0;
    }
    if i, j :| 0 <= i && i + 9 <= j <= n && times[j] - times[i] <= 3600.0 {
      assert times[i] <= times[j - 9];
      assert TooMany(times, j);
    }
  }

  class Receiver {
    var opErrs: seq<real>

    constructor ()
      ensures opErrs == []
    {
      opErrs := [];
    }

    /** The handler of a CAN operation error. */
    method OnError(errTime: real) returns (stop: bool)
      modifies this
      ensures opErrs == Recent(old(opErrs), errTime) + [errTime]
      ensures stop <==> |opErrs| >= 10
    {
      opErrs := Recent(opErrs, errTime) + [errTime];
      stop := |opErrs| >= MAX_ERRORS_PER_HOUR;
    }

    /**
     * The receive loop, seen from its errors: it stops exactly at the first error that is the tenth within a
     * closed hour, and until then keeps at most nine errors.
     */
    method Run(times: seq<real>) returns (stop: Option<nat>)
      requires opErrs == [] && IsSorted(times)
      modifies this
      ensures stop.None? ==> forall n | 0 <= n < |times| :: !TooMany(times, n)
      ensures stop.Some? ==>
                && stop.value < |times|
                && TooMany(times, stop.value)
                && forall n | 0 <= n < stop.value :: !TooMany(times, n)
      ensures |opErrs| <= 10
      ensures times != [] ==> IsLastHour(opErrs, times[..if stop.Some? then stop.value + 1 else |times|])
    {
      hide Recent, Window, TooMany, IsLastHour;
      NoErrors();
      for n := 0 to |times|
        invariant opErrs == Window(times[..n]) && |opErrs| < 10
        invariant forall m | 0 <= m < n :: !TooMany(times, m)
        invariant n > 0 ==> IsLastHour(opErrs, times[..n])
      {
        RecentShrinks(opErrs, times[n]);
        WindowNext(times, n);
        StopCondition(times, n);
        WindowIsLastHour(times[..n + 1]);
        var tooMany := OnError(times[n]);
        if tooMany { return Some(n); }
      }
      stop := None;
    }
  }

  lemma NoErrors()
    ensures Window([]) == []
  {
  }

  lemma WindowNext(times: seq<real>, n: nat)
    requires n < |times|
    ensures Window(times[..n + 1]) == Recent(Window(times[..n]), times[n]) + [times[n]]
  {
    assert times[..n + 1][..n] == times[..n];
  }

  lemma {:induction false} RecentShrinks(errors: seq<real>, t: real)
    ensures |Recent(errors, t)| <= |errors|
  {
    if errors != [] { RecentShrinks(errors[1..], t); }
  }
}
