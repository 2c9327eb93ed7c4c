/**
 The funnel query: the earliest time each entity reaches each step, and the rates the
 report computes from the step counts.
 */
module Funnel {
  import opened Wrappers

  /** One event of an entity: when it happened, in microseconds, and which steps' conditions it meets. */
  datatype Hit = Hit(at: int, fits: set<nat>)

  const MINUTE := 60 * 1000000

  function Least(a: Option<int>, b: int): Option<int> {
    if a.None? || b < a.value then Some(b) else a
  }

  /** min(event_timestamp) over the events that meet a step at or after from and, when bounded, by until. */
  function Earliest(h: seq<Hit>, step: nat, from: Option<int>, until: Option<int>): (r: Option<int>)
    ensures r.Some? ==> exists i :: 0 <= i < |h| && h[i].at == r.value && Eligible(h[i], step, from, until)
    ensures forall i :: 0 <= i < |h| && Eligible(h[i], step, from, until) ==> r.Some? && r.value <= h[i].at
  {
    if h == [] then None
    else
      var init, last := h[..|h| - 1], h[|h| - 1];
      var best := Earliest(init, step, from, until);
      assert forall i :: 0 <= i < |init| ==> init[i] == h[i];
      if Eligible(last, step, from, until) then Least(best, last.at) else best
  }

  predicate Eligible(e: Hit, step: nat, from: Option<int>, until: Option<int>) {
    step in e.fits && (from.Some? ==> from.value <= e.at) && (until.Some? ==> e.at <= until.value)
  }

  /**
   The query of step k (counted from zero) for one entity: None when the entity is not in it, or
   in it with a NULL time.
   */
  function Reached(h: seq<Hit>, k: nat, within: int): Option<int> {
    if k == 0 then Earliest(h, 0, None, None)
    else
      match Reached(h, k - 1, within)
      case None => None
      case Some(t) => Earliest(h, k, Some(t), if within > 0 then Some(t + within * MINUTE) else None)
  }

  /** The open mode: every step on its own, whenever it was met first. */
  function ReachedOpen(h: seq<Hit>, k: nat): (r: Option<int>)
    ensures r.Some? <==> exists i :: 0 <= i < |h| && k in h[i].fits
    ensures forall i :: 0 <= i < |h| && k in h[i].fits ==> r.value <= h[i].at
    ensures r.Some? ==> exists i :: 0 <= i < |h| && k in h[i].fits && h[i].at == r.value
  {
    assert forall i :: 0 <= i < |h| ==> (Eligible(h[i], k, None, None) <==> k in h[i].fits);
    Earliest(h, k, None, None)
  }

  /**
   A choice of events for steps 0..|c|-1, in time order, each within the window of the one
   before. One event may serve several steps.
   */
  ghost predicate Chain(h: seq<Hit>, c: seq<nat>, within: int) {
    && (forall j :: 0 <= j < |c| ==> c[j] < |h| && j in h[c[j]].fits)
    && (forall j :: 0 < j < |c| ==> h[c[j - 1]].at <= h[c[j]].at)
    && (within > 0 ==> forall j :: 0 < j < |c| ==> h[c[j]].at <= h[c[j - 1]].at + within * MINUTE)
  }

  lemma ChainExtended(h: seq<Hit>, c: seq<nat>, within: int, i: nat)
    requires Chain(h, c, within) && i < |h| && |c| in h[i].fits
    requires |c| > 0 ==> h[c[|c| - 1]].at <= h[i].at && (within > 0 ==> h[i].at <= h[c[|c| - 1]].at + within * MINUTE)
    ensures Chain(h, c + [i], within)
  {
    assert forall j :: 0 <= j < |c| ==> (c + [i])[j] == c[j];
  }

  /** Whoever is counted at a step has a chain of events that ends at the recorded time. */
  lemma {:induction false} ReachedHasChain(h: seq<Hit>, k: nat, within: int) returns (c: seq<nat>)
    requires Reached(h, k, within).Some?
    ensures |c| == k + 1 && Chain(h, c, within) && h[c[k]].at == Reached(h, k, within).value
  {
    hide Earliest, Chain;
    if k == 0 {
      var i :| 0 <= i < |h| && h[i].at == Reached(h, 0, within).value && Eligible(h[i], 0, None, None);
      assert Chain(h, [], within) by { EmptyChain(h, within); }
      ChainExtended(h, [], within, i);
      c := [] + [i];
    } else {
      c := ReachedHasChain(h, k - 1, within);
      var t := Reached(h, k - 1, within).value;
      var until := if within > 0 then Some(t + within * MINUTE) else None;
      var i :| 0 <= i < |h| && h[i].at == Reached(h, k, within).value && Eligible(h[i], k, Some(t), until);
      ChainExtended(h, c, within, i);
      c := c + [i];
    }
  }

  lemma EmptyChain(h: seq<Hit>, within: int)
    ensures Chain(h, [], within)
  {
  }

  lemma ChainEnd(h: seq<Hit>, c: seq<nat>, within: int)
    requires Chain(h, c, within) && |c| > 0
    ensures c[|c| - 1] < |h| && |c| - 1 in h[c[|c| - 1]].fits
    ensures |c| > 1 ==> c[|c| - 2] < |h| && h[c[|c| - 2]].at <= h[c[|c| - 1]].at
  {
  }

  lemma ChainPrefix(h: seq<Hit>, c: seq<nat>, within: int)
    requires Chain(h, c, within) && |c| > 0
    ensures Chain(h, c[..|c| - 1], within)
  {
    var init := c[..|c| - 1];
    assert forall j :: 0 <= j < |init| ==> init[j] == c[j];
  }

  /** Without a window the greedy earliest match finds a chain whenever there is one, and no chain ends earlier. */
  lemma {:induction false} GreedyIsEarliest(h: seq<Hit>, c: seq<nat>, within: int)
    requires within <= 0 && Chain(h, c, within) && |c| > 0
    ensures c[|c| - 1] < |h|
    ensures Reached(h, |c| - 1, within).Some? && Reached(h, |c| - 1, within).value <= h[c[|c| - 1]].at
  {
    hide Earliest, Chain;
    ChainEnd(h, c, within);
    var k := |c| - 1;
    var last := h[c[k]];
    if k == 0 {
      assert Eligible(last, 0, None, None);
    } else {
      ChainPrefix(h, c, within);
      GreedyIsEarliest(h, c[..k], within);
      assert c[..k][k - 1] == c[k - 1];
      assert Eligible(last, k, Reached(h, k - 1, within), None);
    }
  }

  /**
   The closed funnel without a window: an entity reaches a step exactly when some time-ordered
   choice of its events does.
   */
  lemma ReachedExactly(h: seq<Hit>, k: nat, within: int)
    requires within <= 0
    ensures Reached(h, k, within).Some? <==> exists c: seq<nat> :: |c| == k + 1 && Chain(h, c, within)
    ensures forall c: seq<nat> :: |c| == k + 1 && Chain(h, c, within) ==> Reached(h, k, within).value <= h[c[k]].at
  {
    if Reached(h, k, within).Some? {
      var c := ReachedHasChain(h, k, within);
    }
    forall c: seq<nat> | |c| == k + 1 && Chain(h, c, within)
      ensures Reached(h, k, within).Some? && Reached(h, k, within).value <= h[c[k]].at
    {
      GreedyIsEarliest(h, c, within);
    }
  }

  // ---- Which chain the query follows ----------------------------------------------------------

  /** Event e may follow a step met at from: no earlier and, with a window of minutes, not too late. */
  predicate Follows(e: Hit, from: Option<int>, within: int) {
    from.Some? ==> from.value <= e.at && (within > 0 ==> e.at <= from.value + within * 60_000_000)
  }

  /** t is the time of the first event that meets step j and follows. */
  ghost predicate FirstAfter(h: seq<Hit>, j: nat, from: Option<int>, within: int, t: int) {
    && (exists i :: 0 <= i < |h| && j in h[i].fits && Follows(h[i], from, within) && h[i].at == t)
    && (forall i :: 0 <= i < |h| && j in h[i].fits && Follows(h[i], from, within) ==> t <= h[i].at)
  }

  function Prior(times: seq<int>, j: nat): Option<int>
    requires j <= |times|
  {
    if j == 0 then None else Some(times[j - 1])
  }

  /** The times of the greedy chain: every step at the first event that meets it and follows the one before. */
  ghost predicate Greedy(h: seq<Hit>, times: seq<int>, within: int) {
    forall j :: 0 <= j < |times| ==> FirstAfter(h, j, Prior(times, j), within, times[j])
  }

  lemma EarliestIsFirst(h: seq<Hit>, j: nat, from: Option<int>, within: int, t: int)
    ensures var until := if from.Some? && within > 0 then Some(from.value + within * MINUTE) else None;
            Earliest(h, j, from, until) == Some(t) <==> FirstAfter(h, j, from, within, t)
  {
    hide Earliest;
    var until := if from.Some? && within > 0 then Some(from.value + within * MINUTE) else None;
    assert forall i :: 0 <= i < |h| ==>
        (Eligible(h[i], j, from, until) <==> j in h[i].fits && Follows(h[i], from, within));
  }

  /** Windowed or not, an entity reaches a step exactly when the greedy chain does, and at its time. */
  lemma ReachedIsGreedy(h: seq<Hit>, k: nat, within: int, t: int)
    ensures Reached(h, k, within) == Some(t) <==>
            exists times: seq<int> :: |times| == k + 1 && Greedy(h, times, within) && times[k] == t
  {
    if Reached(h, k, within) == Some(t) {
      var times := GreedyTimes(h, k, within);
    }
    forall times: seq<int> | |times| == k + 1 && Greedy(h, times, within)
      ensures Reached(h, k, within) == Some(times[k])
    {
      GreedyReached(h, times, within);
    }
  }

  lemma GreedyExtended(h: seq<Hit>, before: seq<int>, within: int, t: int)
    requires Greedy(h, before, within) && FirstAfter(h, |before|, Prior(before, |before|), within, t)
    ensures Greedy(h, before + [t], within)
  {
    hide FirstAfter;
    var times := before + [t];
    forall j | 0 <= j < |times|
      ensures FirstAfter(h, j, Prior(times, j), within, times[j])
    {
      assert Prior(times, j) == Prior(before, j);
    }
  }

  lemma {:induction false} GreedyTimes(h: seq<Hit>, k: nat, within: int) returns (times: seq<int>)
    requires Reached(h, k, within).Some?
    ensures |times| == k + 1 && Greedy(h, times, within) && times[k] == Reached(h, k, within).value
  {
    hide Earliest, FirstAfter, Greedy;
    var t := Reached(h, k, within).value;
    if k == 0 {
      EarliestIsFirst(h, 0, None, within, t);
      GreedyNone(h, within);
      times := [] + [t];
      GreedyExtended(h, [], within, t);
    } else {
      var before := GreedyTimes(h, k - 1, within);
      times := before + [t];
      EarliestIsFirst(h, k, Some(before[k - 1]), within, t);
      GreedyExtended(h, before, within, t);
    }
  }

  lemma GreedyNone(h: seq<Hit>, within: int)
    ensures Greedy(h, [], within)
  {
  }

  lemma {:induction false} GreedyReached(h: seq<Hit>, times: seq<int>, within: int)
    requires |times| > 0 && Greedy(h, times, within)
    ensures Reached(h, |times| - 1, within) == Some(times[|times| - 1])
  {
    hide Earliest, FirstAfter;
    var k := |times| - 1;
    if k == 0 {
      EarliestIsFirst(h, 0, None, within, times[0]);
    } else {
      var before := times[..k];
      forall j | 0 <= j < k
        ensures FirstAfter(h, j, Prior(before, j), within, before[j])
      {
        assert before[j] == times[j] && Prior(before, j) == Prior(times, j);
      }
      GreedyReached(h, before, within);
      EarliestIsFirst(h, k, Some(times[k - 1]), within, times[k]);
    }
  }

  // ---- With a window --------------------------------------------------------------------------

  /** The funnel of n steps counts everyone it should: whoever has a chain of events is counted at its last step. */
  ghost predicate Complete(n: nat, within: int)
    requires n > 0
  {
    forall h: seq<Hit>, c: seq<nat> :: |c| == n && Chain(h, c, within) ==> Reached(h, n - 1, within).Some?
  }

  /** Steps 1 to n - 1. */
  function Later(n: nat): (r: set<nat>)
    ensures forall j: nat :: j in r <==> 0 < j < n
  {
    if n <= 1 then {} else Later(n - 1) + {n - 1}
  }

  /** Two entries into the first step: the earlier one too early for the rest, the later one in time. */
  function LateStart(n: nat, within: int): seq<Hit> {
    [Hit(0, {0}), Hit(within * MINUTE + 1, {0}), Hit(within * MINUTE + 2, Later(n))]
  }

  lemma {:induction false} LateStartMissed(n: nat, within: int, k: nat)
    requires within > 0 && 0 < k < n
    ensures Reached(LateStart(n, within), k, within).None?
  {
    var h := LateStart(n, within);
    if k == 1 {
      assert Eligible(h[0], 0, None, None);
      assert Reached(h, 0, within) == Some(0);
    } else {
      LateStartMissed(n, within, k - 1);
    }
  }

  /** The greedy match is complete exactly without a window, or for a funnel of one step. */
  lemma CompleteExactly(n: nat, within: int)
    requires n > 0
    ensures Complete(n, within) <==> within <= 0 || n == 1
  {
    if within <= 0 || n == 1 {
      forall h: seq<Hit>, c: seq<nat> | |c| == n && Chain(h, c, within)
        ensures Reached(h, n - 1, within).Some?
      {
        if within <= 0 {
          GreedyIsEarliest(h, c, within);
        } else {
          assert Eligible(h[c[0]], 0, None, None);
        }
      }
    } else {
      var h := LateStart(n, within);
      var c := seq(n, j => if j == 0 then 1 else 2);
      assert Chain(h, c, within);
      LateStartMissed(n, within, n - 1);
    }
  }

  // ---- Counts and rates ---------------------------------------------------------------------------

  /** count(t) of a step's query, over the histories of all entities: how many reach the step. */
  function Users(hs: seq<seq<Hit>>, k: nat, within: int): nat {
    |set i: nat | i < |hs| && Reached(hs[i], k, within).Some?|
  }

  lemma {:induction false} SmallerSet(a: set<nat>, b: set<nat>)
    requires a <= b
    ensures |a| <= |b|
  {
    if a != {} {
      var x :| x in a;
      SmallerSet(a - {x}, b - {x});
    }
  }

  /** A closed funnel never widens, windowed or not. */
  lemma NeverWidens(hs: seq<seq<Hit>>, k: nat, within: int)
    ensures Users(hs, k + 1, within) <= Users(hs, k, within)
  {
    SmallerSet(set i: nat | i < |hs| && Reached(hs[i], k + 1, within).Some?,
               set i: nat | i < |hs| && Reached(hs[i], k, within).Some?);
  }

  /** A window only loses entities. */
  lemma {:induction false} WindowOnlyLoses(h: seq<Hit>, k: nat, within: int)
    requires within > 0 && Reached(h, k, within).Some?
    ensures Reached(h, k, 0).Some? && Reached(h, k, 0).value <= Reached(h, k, within).value
  {
    var c := ReachedHasChain(h, k, within);
    assert Chain(h, c, 0);
    GreedyIsEarliest(h, c, 0);
  }

  /** The open mode's count of a step. */
  function OpenUsers(hs: seq<seq<Hit>>, k: nat): nat {
    |set i: nat | i < |hs| && ReachedOpen(hs[i], k).Some?|
  }

  /** Whoever the closed mode counts at a step the open mode counts too, and no later. */
  lemma OpenReachesToo(h: seq<Hit>, k: nat, within: int)
    requires Reached(h, k, within).Some?
    ensures ReachedOpen(h, k).Some? && ReachedOpen(h, k).value <= Reached(h, k, within).value
  {
    var c := ReachedHasChain(h, k, within);
    assert Eligible(h[c[k]], k, None, None);
  }

  /** An open funnel is at least as wide as the closed one at every step, and as wide at the first. */
  lemma OpenIsWider(hs: seq<seq<Hit>>, k: nat, within: int)
    ensures Users(hs, k, within) <= OpenUsers(hs, k) && Users(hs, 0, within) == OpenUsers(hs, 0)
  {
    forall i | 0 <= i < |hs| && Reached(hs[i], k, within).Some?
      ensures ReachedOpen(hs[i], k).Some?
    {
      OpenReachesToo(hs[i], k, within);
    }
    SmallerSet(set i: nat | i < |hs| && Reached(hs[i], k, within).Some?,
               set i: nat | i < |hs| && ReachedOpen(hs[i], k).Some?);
    assert (set i: nat | i < |hs| && Reached(hs[i], 0, within).Some?) ==
           (set i: nat | i < |hs| && ReachedOpen(hs[i], 0).Some?);
  }

  datatype StepRow = StepRow(users: nat, stepRate: real, overallRate: real)

  function Rate(users: nat, base: nat): real {
    if base == 0 then 0.0 else users as real * 100.0 / base as real
  }

  /** Rate is the share of part in whole, in percent, and zero when the whole is. */
  ghost predicate IsShare(rate: real, part: nat, whole: nat) {
    if whole == 0 then rate == 0.0 else rate * whole as real == 100.0 * part as real
  }

  /** The step rate of a row is its share of the row before it, the overall rate that of the first row. */
  ghost predicate RateRows(counts: seq<nat>, out: seq<StepRow>) {
    && |out| == |counts|
    && (forall i :: 0 <= i < |out| ==> out[i].users == counts[i])
    && (forall i :: 0 <= i < |out| ==> IsShare(out[i].stepRate, counts[i], counts[if i == 0 then 0 else i - 1]))
    && (forall i :: 0 <= i < |out| ==> IsShare(out[i].overallRate, counts[i], counts[0]))
  }

  /** The scan over the result rows, carrying the first count and the previous one. */
  method ScanRates(counts: seq<nat>) returns (out: seq<StepRow>)
    ensures RateRows(counts, out)
  {
    hide Rate;
    out := [];
    var first := 0;
    for i := 0 to |counts|
      invariant |out| == i && (i > 0 ==> first == counts[0])
      invariant RateRows(counts[..i], out)
    {
      if i == 0 {
        first := counts[i];
      }
      var previous := first;
      if |out| > 0 {
        previous := out[|out| - 1].users;
      }
      RowAdded(counts, i, out);
      out := out + [StepRow(counts[i], Rate(counts[i], previous), Rate(counts[i], first))];
    }
    assert counts[..|counts|] == counts;
  }

  lemma RateIsShare(users: nat, base: nat)
    ensures IsShare(Rate(users, base), users, base)
  {
  }

  lemma RowAdded(counts: seq<nat>, i: nat, out: seq<StepRow>)
    requires i < |counts| && RateRows(counts[..i], out)
    ensures var previous := counts[if i == 0 then 0 else i - 1];
            RateRows(counts[..i + 1], out + [StepRow(counts[i], Rate(counts[i], previous), Rate(counts[i], counts[0]))])
  {
    hide Rate, IsShare;
    RateIsShare(counts[i], counts[if i == 0 then 0 else i - 1]);
    RateIsShare(counts[i], counts[0]);
  }

  /** The step counts of a closed funnel of n steps. */
  function ClosedCounts(hs: seq<seq<Hit>>, n: nat, within: int): (r: seq<nat>)
    ensures |r| == n && forall k :: 0 <= k < n ==> r[k] == Users(hs, k, within)
  {
    seq(n, k requires 0 <= k < n => Users(hs, k, within))
  }

  /** In a closed funnel every rate lies between 0 and 100, and the step rates multiply up to the overall rate. */
  lemma ClosedRates(hs: seq<seq<Hit>>, n: nat, within: int, out: seq<StepRow>)
    requires RateRows(ClosedCounts(hs, n, within), out)
    ensures forall i :: 0 <= i < n ==> 0.0 <= out[i].stepRate <= 100.0 && 0.0 <= out[i].overallRate <= 100.0
    ensures forall i :: 0 < i < n ==> 100.0 * out[i].overallRate == out[i].stepRate * out[i - 1].overallRate
  {
    hide Users, IsShare;
    var counts := ClosedCounts(hs, n, within);
    forall i | 0 <= i < n
      ensures 0.0 <= out[i].stepRate <= 100.0 && 0.0 <= out[i].overallRate <= 100.0
      ensures i > 0 ==> 100.0 * out[i].overallRate == out[i].stepRate * out[i - 1].overallRate
    {
      FirstIsWidest(hs, i, within);
      ShareBounded(out[i].overallRate, counts[i], counts[0]);
      if i == 0 {
        ShareBounded(out[0].stepRate, counts[0], counts[0]);
      } else {
        NeverWidens(hs, i - 1, within);
        FirstIsWidest(hs, i - 1, within);
        ShareBounded(out[i].stepRate, counts[i], counts[i - 1]);
        SharesChain(out[i].overallRate, out[i].stepRate, out[i - 1].overallRate, counts[i], counts[i - 1], counts[0]);
      }
    }
  }

  lemma ShareBounded(rate: real, part: nat, whole: nat)
    requires part <= whole && IsShare(rate, part, whole)
    ensures 0.0 <= rate <= 100.0
  {
    if whole > 0 {
      Compared(rate, 0.0, whole as real);
      Compared(100.0, rate, whole as real);
    }
  }

  lemma Compared(a: real, b: real, z: real)
    requires z > 0.0 && a * z >= b * z
    ensures a >= b
  {
    assert (a - b) * z >= 0.0;
  }

  lemma SharesChain(overall: real, step: real, before: real, x: nat, y: nat, z: nat)
    requires x <= y <= z
    requires IsShare(overall, x, z) && IsShare(step, x, y) && IsShare(before, y, z)
    ensures 100.0 * overall == step * before
  {
    if y > 0 {
      Chained(overall, step, before, x as real, y as real, z as real);
    } else if z > 0 {
      Divided(overall, 0.0, z as real);
    }
  }

  lemma Chained(overall: real, step: real, before: real, x: real, y: real, z: real)
    requires y > 0.0 && z > 0.0
    requires overall * z == 100.0 * x && step * y == 100.0 * x && before * z == 100.0 * y
    ensures 100.0 * overall == step * before
  {
    calc {
      step * before * z;
      step * (before * z);
      step * (100.0 * y);
      100.0 * (step * y);
      100.0 * (overall * z);
      100.0 * overall * z;
    }
    Divided(100.0 * overall, step * before, z);
  }

  lemma Divided(a: real, b: real, z: real)
    requires z > 0.0 && a * z == b * z
    ensures a == b
  {
    assert (a - b) * z == 0.0;
  }

  lemma {:induction false} FirstIsWidest(hs: seq<seq<Hit>>, k: nat, within: int)
    ensures Users(hs, k, within) <= Users(hs, 0, within)
  {
    if k > 0 {
      FirstIsWidest(hs, k - 1, within);
      NeverWidens(hs, k - 1, within);
    }
  }
}
