/**
 Anomaly detection: the history a day is compared with, its median and spread, and the
 verdict. Arithmetic is over the reals.
 */
module Baseline {
  import opened Wrappers
  import Seqs

  // ---- Median -------------------------------------------------------------------------------

  function Insert(x: real, s: seq<real>): seq<real> {
    if s == [] || x <= s[0] then [x] + s else [s[0]] + Insert(x, s[1..])
  }

  function Sorted(values: seq<real>): seq<real> {
    if values == [] then [] else Insert(values[0], Sorted(values[1..]))
  }

  predicate Ascending(s: seq<real>) {
    forall i, j :: 0 <= i < j < |s| ==> s[i] <= s[j]
  }

  /** How many values satisfy p. */
  function Count(s: seq<real>, p: real -> bool): nat {
    if s == [] then 0 else (if p(s[0]) then 1 else 0) + Count(s[1..], p)
  }

  lemma {:induction false} InsertCounts(x: real, s: seq<real>, p: real -> bool)
    ensures |Insert(x, s)| == |s| + 1 && Count(Insert(x, s), p) == Count(s, p) + if p(x) then 1 else 0
    ensures multiset(Insert(x, s)) == multiset(s) + multiset{x}
    ensures Insert(x, s)[0] == x || (s != [] && Insert(x, s)[0] == s[0])
  {
    if s == [] || x <= s[0] {
      assert ([x] + s)[1..] == s;
    } else {
      InsertCounts(x, s[1..], p);
      var r := Insert(x, s[1..]);
      assert ([s[0]] + r)[1..] == r;
      assert s == [s[0]] + s[1..];
    }
  }

  lemma {:induction false} InsertAscending(x: real, s: seq<real>)
    requires Ascending(s)
    ensures Ascending(Insert(x, s))
  {
    if s != [] && x > s[0] {
      InsertAscending(x, s[1..]);
      InsertCounts(x, s[1..], y => true);
    }
  }

  /** Sorting arranges the same values in ascending order. */
  lemma {:induction false} SortedIs(values: seq<real>, p: real -> bool)
    ensures Ascending(Sorted(values)) && |Sorted(values)| == |values|
    ensures multiset(Sorted(values)) == multiset(values) && Count(Sorted(values), p) == Count(values, p)
  {
    if values != [] {
      SortedIs(values[1..], p);
      InsertAscending(values[0], Sorted(values[1..]));
      InsertCounts(values[0], Sorted(values[1..]), p);
      assert values == [values[0]] + values[1..];
    }
  }

  function Median(values: seq<real>): real {
    if values == [] then 0.0
    else
      var s := Sorted(values);
      SortedIs(values, x => true);
      var middle := |s| / 2;
      if |s| % 2 == 1 then s[middle] else (s[middle - 1] + s[middle]) / 2.0
  }

  /** An ascending arrangement is determined by the values in it. */
  lemma {:induction false} AscendingUnique(a: seq<real>, b: seq<real>)
    requires Ascending(a) && Ascending(b) && multiset(a) == multiset(b)
    ensures a == b
  {
    hide Ascending;
    Seqs.SameLength(a, b);
    if a != [] {
      Seqs.SameElements(a, b);
      assert b[0] in b && a[0] in a;
      LeastFirst(a, b[0]);
      LeastFirst(b, a[0]);
      SameTail(a, b);
      AscendingUnique(a[1..], b[1..]);
      assert a == [a[0]] + a[1..] && b == [b[0]] + b[1..];
    }
  }

  lemma SameTail(a: seq<real>, b: seq<real>)
    requires a != [] && b != [] && a[0] == b[0] && multiset(a) == multiset(b)
    ensures multiset(a[1..]) == multiset(b[1..])
  {
    assert a == [a[0]] + a[1..] && b == [b[0]] + b[1..];
    Seqs.Cancel(a[0], multiset(a[1..]), multiset(b[1..]));
  }

  lemma LeastFirst(s: seq<real>, x: real)
    requires Ascending(s) && x in s
    ensures s[0] <= x && Ascending(s[1..])
  {
  }

  /** The median does not depend on the order of the values. */
  lemma MedianIgnoresOrder(a: seq<real>, b: seq<real>)
    requires multiset(a) == multiset(b)
    ensures Median(a) == Median(b)
  {
    assert |multiset(a)| == |a| && |multiset(b)| == |b|;
    SortedIs(a, x => true);
    SortedIs(b, x => true);
    AscendingUnique(Sorted(a), Sorted(b));
  }

  /** The value in the middle of any ascending arrangement, or halfway between the two in the middle. */
  lemma MedianIsMiddle(values: seq<real>, s: seq<real>)
    requires Ascending(s) && multiset(s) == multiset(values) && s != []
    ensures |s| % 2 == 1 ==> Median(values) == s[|s| / 2]
    ensures |s| % 2 == 0 ==> 2.0 * Median(values) == s[|s| / 2 - 1] + s[|s| / 2]
  {
    Seqs.SameLength(s, values);
    SortedIs(values, x => true);
    AscendingUnique(Sorted(values), s);
  }

  // ---- Robustness -----------------------------------------------------------------------------

  lemma {:induction false} CountTail(s: seq<real>, k: nat, p: real -> bool)
    requires k <= |s| && forall i :: k <= i < |s| ==> p(s[i])
    ensures Count(s, p) >= |s| - k
  {
    if s != [] {
      CountTail(s[1..], if k == 0 then 0 else k - 1, p);
    }
  }

  lemma {:induction false} CountHead(s: seq<real>, k: nat, p: real -> bool)
    requires k <= |s| && forall i :: 0 <= i < k ==> p(s[i])
    ensures Count(s, p) >= k
  {
    if k > 0 {
      CountHead(s[1..], k - 1, p);
    }
  }

  /** The number of positions at which two series differ. */
  function Changed(a: seq<real>, b: seq<real>): nat
    requires |a| == |b|
  {
    if a == [] then 0 else (if a[0] == b[0] then 0 else 1) + Changed(a[1..], b[1..])
  }

  /** Values that satisfy p where no untouched value does were all changed. */
  lemma {:induction false} OnlyChanged(a: seq<real>, b: seq<real>, p: real -> bool)
    requires |a| == |b| && forall i :: 0 <= i < |a| && a[i] == b[i] ==> !p(a[i])
    ensures Count(b, p) <= Changed(a, b)
  {
    if a != [] {
      OnlyChanged(a[1..], b[1..], p);
    }
  }

  /** Replacing fewer than half of the values leaves the median between two of the untouched ones. */
  lemma MedianResistsOutliers(a: seq<real>, b: seq<real>)
    requires |a| == |b| > 0 && 2 * Changed(a, b) < |a|
    ensures exists i :: 0 <= i < |a| && a[i] == b[i] && a[i] <= Median(b)
    ensures exists i :: 0 <= i < |a| && a[i] == b[i] && Median(b) <= a[i]
  {
    hide Sorted, Count, Changed;
    var m, n, middle := Median(b), |b|, |b| / 2;
    var s := Sorted(b);
    var atLeast, atMost := (x: real) => m <= x, (x: real) => x <= m;
    SortedIs(b, atLeast);
    SortedIs(b, atMost);
    CountTail(s, middle, atLeast);
    CountHead(s, (n + 1) / 2, atMost);
    if forall i :: 0 <= i < |a| && a[i] == b[i] ==> !atMost(a[i]) {
      OnlyChanged(a, b, atMost);
    }
    if forall i :: 0 <= i < |a| && a[i] == b[i] ==> !atLeast(a[i]) {
      OnlyChanged(a, b, atLeast);
    }
  }

  /** So it stays inside any range that holds the untouched values. */
  lemma MedianStaysInRange(a: seq<real>, b: seq<real>, low: real, high: real)
    requires |a| == |b| > 0 && 2 * Changed(a, b) < |a|
    requires forall i :: 0 <= i < |a| && a[i] == b[i] ==> low <= a[i] <= high
    ensures low <= Median(b) <= high
  {
    MedianResistsOutliers(a, b);
  }

  // ---- The baseline of a day ---------------------------------------------------------------------

  /** One day's value; days are numbered, and a week is seven of them. */
  datatype Point = Point(day: int, value: real)

  datatype Kind = SameWeekday | RecentDays

  const MINIMUM_SAMPLES := 3
  const LOOKBACK_WEEKS := 8
  const FALLBACK_DAYS := 28

  predicate Weekly(p: Point, target: int) {
    p.day < target && (target - p.day) % 7 == 0 && target - p.day <= 56
  }

  predicate Recent(p: Point, target: int) {
    p.day < target && target - p.day <= 28
  }

  /** The values of the points that p keeps, in series order. */
  function Kept(series: seq<Point>, p: Point -> bool): seq<real> {
    if series == [] then []
    else Kept(series[..|series| - 1], p) + if p(series[|series| - 1]) then [series[|series| - 1].value] else []
  }

  function WeeklyValues(series: seq<Point>, target: int): seq<real> {
    Kept(series, p => Weekly(p, target))
  }

  function RecentValues(series: seq<Point>, target: int): seq<real> {
    Kept(series, p => Recent(p, target))
  }

  lemma KeptAppend(series: seq<Point>, x: Point, p: Point -> bool)
    ensures Kept(series + [x], p) == Kept(series, p) + if p(x) then [x.value] else []
  {
    assert (series + [x])[..|series|] == series;
  }

  /** The same weekday first; recent days only when there are too few of them. */
  method BaselineFor(series: seq<Point>, target: int) returns (values: seq<real>, kind: Kind)
    ensures kind == if |WeeklyValues(series, target)| >= 3 then SameWeekday else RecentDays
    ensures values == if kind == SameWeekday then WeeklyValues(series, target) else RecentValues(series, target)
  {
    var sameWeekday: seq<real>, recent: seq<real> := [], [];
    for i := 0 to |series|
      invariant sameWeekday == WeeklyValues(series[..i], target) && recent == RecentValues(series[..i], target)
    {
      assert series[..i + 1] == series[..i] + [series[i]];
      KeptAppend(series[..i], series[i], p => Weekly(p, target));
      KeptAppend(series[..i], series[i], p => Recent(p, target));
      var point := series[i];
      if point.day >= target {
        continue;
      }
      var age := target - point.day;
      if point.day % 7 == target % 7 && age <= LOOKBACK_WEEKS * 7 {
        sameWeekday := sameWeekday + [point.value];
      }
      if age <= FALLBACK_DAYS {
        recent := recent + [point.value];
      }
    }
    assert series[..|series|] == series;
    if |sameWeekday| >= MINIMUM_SAMPLES {
      return sameWeekday, SameWeekday;
    }
    return recent, RecentDays;
  }

  // ---- The verdict ------------------------------------------------------------------------------------

  function Abs(x: real): real {
    if x < 0.0 then -x else x
  }

  function Max(a: real, b: real): real {
    if a >= b then a else b
  }

  function Deviations(values: seq<real>, center: real): (r: seq<real>)
    ensures |r| == |values| && forall i :: 0 <= i < |values| ==> r[i] == Abs(values[i] - center)
  {
    seq(|values|, i requires 0 <= i < |values| => Abs(values[i] - center))
  }

  /** The median absolute deviation, scaled to compare with a standard deviation. */
  function Spread(values: seq<real>, center: real): real {
    Median(Deviations(values, center)) * 1.4826
  }

  /** 1.4826 times the middle of any ascending arrangement of the distances from the center. */
  lemma SpreadIsScaledMiddle(values: seq<real>, center: real, distances: seq<real>, s: seq<real>)
    requires |distances| == |values| > 0
    requires forall i :: 0 <= i < |values| ==>
               distances[i] >= 0.0 && (distances[i] == values[i] - center || distances[i] == center - values[i])
    requires Ascending(s) && multiset(s) == multiset(distances)
    ensures s != []
    ensures |s| % 2 == 1 ==> Spread(values, center) == 1.4826 * s[|s| / 2]
    ensures |s| % 2 == 0 ==> Spread(values, center) == 0.7413 * (s[|s| / 2 - 1] + s[|s| / 2])
  {
    hide Median, Ascending;
    Seqs.SameLength(s, distances);
    assert distances == Deviations(values, center);
    MedianIsMiddle(distances, s);
  }

  function Floor(center: real): real {
    Max(1.0, center * 0.1)
  }

  datatype Severity = Unknown | InsufficientHistory | Critical | Warning | Positive | Normal

  datatype Anomaly = Anomaly(severity: Severity, value: real, baseline: real, deviation: real, robustZ: real,
                             samples: nat)

  function ValueAt(series: seq<Point>, day: int): Option<real> {
    if series == [] then None else if series[0].day == day then Some(series[0].value) else ValueAt(series[1..], day)
  }

  predicate Bad(badWhenHigher: bool, value: real, center: real) {
    if badWhenHigher then value > center else value < center
  }

  /** The verdict stated on the deviation itself: how far the value lies from the median, in units of the spread. */
  function Verdict(badWhenHigher: bool, value: real, center: real, unit: real): Severity {
    var bad := Bad(badWhenHigher, value, center);
    if Abs(value - center) >= 3.5 * unit && bad then Critical
    else if Abs(value - center) >= 2.5 * unit then (if bad then Warning else Positive)
    else Normal
  }

  lemma Scaled(x: real, unit: real, k: real)
    requires unit > 0.0
    ensures Abs(x / unit) >= k <==> Abs(x) >= k * unit
    ensures (x / unit > 0.0 <==> x > 0.0) && (x / unit < 0.0 <==> x < 0.0)
  {
    var z := x / unit;
    assert x == z * unit;
    if z >= 0.0 {
      assert Abs(x) == Abs(z) * unit;
    } else {
      assert -x == (-z) * unit;
      assert Abs(x) == Abs(z) * unit;
    }
    assert Abs(z) >= k ==> Abs(z) * unit >= k * unit;
    assert Abs(z) < k ==> Abs(z) * unit < k * unit;
  }

  /** The grades read off the robust z are those of the deviation itself. */
  lemma Graded(badWhenHigher: bool, value: real, center: real, unit: real)
    requires unit > 0.0
    ensures var z := (value - center) / unit;
            var bad := (badWhenHigher && z > 0.0) || (!badWhenHigher && z < 0.0);
            && z * unit == value - center
            && Verdict(badWhenHigher, value, center, unit)
               == if Abs(z) >= 3.5 && bad then Critical else if Abs(z) >= 2.5 && bad then Warning
                  else if Abs(z) >= 2.5 then Positive else Normal
  {
    Scaled(value - center, unit, 3.5);
    Scaled(value - center, unit, 2.5);
  }

  lemma FloorIsOne(center: real)
    ensures Floor(center) >= 1.0
  {
  }

  predicate IsLargest(m: real, a: real, b: real, c: real) {
    (m == a || m == b || m == c) && m >= a && m >= b && m >= c
  }

  /** What the method reads off the unit and the robust z. */
  lemma UnitAndVerdict(badWhenHigher: bool, value: real, center: real, spread: real)
    ensures var unit := if spread < Floor(center) then Floor(center) else spread;
            && unit > 0.0 && IsLargest(unit, spread, center / 10.0, 1.0)
            && var z := (value - center) / unit;
               var bad := (badWhenHigher && z > 0.0) || (!badWhenHigher && z < 0.0);
               var verdict := Verdict(badWhenHigher, value, center, unit);
               && z * unit == value - center
               && verdict == (if Abs(z) >= 3.5 && bad then Critical else if Abs(z) >= 2.5 && bad then Warning
                              else if Abs(z) >= 2.5 then Positive else Normal)
               && (verdict == Critical ==>
                     Bad(badWhenHigher, value, center) && Abs(value - center) >= 3.5 * Max(1.0, center * 0.1))
  {
    hide Verdict, Bad, Abs;
    var unit := if spread < Floor(center) then Floor(center) else spread;
    FloorIsOne(center);
    LargestOfThree(spread, center);
    Graded(badWhenHigher, value, center, unit);
    if Verdict(badWhenHigher, value, center, unit) == Critical {
      assert unit == Max(spread, Floor(center));
      CriticalIsFar(badWhenHigher, value, center, spread);
    }
  }

  /** DetectAnomaly: one metric on one day against its own history. */
  method DetectAnomaly(badWhenHigher: bool, series: seq<Point>, target: int) returns (r: Anomaly)
    ensures r.severity == Unknown <==> ValueAt(series, target).None?
    ensures r.severity == Unknown ==> r == Anomaly(Unknown, 0.0, 0.0, 0.0, 0.0, 0)
    ensures var weekly, recent := WeeklyValues(series, target), RecentValues(series, target);
            var history := if |weekly| >= 3 then weekly else recent;
            ValueAt(series, target).Some? ==>
              && r.value == ValueAt(series, target).value && r.samples == |history|
              && if |history| < 3 then
                   r == Anomaly(InsufficientHistory, r.value, 0.0, 0.0, 0.0, |history|)
                 else
                   && r.baseline == Median(history)
                   && IsLargest(r.deviation, Spread(history, r.baseline), r.baseline / 10.0, 1.0)
                   && r.robustZ * r.deviation == r.value - r.baseline
                   && r.severity == Verdict(badWhenHigher, r.value, r.baseline, r.deviation)
                   && (r.severity == Critical ==> Bad(badWhenHigher, r.value, r.baseline)
                                                  && Abs(r.value - r.baseline) >= 3.5 * Max(1.0, r.baseline * 0.1))
  {
    hide Median, WeeklyValues, RecentValues, Spread, Verdict, Floor, Bad, IsLargest, ValueAt, Max;
    r := Anomaly(Unknown, 0.0, 0.0, 0.0, 0.0, 0);
    var found := FindValue(series, target);
    if found.None? {
      return;
    }
    var value := found.value;
    r := r.(value := value);
    var history, kind := BaselineFor(series, target);
    r := r.(samples := |history|);
    if |history| < MINIMUM_SAMPLES {
      r := r.(severity := InsufficientHistory);
      return;
    }
    var center := Median(history);
    var spread := Spread(history, center);
    if spread < Floor(center) {
      spread := Floor(center);
    }
    UnitAndVerdict(badWhenHigher, value, center, Spread(history, center));
    var robustZ := (value - center) / spread;
    r := r.(baseline := center, deviation := spread, robustZ := robustZ);
    var magnitude := Abs(robustZ);
    var bad := (badWhenHigher && robustZ > 0.0) || (!badWhenHigher && robustZ < 0.0);
    if magnitude >= 3.5 && bad {
      r := r.(severity := Critical);
    } else if magnitude >= 2.5 && bad {
      r := r.(severity := Warning);
    } else if magnitude >= 2.5 {
      r := r.(severity := Positive);
    } else {
      r := r.(severity := Normal);
    }
  }

  /** The search for the day's value, stopping at the first. */
  method FindValue(series: seq<Point>, day: int) returns (r: Option<real>)
    ensures r == ValueAt(series, day)
  {
    r := None;
    for i := 0 to |series|
      invariant ValueAt(series, day) == ValueAt(series[i..], day)
    {
      assert series[i..][0] == series[i] && series[i..][1..] == series[i + 1..];
      if series[i].day == day {
        return Some(series[i].value);
      }
    }
  }

  lemma LargestOfThree(spread: real, center: real)
    ensures IsLargest(if spread < Floor(center) then Floor(center) else spread, spread, center / 10.0, 1.0)
  {
  }

  /** A critical verdict is a bad deviation of at least 3.5 times the larger of one and a tenth of the median. */
  lemma CriticalIsFar(badWhenHigher: bool, value: real, center: real, spread: real)
    requires Verdict(badWhenHigher, value, center, Max(spread, Floor(center))) == Critical
    ensures Bad(badWhenHigher, value, center)
    ensures Abs(value - center) >= 3.5 && Abs(value - center) >= 3.5 * (center * 0.1)
    ensures Abs(value - center) >= 3.5 * Max(1.0, center * 0.1)
  {
  }

  /** Nothing is ever lost between the grades: a larger deviation on the same side is never graded milder. */
  lemma VerdictMonotone(badWhenHigher: bool, near: real, far: real, center: real, unit: real)
    requires unit > 0.0 && Abs(near - center) <= Abs(far - center)
    requires Bad(badWhenHigher, near, center) && Bad(badWhenHigher, far, center)
    ensures Verdict(badWhenHigher, near, center, unit) == Critical ==>
              Verdict(badWhenHigher, far, center, unit) == Critical
    ensures Verdict(badWhenHigher, near, center, unit) == Warning ==>
              Verdict(badWhenHigher, far, center, unit) in {Warning, Critical}
  {
  }

  lemma {:induction false} SameChanged(a: seq<real>, b: seq<real>, c: seq<real>, d: seq<real>)
    requires |a| == |b| == |c| == |d| && forall i :: 0 <= i < |a| ==> (a[i] == b[i] <==> c[i] == d[i])
    ensures Changed(a, b) == Changed(c, d)
  {
    if a != [] {
      SameChanged(a[1..], b[1..], c[1..], d[1..]);
    }
  }

  /** The spread, like the median, is bounded by the range of the untouched values. */
  lemma SpreadStaysInRange(a: seq<real>, b: seq<real>, low: real, high: real)
    requires |a| == |b| > 0 && 2 * Changed(a, b) < |a|
    requires forall i :: 0 <= i < |a| && a[i] == b[i] ==> low <= a[i] <= high
    ensures low <= Median(b) <= high && Spread(b, Median(b)) <= (high - low) * 1.4826
  {
    hide Median, Changed;
    MedianStaysInRange(a, b, low, high);
    var d := Deviations(b, Median(b));
    var c := seq(|a|, i requires 0 <= i < |a| => if a[i] == b[i] then d[i] else d[i] + 1.0);
    SameChanged(a, b, c, d);
    MedianStaysInRange(c, d, 0.0, high - low);
  }

  /**
   Outliers cannot hide a bad day: however fewer than half of the days of a history are changed,
   a bad value far enough from the range of the others, in units of that range, stays critical.
   */
  lemma OutliersCannotHide(badWhenHigher: bool, a: seq<real>, b: seq<real>, low: real, high: real, value: real)
    requires |a| == |b| > 0 && 2 * Changed(a, b) < |a|
    requires forall i :: 0 <= i < |a| && a[i] == b[i] ==> low <= a[i] <= high
    requires var unit := Max((high - low) * 1.4826, Floor(high));
             if badWhenHigher then value >= high + 3.5 * unit else value <= low - 3.5 * unit
    ensures Verdict(badWhenHigher, value, Median(b), Max(Spread(b, Median(b)), Floor(Median(b)))) == Critical
  {
    hide Median, Changed, Spread;
    SpreadStaysInRange(a, b, low, high);
    var center := Median(b);
    var unit := Max(Spread(b, center), Floor(center));
    FloorIsOne(center);
    var near := if badWhenHigher then center + 3.5 * unit else center - 3.5 * unit;
    assert unit <= Max((high - low) * 1.4826, Floor(high));
    VerdictMonotone(badWhenHigher, near, value, center, unit);
  }
}
