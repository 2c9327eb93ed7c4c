/**
 Attribution: the weight each model gives every touch of a conversion's path, and the
 report that folds the weighted touches into channels and sites.
 */
module Attribution {
  import opened Wrappers

  datatype Touch = Touch(source: string, medium: string, site: string, startedAt: int, session: string,
                         daysBefore: real)

  datatype Model = FirstTouch | LastTouch | LastNonDirect | Linear | PositionBased | TimeDecay

  predicate NonDirect(t: Touch) {
    t.source != "" || t.medium != ""
  }

  /** The order of row_number() over the touches with channel information: latest start first, then by session. */
  predicate Sooner(less: (string, string) -> bool, a: Touch, b: Touch) {
    a.startedAt > b.startedAt || (a.startedAt == b.startedAt && less(a.session, b.session))
  }

  /** The touch numbered one among those with channel information; a complete tie keeps the earlier position. */
  function TopNonDirect(path: seq<Touch>, less: (string, string) -> bool): (r: Option<nat>)
    ensures r.Some? ==> r.value < |path| && NonDirect(path[r.value])
    ensures r.None? <==> forall i :: 0 <= i < |path| ==> !NonDirect(path[i])
  {
    if path == [] then None
    else
      var init, last := path[..|path| - 1], |path| - 1;
      var best := TopNonDirect(init, less);
      assert forall i :: 0 <= i < |init| ==> init[i] == path[i];
      if !NonDirect(path[last]) then best
      else if best.None? || Sooner(less, path[last], path[best.value]) then Some(last)
      else best
  }

  function HalfLife(days: int): int {
    if days < 1 || days > 90 then 7 else days
  }

  function Total(ws: seq<real>): real {
    if ws == [] then 0.0 else ws[0] + Total(ws[1..])
  }

  /** pow(0.5, days / halfLife), for any positive decay. */
  function Decays(path: seq<Touch>, decay: real -> real): (r: seq<real>)
    ensures |r| == |path| && forall i :: 0 <= i < |path| ==> r[i] == decay(path[i].daysBefore)
  {
    seq(|path|, i requires 0 <= i < |path| => decay(path[i].daysBefore))
  }

  /** The weight of touch i (counted from zero) of a path ordered by start and session. */
  function Weight(m: Model, path: seq<Touch>, i: nat, less: (string, string) -> bool, decay: real -> real): real
    requires i < |path|
  {
    var n := |path|;
    match m
    case FirstTouch => if i == 0 then 1.0 else 0.0
    case LastTouch => if i == n - 1 then 1.0 else 0.0
    case LastNonDirect =>
      (match TopNonDirect(path, less)
       case Some(top) => if i == top then 1.0 else 0.0
       case None => if i == n - 1 then 1.0 else 0.0)
    case Linear => 1.0 / n as real
    case PositionBased =>
      if n == 1 then 1.0 else if n == 2 then 0.5 else if i == 0 || i == n - 1 then 0.4 else 0.2 / (n - 2) as real
    case TimeDecay =>
      var sum := Total(Decays(path, decay));
      if sum == 0.0 then 0.0 else decay(path[i].daysBefore) / sum
  }

  function Weights(m: Model, path: seq<Touch>, less: (string, string) -> bool, decay: real -> real): (r: seq<real>)
    ensures |r| == |path| && forall i :: 0 <= i < |path| ==> r[i] == Weight(m, path, i, less, decay)
  {
    seq(|path|, i requires 0 <= i < |path| => Weight(m, path, i, less, decay))
  }

  // ---- Sums ----------------------------------------------------------------------------------

  lemma {:induction false} TotalConcat(a: seq<real>, b: seq<real>)
    ensures Total(a + b) == Total(a) + Total(b)
  {
    if a == [] {
      assert a + b == b;
    } else {
      assert (a + b)[1..] == a[1..] + b;
      TotalConcat(a[1..], b);
    }
  }

  lemma {:induction false} TotalConstant(ws: seq<real>, c: real)
    requires forall i :: 0 <= i < |ws| ==> ws[i] == c
    ensures Total(ws) == |ws| as real * c
  {
    if ws != [] {
      TotalConstant(ws[1..], c);
      assert |ws| as real * c == c + (|ws| - 1) as real * c;
    }
  }

  lemma TotalOneHot(ws: seq<real>, k: nat)
    requires k < |ws| && ws[k] == 1.0 && forall i :: 0 <= i < |ws| && i != k ==> ws[i] == 0.0
    ensures Total(ws) == 1.0
  {
    assert ws == ws[..k] + ([1.0] + ws[k + 1..]);
    TotalConcat(ws[..k], [1.0] + ws[k + 1..]);
    assert ([1.0] + ws[k + 1..])[1..] == ws[k + 1..];
    TotalConstant(ws[..k], 0.0);
    TotalConstant(ws[k + 1..], 0.0);
  }

  lemma {:induction false} TotalPositive(ws: seq<real>)
    requires forall i :: 0 <= i < |ws| ==> ws[i] > 0.0
    ensures Total(ws) >= 0.0 && (ws != [] ==> Total(ws) > 0.0)
  {
    if ws != [] {
      TotalPositive(ws[1..]);
    }
  }

  lemma {:induction false} TotalScaled(ws: seq<real>, us: seq<real>, s: real)
    requires |ws| == |us| && s != 0.0 && forall i :: 0 <= i < |ws| ==> us[i] == ws[i] / s
    ensures Total(us) == Total(ws) / s
  {
    if ws != [] {
      TotalScaled(ws[1..], us[1..], s);
      assert ws[0] / s + Total(ws[1..]) / s == (ws[0] + Total(ws[1..])) / s;
    }
  }

  // ---- Every model shares out exactly one conversion -------------------------------------------

  lemma Shared(k: nat, x: real)
    requires k > 0
    ensures k as real * (x / k as real) == x
  {
  }

  lemma PositionShares(ws: seq<real>, share: real)
    requires |ws| >= 3 && ws[0] == 0.4 && ws[|ws| - 1] == 0.4
    requires forall i :: 0 < i < |ws| - 1 ==> ws[i] == share
    requires (|ws| - 2) as real * share == 0.2
    ensures Total(ws) == 1.0
  {
    hide Total;
    var n := |ws|;
    var middle := ws[1..n - 1];
    assert ws == [0.4] + (middle + [0.4]);
    TotalConcat([0.4], middle + [0.4]);
    TotalConcat(middle, [0.4]);
    TotalConstant(middle, share);
    TotalConstant([0.4], 0.4);
  }

  lemma SingleTouchModels(m: Model, path: seq<Touch>, less: (string, string) -> bool, decay: real -> real)
    requires path != [] && (m.FirstTouch? || m.LastTouch? || m.LastNonDirect?)
    ensures Total(Weights(m, path, less, decay)) == 1.0
  {
    hide Total, Decays;
    var ws := Weights(m, path, less, decay);
    var hot := if m.FirstTouch? then 0
               else if m.LastNonDirect? && TopNonDirect(path, less).Some? then TopNonDirect(path, less).value
               else |path| - 1;
    TotalOneHot(ws, hot);
  }

  lemma LinearModel(path: seq<Touch>, less: (string, string) -> bool, decay: real -> real)
    requires path != []
    ensures Total(Weights(Linear, path, less, decay)) == 1.0
  {
    hide Total, Decays, TopNonDirect;
    TotalConstant(Weights(Linear, path, less, decay), 1.0 / |path| as real);
    Shared(|path|, 1.0);
  }

  lemma PositionModel(path: seq<Touch>, less: (string, string) -> bool, decay: real -> real)
    requires path != []
    ensures Total(Weights(PositionBased, path, less, decay)) == 1.0
  {
    hide Total, Decays, TopNonDirect;
    var ws := Weights(PositionBased, path, less, decay);
    if |path| == 1 {
      TotalOneHot(ws, 0);
    } else if |path| == 2 {
      TotalConstant(ws, 0.5);
    } else {
      Shared(|path| - 2, 0.2);
      PositionShares(ws, 0.2 / (|path| - 2) as real);
    }
  }

  lemma DecayModel(path: seq<Touch>, less: (string, string) -> bool, decay: real -> real)
    requires path != [] && forall x :: decay(x) > 0.0
    ensures forall i :: 0 <= i < |path| ==> Weight(TimeDecay, path, i, less, decay) >= 0.0
    ensures Total(Weights(TimeDecay, path, less, decay)) == 1.0
  {
    hide Total, TopNonDirect;
    var sum := Total(Decays(path, decay));
    TotalPositive(Decays(path, decay));
    TotalScaled(Decays(path, decay), Weights(TimeDecay, path, less, decay), sum);
    forall i | 0 <= i < |path|
      ensures Weight(TimeDecay, path, i, less, decay) >= 0.0
    {
      Quotient(decay(path[i].daysBefore), sum);
    }
  }

  lemma Quotient(a: real, b: real)
    requires a > 0.0 && b > 0.0
    ensures a / b >= 0.0 && b / b == 1.0
  {
  }

  /** For every model and every path with a touch the weights are not negative and add up to one. */
  lemma WeightsSumToOne(m: Model, path: seq<Touch>, less: (string, string) -> bool, decay: real -> real)
    requires path != [] && forall x :: decay(x) > 0.0
    ensures forall i :: 0 <= i < |path| ==> Weight(m, path, i, less, decay) >= 0.0
    ensures Total(Weights(m, path, less, decay)) == 1.0
  {
    hide Weights, Total, TopNonDirect, Decays;
    match m
    case Linear => LinearModel(path, less, decay);
    case PositionBased => PositionModel(path, less, decay);
    case TimeDecay => DecayModel(path, less, decay);
    case _ => SingleTouchModels(m, path, less, decay);
  }

  /** The decay for a requested half-life; power(h, d) stands for one half to the power d / h. */
  function Decay(power: (int, real) -> real, requested: int): real -> real {
    (days: real) => power(HalfLife(requested), days)
  }

  /** Whatever half-life a request asks for, the one used keeps the weights a distribution. */
  lemma AnyHalfLife(m: Model, path: seq<Touch>, less: (string, string) -> bool, power: (int, real) -> real,
                    requested: int)
    requires path != [] && forall h, days :: 1 <= h <= 90 ==> power(h, days) > 0.0
    ensures forall i :: 0 <= i < |path| ==> Weight(m, path, i, less, Decay(power, requested)) >= 0.0
    ensures Total(Weights(m, path, less, Decay(power, requested))) == 1.0
  {
    assert forall days :: Decay(power, requested)(days) == power(HalfLife(requested), days);
    WeightsSumToOne(m, path, less, Decay(power, requested));
  }

  // ---- The report ----------------------------------------------------------------------------------

  /** A weighted touch, and equally a row of the grouped query: the credit of one source, medium and site. */
  datatype Credit = Credit(source: string, medium: string, site: string, credit: real)

  function Credits(m: Model, path: seq<Touch>, less: (string, string) -> bool, decay: real -> real): (r: seq<Credit>)
    ensures |r| == |path|
    ensures forall i :: 0 <= i < |path| ==>
              r[i] == Credit(path[i].source, path[i].medium, path[i].site, Weight(m, path, i, less, decay))
  {
    seq(|path|, i requires 0 <= i < |path| =>
        Credit(path[i].source, path[i].medium, path[i].site, Weight(m, path, i, less, decay)))
  }

  // ---- Which touch earns what ------------------------------------------------------------------------

  /** Touch a comes before touch b on a path: by start, then by session. */
  predicate Precedes(less: (string, string) -> bool, a: Touch, b: Touch) {
    a.startedAt < b.startedAt || (a.startedAt == b.startedAt && less(a.session, b.session))
  }

  ghost predicate InOrder(path: seq<Touch>, less: (string, string) -> bool) {
    forall i, j :: 0 <= i < j < |path| ==> !Precedes(less, path[j], path[i])
  }

  /** The order of session ids, as far as it matters. */
  ghost predicate StrictOrder(less: (string, string) -> bool) {
    && (forall a :: !less(a, a))
    && (forall a, b, c :: less(a, b) && less(b, c) ==> less(a, c))
  }

  /** The whole conversion goes to touch k. */
  ghost predicate AllTo(cs: seq<Credit>, k: nat) {
    k < |cs| && cs[k].credit == 1.0 && forall i :: 0 <= i < |cs| && i != k ==> cs[i].credit == 0.0
  }

  /** First touch: everything goes to a touch that no other precedes. */
  lemma FirstTouchWins(path: seq<Touch>, less: (string, string) -> bool, decay: real -> real) returns (k: nat)
    requires path != [] && InOrder(path, less) && StrictOrder(less)
    ensures AllTo(Credits(FirstTouch, path, less, decay), k)
    ensures forall j :: 0 <= j < |path| ==> !Precedes(less, path[j], path[k])
  {
    hide Precedes, Total, TopNonDirect;
    k := 0;
    NotBeforeItself(less, path[0]);
  }

  /** Last touch: everything goes to a touch that precedes no other. */
  lemma LastTouchWins(path: seq<Touch>, less: (string, string) -> bool, decay: real -> real) returns (k: nat)
    requires path != [] && InOrder(path, less) && StrictOrder(less)
    ensures AllTo(Credits(LastTouch, path, less, decay), k)
    ensures forall j :: 0 <= j < |path| ==> !Precedes(less, path[k], path[j])
  {
    hide Precedes, Total, TopNonDirect;
    k := |path| - 1;
    NotBeforeItself(less, path[k]);
  }

  lemma NotBeforeItself(less: (string, string) -> bool, t: Touch)
    requires StrictOrder(less)
    ensures !Precedes(less, t, t)
  {
  }

  /** A touch with channel information. */
  predicate Informed(t: Touch) {
    !(t.source == "" && t.medium == "")
  }

  /** Touch b starts later than touch a, or at the same time with the smaller session. */
  predicate Later(less: (string, string) -> bool, a: Touch, b: Touch) {
    a.startedAt < b.startedAt || (a.startedAt == b.startedAt && less(b.session, a.session))
  }

  /**
   Last non-direct touch: everything goes to a touch with channel information that is the latest of
   those, or, when there is none, to a touch that precedes no other.
   */
  lemma LastNonDirectWins(path: seq<Touch>, less: (string, string) -> bool, decay: real -> real) returns (k: nat)
    requires path != [] && InOrder(path, less) && StrictOrder(less)
    ensures AllTo(Credits(LastNonDirect, path, less, decay), k)
    ensures (exists i :: 0 <= i < |path| && Informed(path[i])) ==>
              Informed(path[k]) && forall j :: 0 <= j < |path| && Informed(path[j]) ==> !Later(less, path[k], path[j])
    ensures (forall i :: 0 <= i < |path| ==> !Informed(path[i])) ==>
              forall j :: 0 <= j < |path| ==> !Precedes(less, path[k], path[j])
  {
    hide Precedes, Later, Total, TopNonDirect, StrictOrder;
    var top := TopNonDirect(path, less);
    k := if top.Some? then top.value else |path| - 1;
    NotBeforeItself(less, path[|path| - 1]);
    TopIsLatest(path, less);
  }

  lemma {:induction false} TopIsLatest(path: seq<Touch>, less: (string, string) -> bool)
    requires StrictOrder(less)
    ensures var top := TopNonDirect(path, less);
            top.Some? ==>
              forall j :: 0 <= j < |path| && Informed(path[j]) ==> !Later(less, path[top.value], path[j])
  {
    hide Later, StrictOrder, Sooner;
    var top := TopNonDirect(path, less);
    if path != [] && top.Some? {
      var init, last := path[..|path| - 1], |path| - 1;
      TopIsLatest(init, less);
      var best := TopNonDirect(init, less);
      LaterIsSooner(less, path[last], path[last]);
      if best.Some? {
        assert init[best.value] == path[best.value];
        LaterIsSooner(less, path[best.value], path[last]);
      }
      forall j | 0 <= j < |path| && Informed(path[j])
        ensures !Later(less, path[top.value], path[j])
      {
        assert j < last ==> init[j] == path[j];
        if best.Some? {
          LaterTransitive(less, path[best.value], path[last], path[j]);
        }
      }
    }
  }

  lemma LaterIsSooner(less: (string, string) -> bool, a: Touch, b: Touch)
    requires StrictOrder(less)
    ensures Later(less, a, b) <==> Sooner(less, b, a)
    ensures !Later(less, a, a)
  {
  }

  lemma LaterTransitive(less: (string, string) -> bool, a: Touch, b: Touch, c: Touch)
    requires StrictOrder(less)
    ensures Later(less, a, b) && Later(less, b, c) ==> Later(less, a, c)
  {
  }

  /** Linear: every touch earns the same. */
  lemma LinearSharesEqually(path: seq<Touch>, less: (string, string) -> bool, decay: real -> real)
    ensures var cs := Credits(Linear, path, less, decay);
            forall i :: 0 <= i < |path| ==> cs[i].credit * |path| as real == 1.0
  {
    hide Total, TopNonDirect;
    forall i | 0 <= i < |path|
      ensures Credits(Linear, path, less, decay)[i].credit * |path| as real == 1.0
    {
      Shared(|path|, 1.0);
    }
  }

  /**
   Position based: a lone touch earns everything, two earn half each; on a longer path the two ends
   earn 0.4 each and the touches between them 0.2 in equal parts.
   */
  lemma EndsEarnMost(path: seq<Touch>, less: (string, string) -> bool, decay: real -> real)
    ensures var cs := Credits(PositionBased, path, less, decay);
            var n := |path|;
            && (n == 1 ==> cs[0].credit == 1.0)
            && (n == 2 ==> cs[0].credit == 0.5 && cs[1].credit == 0.5)
            && (n > 2 ==> cs[0].credit == 0.4 && cs[n - 1].credit == 0.4)
            && forall i :: 0 < i < n - 1 ==> cs[i].credit * (n - 2) as real == 0.2
  {
    hide Total, TopNonDirect;
    forall i | 0 < i < |path| - 1
      ensures Credits(PositionBased, path, less, decay)[i].credit * (|path| - 2) as real == 0.2
    {
      Shared(|path| - 2, 0.2);
    }
  }

  /**
   Time decay: credits are to each other as one half to the power of the days before the conversion over
   the half-life, which is the one asked for from 1 to 90 days and 7 days otherwise.
   */
  lemma CreditsDecay(path: seq<Touch>, less: (string, string) -> bool, power: (int, real) -> real, requested: int)
    requires forall h, days :: 1 <= h <= 90 ==> power(h, days) > 0.0
    ensures var cs := Credits(TimeDecay, path, less, Decay(power, requested));
            var h := if 1 <= requested <= 90 then requested else 7;
            forall i, j :: 0 <= i < |path| && 0 <= j < |path| ==>
              cs[i].credit * power(h, path[j].daysBefore) == cs[j].credit * power(h, path[i].daysBefore)
  {
    hide TopNonDirect, Total, Decays;
    var decay := Decay(power, requested);
    var sum := Total(Decays(path, decay));
    forall i, j | 0 <= i < |path| && 0 <= j < |path|
      ensures Weight(TimeDecay, path, i, less, decay) * decay(path[j].daysBefore) ==
              Weight(TimeDecay, path, j, less, decay) * decay(path[i].daysBefore)
    {
      if sum != 0.0 {
        Proportion(decay(path[i].daysBefore), decay(path[j].daysBefore), sum);
      }
    }
  }

  lemma Proportion(a: real, b: real, sum: real)
    requires sum != 0.0
    ensures (a / sum) * b == (b / sum) * a
  {
    assert (a / sum) * b == a * b / sum;
    assert (b / sum) * a == a * b / sum;
  }

  /** The weighted touches of all conversions. */
  function AllCredits(m: Model, paths: seq<seq<Touch>>, less: (string, string) -> bool, decay: real -> real)
    : seq<Credit>
  {
    if paths == [] then [] else Credits(m, paths[0], less, decay) + AllCredits(m, paths[1..], less, decay)
  }

  /** count(DISTINCT event_id) of the paths: the conversions with a touch. */
  function Attributed(paths: seq<seq<Touch>>): nat {
    if paths == [] then 0 else (if paths[0] == [] then 0 else 1) + Attributed(paths[1..])
  }

  function CreditSum(cs: seq<Credit>): real {
    if cs == [] then 0.0 else cs[0].credit + CreditSum(cs[1..])
  }

  /** The credit under one key, for any way of assigning keys. */
  function SumUnder<K(==)>(cs: seq<Credit>, key: Credit -> K, k: K): real {
    if cs == [] then 0.0 else (if key(cs[0]) == k then cs[0].credit else 0.0) + SumUnder(cs[1..], key, k)
  }

  /** The sum over a listing of keys. */
  function SumOver<K(==)>(cs: seq<Credit>, key: Credit -> K, ks: seq<K>): real {
    if ks == [] then 0.0 else SumUnder(cs, key, ks[0]) + SumOver(cs, key, ks[1..])
  }

  /** A listing that names every key once. */
  ghost predicate Lists<K(!new)>(cs: seq<Credit>, key: Credit -> K, ks: seq<K>) {
    && (forall i, j :: 0 <= i < j < |ks| ==> ks[i] != ks[j])
    && (forall i :: 0 <= i < |cs| ==> key(cs[i]) in ks)
  }

  lemma {:induction false} OneKeyCounts<K(!new)>(c: Credit, cs: seq<Credit>, key: Credit -> K, ks: seq<K>)
    requires forall i, j :: 0 <= i < j < |ks| ==> ks[i] != ks[j]
    ensures SumOver([c] + cs, key, ks) == SumOver(cs, key, ks) + if key(c) in ks then c.credit else 0.0
  {
    if ks != [] {
      assert ([c] + cs)[1..] == cs;
      assert forall i, j :: 0 <= i < j < |ks[1..]| ==> ks[1..][i] == ks[i + 1] && ks[1..][j] == ks[j + 1];
      OneKeyCounts(c, cs, key, ks[1..]);
    }
  }

  /** Grouping conserves credit: whatever the keys, the groups add up to the whole. */
  lemma {:induction false} GroupsAddUp<K(!new)>(cs: seq<Credit>, key: Credit -> K, ks: seq<K>)
    requires Lists(cs, key, ks)
    ensures SumOver(cs, key, ks) == CreditSum(cs)
  {
    if cs == [] {
      NothingUnder(key, ks);
    } else {
      assert forall i :: 0 <= i < |cs[1..]| ==> cs[1..][i] == cs[i + 1];
      GroupsAddUp(cs[1..], key, ks);
      assert cs == [cs[0]] + cs[1..];
      OneKeyCounts(cs[0], cs[1..], key, ks);
    }
  }

  lemma {:induction false} NothingUnder<K(!new)>(key: Credit -> K, ks: seq<K>)
    ensures SumOver([], key, ks) == 0.0
  {
    if ks != [] {
      NothingUnder(key, ks[1..]);
    }
  }

  lemma {:induction false} CreditSumConcat(a: seq<Credit>, b: seq<Credit>)
    ensures CreditSum(a + b) == CreditSum(a) + CreditSum(b)
  {
    if a == [] {
      assert a + b == b;
    } else {
      assert (a + b)[1..] == a[1..] + b;
      CreditSumConcat(a[1..], b);
    }
  }

  lemma {:induction false} CreditsOfWeights(cs: seq<Credit>, ws: seq<real>)
    requires |cs| == |ws| && forall i :: 0 <= i < |cs| ==> cs[i].credit == ws[i]
    ensures CreditSum(cs) == Total(ws)
  {
    if cs != [] {
      CreditsOfWeights(cs[1..], ws[1..]);
    }
  }

  /** Under every model the credit given out is the number of conversions that have a touch. */
  lemma {:induction false} CreditIsConversions(m: Model, paths: seq<seq<Touch>>, less: (string, string) -> bool,
                                               decay: real -> real)
    requires forall x :: decay(x) > 0.0
    ensures CreditSum(AllCredits(m, paths, less, decay)) == Attributed(paths) as real
  {
    if paths != [] {
      hide Weight, Credits, Weights;
      CreditIsConversions(m, paths[1..], less, decay);
      CreditSumConcat(Credits(m, paths[0], less, decay), AllCredits(m, paths[1..], less, decay));
      CreditsOfWeights(Credits(m, paths[0], less, decay), Weights(m, paths[0], less, decay));
      if paths[0] != [] {
        WeightsSumToOne(m, paths[0], less, decay);
      }
    }
  }

  // ---- Folding the grouped rows ------------------------------------------------------------------------

  datatype GroupKey = GroupKey(source: string, medium: string, site: string)

  function KeyOf(c: Credit): GroupKey {
    GroupKey(c.source, c.medium, c.site)
  }

  /** GROUP BY source, medium, site: one row per combination, with the sum of its credit. */
  ghost predicate Grouped(cs: seq<Credit>, rows: seq<Credit>) {
    && (forall i, j :: 0 <= i < j < |rows| ==> KeyOf(rows[i]) != KeyOf(rows[j]))
    && (forall i :: 0 <= i < |cs| ==> exists j :: 0 <= j < |rows| && KeyOf(rows[j]) == KeyOf(cs[i]))
    && (forall j :: 0 <= j < |rows| ==> rows[j].credit == SumUnder(cs, KeyOf, KeyOf(rows[j])))
  }

  function Keys(rows: seq<Credit>): (ks: seq<GroupKey>)
    ensures |ks| == |rows| && forall i :: 0 <= i < |rows| ==> ks[i] == KeyOf(rows[i])
  {
    seq(|rows|, i requires 0 <= i < |rows| => KeyOf(rows[i]))
  }

  lemma {:induction false} RowsSum(cs: seq<Credit>, rows: seq<Credit>)
    requires forall j :: 0 <= j < |rows| ==> rows[j].credit == SumUnder(cs, KeyOf, KeyOf(rows[j]))
    ensures CreditSum(rows) == SumOver(cs, KeyOf, Keys(rows))
  {
    if rows != [] {
      RowsSum(cs, rows[1..]);
      assert Keys(rows)[1..] == Keys(rows[1..]);
    }
  }

  lemma GroupedConserves(cs: seq<Credit>, rows: seq<Credit>)
    requires Grouped(cs, rows)
    ensures CreditSum(rows) == CreditSum(cs)
  {
    var ks := Keys(rows);
    forall i | 0 <= i < |cs|
      ensures KeyOf(cs[i]) in ks
    {
      var j :| 0 <= j < |rows| && KeyOf(rows[j]) == KeyOf(cs[i]);
      assert ks[j] == KeyOf(cs[i]);
    }
    RowsSum(cs, rows);
    GroupsAddUp(cs, KeyOf, ks);
  }

  datatype Report = Report(channels: map<string, real>, sites: map<string, real>, attributed: real, unattributed: real,
                           crossSite: real)

  function Added(m: map<string, real>, k: string, x: real): map<string, real> {
    m[k := (if k in m then m[k] else 0.0) + x]
  }

  function Max0(x: int): int {
    if x < 0 then 0 else x
  }

  lemma {:induction false} SumUnderAppend<K>(cs: seq<Credit>, c: Credit, key: Credit -> K, k: K)
    ensures SumUnder(cs + [c], key, k) == SumUnder(cs, key, k) + if key(c) == k then c.credit else 0.0
  {
    if cs == [] {
      assert cs + [c] == [c];
    } else {
      assert (cs + [c])[1..] == cs[1..] + [c];
      SumUnderAppend(cs[1..], c, key, k);
    }
  }

  /** What one map of the report holds: exactly the keys of the rows, each with its share. */
  ghost predicate Holds(m: map<string, real>, rows: seq<Credit>, key: Credit -> string) {
    && (forall k :: k in m <==> exists i :: 0 <= i < |rows| && key(rows[i]) == k)
    && (forall k :: k in m ==> m[k] == SumUnder(rows, key, k))
  }

  lemma AddedHolds(m: map<string, real>, rows: seq<Credit>, key: Credit -> string, c: Credit)
    requires Holds(m, rows, key)
    ensures Holds(Added(m, key(c), c.credit), rows + [c], key)
  {
    var m' := Added(m, key(c), c.credit);
    var more := rows + [c];
    assert key(more[|rows|]) == key(c);
    forall k
      ensures k in m' <==> exists i :: 0 <= i < |more| && key(more[i]) == k
      ensures k in m' ==> m'[k] == SumUnder(more, key, k)
    {
      SumUnderAppend(rows, c, key, k);
      if k !in m {
        NoneUnder(rows, key, k);
      }
      if i :| 0 <= i < |rows| && key(rows[i]) == k {
        assert key(more[i]) == k;
      }
    }
  }

  lemma {:induction false} NoneUnder(rows: seq<Credit>, key: Credit -> string, k: string)
    requires forall i :: 0 <= i < |rows| ==> key(rows[i]) != k
    ensures SumUnder(rows, key, k) == 0.0
  {
    if rows != [] {
      NoneUnder(rows[1..], key, k);
    }
  }

  function SiteOf(c: Credit): string {
    c.site
  }

  function ChannelOf(classify: (string, string) -> string): Credit -> string {
    (c: Credit) => classify(c.source, c.medium)
  }

  /** The loop over the grouped rows, and the unattributed remainder. */
  method Fold(rows: seq<Credit>, home: string, classify: (string, string) -> string, total: nat,
              attributedConversions: nat)
    returns (r: Report)
    ensures Holds(r.channels, rows, ChannelOf(classify))
    ensures Holds(r.sites, rows, SiteOf)
    ensures r.attributed == CreditSum(rows)
    ensures r.crossSite == CreditSum(rows) - SumUnder(rows, SiteOf, home)
    ensures r.unattributed == if total > attributedConversions then (total - attributedConversions) as real else 0.0
  {
    var channels: map<string, real>, sites: map<string, real> := map[], map[];
    var attributed, crossSite := 0.0, 0.0;
    ghost var byChannel := ChannelOf(classify);
    for i := 0 to |rows|
      invariant Holds(channels, rows[..i], byChannel) && Holds(sites, rows[..i], SiteOf)
      invariant attributed == CreditSum(rows[..i])
      invariant crossSite == attributed - SumUnder(rows[..i], SiteOf, home)
    {
      hide Holds;
      var row := rows[i];
      assert rows[..i + 1] == rows[..i] + [row];
      AddedHolds(channels, rows[..i], byChannel, row);
      AddedHolds(sites, rows[..i], SiteOf, row);
      CreditSumConcat(rows[..i], [row]);
      SumUnderAppend(rows[..i], row, SiteOf, home);
      channels := Added(channels, classify(row.source, row.medium), row.credit);
      sites := Added(sites, row.site, row.credit);
      attributed := attributed + row.credit;
      if row.site != home {
        crossSite := crossSite + row.credit;
      }
    }
    assert rows[..|rows|] == rows;
    r := Report(channels, sites, attributed, Max0(total - attributedConversions) as real, crossSite);
  }

  /**
   The whole report: channels, sites, and home plus cross-site credit all come to the conversions
   that have a touch.
   */
  lemma ReportConserves(m: Model, paths: seq<seq<Touch>>, less: (string, string) -> bool, decay: real -> real,
                        rows: seq<Credit>, home: string, classify: (string, string) -> string, channels: seq<string>,
                        sites: seq<string>)
    requires forall x :: decay(x) > 0.0
    requires Grouped(AllCredits(m, paths, less, decay), rows)
    requires Lists(rows, ChannelOf(classify), channels) && Lists(rows, SiteOf, sites)
    ensures CreditSum(rows) == Attributed(paths) as real
    ensures SumOver(rows, ChannelOf(classify), channels) == Attributed(paths) as real
    ensures SumOver(rows, SiteOf, sites) == Attributed(paths) as real
    ensures Attributed(paths) <= |paths|
    ensures CreditSum(rows) + Max0(|paths| - Attributed(paths)) as real == |paths| as real
  {
    CreditIsConversions(m, paths, less, decay);
    GroupedConserves(AllCredits(m, paths, less, decay), rows);
    GroupsAddUp(rows, ChannelOf(classify), channels);
    GroupsAddUp(rows, SiteOf, sites);
    AttributedBounded(paths);
  }

  lemma {:induction false} AttributedBounded(paths: seq<seq<Touch>>)
    ensures Attributed(paths) <= |paths|
  {
    if paths != [] {
      AttributedBounded(paths[1..]);
    }
  }
}
