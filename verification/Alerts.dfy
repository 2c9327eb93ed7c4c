/**
 Alert state: evaluations of the watched metrics become transitions of stored alert
 rows, and some of the transitions are announced.
 */
module Alerts {
  import opened Wrappers

  datatype Severity = Critical | Warning | Positive

  /** A metric an evaluation found to deviate. */
  datatype Detection = Detection(metric: string, severity: Severity)

  /** The stored row of a metric; days are counted from some fixed day. */
  datatype Alert = Alert(severity: Severity, first: int, last: int, notified: Option<int>, resolved: Option<int>)

  datatype Change = New | Ongoing | Recovered

  datatype Transition = Transition(metric: string, change: Change, severity: Severity)

  const DEFAULT_NOTIFY: set<Change> := {New, Recovered}

  predicate Open(row: Option<Alert>) {
    row.Some? && row.value.resolved.None?
  }

  function At(rows: map<string, Alert>, m: string): Option<Alert> {
    if m in rows then Some(rows[m]) else None
  }

  predicate DistinctMetrics(ds: seq<Detection>) {
    forall i, j :: 0 <= i < j < |ds| ==> ds[i].metric != ds[j].metric
  }

  /** How the evaluation found a metric. */
  function Seen(ds: seq<Detection>, m: string): Option<Severity> {
    if ds == [] then None else if ds[|ds| - 1].metric == m then Some(ds[|ds| - 1].severity) else Seen(ds[..|ds| - 1], m)
  }

  // ---- One metric, one evaluation ---------------------------------------------------------------

  /** A good deviation is no transition, and keeps an open alert from recovering. */
  function ChangeOf(row: Option<Alert>, seen: Option<Severity>): Option<Change> {
    match seen
    case Some(Positive) => None
    case Some(_) => Some(if Open(row) then Ongoing else New)
    case None => if Open(row) then Some(Recovered) else None
  }

  predicate AlreadyNotified(row: Option<Alert>, day: int) {
    row.Some? && row.value.notified.Some? && row.value.notified.value >= day
  }

  predicate Announced(row: Option<Alert>, seen: Option<Severity>, day: int, notify: set<Change>) {
    var change := ChangeOf(row, seen);
    change.Some? && change.value in notify && (change.value != Recovered ==> !AlreadyNotified(row, day))
  }

  /** INSERT .. ON CONFLICT DO UPDATE for a deviation, UPDATE .. SET resolved_on for a recovery. */
  function Next(row: Option<Alert>, seen: Option<Severity>, day: int, notify: set<Change>): Option<Alert> {
    match ChangeOf(row, seen)
    case None => row
    case Some(Recovered) => Some(row.value.(resolved := Some(day)))
    case Some(_) =>
      Some(Alert(seen.value,
                 if Open(row) then row.value.first else day,
                 day,
                 if Announced(row, seen, day, notify) then Some(day)
                 else if row.Some? then row.value.notified
                 else None,
                 None))
  }

  // ---- The table --------------------------------------------------------------------------------

  /** The transitions list each metric that changes once, with its change. */
  ghost predicate Lists(ts: seq<Transition>, rows: map<string, Alert>, ds: seq<Detection>) {
    && (forall i :: 0 <= i < |ts| ==> ChangeOf(At(rows, ts[i].metric), Seen(ds, ts[i].metric)) == Some(ts[i].change))
    && (forall i :: 0 <= i < |ts| && ts[i].change != Recovered ==> Seen(ds, ts[i].metric) == Some(ts[i].severity))
    && (forall i, j :: 0 <= i < j < |ts| ==> ts[i].metric != ts[j].metric)
    && (forall m :: ChangeOf(At(rows, m), Seen(ds, m)).Some? ==> exists i :: 0 <= i < |ts| && ts[i].metric == m)
  }

  lemma {:induction false} SeenAt(ds: seq<Detection>, i: nat)
    requires DistinctMetrics(ds) && i < |ds|
    ensures Seen(ds, ds[i].metric) == Some(ds[i].severity)
  {
    if i < |ds| - 1 {
      var init := ds[..|ds| - 1];
      assert forall j :: 0 <= j < |init| ==> init[j] == ds[j];
      SeenAt(init, i);
    }
  }

  lemma {:induction false} SeenSomewhere(ds: seq<Detection>, m: string)
    requires Seen(ds, m).Some?
    ensures exists i :: 0 <= i < |ds| && ds[i].metric == m && Seen(ds, m) == Some(ds[i].severity)
  {
    if ds[|ds| - 1].metric != m {
      SeenSomewhere(ds[..|ds| - 1], m);
      var i :| 0 <= i < |ds| - 1 && ds[..|ds| - 1][i].metric == m
        && Seen(ds[..|ds| - 1], m) == Some(ds[..|ds| - 1][i].severity);
      assert ds[i] == ds[..|ds| - 1][i];
    }
  }

  /** AnnotateStates: first the deviations in report order, then the open alerts no longer seen, in any order. */
  method AnnotateStates(ds: seq<Detection>, rows: map<string, Alert>) returns (ts: seq<Transition>)
    requires DistinctMetrics(ds)
    ensures Lists(ts, rows, ds)
  {
    hide Seen, Lists;
    ts := [];
    for i := 0 to |ds|
      invariant forall k :: 0 <= k < |ts| ==>
                  exists d :: 0 <= d < i && ds[d].metric == ts[k].metric && ds[d].severity == ts[k].severity
      invariant forall k :: 0 <= k < |ts| ==>
                  ChangeOf(At(rows, ts[k].metric), Seen(ds, ts[k].metric)) == Some(ts[k].change)
      invariant forall k, l :: 0 <= k < l < |ts| ==> ts[k].metric != ts[l].metric
      invariant forall d :: 0 <= d < i && ds[d].severity != Positive ==>
                  exists k :: 0 <= k < |ts| && ts[k].metric == ds[d].metric
    {
      SeenAt(ds, i);
      if ds[i].severity != Positive {
        var state := New;
        if ds[i].metric in rows && rows[ds[i].metric].resolved.None? {
          state := Ongoing;
        }
        ghost var was := ts;
        ts := ts + [Transition(ds[i].metric, state, ds[i].severity)];
        assert forall k :: 0 <= k < |was| ==> ts[k] == was[k];
        assert ts[|was|].metric == ds[i].metric;
      }
    }
    ghost var deviations := |ts|;
    forall k | 0 <= k < |ts|
      ensures Seen(ds, ts[k].metric) == Some(ts[k].severity)
    {
      var d :| 0 <= d < |ds| && ds[d].metric == ts[k].metric && ds[d].severity == ts[k].severity;
      SeenAt(ds, d);
    }
    forall m | Seen(ds, m).Some? && Seen(ds, m) != Some(Positive)
      ensures exists k :: 0 <= k < |ts| && ts[k].metric == m
    {
      SeenSomewhere(ds, m);
    }
    ts := AddRecoveries(ds, rows, ts);
  }

  /** A change is a deviation that is not good, or a row of its own recovering. */
  lemma ChangesOf(row: Option<Alert>, seen: Option<Severity>)
    ensures ChangeOf(row, seen).Some? ==>
              (seen.Some? && seen != Some(Positive)) || (row.Some? && ChangeOf(row, seen) == Some(Recovered))
  {
  }

  lemma RecoversExactly(row: Alert, seen: Option<Severity>)
    ensures ChangeOf(Some(row), seen) == Some(Recovered) <==> seen.None? && row.resolved.None?
  {
  }

  /** The second loop of AnnotateStates, over the stored rows. */
  method AddRecoveries(ds: seq<Detection>, rows: map<string, Alert>, found: seq<Transition>)
    returns (ts: seq<Transition>)
    requires forall k :: 0 <= k < |found| ==>
               ChangeOf(At(rows, found[k].metric), Seen(ds, found[k].metric)) == Some(found[k].change)
    requires forall k :: 0 <= k < |found| ==> Seen(ds, found[k].metric) == Some(found[k].severity)
    requires forall k, l :: 0 <= k < l < |found| ==> found[k].metric != found[l].metric
    requires forall m :: Seen(ds, m).Some? && Seen(ds, m) != Some(Positive) ==>
               exists k :: 0 <= k < |found| && found[k].metric == m
    ensures Lists(ts, rows, ds)
  {
    hide ChangeOf, Seen;
    ts := found;
    var left := rows.Keys;
    while left != {}
      invariant left <= rows.Keys
      invariant forall k :: 0 <= k < |ts| ==>
                  ChangeOf(At(rows, ts[k].metric), Seen(ds, ts[k].metric)) == Some(ts[k].change)
      invariant forall k :: 0 <= k < |ts| && ts[k].change != Recovered ==>
                  Seen(ds, ts[k].metric) == Some(ts[k].severity)
      invariant forall k, l :: 0 <= k < l < |ts| ==> ts[k].metric != ts[l].metric
      invariant forall k :: 0 <= k < |ts| && ts[k].metric in left ==> Seen(ds, ts[k].metric).Some?
      invariant forall m :: Seen(ds, m).Some? && Seen(ds, m) != Some(Positive) ==>
                  exists k :: 0 <= k < |ts| && ts[k].metric == m
      invariant forall m :: m in rows && m !in left && ChangeOf(At(rows, m), Seen(ds, m)) == Some(Recovered) ==>
                  exists k :: 0 <= k < |ts| && ts[k].metric == m
      decreases |left|
    {
      var m :| m in left;
      left := left - {m};
      RecoversExactly(rows[m], Seen(ds, m));
      if Seen(ds, m).None? && rows[m].resolved.None? {
        ghost var was := ts;
        ts := ts + [Transition(m, Recovered, rows[m].severity)];
        assert forall k :: 0 <= k < |was| ==> ts[k] == was[k];
        assert ts[|was|].metric == m;
      }
    }
    forall m
      ensures ChangeOf(At(rows, m), Seen(ds, m)).Some? ==>
                (Seen(ds, m).Some? && Seen(ds, m) != Some(Positive))
                || (m in rows && ChangeOf(At(rows, m), Seen(ds, m)) == Some(Recovered))
    {
      ChangesOf(At(rows, m), Seen(ds, m));
    }
  }

  /** The stored alert rows of one site and environment. */
  class AlertTable {
    var rows: map<string, Alert>

    constructor ()
      ensures rows == map[]
    {
      rows := map[];
    }

    /** ApplyAnomalyState: persists one evaluation and returns what to announce. */
    method Apply(ds: seq<Detection>, day: int, notifyOn: set<Change>) returns (announce: seq<Transition>)
      requires DistinctMetrics(ds)
      modifies this
      ensures var notify := if notifyOn == {} then DEFAULT_NOTIFY else notifyOn;
              && (forall m :: At(rows, m) == Next(At(old(rows), m), Seen(ds, m), day, notify))
              && (forall i, j :: 0 <= i < j < |announce| ==> announce[i].metric != announce[j].metric)
              && (forall i :: 0 <= i < |announce| ==>
                    Announced(At(old(rows), announce[i].metric), Seen(ds, announce[i].metric), day, notify)
                    && ChangeOf(At(old(rows), announce[i].metric), Seen(ds, announce[i].metric))
                       == Some(announce[i].change))
              && (forall m :: Announced(At(old(rows), m), Seen(ds, m), day, notify) ==>
                    exists i :: 0 <= i < |announce| && announce[i].metric == m)
    {
      hide Seen, ChangeOf, Announced, Next;
      var notify := if notifyOn == {} then DEFAULT_NOTIFY else notifyOn;
      var states := rows;
      var ts := AnnotateStates(ds, states);
      announce := [];
      for k := 0 to |ts|
        invariant forall i :: 0 <= i < k ==>
                    At(rows, ts[i].metric) == Next(At(states, ts[i].metric), Seen(ds, ts[i].metric), day, notify)
        invariant forall m :: (forall i :: 0 <= i < k ==> ts[i].metric != m) ==> At(rows, m) == At(states, m)
        invariant forall i, j :: 0 <= i < j < |announce| ==> announce[i].metric != announce[j].metric
        invariant forall t :: t in announce <==>
                    t in ts[..k] && Announced(At(states, t.metric), Seen(ds, t.metric), day, notify)
      {
        var t := ts[k];
        assert ts[..k + 1] == ts[..k] + [t];
        var notifiable := ApplyOne(t, states, Seen(ds, t.metric), day, notify);
        if notifiable {
          announce := announce + [t];
        }
      }
      assert ts[..|ts|] == ts;
      forall m
        ensures At(rows, m) == Next(At(states, m), Seen(ds, m), day, notify)
        ensures Announced(At(states, m), Seen(ds, m), day, notify) ==>
                  exists i :: 0 <= i < |announce| && announce[i].metric == m
      {
        UnchangedKeeps(At(states, m), Seen(ds, m), day, notify);
        if ChangeOf(At(states, m), Seen(ds, m)).Some? {
          var i :| 0 <= i < |ts| && ts[i].metric == m;
          assert ts[i] in ts;
        }
      }
    }

    /** One turn of the loop: the statement for the row of one transition, and whether to announce it. */
    method ApplyOne(t: Transition, states: map<string, Alert>, seen: Option<Severity>, day: int, notify: set<Change>)
      returns (notifiable: bool)
      requires At(rows, t.metric) == At(states, t.metric)
      requires ChangeOf(At(states, t.metric), seen) == Some(t.change)
      requires t.change != Recovered ==> seen == Some(t.severity)
      modifies this
      ensures At(rows, t.metric) == Next(At(states, t.metric), seen, day, notify)
      ensures forall m :: m != t.metric ==> At(rows, m) == At(old(rows), m)
      ensures notifiable == Announced(At(states, t.metric), seen, day, notify)
    {
      notifiable := t.change in notify;
      if t.change != Recovered {
        if t.metric in states && states[t.metric].notified.Some? && states[t.metric].notified.value >= day {
          notifiable := false;
        }
        if t.metric in rows {
          var row := rows[t.metric];
          rows := rows[t.metric := Alert(t.severity, if row.resolved.None? then row.first else day, day,
                                         if notifiable then Some(day) else row.notified, None)];
        } else {
          rows := rows[t.metric := Alert(t.severity, day, day, if notifiable then Some(day) else None, None)];
        }
      } else if t.metric in rows && rows[t.metric].resolved.None? {
        rows := rows[t.metric := rows[t.metric].(resolved := Some(day))];
      }
    }
  }

  /** A metric without a transition keeps its row and is not announced. */
  lemma UnchangedKeeps(row: Option<Alert>, seen: Option<Severity>, day: int, notify: set<Change>)
    ensures ChangeOf(row, seen).None? ==> Next(row, seen, day, notify) == row && !Announced(row, seen, day, notify)
  {
  }

  // ---- One metric over a whole run --------------------------------------------------------------------

  /** What one evaluation says about the metric. */
  datatype Evaluation = Evaluation(day: int, seen: Option<Severity>)

  /** The metric's row before evaluation n. */
  function RowBefore(es: seq<Evaluation>, notify: set<Change>, n: nat): Option<Alert>
    requires n <= |es|
  {
    if n == 0 then None else Next(RowBefore(es, notify, n - 1), es[n - 1].seen, es[n - 1].day, notify)
  }

  /** What evaluation n announces about the metric. */
  function Announcement(es: seq<Evaluation>, notify: set<Change>, n: nat): Option<Change>
    requires n < |es|
  {
    var row := RowBefore(es, notify, n);
    if Announced(row, es[n].seen, es[n].day, notify) then ChangeOf(row, es[n].seen) else None
  }

  /** A recovery is announced exactly when an open alert closes: once for each opening that was closed. */
  lemma RecoveryClosesOpening(es: seq<Evaluation>, notify: set<Change>, n: nat)
    requires n < |es| && Recovered in notify
    ensures Announcement(es, notify, n) == Some(Recovered)
            <==> Open(RowBefore(es, notify, n)) && !Open(RowBefore(es, notify, n + 1))
  {
  }

  lemma {:induction false} OpenUntilRecovered(es: seq<Evaluation>, notify: set<Change>, i: nat, n: nat)
    requires i <= n <= |es| && Recovered in notify && Open(RowBefore(es, notify, i))
    requires forall k :: i <= k < n ==> Announcement(es, notify, k) != Some(Recovered)
    ensures Open(RowBefore(es, notify, n))
    ensures RowBefore(es, notify, n).value.first == RowBefore(es, notify, i).value.first
    decreases n - i
  {
    if i < n {
      OpenUntilRecovered(es, notify, i, n - 1);
      RecoveryClosesOpening(es, notify, n - 1);
    }
  }

  /** Two announcements of a new alert have the announcement of a recovery between them. */
  lemma RecoveryBetweenNews(es: seq<Evaluation>, notify: set<Change>, i: nat, j: nat)
    requires i < j < |es| && Recovered in notify
    requires Announcement(es, notify, i) == Some(New) && Announcement(es, notify, j) == Some(New)
    ensures exists k :: i < k < j && Announcement(es, notify, k) == Some(Recovered)
  {
    assert Open(RowBefore(es, notify, i + 1));
    if forall k :: i + 1 <= k < j ==> Announcement(es, notify, k) != Some(Recovered) {
      OpenUntilRecovered(es, notify, i + 1, j);
    }
  }

  /** The day an alert was first detected stays the same as long as no recovery is announced. */
  lemma FirstDetectedFixed(es: seq<Evaluation>, notify: set<Change>, i: nat, n: nat)
    requires i <= n <= |es| && Recovered in notify && Open(RowBefore(es, notify, i))
    requires forall k :: i <= k < n ==> Announcement(es, notify, k) != Some(Recovered)
    ensures Open(RowBefore(es, notify, n))
            && RowBefore(es, notify, n).value.first == RowBefore(es, notify, i).value.first
  {
    OpenUntilRecovered(es, notify, i, n);
  }

  /** Once announced for a day, a metric counts as notified for that day ever after. */
  lemma {:induction false} NotifiedStays(es: seq<Evaluation>, notify: set<Change>, i: nat, n: nat)
    requires i < n <= |es|
    requires Announcement(es, notify, i) == Some(New) || Announcement(es, notify, i) == Some(Ongoing)
    ensures AlreadyNotified(RowBefore(es, notify, n), es[i].day)
    decreases n - i
  {
    if i + 1 < n {
      NotifiedStays(es, notify, i, n - 1);
    }
  }

  /**
   Whatever is notified and in whatever order days are evaluated, a metric is announced as new or
   ongoing once a day at most.
   */
  lemma OncePerDay(es: seq<Evaluation>, notify: set<Change>, i: nat, j: nat)
    requires i < j < |es| && es[i].day == es[j].day
    requires Announcement(es, notify, i) == Some(New) || Announcement(es, notify, i) == Some(Ongoing)
    ensures Announcement(es, notify, j) == None || Announcement(es, notify, j) == Some(Recovered)
  {
    NotifiedStays(es, notify, i, j);
  }

  /** An alert that opens is announced exactly unless the metric was already announced for that day or a later one. */
  lemma OpeningAnnouncedExactly(es: seq<Evaluation>, notify: set<Change>, n: nat)
    requires n < |es| && New in notify
    requires !Open(RowBefore(es, notify, n)) && Open(RowBefore(es, notify, n + 1))
    ensures Announcement(es, notify, n) == Some(New) <==> !AlreadyNotified(RowBefore(es, notify, n), es[n].day)
  {
  }

  /** Such an opening exists: an alert that closes and opens again within one day opens unannounced. */
  lemma ReopenedSameDayIsSilent()
    ensures var es := [Evaluation(1, Some(Critical)), Evaluation(1, None), Evaluation(1, Some(Critical))];
            && Announcement(es, DEFAULT_NOTIFY, 0) == Some(New)
            && Announcement(es, DEFAULT_NOTIFY, 1) == Some(Recovered)
            && Announcement(es, DEFAULT_NOTIFY, 2) == None && Open(RowBefore(es, DEFAULT_NOTIFY, 3))
  {
    var es := [Evaluation(1, Some(Critical)), Evaluation(1, None), Evaluation(1, Some(Critical))];
    assert RowBefore(es, DEFAULT_NOTIFY, 1) == Some(Alert(Critical, 1, 1, Some(1), None));
    assert RowBefore(es, DEFAULT_NOTIFY, 2) == Some(Alert(Critical, 1, 1, Some(1), Some(1)));
  }
}
