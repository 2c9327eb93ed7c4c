/**
 Arrival order and redelivery: which stored rows a sequence of deliveries leaves, and
 why the order they came in does not show in the tallies.
 */
module Arrivals {
  import opened Wrappers
  import opened Seqs
  import opened Events
  import opened Derived
  import opened Folds
  import opened Agreement
  import opened Ordered
  import opened Ingestion

  // ---- Arrival order does not matter to the tallies ----------------------------------------------

  lemma {:induction false} TotalRemove(g: seq<Event>, i: nat, f: Event -> int)
    requires i < |g|
    ensures Total(g, f) == f(g[i]) + Total(g[..i] + g[i + 1..], f)
  {
    if i == 0 {
      assert g[..0] + g[1..] == g[1..];
    } else {
      TotalRemove(g[1..], i - 1, f);
      assert (g[..i] + g[i + 1..])[1..] == g[1..][..i - 1] + g[1..][i..];
    }
  }

  lemma {:induction false} TotalPermuted(g: seq<Event>, h: seq<Event>, f: Event -> int)
    requires multiset(g) == multiset(h)
    ensures Total(g, f) == Total(h, f)
  {
    SameLength(g, h);
    if g != [] {
      var i := HeadIn(g, h);
      TotalRemove(h, i, f);
      TotalPermuted(g[1..], h[..i] + h[i + 1..], f);
    }
  }

  lemma SeenPermuted(g: seq<Event>, h: seq<Event>)
    requires g != [] && h != [] && multiset(g) == multiset(h)
    ensures SpanOf(g) == SpanOf(h)
  {
    SameElements(g, h);
    assert forall i :: 0 <= i < |g| ==> g[i] in h;
    assert forall i :: 0 <= i < |h| ==> h[i] in g;
  }

  lemma {:induction false} GroupCounts(s: Site, raw: seq<Event>, k: Key, e: Event)
    ensures multiset(Group(s, raw, k))[e] == if Covers(s, k, e) then multiset(raw)[e] else 0
  {
    if raw != [] {
      GroupCounts(s, raw[1..], k, e);
      assert raw == [raw[0]] + raw[1..];
    }
  }

  lemma GroupPermuted(s: Site, raw: seq<Event>, raw': seq<Event>, k: Key)
    requires multiset(raw) == multiset(raw')
    ensures multiset(Group(s, raw, k)) == multiset(Group(s, raw', k))
  {
    forall e
      ensures multiset(Group(s, raw, k))[e] == multiset(Group(s, raw', k))[e]
    {
      GroupCounts(s, raw, k, e);
      GroupCounts(s, raw', k, e);
    }
  }

  lemma TalliesPermuted(g: seq<Event>, h: seq<Event>, threshold: int)
    requires multiset(g) == multiset(h)
    ensures g == [] <==> h == []
    ensures g != [] ==>
              && VisitorTallyOf(g) == VisitorTallyOf(h)
              && SessionTallyOf(g, threshold) == SessionTallyOf(h, threshold)
    ensures DayTallyOf(g) == DayTallyOf(h) && Total(g, Revenue) == Total(h, Revenue)
  {
    SameLength(g, h);
    if g != [] { SeenPermuted(g, h); }
    TotalPermuted(g, h, Indicator(IsConversion));
    TotalPermuted(g, h, Indicator(IsPageView));
    TotalPermuted(g, h, Indicator(IsHeartbeat));
    TotalPermuted(g, h, Indicator(IsInteraction));
    TotalPermuted(g, h, RebuiltActiveMs);
    TotalPermuted(g, h, RebuiltRevenue);
    TotalPermuted(g, h, Revenue);
  }

  lemma GroupTalliesPermuted(s: Site, raw: seq<Event>, raw': seq<Event>, k: Key)
    requires multiset(raw) == multiset(raw')
    ensures var g, h := Group(s, raw, k), Group(s, raw', k);
            && (g == [] <==> h == [])
            && (g != [] ==> VisitorTallyOf(g) == VisitorTallyOf(h)
                            && SessionTallyOf(g, s.threshold(k.site)) == SessionTallyOf(h, s.threshold(k.site)))
            && DayTallyOf(g).(revenue := Total(g, Revenue)) == DayTallyOf(h).(revenue := Total(h, Revenue))
  {
    GroupPermuted(s, raw, raw', k);
    TalliesPermuted(Group(s, raw, k), Group(s, raw', k), s.threshold(k.site));
  }

  /** The order-free columns two histories have in common. */
  ghost predicate SameCounts(t: Tables, t': Tables) {
    && SameVisits(t.visitors, t'.visitors) && SameVisits(t.dayVisitors, t'.dayVisitors)
    && SameSessions(t.sessions, t'.sessions) && t.days == t'.days
    && SameVisitorSessions(t.visitorSessions, t'.visitorSessions) && SameDaySessions(t.daySessions, t'.daySessions)
    && SameIdentities(t.identities, t'.identities)
  }

  lemma VisitsPermuted(s: Site, raw: seq<Event>, raw': seq<Event>, m: map<Key, VisitorRow>, m': map<Key, VisitorRow>,
                       daily: bool)
    requires multiset(raw) == multiset(raw')
    requires VisitsTally(s, raw, m, daily) && VisitsTally(s, raw', m', daily)
    ensures SameVisits(m, m')
  {
    forall k
      ensures k in m <==> k in m'
      ensures k in m && k in m' ==> m[k].tally == m'[k].tally
    {
      GroupTalliesPermuted(s, raw, raw', k);
    }
  }

  lemma SessionsPermuted(s: Site, raw: seq<Event>, raw': seq<Event>, m: map<Key, SessionRow>, m': map<Key, SessionRow>)
    requires multiset(raw) == multiset(raw')
    requires SessionsTally(s, raw, m) && SessionsTally(s, raw', m')
    ensures SameSessions(m, m')
  {
    forall k
      ensures k in m <==> k in m'
      ensures k in m && k in m' ==> m[k].tally == m'[k].tally
    {
      GroupTalliesPermuted(s, raw, raw', k);
    }
  }

  lemma GroupSpanPermuted(s: Site, raw: seq<Event>, raw': seq<Event>, k: Key)
    requires multiset(raw) == multiset(raw')
    ensures Group(s, raw, k) == [] <==> Group(s, raw', k) == []
    ensures Group(s, raw, k) != [] ==> SpanOf(Group(s, raw, k)) == SpanOf(Group(s, raw', k))
    ensures Latest(Group(s, raw, k), UserOf).Some? <==> Latest(Group(s, raw', k), UserOf).Some?
  {
    hide SpanOf;
    GroupPermuted(s, raw, raw', k);
    var g, h := Group(s, raw, k), Group(s, raw', k);
    SameLength(g, h);
    if g != [] {
      SeenPermuted(g, h);
    }
    NamedPermuted(g, h);
    NamedPermuted(h, g);
  }

  lemma NamedPermuted(g: seq<Event>, h: seq<Event>)
    requires multiset(g) == multiset(h)
    ensures Latest(g, UserOf).Some? ==> Latest(h, UserOf).Some?
  {
    SameElements(g, h);
    if LatestAt(g, UserOf).Some? {
      var e := g[LatestAt(g, UserOf).value];
      assert e in h;
      var i :| 0 <= i < |h| && h[i] == e;
      assert UserOf(h[i]).Some?;
    }
  }

  lemma VisitorSessionsPermuted(s: Site, raw: seq<Event>, raw': seq<Event>,
                                m: map<Key, VisitorSessionRow>, m': map<Key, VisitorSessionRow>)
    requires multiset(raw) == multiset(raw')
    requires VisitorSessionsTally(s, raw, m) && VisitorSessionsTally(s, raw', m')
    ensures SameVisitorSessions(m, m')
  {
    hide SpanOf, Group;
    forall k
      ensures k in m <==> k in m'
      ensures k in m && k in m' ==> m[k].span == m'[k].span
    {
      GroupSpanPermuted(s, raw, raw', k);
    }
  }

  lemma DaySessionsPermuted(s: Site, raw: seq<Event>, raw': seq<Event>, m: map<Key, DaySessionRow>,
                            m': map<Key, DaySessionRow>)
    requires multiset(raw) == multiset(raw')
    requires DaySessionsTally(s, raw, m) && DaySessionsTally(s, raw', m')
    ensures SameDaySessions(m, m')
  {
    hide SpanOf, Group;
    forall k
      ensures k in m <==> k in m'
      ensures k in m && k in m' ==> m[k].span == m'[k].span
    {
      GroupSpanPermuted(s, raw, raw', k);
    }
  }

  lemma IdentitiesPermuted(s: Site, raw: seq<Event>, raw': seq<Event>, m: map<Key, Identity>, m': map<Key, Identity>)
    requires multiset(raw) == multiset(raw')
    requires IdentityKeys(s, raw, m) && IdentityKeys(s, raw', m')
    ensures SameIdentities(m, m')
  {
    hide Latest, Group;
    forall k
      ensures k in m <==> k in m'
    {
      GroupSpanPermuted(s, raw, raw', k);
    }
  }

  lemma DaysPermuted(s: Site, raw: seq<Event>, raw': seq<Event>, m: map<Key, DayTally>, m': map<Key, DayTally>)
    requires multiset(raw) == multiset(raw')
    requires DaysTally(s, raw, m) && DaysTally(s, raw', m')
    ensures m == m'
  {
    forall k
      ensures k in m <==> k in m'
      ensures k in m && k in m' ==> m[k] == m'[k]
    {
      GroupTalliesPermuted(s, raw, raw', k);
    }
  }

  lemma CountsKept(s: Site, raw: seq<Event>)
    ensures var t := FoldAll(s, raw);
            && VisitsTally(s, raw, t.visitors, false) && VisitsTally(s, raw, t.dayVisitors, true)
            && SessionsTally(s, raw, t.sessions)
            && VisitorSessionsTally(s, raw, t.visitorSessions) && DaySessionsTally(s, raw, t.daySessions)
            && DaysTally(s, raw, t.days)
            && IdentityKeys(s, raw, t.identities)
  {
    hide FoldAll, VisitsTally, SessionsTally, VisitorSessionsTally, DaySessionsTally, DaysTally, SessionsNamed,
         DaySessionsNamed, SessionsNameLast, DaySessionsNameLast, VisitsProps, SessionsJourney, UsersLinked,
         IdentityKeys, IdentityMatches;
    KeptAlways(s, raw);
  }

  /** Two arrival orders of the same rows leave the same rows in every table, with the same order-free columns. */
  lemma ArrivalOrderDoesNotMatter(s: Site, raw: seq<Event>, raw': seq<Event>)
    requires multiset(raw) == multiset(raw')
    ensures SameCounts(FoldAll(s, raw), FoldAll(s, raw'))
  {
    hide FoldAll, VisitsTally, SessionsTally, VisitorSessionsTally, DaySessionsTally, DaysTally, IdentityKeys,
         SameVisits, SameSessions, SameVisitorSessions, SameDaySessions, SameIdentities;
    var t, t' := FoldAll(s, raw), FoldAll(s, raw');
    CountsKept(s, raw);
    CountsKept(s, raw');
    VisitsPermuted(s, raw, raw', t.visitors, t'.visitors, false);
    VisitsPermuted(s, raw, raw', t.dayVisitors, t'.dayVisitors, true);
    SessionsPermuted(s, raw, raw', t.sessions, t'.sessions);
    DaysPermuted(s, raw, raw', t.days, t'.days);
    VisitorSessionsPermuted(s, raw, raw', t.visitorSessions, t'.visitorSessions);
    DaySessionsPermuted(s, raw, raw', t.daySessions, t'.daySessions);
    IdentitiesPermuted(s, raw, raw', t.identities, t'.identities);
  }

  // ---- Redelivery -----------------------------------------------------------------------------------

  predicate SameId(a: Event, b: Event) { a.site == b.site && a.eventId == b.eventId }

  /** INSERT .. ON CONFLICT(site_id,event_id) DO NOTHING finds a row. */
  predicate Stored(raw: seq<Event>, e: Event) {
    exists i :: 0 <= i < |raw| && SameId(raw[i], e)
  }

  /** The raw rows a sequence of deliveries leaves behind: the first delivery of each id. */
  function Accepted(deliveries: seq<Event>): seq<Event> {
    if deliveries == [] then []
    else
      var before, e := Accepted(deliveries[..|deliveries| - 1]), deliveries[|deliveries| - 1];
      if Stored(before, e) then before else before + [e]
  }

  ghost predicate DistinctIds(raw: seq<Event>) {
    forall i, j :: 0 <= i < j < |raw| ==> !SameId(raw[i], raw[j])
  }

  lemma {:induction false} AcceptedOnce(deliveries: seq<Event>)
    ensures DistinctIds(Accepted(deliveries))
    ensures forall e :: e in Accepted(deliveries) ==> e in deliveries
    ensures forall i :: 0 <= i < |deliveries| ==> Stored(Accepted(deliveries), deliveries[i])
  {
    if deliveries != [] {
      var init, e := deliveries[..|deliveries| - 1], deliveries[|deliveries| - 1];
      AcceptedOnce(init);
      var before, after := Accepted(init), Accepted(deliveries);
      assert deliveries == init + [e];
      assert before <= after;
      forall i | 0 <= i < |deliveries|
        ensures Stored(after, deliveries[i])
      {
        if i < |init| {
          assert Stored(before, init[i]);
          var j :| 0 <= j < |before| && SameId(before[j], init[i]);
          assert after[j] == before[j];
        } else if !Stored(before, e) {
          assert after[|before|] == e;
        }
      }
    }
  }

  /** An id always carries the same event. */
  ghost predicate OneEventPerId(deliveries: seq<Event>) {
    forall i, j :: 0 <= i < |deliveries| && 0 <= j < |deliveries| && SameId(deliveries[i], deliveries[j]) ==>
      deliveries[i] == deliveries[j]
  }

  lemma AcceptedHasEach(deliveries: seq<Event>)
    requires OneEventPerId(deliveries)
    ensures Distinct(Accepted(deliveries))
    ensures forall e :: e in Accepted(deliveries) <==> e in deliveries
  {
    var raw := Accepted(deliveries);
    AcceptedOnce(deliveries);
    forall e | e in deliveries
      ensures e in raw
    {
      var i :| 0 <= i < |deliveries| && deliveries[i] == e;
      var j :| 0 <= j < |raw| && SameId(raw[j], e);
      assert raw[j] in deliveries;
      var n :| 0 <= n < |deliveries| && deliveries[n] == raw[j];
      assert raw[j] == e;
    }
  }

  lemma SameDeliveries(once: seq<Event>, again: seq<Event>)
    requires OneEventPerId(once)
    requires forall e :: e in once <==> e in again
    ensures OneEventPerId(again)
  {
    forall i, j | 0 <= i < |again| && 0 <= j < |again| && SameId(again[i], again[j])
      ensures again[i] == again[j]
    {
      assert again[i] in once && again[j] in once;
      var a :| 0 <= a < |once| && once[a] == again[i];
      var b :| 0 <= b < |once| && once[b] == again[j];
    }
  }

  /** Redelivering events, in any order and any number of times, leaves the same tables. */
  lemma RedeliveryDoesNotMatter(s: Site, once: seq<Event>, again: seq<Event>)
    requires OneEventPerId(once)
    requires forall e :: e in once <==> e in again
    ensures SameCounts(FoldAll(s, Accepted(once)), FoldAll(s, Accepted(again)))
  {
    SameDeliveries(once, again);
    AcceptedHasEach(once);
    AcceptedHasEach(again);
    DistinctPermutation(Accepted(once), Accepted(again));
    ArrivalOrderDoesNotMatter(s, Accepted(once), Accepted(again));
  }
}
