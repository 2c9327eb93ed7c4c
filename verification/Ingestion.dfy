/**
 The main results on ingestion: the tables the collector has folded one event at a
 time against the tables the rebuild computes from the stored raw events.
 */
module Ingestion {
  import opened Wrappers
  import opened Events
  import opened Derived
  import opened Folds
  import opened Agreement
  import opened Ordered

  /** Everything the fold keeps, whatever the arrival order. */
  ghost predicate Kept(s: Site, raw: seq<Event>, t: Tables) {
    && VisitsTally(s, raw, t.visitors, false) && VisitsTally(s, raw, t.dayVisitors, true)
    && SessionsTally(s, raw, t.sessions) && VisitorSessionsTally(s, raw, t.visitorSessions)
    && DaySessionsTally(s, raw, t.daySessions) && DaysTally(s, raw, t.days)
    && UsersLinked(t)
    && SessionsNamed(s, raw, t.sessions) && DaySessionsNamed(s, raw, t.daySessions, t.identities)
    && SessionsNameLast(s, raw, t.sessions) && DaySessionsNameLast(s, raw, t.daySessions, t.identities)
    && VisitsProps(s, raw, t.visitors) && VisitsProps(s, raw, t.dayVisitors)
    && SessionsJourney(s, raw, t.sessions) && IdentitiesMatch(s, raw, t.identities)
  }

  lemma KeptStep(s: Site, raw: seq<Event>, t: Tables, e: Event)
    requires Kept(s, raw, t)
    ensures Kept(s, raw + [e], Fold(s, t, e))
  {
    hide VisitsTally, SessionsTally, VisitorSessionsTally, DaySessionsTally, DaysTally, SessionsNamed, DaySessionsNamed,
         SessionsNameLast, DaySessionsNameLast, VisitsProps, SessionsJourney, IdentitiesMatch, FoldVisits, FoldSessions,
         FoldVisitorSessions, FoldDaySessions, FoldDays, FoldIdentities, Link, Relinked;
    var link, user := Link(t, e), Canonical(t, e);
    IdentityAfter(t, e);
    VisitsStep(s, raw, t.visitors, e, false, link, Coalesce(link, e.user));
    VisitsStep(s, raw, t.dayVisitors, e, true, link, user);
    SessionsStep(s, raw, t.sessions, e, user);
    VisitorSessionsStep(s, raw, t.visitorSessions, e, link, user);
    DaySessionsStep(s, raw, t.daySessions, e, link, user);
    DaysStep(s, raw, t.days, e);
    UsersStep(s, t, e);
    SessionsNamedStep(s, raw, t.sessions, e, user);
    DaySessionsNamedStep(s, raw, t.daySessions, e, t.identities, FoldIdentities(t, e), link);
    SessionsNameLastStep(s, raw, t.sessions, e, user);
    DaySessionsNameLastStep(s, raw, t.daySessions, e, t.identities, FoldIdentities(t, e), link);
    VisitsPropsStep(s, raw, t.visitors, e, false, link, Coalesce(link, e.user));
    VisitsPropsStep(s, raw, t.dayVisitors, e, true, link, user);
    JourneyStep(s, raw, t.sessions, e, user);
    IdentitiesStep(s, raw, t, e);
  }

  lemma NothingKept(s: Site)
    ensures Kept(s, [], NO_TABLES)
  {
  }

  lemma {:induction false} KeptAlways(s: Site, raw: seq<Event>)
    ensures Kept(s, raw, FoldAll(s, raw))
  {
    hide Kept, Fold;
    if raw == [] {
      NothingKept(s);
    } else {
      var prefix, e := raw[..|raw| - 1], raw[|raw| - 1];
      assert raw == prefix + [e];
      KeptAlways(s, prefix);
      KeptStep(s, prefix, FoldAll(s, prefix), e);
    }
  }

  // ---- Any arrival order ------------------------------------------------------------------------

  ghost predicate SameVisits(a: map<Key, VisitorRow>, b: map<Key, VisitorRow>) {
    && (forall k :: k in a <==> k in b)
    && (forall k :: k in a && k in b ==> a[k].tally == b[k].tally)
  }

  ghost predicate SameSessions(a: map<Key, SessionRow>, b: map<Key, SessionRow>) {
    && (forall k :: k in a <==> k in b)
    && (forall k :: k in a && k in b ==> a[k].tally == b[k].tally)
  }

  ghost predicate SameVisitorSessions(a: map<Key, VisitorSessionRow>, b: map<Key, VisitorSessionRow>) {
    && (forall k :: k in a <==> k in b)
    && (forall k :: k in a && k in b ==> a[k].span == b[k].span)
  }

  ghost predicate SameDaySessions(a: map<Key, DaySessionRow>, b: map<Key, DaySessionRow>) {
    && (forall k :: k in a <==> k in b)
    && (forall k :: k in a && k in b ==> a[k].span == b[k].span)
  }

  ghost predicate SameDays(a: map<Key, DayTally>, b: map<Key, DayTally>) {
    && (forall k :: k in a <==> k in b)
    && (forall k :: k in a && k in b ==> a[k].(revenue := 0) == b[k].(revenue := 0))
  }

  ghost predicate SameIdentities(a: map<Key, Identity>, b: map<Key, Identity>) {
    forall k :: k in a <==> k in b
  }

  /** The two sets of tables have the same rows and agree on every column that cannot depend on order. */
  ghost predicate SameTallies(a: Tables, b: Tables) {
    && SameVisits(a.visitors, b.visitors) && SameVisits(a.dayVisitors, b.dayVisitors)
    && SameSessions(a.sessions, b.sessions) && SameVisitorSessions(a.visitorSessions, b.visitorSessions)
    && SameDaySessions(a.daySessions, b.daySessions) && SameDays(a.days, b.days)
    && SameIdentities(a.identities, b.identities)
  }

  lemma VisitorsEqual(s: Site, raw: seq<Event>, m: map<Key, VisitorRow>)
    requires VisitsTally(s, raw, m, false)
    ensures SameVisits(m, RebuildVisitors(s, raw))
  {
    hide Group, VisitorTallyOf, Latest, LatestUserProps;
  }

  lemma DayVisitorsEqual(s: Site, raw: seq<Event>, m: map<Key, VisitorRow>)
    requires VisitsTally(s, raw, m, true)
    ensures SameVisits(m, RebuildDayVisitors(s, raw))
  {
    hide Group, VisitorTallyOf, Latest, LatestUserProps;
  }

  lemma SessionsEqual(s: Site, raw: seq<Event>, m: map<Key, SessionRow>)
    requires SessionsTally(s, raw, m)
    ensures SameSessions(m, RebuildSessions(s, raw))
  {
    hide Group, SessionTallyOf, JourneyOf, Latest, EarliestVisitor;
  }

  lemma VisitorSessionsEqual(s: Site, raw: seq<Event>, m: map<Key, VisitorSessionRow>)
    requires VisitorSessionsTally(s, raw, m)
    ensures SameVisitorSessions(m, RebuildVisitorSessions(s, raw))
  {
    hide Group, SpanOf, Latest;
  }

  lemma DaySessionsEqual(s: Site, raw: seq<Event>, m: map<Key, DaySessionRow>)
    requires DaySessionsTally(s, raw, m)
    ensures SameDaySessions(m, RebuildDaySessions(s, raw))
  {
    hide Group, SpanOf, Latest, EarliestVisitor;
  }

  lemma DaysEqual(s: Site, raw: seq<Event>, m: map<Key, DayTally>)
    requires DaysTally(s, raw, m)
    ensures SameDays(m, RebuildDays(s, raw))
  {
    hide Group;
  }

  lemma IdentitiesEqual(s: Site, raw: seq<Event>, m: map<Key, Identity>)
    requires IdentitiesMatch(s, raw, m)
    ensures SameIdentities(m, RebuildIdentities(s, raw))
  {
    hide Group, Latest, IdentityOf;
  }

  /** For every arrival order the folded tables and the rebuilt ones agree on every order-free column. */
  lemma TalliesEqualRebuild(s: Site, raw: seq<Event>)
    ensures SameTallies(FoldAll(s, raw), Rebuild(s, raw))
  {
    hide FoldAll, VisitsTally, SessionsTally, VisitorSessionsTally, DaySessionsTally, DaysTally, IdentitiesMatch;
    hide SameVisits, SameSessions, SameVisitorSessions, SameDaySessions, SameDays, SameIdentities;
    hide UsersLinked, SessionsNamed, DaySessionsNamed, VisitsProps, SessionsJourney, Group, Latest;
    KeptAlways(s, raw);
    var t := FoldAll(s, raw);
    VisitorsEqual(s, raw, t.visitors);
    DayVisitorsEqual(s, raw, t.dayVisitors);
    SessionsEqual(s, raw, t.sessions);
    VisitorSessionsEqual(s, raw, t.visitorSessions);
    DaySessionsEqual(s, raw, t.daySessions);
    DaysEqual(s, raw, t.days);
    IdentitiesEqual(s, raw, t.identities);
  }

  /**
   A day's folded row is the rebuilt one plus what the collector alone reads from the day's
   split purchases, so the two agree exactly when those amounts cancel out.
   */
  lemma RevenueEqualsRebuild(s: Site, raw: seq<Event>, k: Key)
    requires k in FoldAll(s, raw).days
    ensures k in Rebuild(s, raw).days
    ensures var a, b := FoldAll(s, raw).days[k], Rebuild(s, raw).days[k];
            && a == b.(revenue := b.revenue + Total(Group(s, raw, k), SplitAmount))
            && (a == b <==> Total(Group(s, raw, k), SplitAmount) == 0)
  {
    hide FoldAll, DaysTally, Rebuild, Total, Group;
    DaysKept(s, raw);
    DayRevenueDiffers(s, raw, FoldAll(s, raw).days, k);
    RebuildsDays(s, raw);
  }

  /** So a day without a split purchase has the rebuilt row. */
  lemma UnsplitDayEqualsRebuild(s: Site, raw: seq<Event>, k: Key)
    requires k in FoldAll(s, raw).days && forall e :: e in Group(s, raw, k) ==> !SplitRevenue(e)
    ensures k in Rebuild(s, raw).days && FoldAll(s, raw).days[k] == Rebuild(s, raw).days[k]
  {
    hide FoldAll, Rebuild, Total, Group;
    RevenueEqualsRebuild(s, raw, k);
    NothingSplit(Group(s, raw, k));
  }

  lemma RebuildsDays(s: Site, raw: seq<Event>)
    ensures Rebuild(s, raw).days == RebuildDays(s, raw)
  {
    hide Group;
  }

  lemma DaysKept(s: Site, raw: seq<Event>)
    ensures DaysTally(s, raw, FoldAll(s, raw).days)
  {
    hide FoldAll, VisitsTally, SessionsTally, VisitorSessionsTally, DaySessionsTally, DaysTally, SessionsNamed,
         DaySessionsNamed, SessionsNameLast, DaySessionsNameLast, VisitsProps, SessionsJourney, IdentitiesMatch,
         UsersLinked;
    KeptAlways(s, raw);
  }

  lemma DayRevenueDiffers(s: Site, raw: seq<Event>, m: map<Key, DayTally>, k: Key)
    requires DaysTally(s, raw, m) && k in m
    ensures k in RebuildDays(s, raw)
    ensures var b := RebuildDays(s, raw)[k]; m[k] == b.(revenue := b.revenue + Total(Group(s, raw, k), SplitAmount))
  {
    hide Group;
    RevenueTotalsDiffer(Group(s, raw, k));
  }

  // ---- In timestamp order ------------------------------------------------------------------------

  lemma {:induction false} GroupInOrder(s: Site, raw: seq<Event>, k: Key)
    requires InOrder(raw)
    ensures InOrder(Group(s, raw, k))
  {
    if raw != [] {
      assert forall i :: 0 <= i < |raw[1..]| ==> raw[1..][i] == raw[i + 1];
      GroupInOrder(s, raw[1..], k);
      GroupMembers(s, raw[1..], k);
      var rest := Group(s, raw[1..], k);
      forall i | 0 <= i < |rest|
        ensures raw[0].ts <= rest[i].ts
      {
        assert rest[i] in raw[1..];
      }
    }
  }

  /** A finer grouping groups the rows of the coarser one. */
  lemma {:induction false} GroupWithin(s: Site, raw: seq<Event>, k: Key, outer: Key)
    requires forall e :: Covers(s, k, e) ==> Covers(s, outer, e)
    ensures Group(s, Group(s, raw, outer), k) == Group(s, raw, k)
  {
    hide Covers;
    if raw != [] {
      GroupWithin(s, raw[1..], k, outer);
      var rest := Group(s, raw[1..], outer);
      assert Group(s, raw, outer) == (if Covers(s, outer, raw[0]) then [raw[0]] else []) + rest;
      if Covers(s, outer, raw[0]) {
        assert ([raw[0]] + rest)[1..] == rest;
      } else {
        assert [] + rest == rest && [] + Group(s, raw[1..], k) == Group(s, raw[1..], k);
      }
    }
  }

  lemma InOrderWithin(s: Site, raw: seq<Event>, k: Key, outer: Key)
    requires forall e :: Covers(s, k, e) ==> Covers(s, outer, e)
    requires InOrder(Group(s, raw, outer))
    ensures InOrder(Group(s, raw, k))
  {
    GroupWithin(s, raw, k, outer);
    GroupInOrder(s, Group(s, raw, outer), k);
  }

  /** The rebuilt identity table names the user the folded one does, for visitors that arrived in order. */
  lemma IdentityEqualsRebuild(s: Site, raw: seq<Event>, k: Key)
    requires k in FoldAll(s, raw).identities && InOrder(Group(s, raw, k))
    ensures k in Rebuild(s, raw).identities
    ensures var a, b := FoldAll(s, raw).identities[k], Rebuild(s, raw).identities[k];
            && a.user == b.user && a.first == b.first && a.last == b.last
            && (a.linked == b.linked <==> !Reassigned(Group(s, raw, k), a.user))
  {
    hide FoldAll, Group, Latest, Reassigned, IsRunStart;
    KeptAlways(s, raw);
    LinkedAtAgreesExactly(Group(s, raw, k), FoldAll(s, raw).identities[k]);
  }

  /**
   A visitor that comes back to its first user: the fold dates the link from the return, the
   rebuild from the first time.
   */
  lemma ReturnIsLinkedAgain(s: Site, a: Event, b: Event, c: Event)
    requires VisitorOf(a) == VisitorOf(b) == VisitorOf(c) && a.ts < b.ts < c.ts
    requires a.user.Some? && a.user == c.user && b.user.Some? && b.user != a.user
    ensures var t, r, k := FoldAll(s, [a, b, c]), Rebuild(s, [a, b, c]), VisitorOf(a);
            && k in t.identities && k in r.identities && t.identities[k].user == r.identities[k].user == a.user.value
            && t.identities[k].linked != r.identities[k].linked
  {
    hide FoldAll, Rebuild, Latest, Reassigned, Group, InOrder;
    var k, raw := VisitorOf(a), [a, b, c];
    OneGroup(s, a, b, c);
    ReturnReassigns(a, b, c);
    IdentityThere(s, raw, k);
    IdentityEqualsRebuild(s, raw, k);
  }

  lemma OneGroup(s: Site, a: Event, b: Event, c: Event)
    requires VisitorOf(a) == VisitorOf(b) == VisitorOf(c)
    ensures Group(s, [a, b, c], VisitorOf(a)) == [a, b, c]
  {
    assert [a, b, c][1..] == [b, c] && [b, c][1..] == [c] && [c][1..] == [];
    assert Group(s, [c], VisitorOf(a)) == [c] + [] == [c];
  }

  lemma ReturnReassigns(a: Event, b: Event, c: Event)
    requires a.ts < b.ts < c.ts && a.user.Some? && a.user == c.user && b.user.Some? && b.user != a.user
    ensures InOrder([a, b, c]) && Latest([a, b, c], UserOf) == a.user && Reassigned([a, b, c], a.user.value)
  {
    var raw := [a, b, c];
    LastRowsValue(raw, UserOf);
    assert raw[0].user == Some(a.user.value) && raw[1].user != Some(a.user.value);
  }

  lemma IdentityThere(s: Site, raw: seq<Event>, k: Key)
    requires k.VisitorKey? && Latest(Group(s, raw, k), UserOf).Some?
    ensures k in FoldAll(s, raw).identities && Rebuild(s, raw).identities == RebuildIdentities(s, raw)
    ensures k in RebuildIdentities(s, raw)
            && Some(RebuildIdentities(s, raw)[k].user) == Latest(Group(s, raw, k), UserOf)
  {
    hide FoldAll, Group, Latest, VisitsTally, SessionsTally, VisitorSessionsTally, DaySessionsTally, DaysTally,
         SessionsNamed, DaySessionsNamed, SessionsNameLast, DaySessionsNameLast, VisitsProps, SessionsJourney,
         UsersLinked, IdentityMatches;
    KeptAlways(s, raw);
  }

  /** The user a summary exposes is the rebuilt identity's, for a visitor that arrived in order. */
  lemma LinkedUserEqualsRebuild(s: Site, raw: seq<Event>, site: string, visitor: string)
    requires InOrder(Group(s, raw, VisitorKey(site, visitor)))
    ensures IdentityUser(FoldAll(s, raw).identities, site, visitor) == RebuiltUser(s, raw, site, visitor)
  {
    KeptAlways(s, raw);
    var k := VisitorKey(site, visitor);
    if k in FoldAll(s, raw).identities {
      IdentityEqualsRebuild(s, raw, k);
    }
  }

  lemma VisitorEqualsRebuild(s: Site, raw: seq<Event>, k: Key)
    requires k in FoldAll(s, raw).visitors && InOrder(Group(s, raw, k))
    ensures k in Rebuild(s, raw).visitors && FoldAll(s, raw).visitors[k] == Rebuild(s, raw).visitors[k]
  {
    KeptAlways(s, raw);
    LinkedUserEqualsRebuild(s, raw, k.site, k.visitor);
  }

  /** A visitor nobody ever identified has no user on any of its rows. */
  lemma NeverIdentified(s: Site, raw: seq<Event>, k: Key)
    requires k.DayVisitorKey? || k.DaySessionKey?
    ensures k.DayVisitorKey? && RebuiltUser(s, raw, k.site, k.visitor).None? ==> Latest(Group(s, raw, k), UserOf).None?
    ensures forall v :: k.DaySessionKey? && OneVisitor(Group(s, raw, k), v) && RebuiltUser(s, raw, k.site, v).None? ==>
              Latest(Group(s, raw, k), UserOf).None?
  {
    var g := Group(s, raw, k);
    GroupMembers(s, raw, k);
    match LatestAt(g, UserOf)
    case None =>
    case Some(i) =>
      var v := g[i].visitor;
      assert g[i] in g;
      GroupMembers(s, raw, VisitorKey(k.site, v));
      var h := Group(s, raw, VisitorKey(k.site, v));
      assert g[i] in h;
      var j :| 0 <= j < |h| && h[j] == g[i];
      assert UserOf(h[j]).Some?;
      assert RebuiltUser(s, raw, k.site, v).Some?;
      assert k.DaySessionKey? ==> forall w :: OneVisitor(g, w) ==> w == v;
  }

  lemma DayVisitorEqualsRebuild(s: Site, raw: seq<Event>, k: Key)
    requires k in FoldAll(s, raw).dayVisitors && k.DayVisitorKey?
    requires InOrder(Group(s, raw, VisitorKey(k.site, k.visitor)))
    ensures k in Rebuild(s, raw).dayVisitors && FoldAll(s, raw).dayVisitors[k] == Rebuild(s, raw).dayVisitors[k]
  {
    KeptAlways(s, raw);
    InOrderWithin(s, raw, k, VisitorKey(k.site, k.visitor));
    LinkedUserEqualsRebuild(s, raw, k.site, k.visitor);
    NeverIdentified(s, raw, k);
  }

  lemma EarliestVisitorNamed(g: seq<Event>, v: string)
    requires g != [] && OneVisitor(g, v)
    ensures EarliestVisitor(g) == v
  {
    var f := (e: Event) => Some(e.visitor);
    assert f(g[0]).Some?;
  }

  /** In order, the fold names the session's last visitor and the rebuild its first. */
  lemma SessionEqualsRebuild(s: Site, raw: seq<Event>, k: Key)
    requires k in FoldAll(s, raw).sessions && InOrder(Group(s, raw, k))
    ensures k in Rebuild(s, raw).sessions && Group(s, raw, k) != []
    ensures var a, b, g := FoldAll(s, raw).sessions[k], Rebuild(s, raw).sessions[k], Group(s, raw, k);
            && a.tally == b.tally && a.journey == b.journey
            && a.visitor == g[|g| - 1].visitor && b.visitor == g[0].visitor
  {
    hide FoldAll, UsersLinked, VisitsTally, VisitorSessionsTally, DaySessionsTally, DaysTally, DaySessionsNamed,
         DaySessionsNameLast, VisitsProps, IdentitiesMatch, SessionTallyOf, JourneyOf, EarliestVisitor, Latest, Group;
    KeptAlways(s, raw);
    FirstRowsVisitor(Group(s, raw, k));
  }

  lemma RebuiltDaySessionUser(s: Site, raw: seq<Event>, k: Key, v: string)
    requires k.DaySessionKey? && Group(s, raw, k) != [] && OneVisitor(Group(s, raw, k), v)
    ensures RebuiltDaySession(s, raw, k).visitor == v
    ensures RebuiltDaySession(s, raw, k).user == RebuiltUser(s, raw, k.site, v)
  {
    var g := Group(s, raw, k);
    GroupMembers(s, raw, k);
    EarliestVisitorNamed(g, v);
    var identified := (e: Event) => RebuiltUser(s, raw, e.site, e.visitor);
    forall i | 0 <= i < |g|
      ensures identified(g[i]) == RebuiltUser(s, raw, k.site, v)
    {
      assert g[i] in g;
    }
    NeverIdentified(s, raw, k);
    assert identified(g[0]) == RebuiltUser(s, raw, k.site, v);
    match LatestAt(g, identified)
    case None =>
    case Some(i) =>
  }

  lemma DaySessionEqualsRebuild(s: Site, raw: seq<Event>, k: Key, v: string)
    requires k in FoldAll(s, raw).daySessions && k.DaySessionKey?
    requires OneVisitor(Group(s, raw, k), v) && InOrder(Group(s, raw, VisitorKey(k.site, v)))
    ensures k in Rebuild(s, raw).daySessions && FoldAll(s, raw).daySessions[k] == Rebuild(s, raw).daySessions[k]
  {
    KeptAlways(s, raw);
    LinkedUserEqualsRebuild(s, raw, k.site, v);
    RebuiltDaySessionUser(s, raw, k, v);
  }

  /**
   A daily session in order, whatever visitors it holds: the fold names the last one and the
   rebuild the first, and once the last one is identified both expose its user.
   */
  lemma DaySessionOfSeveral(s: Site, raw: seq<Event>, k: Key)
    requires k in FoldAll(s, raw).daySessions && k.DaySessionKey? && InOrder(Group(s, raw, k))
    ensures k in Rebuild(s, raw).daySessions && Group(s, raw, k) != []
    ensures var a, b, g := FoldAll(s, raw).daySessions[k], Rebuild(s, raw).daySessions[k], Group(s, raw, k);
            && a.span == b.span && a.visitor == g[|g| - 1].visitor && b.visitor == g[0].visitor
            && (InOrder(Group(s, raw, VisitorKey(k.site, a.visitor)))
                && RebuiltUser(s, raw, k.site, a.visitor).Some? ==>
                  a.user == b.user == RebuiltUser(s, raw, k.site, a.visitor))
  {
    hide FoldAll, UsersLinked, VisitsTally, SessionsTally, VisitorSessionsTally, DaysTally, SessionsNamed,
         SessionsNameLast, DaySessionsNamed, VisitsProps, SessionsJourney, IdentitiesMatch, EarliestVisitor, Latest,
         SpanOf, Group;
    KeptAlways(s, raw);
    var g := Group(s, raw, k);
    FirstRowsVisitor(g);
    var w := FoldAll(s, raw).daySessions[k].visitor;
    if InOrder(Group(s, raw, VisitorKey(k.site, w))) && RebuiltUser(s, raw, k.site, w).Some? {
      LinkedUserEqualsRebuild(s, raw, k.site, w);
      GroupMembers(s, raw, k);
      assert g[|g| - 1] in g;
      LastRowsValue(g, (e: Event) => RebuiltUser(s, raw, e.site, e.visitor));
    }
  }

  // ---- The user of a session ------------------------------------------------------------------------

  /** The raw rows up to the last one that falls under the key. */
  function Through(s: Site, raw: seq<Event>, k: Key): (r: seq<Event>)
    ensures r <= raw
  {
    if raw == [] || Covers(s, k, raw[|raw| - 1]) then raw else Through(s, raw[..|raw| - 1], k)
  }

  lemma ThroughAppend(s: Site, raw: seq<Event>, e: Event, k: Key)
    ensures Through(s, raw + [e], k) == if Covers(s, k, e) then raw + [e] else Through(s, raw, k)
  {
    assert (raw + [e])[..|raw|] == raw;
  }

  /** The session exposes the user its visitor was linked to at this moment. */
  ghost predicate UserAsOf(sessions: map<Key, SessionRow>, ids: map<Key, Identity>, k: Key, v: string) {
    k in sessions && sessions[k].user == IdentityUser(ids, k.site, v)
  }

  lemma SessionUserStep(s: Site, raw: seq<Event>, t: Tables, e: Event, k: Key, v: string)
    requires VisitsLinked(t.visitors, t.identities)
    requires k.SessionKey? && k.site == e.site && v == e.visitor && k == SessionOf(e)
    requires k in t.sessions && IdentityUser(t.identities, k.site, v).None? ==> t.sessions[k].user.None?
    ensures UserAsOf(Fold(s, t, e).sessions, Fold(s, t, e).identities, k, v)
  {
    hide VisitsLinked, FirstTally, NextTally, FirstJourney, NextJourney, FoldIdentities, Link, FoldVisits,
         FoldVisitorSessions, FoldDaySessions, FoldDays;
    IdentityAfter(t, e);
  }

  /** A session row changes with events of its own only; an identity, once there, stays. */
  lemma OtherSessionStep(s: Site, t: Tables, e: Event, k: Key, site: string, v: string)
    requires VisitsLinked(t.visitors, t.identities)
    ensures k != SessionOf(e) ==> At(Fold(s, t, e).sessions, k) == At(t.sessions, k)
    ensures IdentityUser(t.identities, site, v).Some? ==> IdentityUser(Fold(s, t, e).identities, site, v).Some?
  {
    hide VisitsLinked, FirstTally, NextTally, FirstJourney, NextJourney, FoldVisits, FoldVisitorSessions,
         FoldDaySessions, FoldDays, VisitSession;
    IdentityAfter(t, e);
  }

  lemma VisitsLinkedKept(s: Site, raw: seq<Event>)
    ensures VisitsLinked(FoldAll(s, raw).visitors, FoldAll(s, raw).identities)
    ensures SessionsTally(s, raw, FoldAll(s, raw).sessions)
    ensures VisitorSessionsTally(s, raw, FoldAll(s, raw).visitorSessions)
    ensures VisitorSessionsLinked(FoldAll(s, raw).visitorSessions, FoldAll(s, raw).identities)
  {
    hide FoldAll, VisitsTally, SessionsTally, VisitorSessionsTally, DaySessionsTally, DaysTally, SessionsNamed,
         DaySessionsNamed, SessionsNameLast, DaySessionsNameLast, VisitsProps, SessionsJourney, IdentitiesMatch,
         VisitsLinked, VisitorSessionsLinked;
    KeptAlways(s, raw);
  }

  /** A session of one visitor keeps the user its visitor was linked to when the session's last event came. */
  lemma {:induction false} SessionUserAsOfLast(s: Site, raw: seq<Event>, k: Key, v: string)
    requires k.SessionKey? && k in FoldAll(s, raw).sessions && OneVisitor(Group(s, raw, k), v)
    ensures UserAsOf(FoldAll(s, raw).sessions, FoldAll(s, Through(s, raw, k)).identities, k, v)
    ensures FoldAll(s, raw).sessions[k].user.Some? ==> IdentityUser(FoldAll(s, raw).identities, k.site, v).Some?
  {
    hide Fold, VisitsLinked, SessionsTally, VisitorSessionsTally, VisitorSessionsLinked, Covers, IdentityUser;
    var init, e := raw[..|raw| - 1], raw[|raw| - 1];
    var t := FoldAll(s, init);
    assert raw == init + [e];
    VisitsLinkedKept(s, init);
    ThroughAppend(s, init, e, k);
    GroupStep(s, init, e, k);
    OneVisitorBefore(Group(s, init, k), Group(s, raw, k), v);
    OtherSessionStep(s, t, e, k, k.site, v);
    if k in t.sessions {
      SessionUserAsOfLast(s, init, k, v);
    }
    if k == SessionOf(e) {
      assert e in Group(s, raw, k);
      SessionUserStep(s, init, t, e, k, v);
    }
  }

  lemma OneVisitorBefore(g: seq<Event>, h: seq<Event>, v: string)
    requires g <= h && OneVisitor(h, v)
    ensures OneVisitor(g, v)
  {
    forall e | e in g
      ensures e.visitor == v
    {
      assert e in h;
    }
  }

  lemma {:induction false} ThroughInOrder(s: Site, raw: seq<Event>, n: nat, k: Key)
    requires n <= |raw| && InOrder(Group(s, raw, k))
    ensures InOrder(Group(s, raw[..n], k))
    decreases |raw| - n
  {
    if n == |raw| {
      assert raw[..n] == raw;
    } else {
      ThroughInOrder(s, raw, n + 1, k);
      assert raw[..n + 1] == raw[..n] + [raw[n]];
      GroupStep(s, raw[..n], raw[n], k);
      if Covers(s, k, raw[n]) {
        InOrderAppend(Group(s, raw[..n], k), raw[n]);
      }
    }
  }

  /**
   The session's user, for a session of one visitor that arrived in order: the visitor's latest
   identified user as of the session's last event. The rebuild reads the session's own rows, so
   the two agree exactly when those rows name that user as their latest.
   */
  lemma SessionUserAgreesExactly(s: Site, raw: seq<Event>, k: Key, v: string)
    requires k.SessionKey? && k in FoldAll(s, raw).sessions && OneVisitor(Group(s, raw, k), v)
    requires InOrder(Group(s, raw, VisitorKey(k.site, v)))
    ensures FoldAll(s, raw).sessions[k].user == RebuiltUser(s, Through(s, raw, k), k.site, v)
    ensures k in Rebuild(s, raw).sessions
    ensures FoldAll(s, raw).sessions[k].user == Rebuild(s, raw).sessions[k].user
            <==> RebuiltUser(s, Through(s, raw, k), k.site, v) == Latest(Group(s, raw, k), UserOf)
  {
    hide FoldAll, VisitsLinked, VisitorSessionsTally, VisitorSessionsLinked, Covers, Through, Latest, SessionTallyOf,
         JourneyOf, EarliestVisitor, Group;
    SessionUserAsOfLast(s, raw, k, v);
    var part := Through(s, raw, k);
    assert part == raw[..|part|];
    ThroughInOrder(s, raw, |part|, VisitorKey(k.site, v));
    LinkedUserEqualsRebuild(s, part, k.site, v);
    VisitsLinkedKept(s, raw);
  }

  /**
   The visitor session's user, for a visitor that arrived in order: the visitor's latest
   identified user over all its sessions. The rebuilt row is the same exactly when the session's
   own rows name that user as their latest.
   */
  lemma VisitorSessionAgreesExactly(s: Site, raw: seq<Event>, k: Key)
    requires k in FoldAll(s, raw).visitorSessions && k.VisitorSessionKey?
             && InOrder(Group(s, raw, VisitorKey(k.site, k.visitor)))
    ensures FoldAll(s, raw).visitorSessions[k].user == RebuiltUser(s, raw, k.site, k.visitor)
    ensures k in Rebuild(s, raw).visitorSessions
    ensures FoldAll(s, raw).visitorSessions[k] == Rebuild(s, raw).visitorSessions[k]
            <==> RebuiltUser(s, raw, k.site, k.visitor) == Latest(Group(s, raw, k), UserOf)
  {
    hide FoldAll, VisitsLinked, SessionsTally, Covers, Latest, SpanOf, Group;
    VisitsLinkedKept(s, raw);
    LinkedUserEqualsRebuild(s, raw, k.site, k.visitor);
  }

  // ---- The user of a daily session of several visitors ---------------------------------------------------

  /** The raw rows before the last one that falls under the key. */
  function Earlier(s: Site, raw: seq<Event>, k: Key): (r: seq<Event>)
    ensures r <= raw && (raw != [] ==> |r| < |raw|)
  {
    if raw == [] then []
    else if Covers(s, k, raw[|raw| - 1]) then raw[..|raw| - 1]
    else Earlier(s, raw[..|raw| - 1], k)
  }

  /**
   The latest user of the last visitor of a group; where that visitor was never identified, the
   same as it stood before the group's last row arrived.
   */
  function HeldUser(s: Site, raw: seq<Event>, k: Key): Option<string>
    decreases |raw|
  {
    if raw == [] || Group(s, raw, k) == [] then None
    else
      Coalesce(RebuiltUser(s, raw, k.site, LastVisitor(Group(s, raw, k))), HeldUser(s, Earlier(s, raw, k), k))
  }

  ghost predicate VisitorsInOrder(s: Site, raw: seq<Event>, k: Key) {
    forall e :: e in Group(s, raw, k) ==> InOrder(Group(s, raw, VisitorKey(k.site, e.visitor)))
  }

  lemma EarlierAppend(s: Site, raw: seq<Event>, e: Event, k: Key)
    ensures Earlier(s, raw + [e], k) == if Covers(s, k, e) then raw else Earlier(s, raw, k)
  {
    assert (raw + [e])[..|raw|] == raw;
  }

  /** What one event does to the user of a daily session. */
  lemma DaySessionUserStep(s: Site, t: Tables, e: Event, k: Key)
    requires VisitsLinked(t.visitors, t.identities) && k.DaySessionKey?
    requires k in t.daySessions || k == DaySessionOf(s, e)
    ensures var t', was := Fold(s, t, e), if k in t.daySessions then t.daySessions[k].user else None;
            && k in t'.daySessions
            && t'.daySessions[k].user
               == if k == DaySessionOf(s, e) then Coalesce(IdentityUser(t'.identities, e.site, e.visitor), was)
                  else if e.user.Some? && k.site == e.site && t.daySessions[k].visitor == e.visitor then
                    IdentityUser(t'.identities, e.site, e.visitor)
                  else was
  {
    hide VisitsLinked, FoldVisits, FoldSessions, FoldVisitorSessions, FoldDays, FoldIdentities, Link;
    IdentityAfter(t, e);
  }

  /** An event changes no other visitor's user, and its own visitor's only if it is identified. */
  lemma UserStep(s: Site, t: Tables, e: Event, site: string, v: string)
    requires VisitsLinked(t.visitors, t.identities)
    ensures e.user.None? || e.site != site || e.visitor != v ==>
              IdentityUser(Fold(s, t, e).identities, site, v) == IdentityUser(t.identities, site, v)
    ensures e.user.Some? ==> IdentityUser(Fold(s, t, e).identities, e.site, e.visitor).Some?
  {
    hide VisitsLinked, FoldVisits, FoldSessions, FoldVisitorSessions, FoldDaySessions, FoldDays, FoldIdentities, Link;
    IdentityAfter(t, e);
  }

  lemma VisitorsWereInOrder(s: Site, raw: seq<Event>, e: Event, k: Key)
    requires VisitorsInOrder(s, raw + [e], k)
    ensures VisitorsInOrder(s, raw, k)
  {
    GroupStep(s, raw, e, k);
    forall x | x in Group(s, raw, k)
      ensures InOrder(Group(s, raw, VisitorKey(k.site, x.visitor)))
    {
      assert x in Group(s, raw + [e], k);
      ThroughInOrder(s, raw + [e], |raw|, VisitorKey(k.site, x.visitor));
      assert (raw + [e])[..|raw|] == raw;
    }
  }

  lemma DaySessionsKept(s: Site, raw: seq<Event>)
    ensures DaySessionsTally(s, raw, FoldAll(s, raw).daySessions)
    ensures DaySessionsNameLast(s, raw, FoldAll(s, raw).daySessions, FoldAll(s, raw).identities)
    ensures VisitsLinked(FoldAll(s, raw).visitors, FoldAll(s, raw).identities)
  {
    hide FoldAll, VisitsTally, SessionsTally, VisitorSessionsTally, DaySessionsTally, DaysTally, SessionsNamed,
         DaySessionsNamed, SessionsNameLast, DaySessionsNameLast, VisitsProps, SessionsJourney, IdentitiesMatch,
         VisitsLinked, VisitorSessionsLinked;
    KeptAlways(s, raw);
  }

  /** Whatever visitors a daily session holds, the fold exposes the held user, for visitors in order. */
  lemma {:induction false} DaySessionUserHeld(s: Site, raw: seq<Event>, k: Key)
    requires k.DaySessionKey? && k in FoldAll(s, raw).daySessions && VisitorsInOrder(s, raw, k)
    ensures FoldAll(s, raw).daySessions[k].user == HeldUser(s, raw, k)
  {
    hide Fold, VisitsLinked, DaySessionsTally, DaySessionsNameLast, IdentityUser, RebuiltUser, VisitorsInOrder, Covers;
    var init, e := raw[..|raw| - 1], raw[|raw| - 1];
    var t := FoldAll(s, init);
    assert raw == init + [e];
    DaySessionsKept(s, init);
    DaySessionsKept(s, raw);
    GroupStep(s, init, e, k);
    EarlierAppend(s, init, e, k);
    VisitorsWereInOrder(s, init, e, k);
    DaySessionThere(s, init, k);
    DaySessionThere(s, raw, k);
    var v := LastVisitor(Group(s, raw, k));
    LastInOrder(s, raw, k);
    LinkedUserEqualsRebuild(s, raw, k.site, v);
    DaySessionUserStep(s, t, e, k);
    UserStep(s, t, e, k.site, v);
    if k in t.daySessions {
      DaySessionUserHeld(s, init, k);
      if !Covers(s, k, e) {
        LastInOrder(s, init, k);
        LinkedUserEqualsRebuild(s, init, k.site, v);
      }
    } else {
      assert HeldUser(s, init, k) == None;
    }
  }

  lemma DaySessionThere(s: Site, raw: seq<Event>, k: Key)
    requires k.DaySessionKey? && DaySessionsTally(s, raw, FoldAll(s, raw).daySessions)
    requires DaySessionsNameLast(s, raw, FoldAll(s, raw).daySessions, FoldAll(s, raw).identities)
    ensures k in FoldAll(s, raw).daySessions <==> Group(s, raw, k) != []
    ensures k in FoldAll(s, raw).daySessions ==> FoldAll(s, raw).daySessions[k].visitor == LastVisitor(Group(s, raw, k))
  {
    hide FoldAll, Group, SpanOf, IdentityUser;
  }

  lemma LastInOrder(s: Site, raw: seq<Event>, k: Key)
    requires VisitorsInOrder(s, raw, k) && Group(s, raw, k) != []
    ensures InOrder(Group(s, raw, VisitorKey(k.site, LastVisitor(Group(s, raw, k)))))
  {
    var g := Group(s, raw, k);
    assert g[|g| - 1] in g;
  }

  /**
   So its user is the rebuilt one exactly when the held user is the latest identified user among
   its rows, or, with no visitor of it ever identified, none.
   */
  lemma DaySessionUserAgreesExactly(s: Site, raw: seq<Event>, k: Key)
    requires k.DaySessionKey? && k in FoldAll(s, raw).daySessions && VisitorsInOrder(s, raw, k)
    ensures FoldAll(s, raw).daySessions[k].user == HeldUser(s, raw, k)
    ensures k in Rebuild(s, raw).daySessions
    ensures FoldAll(s, raw).daySessions[k].user == Rebuild(s, raw).daySessions[k].user
            <==> HeldUser(s, raw, k) == Latest(Group(s, raw, k), (e: Event) => RebuiltUser(s, raw, e.site, e.visitor))
  {
    hide FoldAll, HeldUser, VisitorsInOrder, DaySessionsTally, DaySessionsNameLast, VisitsLinked, SpanOf,
         EarliestVisitor;
    DaySessionUserHeld(s, raw, k);
    DaySessionsKept(s, raw);
    DaySessionThere(s, raw, k);
    NamedIsIdentified(s, raw, k);
  }

  /** A group with a named row has an identified visitor. */
  lemma NamedIsIdentified(s: Site, raw: seq<Event>, k: Key)
    ensures Latest(Group(s, raw, k), (e: Event) => RebuiltUser(s, raw, e.site, e.visitor)).None? ==>
              Latest(Group(s, raw, k), UserOf).None?
  {
    var g := Group(s, raw, k);
    var identified := (e: Event) => RebuiltUser(s, raw, e.site, e.visitor);
    match LatestAt(g, UserOf)
    case None =>
    case Some(i) =>
      GroupMembers(s, raw, k);
      GroupMembers(s, raw, VisitorOf(g[i]));
      assert g[i] in g;
      var h := Group(s, raw, VisitorOf(g[i]));
      assert g[i] in h;
      var j :| 0 <= j < |h| && h[j] == g[i];
      assert UserOf(h[j]).Some?;
      assert identified(g[i]).Some?;
  }

  /**
   An input where they differ: the fold writes the visitor's linked user into a session that
   never named anyone.
   */
  lemma SessionUserDiffers(s: Site, a: Event, b: Event)
    requires a.site == b.site && a.visitor == b.visitor && SessionOf(a) != SessionOf(b)
    requires a.user.Some? && b.user.None?
    ensures var t, r := FoldAll(s, [a, b]), Rebuild(s, [a, b]);
            && SessionOf(b) in t.sessions && t.sessions[SessionOf(b)].user == a.user
            && SessionOf(b) in r.sessions && r.sessions[SessionOf(b)].user == None
  {
    hide Fold, RebuildSessions, RebuiltSession;
    assert [a, b][..1] == [a] && [a][..0] == [];
    assert FoldAll(s, [a]) == Fold(s, NO_TABLES, a);
    FoldedUser(s, a, b);
    RebuiltSessionUser(s, a, b);
  }

  lemma FoldedUser(s: Site, a: Event, b: Event)
    requires a.site == b.site && a.visitor == b.visitor && SessionOf(a) != SessionOf(b) && a.user.Some? && b.user.None?
    ensures var t := Fold(s, Fold(s, NO_TABLES, a), b);
            SessionOf(b) in t.sessions && t.sessions[SessionOf(b)].user == a.user
  {
    var was := Fold(s, NO_TABLES, a);
    assert Canonical(was, b) == a.user && SessionOf(b) !in was.sessions;
  }

  lemma RebuiltSessionUser(s: Site, a: Event, b: Event)
    requires SessionOf(a) != SessionOf(b) && b.user.None?
    ensures var m := RebuildSessions(s, [a, b]); SessionOf(b) in m && m[SessionOf(b)].user == None
  {
    hide SessionTallyOf, JourneyOf, EarliestVisitor;
    var k := SessionOf(b);
    assert [a, b][1..] == [b] && [b][1..] == [];
    assert !Covers(s, k, a) && Covers(s, k, b);
    assert Group(s, [b], k) == [b];
    assert Group(s, [a, b], k) == [] + Group(s, [b], k) == [b];
    assert LatestAt([b], UserOf).None?;
  }

  /** And an input for the visitor session. */
  lemma VisitorSessionUserDiffers(s: Site, a: Event, b: Event)
    requires VisitorOf(a) == VisitorOf(b) && a.session != b.session && a.ts <= b.ts
    requires a.user.Some? && b.user.None?
    ensures var t, r, k := FoldAll(s, [a, b]), Rebuild(s, [a, b]), VisitorSessionOf(b);
            && k in t.visitorSessions && t.visitorSessions[k].user == a.user
            && k in r.visitorSessions && t.visitorSessions[k] != r.visitorSessions[k]
  {
    hide FoldAll, Rebuild, VisitsLinked, VisitorSessionsLinked, SessionsTally, Group, Latest;
    PairGroups(s, a, b);
    VisitsLinkedKept(s, [a, b]);
    VisitorSessionAgreesExactly(s, [a, b], VisitorSessionOf(b));
  }

  lemma PairGroups(s: Site, a: Event, b: Event)
    requires VisitorOf(a) == VisitorOf(b) && a.session != b.session && a.ts <= b.ts && a.user.Some? && b.user.None?
    ensures Group(s, [a, b], VisitorSessionOf(b)) == [b] && Latest([b], UserOf).None?
    ensures Group(s, [a, b], VisitorOf(b)) == [a, b] && InOrder([a, b]) && Latest([a, b], UserOf) == a.user
  {
    GroupStep(s, [a], b, VisitorSessionOf(b));
    GroupStep(s, [], a, VisitorSessionOf(b));
    GroupStep(s, [a], b, VisitorOf(b));
    GroupStep(s, [], a, VisitorOf(b));
    assert [] + [a] == [a] && [a] + [b] == [a, b];
    assert IsLatest([a, b], UserOf, 0);
    assert LatestAt([b], UserOf).None?;
  }

  /** And one for the daily session: a visitor identified only after another took its session over. */
  lemma DaySessionUserDiffers(s: Site, a: Event, b: Event, c: Event)
    requires DaySessionOf(s, a) == DaySessionOf(s, b) != DaySessionOf(s, c)
    requires VisitorOf(a) == VisitorOf(c) != VisitorOf(b) && a.ts <= c.ts
    requires a.user.None? && b.user.None? && c.user.Some?
    ensures var t, r, k := FoldAll(s, [a, b, c]), Rebuild(s, [a, b, c]), DaySessionOf(s, a);
            && k in t.daySessions && t.daySessions[k].user.None?
            && k in r.daySessions && r.daySessions[k].user == c.user
  {
    hide FoldAll, Rebuild, Group, Latest, HeldUser, VisitorsInOrder, DaySessionsTally, DaySessionsNameLast,
         VisitsLinked;
    var raw, k := [a, b, c], DaySessionOf(s, a);
    TakenOver(s, a, b, c);
    TakenOverHolds(s, a, b, c);
    TakenOverNames(s, a, b, c);
    DaySessionsKept(s, raw);
    DaySessionThere(s, raw, k);
    DaySessionUserAgreesExactly(s, raw, k);
    RebuiltDaySessionIs(s, raw, k);
  }

  lemma RebuiltDaySessionIs(s: Site, raw: seq<Event>, k: Key)
    requires k in Rebuild(s, raw).daySessions
    requires Latest(Group(s, raw, k), (e: Event) => RebuiltUser(s, raw, e.site, e.visitor)).Some?
    ensures Rebuild(s, raw).daySessions[k].user
            == Latest(Group(s, raw, k), (e: Event) => RebuiltUser(s, raw, e.site, e.visitor))
  {
    hide Group, Latest, SpanOf, EarliestVisitor;
  }

  lemma GroupOfThree(s: Site, a: Event, b: Event, c: Event, k: Key)
    ensures Group(s, [a, b, c], k)
            == (if Covers(s, k, a) then [a] else []) + (if Covers(s, k, b) then [b] else [])
               + (if Covers(s, k, c) then [c] else [])
    ensures Group(s, [a], k) == if Covers(s, k, a) then [a] else []
  {
    hide Covers;
    assert [] + [a] == [a] && [a] + [b] == [a, b] && [a, b] + [c] == [a, b, c];
    GroupAppend(s, [], a, k);
    GroupAppend(s, [a], b, k);
    GroupAppend(s, [a, b], c, k);
  }

  lemma EarlierOfThree(s: Site, a: Event, b: Event, c: Event, k: Key)
    requires Covers(s, k, a) && Covers(s, k, b) && !Covers(s, k, c)
    ensures Earlier(s, [a, b, c], k) == [a] && Earlier(s, [a], k) == []
  {
    hide Covers, Earlier;
    assert [] + [a] == [a] && [a] + [b] == [a, b] && [a, b] + [c] == [a, b, c];
    EarlierAppend(s, [], a, k);
    EarlierAppend(s, [a], b, k);
    EarlierAppend(s, [a, b], c, k);
  }

  lemma TakenOver(s: Site, a: Event, b: Event, c: Event)
    requires DaySessionOf(s, a) == DaySessionOf(s, b) != DaySessionOf(s, c)
    requires VisitorOf(a) == VisitorOf(c) != VisitorOf(b) && a.ts <= c.ts
    ensures var raw, k := [a, b, c], DaySessionOf(s, a);
            && Group(s, raw, k) == [a, b] && Group(s, raw, VisitorOf(a)) == [a, c] && Group(s, raw, VisitorOf(b)) == [b]
            && Group(s, [a], k) == [a] && Group(s, [a], VisitorOf(a)) == [a]
            && Earlier(s, raw, k) == [a] && Earlier(s, [a], k) == []
            && VisitorsInOrder(s, raw, k)
  {
    hide Group, Earlier;
    GroupOfThree(s, a, b, c, DaySessionOf(s, a));
    GroupOfThree(s, a, b, c, VisitorOf(a));
    GroupOfThree(s, a, b, c, VisitorOf(b));
    EarlierOfThree(s, a, b, c, DaySessionOf(s, a));
  }

  lemma TakenOverHolds(s: Site, a: Event, b: Event, c: Event)
    requires var raw, k := [a, b, c], DaySessionOf(s, a);
             && Group(s, raw, k) == [a, b] && Group(s, raw, VisitorOf(b)) == [b] && b.site == a.site
             && Group(s, [a], k) == [a] && Group(s, [a], VisitorOf(a)) == [a]
             && Earlier(s, raw, k) == [a] && Earlier(s, [a], k) == []
    requires a.user.None? && b.user.None?
    ensures HeldUser(s, [a, b, c], DaySessionOf(s, a)).None?
  {
    hide Group, Earlier;
    var k := DaySessionOf(s, a);
    assert LatestAt([a], UserOf).None? && LatestAt([b], UserOf).None?;
    assert HeldUser(s, [], k).None?;
    assert HeldUser(s, [a], k).None?;
  }

  lemma TakenOverNames(s: Site, a: Event, b: Event, c: Event)
    requires var raw := [a, b, c];
             && Group(s, raw, DaySessionOf(s, a)) == [a, b] && Group(s, raw, VisitorOf(a)) == [a, c]
             && Group(s, raw, VisitorOf(b)) == [b] && a.ts <= c.ts
    requires a.user.None? && b.user.None? && c.user.Some?
    ensures Latest([a, b], (e: Event) => RebuiltUser(s, [a, b, c], e.site, e.visitor)) == c.user
  {
    hide Group;
    var identified := (e: Event) => RebuiltUser(s, [a, b, c], e.site, e.visitor);
    assert IsLatest([a, c], UserOf, 1);
    assert LatestAt([b], UserOf).None?;
    assert IsLatest([a, b], identified, 0);
  }
}
