/**
 Deliveries and rebuilds in any sequence, on the columns that do depend on order: for
 groups that arrived in order, and days without a split purchase, folding on from rebuilt
 rows ends where one rebuild of everything ends.
 */
module Restored {
  import opened Wrappers
  import opened Events
  import opened Derived
  import opened Folds
  import opened Agreement
  import opened Ordered
  import opened Ingestion
  import opened Repairs

  /** The link is dated between the user's first time and the start of its last run. */
  ghost predicate LinkedWithin(g: seq<Event>, i: Identity) {
    && Latest(g, UserOf).Some?
    && exists r :: IsRunStart(g, r) && IdentityOf(g).linked <= i.linked <= g[r].ts
  }

  /** What both folding and rebuilding leave in an identity of a group that arrived in order. */
  ghost predicate IdentityNamed(g: seq<Event>, i: Identity) {
    && g != [] && Latest(g, UserOf) == Some(i.user) && i.first == FirstSeen(g) && i.last == LastSeen(g)
    && LinkedWithin(g, i)
  }

  ghost predicate IdentitiesNamed(s: Site, raw: seq<Event>, ids: map<Key, Identity>) {
    forall k :: k in ids && InOrder(Group(s, raw, k)) ==> IdentityNamed(Group(s, raw, k), ids[k])
  }

  ghost predicate Unsplit(g: seq<Event>) {
    forall e :: e in g ==> !SplitRevenue(e)
  }

  ghost predicate RevenueRight(s: Site, raw: seq<Event>, m: map<Key, DayTally>) {
    forall k :: k in m && Unsplit(Group(s, raw, k)) ==> m[k].revenue == Total(Group(s, raw, k), RebuiltRevenue)
  }

  /** Beside the counts, what deliveries and rebuilds both keep. */
  ghost predicate Named(s: Site, raw: seq<Event>, t: Tables) {
    && VisitsLinked(t.visitors, t.identities) && VisitsLinked(t.dayVisitors, t.identities)
    && SessionsNamed(s, raw, t.sessions) && DaySessionsNamed(s, raw, t.daySessions, t.identities)
    && VisitsProps(s, raw, t.visitors) && VisitsProps(s, raw, t.dayVisitors)
    && SessionsJourney(s, raw, t.sessions) && IdentitiesNamed(s, raw, t.identities) && RevenueRight(s, raw, t.days)
  }

  // ---- A delivery --------------------------------------------------------------------------------

  /** One more row never dates the rebuilt link later, for a user that stays. */
  lemma RebuiltLinkAppend(g: seq<Event>, e: Event, u: string)
    requires InOrder(g + [e]) && Latest(g, UserOf) == Some(u) == Latest(g + [e], UserOf)
    ensures IdentityOf(g + [e]).linked <= IdentityOf(g).linked
  {
    hide IdentityOf, Latest;
    RebuiltLink(g, u);
    RebuiltLink(g + [e], u);
    var a :| 0 <= a < |g| && g[a].user == Some(u) && g[a].ts == IdentityOf(g).linked;
    assert (g + [e])[a] == g[a];
  }

  lemma LinkBegins(g: seq<Event>, e: Event)
    requires InOrder(g + [e]) && e.user.Some?
    requires Latest(g, UserOf).None? || (exists r :: IsRunStart(g, r) && g[r].user != e.user)
    ensures LinkedWithin(g + [e], Identity(e.user.value, 0, e.ts, 0))
  {
    hide IdentityOf, IsRunStart;
    InOrderAppend(g, e);
    LatestAppend(g, e, UserOf);
    RunBegins(g, e);
    RebuiltLink(g + [e], e.user.value);
    assert (g + [e])[|g|] == e;
  }

  lemma LinkContinues(g: seq<Event>, e: Event, i: Identity)
    requires InOrder(g + [e]) && Latest(g, UserOf) == Some(i.user) && LinkedWithin(g, i)
    requires e.user.None? || e.user == Some(i.user)
    ensures LinkedWithin(g + [e], i) && i.linked <= e.ts
  {
    hide IdentityOf;
    InOrderAppend(g, e);
    LatestAppend(g, e, UserOf);
    RebuiltLinkAppend(g, e, i.user);
    var r :| IsRunStart(g, r) && IdentityOf(g).linked <= i.linked <= g[r].ts;
    RunContinues(g, e, r);
  }

  lemma LinkedWithinAppend(g: seq<Event>, e: Event, was: Option<Identity>, visitor: Option<VisitorRow>)
    requires InOrder(g + [e])
    requires was.None? <==> Latest(g, UserOf).None?
    requires was.Some? ==>
               && Latest(g, UserOf) == Some(was.value.user)
               && was.value.last == LastSeen(g) && LinkedWithin(g, was.value)
    ensures var i := Touched(Identified(was, visitor, e), e.ts);
            i.Some? ==> LinkedWithin(g + [e], i.value)
  {
    hide IdentityOf, Latest;
    InOrderAppend(g, e);
    if was.Some? && (e.user.None? || e.user == Some(was.value.user)) {
      LinkContinues(g, e, was.value);
      NoLater(g, e);
    } else if e.user.Some? {
      if was.Some? {
        var r :| IsRunStart(g, r);
        NoLater(g, e);
      }
      LinkBegins(g, e);
    }
  }

  lemma NoLater(g: seq<Event>, e: Event)
    requires NoneAfter(g, e.ts)
    ensures g != [] ==> LastSeen(g) <= e.ts
    ensures Latest(g, UserOf).Some? ==> g != []
  {
  }

  /** Every group with a named row has a last run of its final user. */
  lemma {:induction false} RunStartExists(g: seq<Event>)
    requires InOrder(g) && Latest(g, UserOf).Some?
    ensures exists r :: IsRunStart(g, r)
  {
    var init, e := g[..|g| - 1], g[|g| - 1];
    assert g == init + [e];
    InOrderAppend(init, e);
    LatestAppend(init, e, UserOf);
    if Latest(init, UserOf).Some? {
      RunStartExists(init);
      var r :| IsRunStart(init, r);
      if e.user.None? || e.user == init[r].user {
        RunContinues(init, e, r);
      } else {
        RunBegins(init, e);
      }
    } else {
      RunBegins(init, e);
    }
  }

  lemma IdentityNamedAppend(g: seq<Event>, e: Event, was: Option<Identity>, visitor: Option<VisitorRow>)
    requires InOrder(g + [e])
    requires was.None? <==> Latest(g, UserOf).None?
    requires was.Some? ==> IdentityNamed(g, was.value)
    requires visitor.None? <==> g == []
    requires visitor.Some? ==> visitor.value.tally.span == SpanOf(g)
    ensures var i := Touched(Identified(was, visitor, e), e.ts);
            i.Some? ==> IdentityNamed(g + [e], i.value)
  {
    hide LinkedWithin, IdentityOf;
    InOrderAppend(g, e);
    LatestAppend(g, e, UserOf);
    LinkedWithinAppend(g, e, was, visitor);
    if g == [] {
      assert g + [e] == [e];
    } else {
      SpanAppend(g, e);
      assert FirstSeen(g) <= LastSeen(g) <= e.ts;
    }
  }

  lemma IdentitiesNamedStep(s: Site, raw: seq<Event>, t: Tables, e: Event)
    requires IdentityKeys(s, raw, t.identities) && IdentitiesNamed(s, raw, t.identities)
    requires VisitsTally(s, raw, t.visitors, false) && VisitsLinked(t.visitors, t.identities)
    ensures IdentitiesNamed(s, raw + [e], FoldIdentities(t, e))
  {
    hide Latest, VisitsLinked;
    IdentityAfter(t, e);
    var ids' := FoldIdentities(t, e);
    forall k | k in ids' && InOrder(Group(s, raw + [e], k))
      ensures IdentityNamed(Group(s, raw + [e], k), ids'[k])
    {
      GroupStep(s, raw, e, k);
      var g := Group(s, raw, k);
      if k == VisitorOf(e) {
        InOrderAppend(g, e);
        IdentityNamedAppend(g, e, At(t.identities, k), At(t.visitors, k));
      } else {
        assert k in t.identities && k.VisitorKey?;
      }
    }
  }

  lemma UnsplitAppend(g: seq<Event>, e: Event)
    requires Unsplit(g + [e])
    ensures Unsplit(g) && Revenue(e) == RebuiltRevenue(e)
    ensures Total(g + [e], RebuiltRevenue) == Total(g, RebuiltRevenue) + Revenue(e)
  {
    forall x | x in g
      ensures !SplitRevenue(x)
    {
      assert x in g + [e];
    }
    assert e in g + [e];
    RevenueAgreesExactly(e);
    TotalAppend(g, e, RebuiltRevenue);
  }

  lemma RevenueStep(s: Site, raw: seq<Event>, m: map<Key, DayTally>, e: Event)
    requires DayCounts(s, raw, m) && RevenueRight(s, raw, m)
    ensures RevenueRight(s, raw + [e], FoldDays(m, DayOf(s, e), e))
  {
    hide Group, Total, DayTallyOf, Revenue, Unsplit;
    var m' := FoldDays(m, DayOf(s, e), e);
    forall k | k in m' && Unsplit(Group(s, raw + [e], k))
      ensures m'[k].revenue == Total(Group(s, raw + [e], k), RebuiltRevenue)
    {
      GroupStep(s, raw, e, k);
      if k == DayOf(s, e) {
        UnsplitAppend(Group(s, raw, k), e);
        NoTotal();
      }
    }
  }

  lemma NoTotal()
    ensures Total([], RebuiltRevenue) == 0
  {
  }

  lemma DeliveryNames(s: Site, raw: seq<Event>, t: Tables, e: Event)
    requires Counted(s, raw, t) && Named(s, raw, t)
    ensures Named(s, raw + [e], Fold(s, t, e))
  {
    hide VisitsTally, SessionsTally, VisitorSessionsTally, DaySessionsTally, DayCounts, IdentityKeys, SessionsNamed,
         DaySessionsNamed, VisitsProps, SessionsJourney, IdentitiesNamed, RevenueRight, FoldVisits, FoldSessions,
         FoldVisitorSessions, FoldDaySessions, FoldDays, FoldIdentities, Link, VisitsLinked, Relinked;
    var link, user, ids' := Link(t, e), Canonical(t, e), FoldIdentities(t, e);
    IdentityAfter(t, e);
    VisitsRelinked(t.visitors, VisitorOf(e), t.identities, ids', e, link, Coalesce(link, e.user));
    LinkCoalesced(t, e);
    VisitsRelinked(t.dayVisitors, DayVisitorOf(s, e), t.identities, ids', e, link, user);
    SessionsNamedStep(s, raw, t.sessions, e, user);
    DaySessionsNamedStep(s, raw, t.daySessions, e, t.identities, ids', link);
    VisitsPropsStep(s, raw, t.visitors, e, false, link, Coalesce(link, e.user));
    VisitsPropsStep(s, raw, t.dayVisitors, e, true, link, user);
    JourneyStep(s, raw, t.sessions, e, user);
    IdentitiesNamedStep(s, raw, t, e);
    RevenueStep(s, raw, t.days, e);
  }

  lemma LinkCoalesced(t: Tables, e: Event)
    ensures e.user.Some? ==> Link(t, e).Some?
  {
  }

  // ---- A rebuild -----------------------------------------------------------------------------------

  lemma LinksRefilled(m: map<Key, VisitorRow>, rebuilt: map<Key, VisitorRow>, scope: Key -> bool,
                      ids: map<Key, Identity>)
    requires VisitsLinked(Deleted(m, scope), ids) && VisitsLinked(rebuilt, ids)
    ensures VisitsLinked(Filled(Deleted(m, scope), rebuilt, scope), ids)
  {
    hide IdentityUser;
  }

  lemma PropsRefilled(s: Site, raw: seq<Event>, m: map<Key, VisitorRow>, rebuilt: map<Key, VisitorRow>,
                      scope: Key -> bool)
    requires VisitsProps(s, raw, m) && VisitsProps(s, raw, rebuilt)
    ensures VisitsProps(s, raw, Filled(Deleted(m, scope), rebuilt, scope))
  {
    hide Group, LatestUserProps, InOrder;
  }

  lemma DaySessionsNamedRefilled(s: Site, raw: seq<Event>, m: map<Key, DaySessionRow>, rebuilt: map<Key, DaySessionRow>,
                                 scope: Key -> bool, ids: map<Key, Identity>)
    requires DaySessionsNamed(s, raw, Deleted(m, scope), ids) && DaySessionsNamed(s, raw, rebuilt, ids)
    ensures DaySessionsNamed(s, raw, Filled(Deleted(m, scope), rebuilt, scope), ids)
  {
    hide Group, OneVisitor, IdentityUser;
  }

  lemma SessionsRestored(s: Site, raw: seq<Event>, m: map<Key, SessionRow>, scope: Key -> bool)
    requires SessionsNamed(s, raw, m) && SessionsJourney(s, raw, m)
    ensures var m' := Filled(Deleted(m, scope), RebuildSessions(s, raw), scope);
            SessionsNamed(s, raw, m') && SessionsJourney(s, raw, m')
  {
    hide Group, InOrder, SessionTallyOf, JourneyOf, Latest, EarliestVisitor, OneVisitor;
    var m' := Filled(Deleted(m, scope), RebuildSessions(s, raw), scope);
    forall k, v | k in m' && OneVisitor(Group(s, raw, k), v)
      ensures m'[k].visitor == v
    {
      if scope(k) {
        EarliestVisitorNamed(Group(s, raw, k), v);
      }
    }
  }

  lemma RevenueRefilled(s: Site, raw: seq<Event>, m: map<Key, DayTally>, scope: Key -> bool)
    requires RevenueRight(s, raw, m)
    ensures RevenueRight(s, raw, Filled(Deleted(m, scope), RebuildDays(s, raw), scope))
  {
    hide Group, Unsplit, Total;
  }

  lemma FreshProps(s: Site, raw: seq<Event>, ids: map<Key, Identity>)
    ensures VisitsProps(s, raw, RebuildVisitors(s, raw)) && VisitsProps(s, raw, DayVisitorsFrom(s, raw, ids))
  {
    hide Group, LatestUserProps, InOrder, VisitorTallyOf, Latest, DayVisitorUser;
  }

  /** The user of a rebuilt daily visitor row is the identity's: a visitor without one never named a user. */
  lemma DayVisitorsLinked(s: Site, raw: seq<Event>, ids: map<Key, Identity>)
    requires IdentityKeys(s, raw, ids)
    ensures VisitsLinked(DayVisitorsFrom(s, raw, ids), ids)
  {
    hide Group, LatestUserProps, VisitorTallyOf, Latest, RebuildDayVisitors;
    var m := DayVisitorsFrom(s, raw, ids);
    forall k | k in m
      ensures (k.VisitorKey? || k.DayVisitorKey?) && m[k].user == IdentityUser(ids, k.site, k.visitor)
    {
      assert k in RebuildDayVisitors(s, raw).Keys;
      NeverIdentified(s, raw, k);
    }
  }

  lemma DaySessionsFreshlyNamed(s: Site, raw: seq<Event>, ids: map<Key, Identity>)
    requires IdentityKeys(s, raw, ids)
    ensures DaySessionsNamed(s, raw, DaySessionsFrom(s, raw, ids), ids)
  {
    hide Group, SpanOf, Latest, RebuildDaySessions, OneVisitor, EarliestVisitor;
    var m := DaySessionsFrom(s, raw, ids);
    forall k, v | k in m && OneVisitor(Group(s, raw, k), v)
      ensures m[k].visitor == v && m[k].user == IdentityUser(ids, k.site, v)
    {
      assert k in RebuildDaySessions(s, raw).Keys;
      DaySessionFreshlyNamed(s, raw, ids, k, v);
    }
  }

  lemma DaySessionFreshlyNamed(s: Site, raw: seq<Event>, ids: map<Key, Identity>, k: Key, v: string)
    requires IdentityKeys(s, raw, ids) && k.DaySessionKey? && Group(s, raw, k) != [] && OneVisitor(Group(s, raw, k), v)
    ensures RebuiltDaySession(s, raw, k).visitor == v
    ensures DaySessionUser(s, raw, ids)(k) == IdentityUser(ids, k.site, v)
  {
    var g := Group(s, raw, k);
    GroupMembers(s, raw, k);
    EarliestVisitorNamed(g, v);
    NeverIdentified(s, raw, k);
    forall i | 0 <= i < |g|
      ensures UserFrom(ids)(g[i]) == IdentityUser(ids, k.site, v)
    {
      assert g[i] in g;
    }
    assert UserFrom(ids)(g[0]) == IdentityUser(ids, k.site, v);
    match LatestAt(g, UserFrom(ids))
    case None =>
    case Some(i) =>
  }

  /** A daily rebuild on whatever the daily tables held in its scope. */
  lemma DailyRebuildNames(s: Site, raw: seq<Event>, t: Tables, scope: Key -> bool)
    requires IdentityKeys(s, raw, t.identities) && VisitsLinked(t.visitors, t.identities)
    requires VisitsLinked(Deleted(t.dayVisitors, scope), t.identities)
    requires DaySessionsNamed(s, raw, Deleted(t.daySessions, scope), t.identities)
    requires SessionsNamed(s, raw, t.sessions) && SessionsJourney(s, raw, t.sessions)
    requires VisitsProps(s, raw, t.visitors) && VisitsProps(s, raw, t.dayVisitors)
    requires IdentitiesNamed(s, raw, t.identities) && RevenueRight(s, raw, t.days)
    ensures Named(s, raw, DailyRebuilt(s, raw, t, scope))
  {
    hide VisitsLinked, DaySessionsNamed, SessionsNamed, SessionsJourney, VisitsProps, IdentitiesNamed, RevenueRight,
         IdentityKeys, Filled, Deleted, DayVisitorsFrom, DaySessionsFrom, RebuildDays;
    DayVisitorsLinked(s, raw, t.identities);
    LinksRefilled(t.dayVisitors, DayVisitorsFrom(s, raw, t.identities), scope, t.identities);
    DaySessionsFreshlyNamed(s, raw, t.identities);
    DaySessionsNamedRefilled(s, raw, t.daySessions, DaySessionsFrom(s, raw, t.identities), scope, t.identities);
    FreshProps(s, raw, t.identities);
    PropsRefilled(s, raw, t.dayVisitors, DayVisitorsFrom(s, raw, t.identities), scope);
    RevenueRefilled(s, raw, t.days, scope);
  }

  lemma RangeRebuildNames(s: Site, raw: seq<Event>, t: Tables, scope: Key -> bool)
    requires Counted(s, raw, t) && Named(s, raw, t)
    ensures Named(s, raw, DailyRebuilt(s, raw, t, scope))
  {
    hide Named, DailyRebuilt, VisitsLinked, DaySessionsNamed, SessionsNamed, SessionsJourney, VisitsProps,
         IdentitiesNamed, RevenueRight, VisitsTally, SessionsTally, VisitorSessionsTally, DaySessionsTally, DayCounts,
         IdentityKeys, Deleted;
    NamedParts(s, raw, t);
    DeletedKeeps(s, raw, t, scope);
    DailyRebuildNames(s, raw, t, scope);
  }

  lemma DeletedKeeps(s: Site, raw: seq<Event>, t: Tables, scope: Key -> bool)
    requires VisitsLinked(t.dayVisitors, t.identities) && DaySessionsNamed(s, raw, t.daySessions, t.identities)
    ensures VisitsLinked(Deleted(t.dayVisitors, scope), t.identities)
    ensures DaySessionsNamed(s, raw, Deleted(t.daySessions, scope), t.identities)
  {
    hide IdentityUser, OneVisitor, Group;
  }

  lemma NamedParts(s: Site, raw: seq<Event>, t: Tables)
    requires Named(s, raw, t)
    ensures VisitsLinked(t.visitors, t.identities) && VisitsLinked(t.dayVisitors, t.identities)
    ensures DaySessionsNamed(s, raw, t.daySessions, t.identities)
    ensures SessionsNamed(s, raw, t.sessions) && SessionsJourney(s, raw, t.sessions)
    ensures VisitsProps(s, raw, t.visitors) && VisitsProps(s, raw, t.dayVisitors)
    ensures IdentitiesNamed(s, raw, t.identities) && RevenueRight(s, raw, t.days)
  {
    hide VisitsLinked, DaySessionsNamed, SessionsNamed, SessionsJourney, VisitsProps, IdentitiesNamed, RevenueRight;
  }

  /** Identities of other sites stay, and those of the site are the rebuilt ones. */
  lemma IdentitiesSwapped(s: Site, raw: seq<Event>, ids: map<Key, Identity>, x: string)
    requires IdentityKeys(s, raw, ids) && IdentitiesNamed(s, raw, ids)
    ensures var ids' := Filled(Deleted(ids, OfSite(x)), RebuildIdentities(s, raw), OfSite(x));
            && IdentityKeys(s, raw, ids') && IdentitiesNamed(s, raw, ids')
            && (forall site, v :: site != x ==> IdentityUser(ids', site, v) == IdentityUser(ids, site, v))
            && (forall v :: IdentityUser(ids', x, v) == RebuiltUser(s, raw, x, v))
  {
    hide InOrder, Group, Latest, IdentityOf, IdentityNamed;
    var ids' := Filled(Deleted(ids, OfSite(x)), RebuildIdentities(s, raw), OfSite(x));
    forall k | k in RebuildIdentities(s, raw) && InOrder(Group(s, raw, k))
      ensures IdentityNamed(Group(s, raw, k), RebuildIdentities(s, raw)[k])
    {
      RebuiltIdentityNamed(Group(s, raw, k));
    }
    forall v
      ensures IdentityUser(ids', x, v) == RebuiltUser(s, raw, x, v)
    {
      LatestUserNamed(Group(s, raw, VisitorKey(x, v)));
    }
  }

  lemma RebuiltIdentityNamed(g: seq<Event>)
    requires InOrder(g) && Latest(g, UserOf).Some?
    ensures IdentityNamed(g, IdentityOf(g))
  {
    RunStartExists(g);
    RebuiltLink(g, Latest(g, UserOf).value);
    var r :| IsRunStart(g, r);
    assert IdentityOf(g).linked <= g[r].ts;
  }

  /** The rows of other sites keep their links, the rebuilt rows of the site have the rebuilt ones. */
  lemma VisitorsSwapped(s: Site, raw: seq<Event>, m: map<Key, VisitorRow>, ids: map<Key, Identity>,
                        ids': map<Key, Identity>, x: string)
    requires VisitsLinked(m, ids)
    requires forall site, v :: site != x ==> IdentityUser(ids', site, v) == IdentityUser(ids, site, v)
    requires forall v :: IdentityUser(ids', x, v) == RebuiltUser(s, raw, x, v)
    ensures VisitsLinked(Deleted(m, OfSite(x)), ids')
    ensures VisitsLinked(Filled(Deleted(m, OfSite(x)), RebuildVisitors(s, raw), OfSite(x)), ids')
  {
    hide Group, Latest, LatestUserProps, VisitorTallyOf, IdentityUser;
  }

  lemma DaySessionsSwapped(s: Site, raw: seq<Event>, m: map<Key, DaySessionRow>, ids: map<Key, Identity>,
                           ids': map<Key, Identity>, x: string)
    requires DaySessionsNamed(s, raw, m, ids)
    requires forall site, v :: site != x ==> IdentityUser(ids', site, v) == IdentityUser(ids, site, v)
    ensures DaySessionsNamed(s, raw, Deleted(m, OfSite(x)), ids')
  {
    hide Group, OneVisitor, IdentityUser;
  }

  lemma SiteRebuildNames(s: Site, raw: seq<Event>, t: Tables, x: string)
    requires Counted(s, raw, t) && Named(s, raw, t)
    ensures Named(s, raw, SiteRebuilt(s, raw, t, x))
  {
    hide Named, DailyRebuilt, IdentityUser, VisitsLinked, DaySessionsNamed, SessionsNamed, SessionsJourney, VisitsProps,
         IdentitiesNamed, RevenueRight, IdentityKeys, Filled, Deleted, RebuildVisitors, RebuildIdentities,
         RebuildVisitorSessions, RebuildSessions;
    NamedParts(s, raw, t);
    var scope := OfSite(x);
    var ids' := Filled(Deleted(t.identities, scope), RebuildIdentities(s, raw), scope);
    IdentitiesSwapped(s, raw, t.identities, x);
    VisitorsSwapped(s, raw, t.visitors, t.identities, ids', x);
    VisitorsSwapped(s, raw, t.dayVisitors, t.identities, ids', x);
    DaySessionsSwapped(s, raw, t.daySessions, t.identities, ids', x);
    FreshProps(s, raw, ids');
    PropsRefilled(s, raw, t.visitors, RebuildVisitors(s, raw), scope);
    SessionsRestored(s, raw, t.sessions, scope);
    DailyRebuildNames(s, raw, SessionsRebuilt(s, raw, t, x), scope);
  }

  // ---- Any sequence of both ----------------------------------------------------------------------------

  lemma NothingNamedYet(s: Site)
    ensures Named(s, [], NO_TABLES)
  {
  }

  lemma {:induction false} AlwaysNamed(s: Site, ops: seq<Operation>)
    ensures Named(s, DeliveredBy(ops), TablesAfter(s, ops))
  {
    hide Named, Counted, Fold, SiteRebuilt, DailyRebuilt;
    if ops == [] {
      NothingNamedYet(s);
    } else {
      var init := ops[..|ops| - 1];
      AlwaysNamed(s, init);
      AlwaysCounted(s, init);
      var t, raw := TablesAfter(s, init), DeliveredBy(init);
      match ops[|ops| - 1]
      case Deliver(e) => DeliveryNames(s, raw, t, e);
      case RebuildSite(x) =>
        SiteRebuildNames(s, raw, t, x);
        assert raw + [] == raw;
      case RebuildRange(x, env, from, to) =>
        RangeRebuildNames(s, raw, t, InRange(x, env, from, to));
        assert raw + [] == raw;
    }
  }

  /** The visitor's rows arrived in timestamp order. */
  ghost predicate VisitorInOrder(s: Site, raw: seq<Event>, site: string, visitor: string) {
    InOrder(Group(s, raw, VisitorKey(site, visitor)))
  }

  lemma LinkedUserRestored(s: Site, raw: seq<Event>, ids: map<Key, Identity>, site: string, visitor: string)
    requires IdentityKeys(s, raw, ids) && IdentitiesNamed(s, raw, ids) && VisitorInOrder(s, raw, site, visitor)
    ensures IdentityUser(ids, site, visitor) == RebuiltUser(s, raw, site, visitor)
  {
    hide Latest, Group, InOrder;
  }

  lemma Everything(s: Site, ops: seq<Operation>)
    ensures var raw, t := DeliveredBy(ops), TablesAfter(s, ops);
            && VisitsTally(s, raw, t.visitors, false) && VisitsTally(s, raw, t.dayVisitors, true)
            && SessionsTally(s, raw, t.sessions)
            && DaySessionsTally(s, raw, t.daySessions) && DayCounts(s, raw, t.days)
            && IdentityKeys(s, raw, t.identities)
    ensures Named(s, DeliveredBy(ops), TablesAfter(s, ops))
  {
    hide TablesAfter, VisitsTally, SessionsTally, VisitorSessionsTally, DaySessionsTally, DayCounts, IdentityKeys,
         Named;
    AlwaysCounted(s, ops);
    AlwaysNamed(s, ops);
  }

  /** Visitors and their days: the whole row, for every visitor that arrived in order. */
  lemma VisitorsRestored(s: Site, ops: seq<Operation>, k: Key)
    requires k.VisitorKey? || k.DayVisitorKey?
    requires VisitorInOrder(s, DeliveredBy(ops), k.site, k.visitor)
    ensures var t, r := TablesAfter(s, ops), Rebuild(s, DeliveredBy(ops));
            && At(t.visitors, k) == At(r.visitors, k) && At(t.dayVisitors, k) == At(r.dayVisitors, k)
  {
    hide TablesAfter, IdentityUser, SessionsTally, DaySessionsTally, DayCounts, IdentityKeys, IdentitiesNamed,
         SessionsNamed, DaySessionsNamed, SessionsJourney, RevenueRight, Group, Latest, VisitorTallyOf, LatestUserProps,
         InOrder;
    var t, raw := TablesAfter(s, ops), DeliveredBy(ops);
    Everything(s, ops);
    LinkedUserRestored(s, raw, t.identities, k.site, k.visitor);
    assert forall e :: Covers(s, k, e) ==> Covers(s, VisitorKey(k.site, k.visitor), e);
    InOrderWithin(s, raw, k, VisitorKey(k.site, k.visitor));
    if k.DayVisitorKey? {
      NeverIdentified(s, raw, k);
    }
  }

  lemma LinkAgrees(g: seq<Event>, i: Identity)
    requires InOrder(g) && IdentityNamed(g, i)
    ensures IdentityOf(g).linked <= i.linked
    ensures !Reassigned(g, i.user) ==> i.linked == IdentityOf(g).linked
  {
    hide Reassigned;
    var r :| IsRunStart(g, r) && IdentityOf(g).linked <= i.linked <= g[r].ts;
    RebuiltLink(g, i.user);
    if IdentityOf(g).linked < g[r].ts {
      var a :| 0 <= a < |g| && g[a].user == Some(i.user) && g[a].ts == IdentityOf(g).linked;
      EarlierLink(g, i.user, r, a);
    }
  }

  /**
   Identities: the user and both ends of its span; and the link, unless the visitor was
   reassigned away from its user and back, when it may only be dated later.
   */
  lemma IdentitiesRestoredInOrder(s: Site, ops: seq<Operation>, k: Key)
    requires k in TablesAfter(s, ops).identities && InOrder(Group(s, DeliveredBy(ops), k))
    ensures k in Rebuild(s, DeliveredBy(ops)).identities
    ensures var a, b := TablesAfter(s, ops).identities[k], Rebuild(s, DeliveredBy(ops)).identities[k];
            && a.user == b.user && a.first == b.first && a.last == b.last && b.linked <= a.linked
            && (!Reassigned(Group(s, DeliveredBy(ops), k), a.user) ==> a.linked == b.linked)
  {
    hide TablesAfter, VisitsTally, SessionsTally, DaySessionsTally, DayCounts, VisitsLinked, SessionsNamed, Reassigned,
         DaySessionsNamed, VisitsProps, SessionsJourney, RevenueRight, Group, Latest, InOrder, LinkedWithin;
    Everything(s, ops);
    LinkAgrees(Group(s, DeliveredBy(ops), k), TablesAfter(s, ops).identities[k]);
  }

  // ---- Where the two sides may differ ------------------------------------------------------------------

  /** The session names the visitor of one of its ends: the last by folding, the earliest by rebuilding. */
  ghost predicate SessionsNameEnd(s: Site, raw: seq<Event>, m: map<Key, SessionRow>) {
    forall k :: k in m ==>
      && k.SessionKey? && Group(s, raw, k) != []
      && (m[k].visitor == LastVisitor(Group(s, raw, k)) || m[k].visitor == EarliestVisitor(Group(s, raw, k)))
  }

  /** The visitor session exposes the latest user of its own rows or the linked one. */
  ghost predicate VisitorSessionsName(s: Site, raw: seq<Event>, m: map<Key, VisitorSessionRow>, ids: map<Key, Identity>)
  {
    forall k :: k in m ==>
      && k.VisitorSessionKey?
      && (m[k].user == Latest(Group(s, raw, k), UserOf) || m[k].user == IdentityUser(ids, k.site, k.visitor))
  }

  /**
   The session of one in-order visitor exposes the latest user of its own rows, or the visitor's
   latest as of its last row; and none if the visitor was never identified.
   */
  ghost predicate SessionUserNamed(s: Site, raw: seq<Event>, k: Key, v: string, user: Option<string>) {
    && (user == Latest(Group(s, raw, k), UserOf) || user == RebuiltUser(s, Through(s, raw, k), k.site, v))
    && (user.Some? ==> RebuiltUser(s, raw, k.site, v).Some?)
  }

  ghost predicate SessionUsersNamed(s: Site, raw: seq<Event>, m: map<Key, SessionRow>) {
    forall k, v :: k in m && k.SessionKey? && OneVisitor(Group(s, raw, k), v) && VisitorInOrder(s, raw, k.site, v) ==>
      SessionUserNamed(s, raw, k, v, m[k].user)
  }

  lemma SessionsNameEndStep(s: Site, raw: seq<Event>, m: map<Key, SessionRow>, e: Event, user: Option<string>)
    requires SessionsNameEnd(s, raw, m)
    ensures SessionsNameEnd(s, raw + [e], FoldSessions(m, e, user, s.threshold(e.site)))
  {
    hide Group, FirstTally, NextTally, FirstJourney, NextJourney, EarliestVisitor;
    var m' := FoldSessions(m, e, user, s.threshold(e.site));
    forall k | k in m'
      ensures k.SessionKey? && Group(s, raw + [e], k) != []
      ensures m'[k].visitor == LastVisitor(Group(s, raw + [e], k))
              || m'[k].visitor == EarliestVisitor(Group(s, raw + [e], k))
    {
      GroupStep(s, raw, e, k);
    }
  }

  /** A visitor nobody identified has no named row in any group. */
  lemma NobodyNamed(s: Site, raw: seq<Event>, k: Key, v: string)
    requires OneVisitor(Group(s, raw, k), v) && RebuiltUser(s, raw, k.site, v).None?
    ensures Latest(Group(s, raw, k), UserOf).None?
  {
    var g := Group(s, raw, k);
    match LatestAt(g, UserOf)
    case None =>
    case Some(i) =>
      GroupMembers(s, raw, k);
      GroupMembers(s, raw, VisitorKey(k.site, v));
      assert g[i] in g;
      var h := Group(s, raw, VisitorKey(k.site, v));
      assert g[i] in h;
      var j :| 0 <= j < |h| && h[j] == g[i];
      assert UserOf(h[j]).Some?;
  }

  lemma VisitorSessionOwn(s: Site, raw: seq<Event>, k: Key)
    requires k.VisitorSessionKey?
    ensures OneVisitor(Group(s, raw, k), k.visitor)
  {
    GroupMembers(s, raw, k);
  }

  lemma NotLinkedNotNamed(s: Site, raw: seq<Event>, ids: map<Key, Identity>, k: Key)
    requires IdentityKeys(s, raw, ids) && k.VisitorSessionKey? && IdentityUser(ids, k.site, k.visitor).None?
    ensures Latest(Group(s, raw, k), UserOf).None?
  {
    hide Group, Latest;
    VisitorSessionOwn(s, raw, k);
    assert VisitorKey(k.site, k.visitor) !in ids;
    NobodyNamed(s, raw, k, k.visitor);
  }

  lemma VisitorSessionsNameStep(s: Site, raw: seq<Event>, m: map<Key, VisitorSessionRow>, e: Event,
                                ids: map<Key, Identity>, ids': map<Key, Identity>, link: Option<string>)
    requires VisitorSessionsName(s, raw, m, ids) && IdentityKeys(s, raw, ids) && Relinked(ids, ids', e, link)
    ensures VisitorSessionsName(s, raw + [e], FoldVisitorSessions(m, e, link, link), ids')
  {
    hide Group, Latest, IdentityKeys;
    var m' := FoldVisitorSessions(m, e, link, link);
    forall k | k in m'
      ensures k.VisitorSessionKey?
      ensures m'[k].user == Latest(Group(s, raw + [e], k), UserOf)
              || m'[k].user == IdentityUser(ids', k.site, k.visitor)
    {
      GroupStep(s, raw, e, k);
      assert k.VisitorSessionKey? && VisitorKey(k.site, k.visitor) != VisitorOf(e) ==> !OfVisitor(k, e);
      if k in m && IdentityUser(ids, k.site, k.visitor).None? {
        NotLinkedNotNamed(s, raw, ids, k);
      }
    }
  }

  lemma SessionUsersStep(s: Site, raw: seq<Event>, t: Tables, e: Event)
    requires VisitsLinked(t.visitors, t.identities) && SessionsTally(s, raw, t.sessions)
             && SessionUsersNamed(s, raw, t.sessions)
    requires IdentityKeys(s, raw + [e], FoldIdentities(t, e)) && IdentitiesNamed(s, raw + [e], FoldIdentities(t, e))
    ensures SessionUsersNamed(s, raw + [e], Fold(s, t, e).sessions)
  {
    hide VisitsLinked, SessionsTally, IdentityKeys, IdentitiesNamed, VisitorInOrder, Fold, FoldIdentities, OneVisitor,
         SessionUserNamed;
    var m' := Fold(s, t, e).sessions;
    forall k, v | k in m' && k.SessionKey? && OneVisitor(Group(s, raw + [e], k), v)
      && VisitorInOrder(s, raw + [e], k.site, v)
      ensures SessionUserNamed(s, raw + [e], k, v, m'[k].user)
    {
      SessionUserStays(s, raw, t, e, k, v);
    }
  }

  lemma VisitorWasInOrder(s: Site, raw: seq<Event>, e: Event, site: string, v: string)
    requires VisitorInOrder(s, raw + [e], site, v)
    ensures VisitorInOrder(s, raw, site, v)
  {
    ThroughInOrder(s, raw + [e], |raw|, VisitorKey(site, v));
    assert (raw + [e])[..|raw|] == raw;
  }

  lemma StillNamed(s: Site, raw: seq<Event>, e: Event, site: string, v: string)
    ensures RebuiltUser(s, raw, site, v).Some? ==> RebuiltUser(s, raw + [e], site, v).Some?
  {
    hide Latest, Group;
    GroupStep(s, raw, e, VisitorKey(site, v));
    LatestNoneAppend(Group(s, raw, VisitorKey(site, v)), e);
  }

  lemma SessionUserStays(s: Site, raw: seq<Event>, t: Tables, e: Event, k: Key, v: string)
    requires VisitsLinked(t.visitors, t.identities) && SessionsTally(s, raw, t.sessions)
             && SessionUsersNamed(s, raw, t.sessions)
    requires IdentityKeys(s, raw + [e], FoldIdentities(t, e)) && IdentitiesNamed(s, raw + [e], FoldIdentities(t, e))
    requires k.SessionKey? && k in Fold(s, t, e).sessions
    requires OneVisitor(Group(s, raw + [e], k), v) && VisitorInOrder(s, raw + [e], k.site, v)
    ensures SessionUserNamed(s, raw + [e], k, v, Fold(s, t, e).sessions[k].user)
  {
    hide VisitsLinked, SessionsTally, IdentityKeys, IdentitiesNamed, VisitorInOrder, RebuiltUser, IdentityUser, Covers,
         Latest, VisitSession, FoldVisits, FoldVisitorSessions, FoldDaySessions, FoldDays;
    GroupStep(s, raw, e, k);
    ThroughAppend(s, raw, e, k);
    OneVisitorBefore(Group(s, raw, k), Group(s, raw + [e], k), v);
    VisitorWasInOrder(s, raw, e, k.site, v);
    StillNamed(s, raw, e, k.site, v);
    if k == SessionOf(e) {
      assert e in Group(s, raw + [e], k);
      LinkedUserRestored(s, raw + [e], FoldIdentities(t, e), k.site, v);
      SessionUserTaken(s, t, e);
    } else {
      SessionUntouched(s, t, e, k);
    }
  }

  lemma SessionUserTaken(s: Site, t: Tables, e: Event)
    requires VisitsLinked(t.visitors, t.identities)
    ensures var k := SessionOf(e);
            && k in Fold(s, t, e).sessions
            && Fold(s, t, e).sessions[k].user == Coalesce(IdentityUser(FoldIdentities(t, e), e.site, e.visitor),
                                                          if k in t.sessions then t.sessions[k].user else None)
  {
    hide VisitsLinked, FirstTally, NextTally, FirstJourney, NextJourney, FoldIdentities, Link, FoldVisits,
         FoldVisitorSessions, FoldDaySessions, FoldDays;
    IdentityAfter(t, e);
  }

  lemma SessionUntouched(s: Site, t: Tables, e: Event, k: Key)
    requires k != SessionOf(e)
    ensures At(Fold(s, t, e).sessions, k) == At(t.sessions, k)
  {
    hide VisitSession, FoldIdentities, Link, FoldVisits, FoldVisitorSessions, FoldDaySessions, FoldDays;
  }

  lemma SessionEndsRefreshed(s: Site, raw: seq<Event>, m: map<Key, SessionRow>, scope: Key -> bool)
    requires SessionsNameEnd(s, raw, m)
    ensures SessionsNameEnd(s, raw, Filled(Deleted(m, scope), RebuildSessions(s, raw), scope))
  {
    hide Group, SessionTallyOf, JourneyOf, Latest, EarliestVisitor;
  }

  lemma RebuiltSessionUserNamed(s: Site, raw: seq<Event>, k: Key, v: string)
    requires k in RebuildSessions(s, raw) && OneVisitor(Group(s, raw, k), v)
    ensures SessionUserNamed(s, raw, k, v, RebuildSessions(s, raw)[k].user)
  {
    hide Group, SessionTallyOf, JourneyOf, Latest, EarliestVisitor, OneVisitor, RebuiltUser, Through;
    if RebuiltUser(s, raw, k.site, v).None? {
      NobodyNamed(s, raw, k, v);
    }
  }

  lemma SessionUsersRefreshed(s: Site, raw: seq<Event>, m: map<Key, SessionRow>, scope: Key -> bool)
    requires SessionUsersNamed(s, raw, m)
    ensures SessionUsersNamed(s, raw, Filled(Deleted(m, scope), RebuildSessions(s, raw), scope))
  {
    hide Group, OneVisitor, VisitorInOrder, SessionUserNamed, RebuiltSession;
    var m' := Filled(Deleted(m, scope), RebuildSessions(s, raw), scope);
    forall k, v | k in m' && k.SessionKey? && OneVisitor(Group(s, raw, k), v) && VisitorInOrder(s, raw, k.site, v)
      ensures SessionUserNamed(s, raw, k, v, m'[k].user)
    {
      if scope(k) {
        RebuiltSessionUserNamed(s, raw, k, v);
      }
    }
  }

  lemma VisitorSessionsRefreshed(s: Site, raw: seq<Event>, m: map<Key, VisitorSessionRow>, ids: map<Key, Identity>,
                                 ids': map<Key, Identity>, x: string)
    requires VisitorSessionsName(s, raw, m, ids)
    requires forall site, v :: site != x ==> IdentityUser(ids', site, v) == IdentityUser(ids, site, v)
    ensures VisitorSessionsName(s, raw, Filled(Deleted(m, OfSite(x)), RebuildVisitorSessions(s, raw), OfSite(x)), ids')
  {
    hide Group, Latest, SpanOf, IdentityUser;
  }

  ghost predicate Told(s: Site, raw: seq<Event>, t: Tables) {
    && SessionsNameEnd(s, raw, t.sessions) && SessionUsersNamed(s, raw, t.sessions)
    && VisitorSessionsName(s, raw, t.visitorSessions, t.identities)
  }

  lemma DeliveryTells(s: Site, raw: seq<Event>, t: Tables, e: Event)
    requires Told(s, raw, t) && Counted(s, raw, t) && Named(s, raw, t)
    requires Counted(s, raw + [e], Fold(s, t, e)) && Named(s, raw + [e], Fold(s, t, e))
    ensures Told(s, raw + [e], Fold(s, t, e))
  {
    hide VisitsTally, SessionsTally, VisitorSessionsTally, DaySessionsTally, DayCounts, IdentityKeys, SessionsNamed,
         DaySessionsNamed, VisitsProps, SessionsJourney, IdentitiesNamed, RevenueRight, FoldVisits, FoldSessions,
         FoldVisitorSessions, FoldDaySessions, FoldDays, FoldIdentities, Link, VisitsLinked, Relinked, SessionsNameEnd,
         SessionUsersNamed, VisitorSessionsName;
    IdentityAfter(t, e);
    SessionsNameEndStep(s, raw, t.sessions, e, Canonical(t, e));
    SessionUsersStep(s, raw, t, e);
    VisitorSessionsNameStep(s, raw, t.visitorSessions, e, t.identities, FoldIdentities(t, e), Link(t, e));
  }

  lemma SiteRebuildTells(s: Site, raw: seq<Event>, t: Tables, x: string)
    requires Told(s, raw, t) && Counted(s, raw, t) && Named(s, raw, t)
    ensures Told(s, raw, SiteRebuilt(s, raw, t, x))
  {
    hide Named, IdentityUser, IdentitiesNamed, IdentityKeys, Filled, Deleted, RebuildVisitors, RebuildIdentities,
         RebuildVisitorSessions, RebuildSessions, VisitsTally, SessionsTally, VisitorSessionsTally, DaySessionsTally,
         DayCounts, SessionsNameEnd, SessionUsersNamed, VisitorSessionsName, RebuildDays, DayVisitorsFrom,
         DaySessionsFrom;
    NamedParts(s, raw, t);
    IdentitiesSwapped(s, raw, t.identities, x);
    SessionEndsRefreshed(s, raw, t.sessions, OfSite(x));
    SessionUsersRefreshed(s, raw, t.sessions, OfSite(x));
    VisitorSessionsRefreshed(s, raw, t.visitorSessions, t.identities,
                             Filled(Deleted(t.identities, OfSite(x)), RebuildIdentities(s, raw), OfSite(x)), x);
  }

  lemma NothingToldYet(s: Site)
    ensures Told(s, [], NO_TABLES)
  {
  }

  lemma {:induction false} AlwaysTold(s: Site, ops: seq<Operation>)
    ensures Told(s, DeliveredBy(ops), TablesAfter(s, ops))
  {
    hide Named, Counted, Told, Fold, SiteRebuilt;
    if ops == [] {
      NothingToldYet(s);
    } else {
      var init := ops[..|ops| - 1];
      AlwaysTold(s, init);
      AlwaysCounted(s, init);
      AlwaysNamed(s, init);
      AlwaysCounted(s, ops);
      AlwaysNamed(s, ops);
      var t, raw := TablesAfter(s, init), DeliveredBy(init);
      match ops[|ops| - 1]
      case Deliver(e) => DeliveryTells(s, raw, t, e);
      case RebuildSite(x) =>
        SiteRebuildTells(s, raw, t, x);
        assert raw + [] == raw;
      case RebuildRange(x, env, from, to) =>
        RangeRebuildTells(s, raw, t, InRange(x, env, from, to));
        assert raw + [] == raw;
    }
  }

  lemma RangeRebuildTells(s: Site, raw: seq<Event>, t: Tables, scope: Key -> bool)
    requires Told(s, raw, t)
    ensures Told(s, raw, DailyRebuilt(s, raw, t, scope))
  {
    hide SessionsNameEnd, SessionUsersNamed, VisitorSessionsName, RebuildDays, DayVisitorsFrom, DaySessionsFrom, Filled,
         Deleted;
  }

  /**
   Sessions in order: counts and journey; the visitor is the first or the last, so the rebuilt
   one where these are one.
   */
  lemma SessionsRestoredInOrder(s: Site, ops: seq<Operation>, k: Key)
    requires k in TablesAfter(s, ops).sessions && InOrder(Group(s, DeliveredBy(ops), k))
    ensures k in Rebuild(s, DeliveredBy(ops)).sessions && Group(s, DeliveredBy(ops), k) != []
    ensures var a, b := TablesAfter(s, ops).sessions[k], Rebuild(s, DeliveredBy(ops)).sessions[k];
            var g := Group(s, DeliveredBy(ops), k);
            && a.tally == b.tally && a.journey == b.journey && b.visitor == g[0].visitor
            && (a.visitor == g[0].visitor || a.visitor == g[|g| - 1].visitor)
  {
    hide TablesAfter, VisitsTally, DaySessionsTally, DayCounts, IdentityKeys, IdentitiesNamed, VisitsLinked,
         SessionUsersNamed, VisitorSessionsName, SessionsNamed, DaySessionsNamed, VisitsProps, RevenueRight, Group,
         Latest, InOrder, SessionTallyOf, JourneyOf, EarliestVisitor;
    Everything(s, ops);
    AlwaysTold(s, ops);
    FirstRowsVisitor(Group(s, DeliveredBy(ops), k));
  }

  /**
   The user of a session of one in-order visitor: what the rebuild reads from the session's own
   rows, or the visitor's latest as of the session's last row. Where these two agree it is the
   rebuilt user whatever happened in between.
   */
  lemma SessionUsersRestored(s: Site, ops: seq<Operation>, k: Key, v: string)
    requires k.SessionKey? && k in TablesAfter(s, ops).sessions
    requires OneVisitor(Group(s, DeliveredBy(ops), k), v) && VisitorInOrder(s, DeliveredBy(ops), k.site, v)
    ensures k in Rebuild(s, DeliveredBy(ops)).sessions
    ensures var raw, user := DeliveredBy(ops), TablesAfter(s, ops).sessions[k].user;
            user == Rebuild(s, raw).sessions[k].user || user == RebuiltUser(s, Through(s, raw, k), k.site, v)
  {
    hide TablesAfter, VisitsTally, DaySessionsTally, DayCounts, IdentityKeys, Named, SessionsNameEnd,
         VisitorSessionsName, OneVisitor, VisitorInOrder, Group, Latest, SessionTallyOf, JourneyOf, EarliestVisitor,
         Through;
    Everything(s, ops);
    AlwaysTold(s, ops);
    assert SessionUserNamed(s, DeliveredBy(ops), k, v, TablesAfter(s, ops).sessions[k].user);
  }

  /** The same for a visitor session, with the visitor's latest user of all. */
  lemma VisitorSessionsRestored(s: Site, ops: seq<Operation>, k: Key)
    requires k.VisitorSessionKey? && k in TablesAfter(s, ops).visitorSessions
    requires VisitorInOrder(s, DeliveredBy(ops), k.site, k.visitor)
    ensures k in Rebuild(s, DeliveredBy(ops)).visitorSessions
    ensures var raw := DeliveredBy(ops);
            var a, b := TablesAfter(s, ops).visitorSessions[k], Rebuild(s, raw).visitorSessions[k];
            a.span == b.span && (a.user == b.user || a.user == RebuiltUser(s, raw, k.site, k.visitor))
  {
    hide TablesAfter, VisitsTally, SessionsTally, DaySessionsTally, DayCounts, SessionsNameEnd, SessionUsersNamed,
         VisitorInOrder, VisitsLinked, SessionsNamed, DaySessionsNamed, VisitsProps, SessionsJourney, RevenueRight,
         IdentityKeys, IdentitiesNamed, Group, Latest, SpanOf, IdentityUser, RebuiltUser;
    Everything(s, ops);
    VisitorSessionsCounted(s, ops);
    AlwaysTold(s, ops);
    LinkedUserRestored(s, DeliveredBy(ops), TablesAfter(s, ops).identities, k.site, k.visitor);
  }

  lemma VisitorSessionsCounted(s: Site, ops: seq<Operation>)
    ensures VisitorSessionsTally(s, DeliveredBy(ops), TablesAfter(s, ops).visitorSessions)
  {
    hide TablesAfter, VisitsTally, SessionsTally, VisitorSessionsTally, DaySessionsTally, DayCounts, IdentityKeys;
    AlwaysCounted(s, ops);
  }

  /** Daily sessions of one visitor that arrived in order: the whole row. */
  lemma DaySessionsRestoredInOrder(s: Site, ops: seq<Operation>, k: Key, v: string)
    requires k in TablesAfter(s, ops).daySessions && k.DaySessionKey?
    requires OneVisitor(Group(s, DeliveredBy(ops), k), v) && VisitorInOrder(s, DeliveredBy(ops), k.site, v)
    ensures k in Rebuild(s, DeliveredBy(ops)).daySessions
    ensures TablesAfter(s, ops).daySessions[k] == Rebuild(s, DeliveredBy(ops)).daySessions[k]
  {
    hide TablesAfter, VisitsTally, SessionsTally, DayCounts, IdentityKeys, IdentitiesNamed, VisitsLinked, SessionsNamed,
         VisitsProps, SessionsJourney, RevenueRight, Group, Latest, InOrder, EarliestVisitor, SpanOf, OneVisitor,
         IdentityUser, VisitorInOrder, RebuiltUser, RebuiltDaySession;
    Everything(s, ops);
    LinkedUserRestored(s, DeliveredBy(ops), TablesAfter(s, ops).identities, k.site, v);
    RebuiltDaySessionUser(s, DeliveredBy(ops), k, v);
    RebuiltDaySessionSpan(s, DeliveredBy(ops), k);
  }

  lemma RebuiltDaySessionSpan(s: Site, raw: seq<Event>, k: Key)
    requires k.DaySessionKey? && Group(s, raw, k) != []
    ensures RebuiltDaySession(s, raw, k).span == SpanOf(Group(s, raw, k))
  {
  }

  /** Days without a split purchase: the whole row, revenue included. */
  lemma DaysRestoredWhole(s: Site, ops: seq<Operation>, k: Key)
    requires k in TablesAfter(s, ops).days && Unsplit(Group(s, DeliveredBy(ops), k))
    ensures k in Rebuild(s, DeliveredBy(ops)).days
    ensures TablesAfter(s, ops).days[k] == Rebuild(s, DeliveredBy(ops)).days[k]
  {
    hide TablesAfter, VisitsTally, SessionsTally, DaySessionsTally, IdentityKeys, IdentitiesNamed, VisitsLinked,
         SessionsNamed, DaySessionsNamed, VisitsProps, SessionsJourney, Group, Total, Unsplit;
    Everything(s, ops);
  }
}
