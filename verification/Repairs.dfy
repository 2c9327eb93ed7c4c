/**
 Rebuilds that run between deliveries: a whole site, or the daily tables of one
 environment and date range, are deleted and filled again from the raw events, and
 ingestion goes on from there.
 */
module Repairs {
  import opened Wrappers
  import opened Events
  import opened Derived
  import opened Folds
  import opened Agreement
  import opened Ordered
  import opened Ingestion

  // ---- The statements --------------------------------------------------------------------------

  /** DELETE: the rows whose key is in scope go. */
  function Deleted<V>(m: map<Key, V>, scope: Key -> bool): map<Key, V> {
    map k | k in m && !scope(k) :: m[k]
  }

  /** INSERT .. SELECT .. GROUP BY over the raw events in scope. */
  function Filled<V>(m: map<Key, V>, rebuilt: map<Key, V>, scope: Key -> bool): map<Key, V> {
    m + map k | k in rebuilt && scope(k) :: rebuilt[k]
  }

  lemma RefilledAt<V>(m: map<Key, V>, rebuilt: map<Key, V>, scope: Key -> bool, k: Key)
    ensures At(Filled(Deleted(m, scope), rebuilt, scope), k) == if scope(k) then At(rebuilt, k) else At(m, k)
  {
  }

  function VisitorsNaming(m: map<Key, VisitorRow>, user: Key -> Option<string>): (r: map<Key, VisitorRow>)
    ensures r.Keys == m.Keys && forall k :: k in m ==> r[k] == m[k].(user := user(k))
  {
    map k | k in m :: m[k].(user := user(k))
  }

  function SessionsNaming(m: map<Key, DaySessionRow>, user: Key -> Option<string>): (r: map<Key, DaySessionRow>)
    ensures r.Keys == m.Keys && forall k :: k in m ==> r[k] == m[k].(user := user(k))
  {
    map k | k in m :: m[k].(user := user(k))
  }

  /**
   The user of a daily visitor row: the one the identity table names at that moment, or else the
   latest of the day.
   */
  function DayVisitorUser(s: Site, raw: seq<Event>, ids: map<Key, Identity>): Key -> Option<string> {
    (k: Key) =>
      if k.DayVisitorKey? then Coalesce(IdentityUser(ids, k.site, k.visitor), Latest(Group(s, raw, k), UserOf))
      else None
  }

  function UserFrom(ids: map<Key, Identity>): Event -> Option<string> {
    (e: Event) => IdentityUser(ids, e.site, e.visitor)
  }

  /** The user of a daily session row, from the identities of the session's visitors. */
  function DaySessionUser(s: Site, raw: seq<Event>, ids: map<Key, Identity>): Key -> Option<string> {
    (k: Key) => Coalesce(Latest(Group(s, raw, k), UserFrom(ids)), Latest(Group(s, raw, k), UserOf))
  }

  function DayVisitorsFrom(s: Site, raw: seq<Event>, ids: map<Key, Identity>): map<Key, VisitorRow> {
    VisitorsNaming(RebuildDayVisitors(s, raw), DayVisitorUser(s, raw, ids))
  }

  function DaySessionsFrom(s: Site, raw: seq<Event>, ids: map<Key, Identity>): map<Key, DaySessionRow> {
    SessionsNaming(RebuildDaySessions(s, raw), DaySessionUser(s, raw, ids))
  }

  function OfSite(x: string): Key -> bool {
    (k: Key) => k.site == x
  }

  /** The daily keys of one site and environment between two dates, both included. */
  function InRange(x: string, env: string, from: int, to: int): Key -> bool {
    (k: Key) => k.site == x && (k.DayKey? || k.DayVisitorKey? || k.DaySessionKey?) && k.env == env
      && from <= k.date <= to
  }

  function DailyRebuilt(s: Site, raw: seq<Event>, t: Tables, scope: Key -> bool): Tables {
    t.(days := Filled(Deleted(t.days, scope), RebuildDays(s, raw), scope),
       dayVisitors := Filled(Deleted(t.dayVisitors, scope), DayVisitorsFrom(s, raw, t.identities), scope),
       daySessions := Filled(Deleted(t.daySessions, scope), DaySessionsFrom(s, raw, t.identities), scope))
  }

  /** The site's visitors, identities and sessions are filled first. */
  function SessionsRebuilt(s: Site, raw: seq<Event>, t: Tables, x: string): Tables {
    var scope := OfSite(x);
    t.(visitors := Filled(Deleted(t.visitors, scope), RebuildVisitors(s, raw), scope),
       identities := Filled(Deleted(t.identities, scope), RebuildIdentities(s, raw), scope),
       visitorSessions := Filled(Deleted(t.visitorSessions, scope), RebuildVisitorSessions(s, raw), scope),
       sessions := Filled(Deleted(t.sessions, scope), RebuildSessions(s, raw), scope))
  }

  /** RebuildSiteDerivedData. */
  function SiteRebuilt(s: Site, raw: seq<Event>, t: Tables, x: string): Tables {
    DailyRebuilt(s, raw, SessionsRebuilt(s, raw, t, x), OfSite(x))
  }

  /** RebuildEnvironmentDateRange. */
  function RangeRebuilt(s: Site, raw: seq<Event>, t: Tables, x: string, env: string, from: int, to: int): Tables {
    DailyRebuilt(s, raw, t, InRange(x, env, from, to))
  }

  // ---- What a site rebuild restores ----------------------------------------------------------------

  lemma LatestSame(g: seq<Event>, f: Event -> Option<string>, h: Event -> Option<string>)
    requires forall i :: 0 <= i < |g| ==> f(g[i]) == h(g[i])
    ensures Latest(g, f) == Latest(g, h)
  {
    match LatestAt(g, f)
    case Some(i) => assert IsLatest(g, h, i);
    case None =>
  }

  lemma IdentitiesRestored(s: Site, raw: seq<Event>, t: Tables, x: string, visitor: string)
    ensures IdentityUser(SiteRebuilt(s, raw, t, x).identities, x, visitor) == RebuiltUser(s, raw, x, visitor)
  {
    hide Latest, Group;
    RefilledAt(t.identities, RebuildIdentities(s, raw), OfSite(x), VisitorKey(x, visitor));
    LatestUserNamed(Group(s, raw, VisitorKey(x, visitor)));
  }

  lemma LatestUserNamed(g: seq<Event>)
    ensures Latest(g, UserOf).Some? ==> IdentityOf(g).user == Latest(g, UserOf).value
  {
  }

  lemma DaySessionRestored(s: Site, raw: seq<Event>, ids: map<Key, Identity>, k: Key)
    requires k in RebuildDaySessions(s, raw)
    requires forall v :: IdentityUser(ids, k.site, v) == RebuiltUser(s, raw, k.site, v)
    ensures DaySessionsFrom(s, raw, ids)[k] == RebuildDaySessions(s, raw)[k]
  {
    hide Latest;
    var g := Group(s, raw, k);
    GroupMembers(s, raw, k);
    var identified := (e: Event) => RebuiltUser(s, raw, e.site, e.visitor);
    forall i | 0 <= i < |g|
      ensures UserFrom(ids)(g[i]) == identified(g[i])
    {
      assert g[i] in g;
    }
    LatestSame(g, UserFrom(ids), identified);
  }

  /**
   After a site rebuild every row of the site is the rebuilt one, in every table and column, and
   no other row moved.
   */
  lemma SiteRebuildRestores(s: Site, raw: seq<Event>, t: Tables, x: string, k: Key)
    ensures var now, want := SiteRebuilt(s, raw, t, x), if k.site == x then Rebuild(s, raw) else t;
            && At(now.visitors, k) == At(want.visitors, k) && At(now.identities, k) == At(want.identities, k)
            && At(now.visitorSessions, k) == At(want.visitorSessions, k) && At(now.sessions, k) == At(want.sessions, k)
            && At(now.days, k) == At(want.days, k) && At(now.dayVisitors, k) == At(want.dayVisitors, k)
            && At(now.daySessions, k) == At(want.daySessions, k)
  {
    hide RebuildVisitors, RebuildIdentities, RebuildVisitorSessions, RebuildSessions, RebuildDays, RebuildDayVisitors,
         RebuildDaySessions, DayVisitorsFrom, DaySessionsFrom, Filled, Deleted;
    var scope := OfSite(x);
    var ids := SiteRebuilt(s, raw, t, x).identities;
    RefilledAt(t.visitors, RebuildVisitors(s, raw), scope, k);
    RefilledAt(t.identities, RebuildIdentities(s, raw), scope, k);
    RefilledAt(t.visitorSessions, RebuildVisitorSessions(s, raw), scope, k);
    RefilledAt(t.sessions, RebuildSessions(s, raw), scope, k);
    RefilledAt(t.days, RebuildDays(s, raw), scope, k);
    RefilledAt(t.dayVisitors, DayVisitorsFrom(s, raw, ids), scope, k);
    RefilledAt(t.daySessions, DaySessionsFrom(s, raw, ids), scope, k);
    if k.site == x {
      DaysRestored(s, raw, t, x, k);
    }
  }

  lemma DaysRestored(s: Site, raw: seq<Event>, t: Tables, x: string, k: Key)
    requires k.site == x
    ensures At(DayVisitorsFrom(s, raw, SiteRebuilt(s, raw, t, x).identities), k) == At(RebuildDayVisitors(s, raw), k)
    ensures At(DaySessionsFrom(s, raw, SiteRebuilt(s, raw, t, x).identities), k) == At(RebuildDaySessions(s, raw), k)
  {
    hide SiteRebuilt, RebuildDayVisitors, RebuildDaySessions, VisitorsNaming, SessionsNaming, DaySessionUser, Latest,
         Group;
    var ids := SiteRebuilt(s, raw, t, x).identities;
    forall v
      ensures IdentityUser(ids, x, v) == RebuiltUser(s, raw, x, v)
    {
      IdentitiesRestored(s, raw, t, x, v);
    }
    if k in RebuildDaySessions(s, raw) {
      DaySessionRestored(s, raw, ids, k);
    }
    assert k in DayVisitorsFrom(s, raw, ids) <==> k in RebuildDayVisitors(s, raw);
    assert k in DaySessionsFrom(s, raw, ids) <==> k in RebuildDaySessions(s, raw);
  }

  // ---- What a date-range rebuild restores ------------------------------------------------------------

  /** The row belongs to a day of the range, both ends included, of the site and environment. */
  ghost predicate OnDayOf(k: Key, x: string, env: string, from: int, to: int) {
    match k
    case DayKey(site, date, e) => site == x && e == env && from <= date && date <= to
    case DayVisitorKey(site, date, e, _) => site == x && e == env && from <= date && date <= to
    case DaySessionKey(site, date, e, _) => site == x && e == env && from <= date && date <= to
    case _ => false
  }

  /**
   After a date-range rebuild the daily rows of the range are the rebuilt ones, except that a visitor's or a
   session's user is the one the identity table names at that moment, and where it names none, the latest
   of the row's own events. Nothing outside the range moved, and no other table changed.
   */
  lemma RangeRebuildRestores(s: Site, raw: seq<Event>, t: Tables, x: string, env: string, from: int, to: int, k: Key)
    ensures var now, want := RangeRebuilt(s, raw, t, x, env, from, to), Rebuild(s, raw);
            && now.visitors == t.visitors && now.identities == t.identities
            && now.visitorSessions == t.visitorSessions && now.sessions == t.sessions
            && (!OnDayOf(k, x, env, from, to) ==>
                  && At(now.days, k) == At(t.days, k) && At(now.dayVisitors, k) == At(t.dayVisitors, k)
                  && At(now.daySessions, k) == At(t.daySessions, k))
            && (OnDayOf(k, x, env, from, to) ==>
                  && At(now.days, k) == At(want.days, k)
                  && (k in now.dayVisitors <==> k in want.dayVisitors)
                  && (k in now.daySessions <==> k in want.daySessions)
                  && (k in now.dayVisitors ==>
                        now.dayVisitors[k] == want.dayVisitors[k].(user := NamedOnDay(s, raw, t.identities, k)))
                  && (k in now.daySessions ==>
                        now.daySessions[k] == want.daySessions[k].(user := NamedInSession(s, raw, t.identities, k))))
  {
    hide Rebuild, RebuildDays, RebuildDayVisitors, RebuildDaySessions, DayVisitorsFrom, DaySessionsFrom, Filled,
         Deleted, NamedOnDay, NamedInSession;
    var scope := InRange(x, env, from, to);
    assert scope(k) <==> OnDayOf(k, x, env, from, to);
    RefilledAt(t.days, RebuildDays(s, raw), scope, k);
    RefilledAt(t.dayVisitors, DayVisitorsFrom(s, raw, t.identities), scope, k);
    RefilledAt(t.daySessions, DaySessionsFrom(s, raw, t.identities), scope, k);
    DailyTables(s, raw);
    DayVisitorsNamed(s, raw, t.identities, k);
    DaySessionsNamedAt(s, raw, t.identities, k);
  }

  lemma DailyTables(s: Site, raw: seq<Event>)
    ensures var r := Rebuild(s, raw);
            && r.days == RebuildDays(s, raw) && r.dayVisitors == RebuildDayVisitors(s, raw)
            && r.daySessions == RebuildDaySessions(s, raw)
  {
  }

  lemma DayVisitorsNamed(s: Site, raw: seq<Event>, ids: map<Key, Identity>, k: Key)
    ensures k in DayVisitorsFrom(s, raw, ids) <==> k in RebuildDayVisitors(s, raw)
    ensures k in RebuildDayVisitors(s, raw) ==>
              DayVisitorsFrom(s, raw, ids)[k] == RebuildDayVisitors(s, raw)[k].(user := NamedOnDay(s, raw, ids, k))
  {
    hide Latest, Group, RebuiltDayVisitor;
  }

  lemma DaySessionsNamedAt(s: Site, raw: seq<Event>, ids: map<Key, Identity>, k: Key)
    ensures k in DaySessionsFrom(s, raw, ids) <==> k in RebuildDaySessions(s, raw)
    ensures k in RebuildDaySessions(s, raw) ==>
              DaySessionsFrom(s, raw, ids)[k] == RebuildDaySessions(s, raw)[k].(user := NamedInSession(s, raw, ids, k))
  {
    hide Latest, Group, RebuildDaySessions;
    var named := (e: Event) => if VisitorKey(e.site, e.visitor) in ids then
      Some(ids[VisitorKey(e.site, e.visitor)].user)
                               else None;
    LatestSame(Group(s, raw, k), UserFrom(ids), named);
  }

  /** The user the identities name for a daily visitor, or else the latest of its events. */
  ghost function NamedOnDay(s: Site, raw: seq<Event>, ids: map<Key, Identity>, k: Key): Option<string> {
    if !k.DayVisitorKey? then None
    else if VisitorKey(k.site, k.visitor) in ids then Some(ids[VisitorKey(k.site, k.visitor)].user)
    else Latest(Group(s, raw, k), UserOf)
  }

  /** The user the identities name for the latest event of a session whose visitor has one, or else the latest. */
  ghost function NamedInSession(s: Site, raw: seq<Event>, ids: map<Key, Identity>, k: Key): Option<string> {
    var named := (e: Event) => if VisitorKey(e.site, e.visitor) in ids then
      Some(ids[VisitorKey(e.site, e.visitor)].user)
                               else None;
    var linked := Latest(Group(s, raw, k), named);
    if linked.Some? then linked else Latest(Group(s, raw, k), UserOf)
  }

  // ---- Deliveries and rebuilds in any order ------------------------------------------------------------

  datatype Operation =
    | Deliver(e: Event)
    | RebuildSite(site: string)
    | RebuildRange(site: string, env: string, from: int, to: int)

  function DeliveredBy(ops: seq<Operation>): seq<Event> {
    if ops == [] then []
    else DeliveredBy(ops[..|ops| - 1]) + (match ops[|ops| - 1] case Deliver(e) => [e] case _ => [])
  }

  function TablesAfter(s: Site, ops: seq<Operation>): Tables {
    if ops == [] then NO_TABLES
    else
      var t, raw := TablesAfter(s, ops[..|ops| - 1]), DeliveredBy(ops[..|ops| - 1]);
      match ops[|ops| - 1]
      case Deliver(e) => Fold(s, t, e)
      case RebuildSite(x) => SiteRebuilt(s, raw, t, x)
      case RebuildRange(x, env, from, to) => RangeRebuilt(s, raw, t, x, env, from, to)
  }

  /** The daily counts, whatever the revenue. */
  ghost predicate DayCounts(s: Site, raw: seq<Event>, m: map<Key, DayTally>) {
    && (forall k :: k in m <==> k.DayKey? && Group(s, raw, k) != [])
    && (forall k :: k in m ==> m[k].(revenue := 0) == DayTallyOf(Group(s, raw, k)).(revenue := 0))
  }

  /** What both folding and rebuilding keep: the columns that cannot depend on order. */
  ghost predicate Counted(s: Site, raw: seq<Event>, t: Tables) {
    && VisitsTally(s, raw, t.visitors, false) && VisitsTally(s, raw, t.dayVisitors, true)
    && SessionsTally(s, raw, t.sessions) && VisitorSessionsTally(s, raw, t.visitorSessions)
    && DaySessionsTally(s, raw, t.daySessions) && DayCounts(s, raw, t.days)
    && IdentityKeys(s, raw, t.identities)
  }

  lemma DayCountsStep(s: Site, raw: seq<Event>, m: map<Key, DayTally>, e: Event)
    requires DayCounts(s, raw, m)
    ensures DayCounts(s, raw + [e], FoldDays(m, DayOf(s, e), e))
  {
    hide DayTallyOf, Group, Total, VisitDay;
    var m' := FoldDays(m, DayOf(s, e), e);
    forall k
      ensures k in m' <==> k.DayKey? && Group(s, raw + [e], k) != []
      ensures k in m' ==> m'[k].(revenue := 0) == DayTallyOf(Group(s, raw + [e], k)).(revenue := 0)
    {
      GroupStep(s, raw, e, k);
      if k == DayOf(s, e) {
        DayCountsAppend(Group(s, raw, k), At(m, k), e);
      }
    }
  }

  lemma DayCountsAppend(g: seq<Event>, was: Option<DayTally>, e: Event)
    requires was.None? <==> g == []
    requires was.Some? ==> was.value.(revenue := 0) == DayTallyOf(g).(revenue := 0)
    ensures VisitDay(was, e).(revenue := 0) == DayTallyOf(if g == [] then [e] else g + [e]).(revenue := 0)
  {
    hide Total;
    CountAppend(g, e, IsPageView);
    CountAppend(g, e, IsConversion);
    if g == [] {
      assert g + [e] == [e];
      NothingCounted(IsPageView);
      NothingCounted(IsConversion);
    }
  }

  lemma NothingCounted(p: Event -> bool)
    ensures Count([], p) == 0
  {
  }

  lemma DeliveryKeepsCounts(s: Site, raw: seq<Event>, t: Tables, e: Event)
    requires Counted(s, raw, t)
    ensures Counted(s, raw + [e], Fold(s, t, e))
  {
    hide VisitsTally, SessionsTally, VisitorSessionsTally, DaySessionsTally, DayCounts, IdentityKeys, FoldVisits,
         FoldSessions, FoldVisitorSessions, FoldDaySessions, FoldDays, FoldIdentities, Link, Canonical;
    var link, user := Link(t, e), Canonical(t, e);
    VisitsStep(s, raw, t.visitors, e, false, link, Coalesce(link, e.user));
    VisitsStep(s, raw, t.dayVisitors, e, true, link, user);
    SessionsStep(s, raw, t.sessions, e, user);
    VisitorSessionsStep(s, raw, t.visitorSessions, e, link, user);
    DaySessionsStep(s, raw, t.daySessions, e, link, user);
    DayCountsStep(s, raw, t.days, e);
    IdentityKeysStep(s, raw, t, e);
  }

  lemma IdentityKeysStep(s: Site, raw: seq<Event>, t: Tables, e: Event)
    requires IdentityKeys(s, raw, t.identities)
    ensures IdentityKeys(s, raw + [e], FoldIdentities(t, e))
  {
    hide Latest, Group, Canonical;
    forall k
      ensures k in FoldIdentities(t, e) <==> k.VisitorKey? && Latest(Group(s, raw + [e], k), UserOf).Some?
    {
      GroupStep(s, raw, e, k);
      if Covers(s, k, e) {
        LatestNoneAppend(Group(s, raw, k), e);
      }
    }
  }

  lemma VisitsRefilled(s: Site, raw: seq<Event>, m: map<Key, VisitorRow>, rebuilt: map<Key, VisitorRow>, daily: bool,
                       scope: Key -> bool)
    requires VisitsTally(s, raw, m, daily) && VisitsTally(s, raw, rebuilt, daily)
    ensures VisitsTally(s, raw, Filled(Deleted(m, scope), rebuilt, scope), daily)
  {
    hide Group, VisitorTallyOf;
  }

  lemma SessionsRefilled(s: Site, raw: seq<Event>, m: map<Key, SessionRow>, rebuilt: map<Key, SessionRow>,
                         scope: Key -> bool)
    requires SessionsTally(s, raw, m) && SessionsTally(s, raw, rebuilt)
    ensures SessionsTally(s, raw, Filled(Deleted(m, scope), rebuilt, scope))
  {
    hide Group, SessionTallyOf;
  }

  lemma VisitorSessionsRefilled(s: Site, raw: seq<Event>, m: map<Key, VisitorSessionRow>,
                                rebuilt: map<Key, VisitorSessionRow>, scope: Key -> bool)
    requires VisitorSessionsTally(s, raw, m) && VisitorSessionsTally(s, raw, rebuilt)
    ensures VisitorSessionsTally(s, raw, Filled(Deleted(m, scope), rebuilt, scope))
  {
    hide Group, SpanOf;
  }

  lemma DaySessionsRefilled(s: Site, raw: seq<Event>, m: map<Key, DaySessionRow>, rebuilt: map<Key, DaySessionRow>,
                            scope: Key -> bool)
    requires DaySessionsTally(s, raw, m) && DaySessionsTally(s, raw, rebuilt)
    ensures DaySessionsTally(s, raw, Filled(Deleted(m, scope), rebuilt, scope))
  {
    hide Group, SpanOf;
  }

  lemma DaysRefilled(s: Site, raw: seq<Event>, m: map<Key, DayTally>, scope: Key -> bool)
    requires DayCounts(s, raw, m)
    ensures DayCounts(s, raw, Filled(Deleted(m, scope), RebuildDays(s, raw), scope))
  {
    hide Group, DayTallyOf;
  }

  lemma IdentitiesRefilled(s: Site, raw: seq<Event>, m: map<Key, Identity>, scope: Key -> bool)
    requires IdentityKeys(s, raw, m)
    ensures IdentityKeys(s, raw, Filled(Deleted(m, scope), RebuildIdentities(s, raw), scope))
  {
    hide Group, Latest, IdentityOf;
  }

  lemma FreshVisitors(s: Site, raw: seq<Event>)
    ensures VisitsTally(s, raw, RebuildVisitors(s, raw), false)
  {
    hide Group, VisitorTallyOf, Latest, LatestUserProps;
  }

  lemma FreshDayVisitors(s: Site, raw: seq<Event>, ids: map<Key, Identity>)
    ensures VisitsTally(s, raw, DayVisitorsFrom(s, raw, ids), true)
  {
    hide Group, VisitorTallyOf, Latest, LatestUserProps, VisitorsNaming, DayVisitorUser, RebuildDayVisitors;
    var m := DayVisitorsFrom(s, raw, ids);
    forall k
      ensures k in m <==> k.DayVisitorKey? && Group(s, raw, k) != []
    {
      assert k in m.Keys <==> k in RebuildDayVisitors(s, raw).Keys;
    }
  }

  lemma FreshSessions(s: Site, raw: seq<Event>)
    ensures SessionsTally(s, raw, RebuildSessions(s, raw))
    ensures VisitorSessionsTally(s, raw, RebuildVisitorSessions(s, raw))
  {
    hide Group, SessionTallyOf, JourneyOf, EarliestVisitor, SpanOf, Latest;
  }

  lemma FreshDaySessions(s: Site, raw: seq<Event>, ids: map<Key, Identity>)
    ensures DaySessionsTally(s, raw, DaySessionsFrom(s, raw, ids))
  {
    hide Group, SpanOf, Latest, EarliestVisitor, SessionsNaming, DaySessionUser, RebuildDaySessions;
    var m := DaySessionsFrom(s, raw, ids);
    forall k
      ensures k in m <==> k.DaySessionKey? && Group(s, raw, k) != []
    {
      assert k in m.Keys <==> k in RebuildDaySessions(s, raw).Keys;
    }
  }

  lemma DailyRebuildKeepsCounts(s: Site, raw: seq<Event>, t: Tables, scope: Key -> bool)
    requires Counted(s, raw, t)
    ensures Counted(s, raw, DailyRebuilt(s, raw, t, scope))
  {
    hide VisitsTally, SessionsTally, VisitorSessionsTally, DaySessionsTally, DayCounts, IdentityKeys, Filled, Deleted,
         DayVisitorsFrom, DaySessionsFrom, RebuildDays;
    FreshDayVisitors(s, raw, t.identities);
    FreshDaySessions(s, raw, t.identities);
    VisitsRefilled(s, raw, t.dayVisitors, DayVisitorsFrom(s, raw, t.identities), true, scope);
    DaySessionsRefilled(s, raw, t.daySessions, DaySessionsFrom(s, raw, t.identities), scope);
    DaysRefilled(s, raw, t.days, scope);
  }

  lemma SiteRebuildKeepsCounts(s: Site, raw: seq<Event>, t: Tables, x: string)
    requires Counted(s, raw, t)
    ensures Counted(s, raw, SiteRebuilt(s, raw, t, x))
  {
    hide VisitsTally, SessionsTally, VisitorSessionsTally, DaySessionsTally, DayCounts, IdentityKeys, Filled, Deleted,
         DailyRebuilt, RebuildVisitors, RebuildIdentities, RebuildVisitorSessions, RebuildSessions;
    var scope := OfSite(x);
    FreshVisitors(s, raw);
    FreshSessions(s, raw);
    VisitsRefilled(s, raw, t.visitors, RebuildVisitors(s, raw), false, scope);
    IdentitiesRefilled(s, raw, t.identities, scope);
    VisitorSessionsRefilled(s, raw, t.visitorSessions, RebuildVisitorSessions(s, raw), scope);
    SessionsRefilled(s, raw, t.sessions, RebuildSessions(s, raw), scope);
    DailyRebuildKeepsCounts(s, raw, SessionsRebuilt(s, raw, t, x), scope);
  }

  lemma NothingCountedYet(s: Site)
    ensures Counted(s, [], NO_TABLES)
  {
  }

  lemma {:induction false} AlwaysCounted(s: Site, ops: seq<Operation>)
    ensures Counted(s, DeliveredBy(ops), TablesAfter(s, ops))
  {
    hide Counted, Fold, SiteRebuilt, DailyRebuilt;
    if ops == [] {
      NothingCountedYet(s);
    } else {
      var init := ops[..|ops| - 1];
      AlwaysCounted(s, init);
      var t, raw := TablesAfter(s, init), DeliveredBy(init);
      match ops[|ops| - 1]
      case Deliver(e) => DeliveryKeepsCounts(s, raw, t, e);
      case RebuildSite(x) =>
        SiteRebuildKeepsCounts(s, raw, t, x);
        assert raw + [] == raw;
      case RebuildRange(x, env, from, to) =>
        DailyRebuildKeepsCounts(s, raw, t, InRange(x, env, from, to));
        assert raw + [] == raw;
    }
  }

  lemma DayCountsEqual(s: Site, raw: seq<Event>, m: map<Key, DayTally>)
    requires DayCounts(s, raw, m)
    ensures SameDays(m, RebuildDays(s, raw))
  {
    hide Group, DayTallyOf;
  }

  lemma IdentityKeysEqual(s: Site, raw: seq<Event>, m: map<Key, Identity>)
    requires IdentityKeys(s, raw, m)
    ensures SameIdentities(m, RebuildIdentities(s, raw))
  {
    hide Group, Latest, IdentityOf;
  }

  /**
   However deliveries, site rebuilds and range rebuilds follow one another, the tables
   agree with the rebuild from the raw events on every column that cannot depend on order.
   */
  lemma RepairsAreTransparent(s: Site, ops: seq<Operation>)
    ensures SameTallies(TablesAfter(s, ops), Rebuild(s, DeliveredBy(ops)))
  {
    hide TablesAfter, VisitsTally, SessionsTally, VisitorSessionsTally, DaySessionsTally, DayCounts, IdentityKeys;
    hide SameVisits, SameSessions, SameVisitorSessions, SameDaySessions, SameDays, SameIdentities, Group, Latest;
    AlwaysCounted(s, ops);
    var t, raw := TablesAfter(s, ops), DeliveredBy(ops);
    VisitorsEqual(s, raw, t.visitors);
    DayVisitorsEqual(s, raw, t.dayVisitors);
    SessionsEqual(s, raw, t.sessions);
    VisitorSessionsEqual(s, raw, t.visitorSessions);
    DaySessionsEqual(s, raw, t.daySessions);
    DayCountsEqual(s, raw, t.days);
    IdentityKeysEqual(s, raw, t.identities);
  }
}
