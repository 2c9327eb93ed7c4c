/**
 The incremental fold against the rebuild.
 */
module Agreement {
  import opened Wrappers
  import opened Events
  import opened Derived
  import opened Folds

  // ---- The two readings of one event agree ---------------------------------------

  lemma ActiveMsAgrees(e: Event)
    ensures ActiveMs(e) == RebuiltActiveMs(e)
  {
  }

  // ---- Tallies: any arrival order ---------------------------------------------------

  lemma SpanAppend(g: seq<Event>, e: Event)
    ensures g == [] ==> SpanOf([e]) == Span(e.ts, e.ts)
    ensures g != [] ==> SpanOf(g + [e]) == Widen(SpanOf(g), e.ts)
  {
    if g != [] {
      FirstSeenAppend(g, e);
      LastSeenAppend(g, e);
    }
  }

  lemma VisitorTallyAppend(g: seq<Event>, e: Event)
    ensures g == [] ==> VisitorTallyOf([e]) == FirstVisit(e, None).tally
    ensures g != [] ==> forall was: VisitorRow, u :: was.tally == VisitorTallyOf(g) ==>
                          NextVisit(was, e, u).tally == VisitorTallyOf(g + [e])
  {
    if g != [] {
      SpanAppend(g, e);
      CountAppend(g, e, IsConversion);
    } else {
      assert [e] == [] + [e];
      CountAppend([], e, IsConversion);
    }
  }

  lemma SessionTallyAppend(g: seq<Event>, e: Event, th: int)
    ensures g == [] ==> SessionTallyOf([e], th) == FirstTally(e, th)
    ensures g != [] ==> SessionTallyOf(g + [e], th) == NextTally(SessionTallyOf(g, th), e, th)
  {
    if g != [] {
      SpanAppend(g, e);
      CountAppend(g, e, IsPageView);
      CountAppend(g, e, IsConversion);
      CountAppend(g, e, IsHeartbeat);
      CountAppend(g, e, IsInteraction);
      TotalAppend(g, e, RebuiltActiveMs);
    } else {
      assert [e] == [] + [e];
      CountAppend([], e, IsPageView);
      CountAppend([], e, IsConversion);
      CountAppend([], e, IsHeartbeat);
      CountAppend([], e, IsInteraction);
      TotalAppend([], e, RebuiltActiveMs);
    }
  }

  /** The visitor table m holds exactly the visited keys of one kind, with the rebuild's tallies. */
  ghost predicate VisitsTally(s: Site, raw: seq<Event>, m: map<Key, VisitorRow>, daily: bool) {
    && (forall k :: k in m <==> (if daily then k.DayVisitorKey? else k.VisitorKey?) && Group(s, raw, k) != [])
    && (forall k :: k in m ==> m[k].tally == VisitorTallyOf(Group(s, raw, k)))
  }

  ghost predicate SessionsTally(s: Site, raw: seq<Event>, m: map<Key, SessionRow>) {
    && (forall k :: k in m <==> k.SessionKey? && Group(s, raw, k) != [])
    && (forall k :: k in m ==> m[k].tally == SessionTallyOf(Group(s, raw, k), s.threshold(k.site)))
  }

  ghost predicate VisitorSessionsTally(s: Site, raw: seq<Event>, m: map<Key, VisitorSessionRow>) {
    && (forall k :: k in m <==> k.VisitorSessionKey? && Group(s, raw, k) != [])
    && (forall k :: k in m ==> m[k].span == SpanOf(Group(s, raw, k)))
  }

  ghost predicate DaySessionsTally(s: Site, raw: seq<Event>, m: map<Key, DaySessionRow>) {
    && (forall k :: k in m <==> k.DaySessionKey? && Group(s, raw, k) != [])
    && (forall k :: k in m ==> m[k].span == SpanOf(Group(s, raw, k)))
  }

  /** Which groups a new row joins: the one under its own key of each kind. */
  lemma GroupStep(s: Site, raw: seq<Event>, e: Event, k: Key)
    ensures Covers(s, k, e) <==>
            k in {VisitorOf(e), VisitorSessionOf(e), SessionOf(e), DayOf(s, e), DayVisitorOf(s, e), DaySessionOf(s, e)}
    ensures !Covers(s, k, e) ==> Group(s, raw + [e], k) == Group(s, raw, k)
    ensures Covers(s, k, e) ==> Group(s, raw + [e], k) == Group(s, raw, k) + [e] != []
    ensures Covers(s, k, e) && Group(s, raw, k) == [] ==> Group(s, raw + [e], k) == [e]
  {
    GroupAppend(s, raw, e, k);
    assert Group(s, raw, k) + [] == Group(s, raw, k);
    assert [] + [e] == [e];
  }

  lemma VisitsStep(s: Site, raw: seq<Event>, m: map<Key, VisitorRow>, e: Event, daily: bool,
                   link: Option<string>, user: Option<string>)
    requires VisitsTally(s, raw, m, daily)
    ensures var key := if daily then DayVisitorOf(s, e) else VisitorOf(e);
            VisitsTally(s, raw + [e], FoldVisits(m, key, e, link, user), daily)
  {
    hide VisitorTallyOf, Group;
    var key := if daily then DayVisitorOf(s, e) else VisitorOf(e);
    var m' := FoldVisits(m, key, e, link, user);
    forall k
      ensures k in m' <==> (if daily then k.DayVisitorKey? else k.VisitorKey?) && Group(s, raw + [e], k) != []
      ensures k in m' ==> m'[k].tally == VisitorTallyOf(Group(s, raw + [e], k))
    {
      GroupStep(s, raw, e, k);
      if k == key {
        VisitorTallyAppend(Group(s, raw, k), e);
      }
    }
  }

  lemma SessionsStep(s: Site, raw: seq<Event>, m: map<Key, SessionRow>, e: Event, user: Option<string>)
    requires SessionsTally(s, raw, m)
    ensures SessionsTally(s, raw + [e], FoldSessions(m, e, user, s.threshold(e.site)))
  {
    hide SessionTallyOf, Group, FirstTally, NextTally;
    var m' := FoldSessions(m, e, user, s.threshold(e.site));
    forall k
      ensures k in m' <==> k.SessionKey? && Group(s, raw + [e], k) != []
      ensures k in m' ==> m'[k].tally == SessionTallyOf(Group(s, raw + [e], k), s.threshold(k.site))
    {
      GroupStep(s, raw, e, k);
      if k == SessionOf(e) {
        SessionTallyAppend(Group(s, raw, k), e, s.threshold(k.site));
      }
    }
  }

  lemma VisitorSessionsStep(s: Site, raw: seq<Event>, m: map<Key, VisitorSessionRow>, e: Event,
                            link: Option<string>, user: Option<string>)
    requires VisitorSessionsTally(s, raw, m)
    ensures VisitorSessionsTally(s, raw + [e], FoldVisitorSessions(m, e, link, user))
  {
    hide SpanOf, Group;
    var m' := FoldVisitorSessions(m, e, link, user);
    forall k
      ensures k in m' <==> k.VisitorSessionKey? && Group(s, raw + [e], k) != []
      ensures k in m' ==> m'[k].span == SpanOf(Group(s, raw + [e], k))
    {
      GroupStep(s, raw, e, k);
      if k == VisitorSessionOf(e) {
        SpanAppend(Group(s, raw, k), e);
      }
    }
  }

  lemma DaySessionsStep(s: Site, raw: seq<Event>, m: map<Key, DaySessionRow>, e: Event,
                        link: Option<string>, user: Option<string>)
    requires DaySessionsTally(s, raw, m)
    ensures DaySessionsTally(s, raw + [e], FoldDaySessions(m, DaySessionOf(s, e), e, link, user))
  {
    hide SpanOf, Group;
    var m' := FoldDaySessions(m, DaySessionOf(s, e), e, link, user);
    forall k
      ensures k in m' <==> k.DaySessionKey? && Group(s, raw + [e], k) != []
      ensures k in m' ==> m'[k].span == SpanOf(Group(s, raw + [e], k))
    {
      GroupStep(s, raw, e, k);
      if k == DaySessionOf(s, e) {
        SpanAppend(Group(s, raw, k), e);
      }
    }
  }

  // ---- daily_site_metrics -------------------------------------------------------------

  /**
   The collector and the rebuild read different amounts from a purchase: the first
   amount present is text that is not a plain decimal, and the collector still finds a
   non-zero number, in that text or, when that text is no number at all, in `revenue`.
   */
  predicate SplitRevenue(e: Event) {
    && e.name == "purchase"
    && match e.value
       case Decimal(_) => false
       case NoAmount => e.revenue.Text? && e.revenue.parsed.Some? && e.revenue.parsed.value != 0
       case Text(parsed) =>
         if parsed.Some? then parsed.value != 0
         else Numeric(e.revenue).Some? && Numeric(e.revenue).value != 0
  }

  lemma RevenueAgreesExactly(e: Event)
    ensures Revenue(e) == RebuiltRevenue(e) <==> !SplitRevenue(e)
  {
  }

  /** A value of "1e3": the float parser reads a thousand, the decimal pattern nothing. */
  lemma ScientificAmountSplits(e: Event)
    requires e.name == "purchase" && e.value == Text(Some(1000 * 1000000))
    ensures Revenue(e) == 1000 * 1000000 && RebuiltRevenue(e) == 0
  {
  }

  /** What the collector reads from a purchase the rebuild reads nothing from. */
  function SplitAmount(e: Event): int {
    if SplitRevenue(e) then Revenue(e) else 0
  }

  /** The two totals differ by what the collector alone reads from split purchases. */
  lemma {:induction false} RevenueTotalsDiffer(g: seq<Event>)
    ensures Total(g, Revenue) == Total(g, RebuiltRevenue) + Total(g, SplitAmount)
  {
    if g != [] {
      RevenueAgreesExactly(g[0]);
      RevenueTotalsDiffer(g[1..]);
    }
  }

  lemma {:induction false} NothingSplit(g: seq<Event>)
    requires forall e :: e in g ==> !SplitRevenue(e)
    ensures Total(g, SplitAmount) == 0
  {
    if g != [] {
      NothingSplit(g[1..]);
    }
  }

  ghost predicate DaysTally(s: Site, raw: seq<Event>, m: map<Key, DayTally>) {
    && (forall k :: k in m <==> k.DayKey? && Group(s, raw, k) != [])
    && (forall k :: k in m ==> m[k] == DayTallyOf(Group(s, raw, k)).(revenue := Total(Group(s, raw, k), Revenue)))
  }

  lemma DayTallyAppend(g: seq<Event>, e: Event)
    ensures g == [] ==> VisitDay(None, e) == DayTallyOf([e]).(revenue := Total([e], Revenue))
    ensures VisitDay(Some(DayTallyOf(g).(revenue := Total(g, Revenue))), e)
            == DayTallyOf(g + [e]).(revenue := Total(g + [e], Revenue))
  {
    CountAppend(g, e, IsPageView);
    CountAppend(g, e, IsConversion);
    TotalAppend(g, e, Revenue);
    if g == [] { assert g + [e] == [e]; }
  }

  lemma DaysStep(s: Site, raw: seq<Event>, m: map<Key, DayTally>, e: Event)
    requires DaysTally(s, raw, m)
    ensures DaysTally(s, raw + [e], FoldDays(m, DayOf(s, e), e))
  {
    hide DayTallyOf, Group, Total;
    var m' := FoldDays(m, DayOf(s, e), e);
    forall k
      ensures k in m' <==> k.DayKey? && Group(s, raw + [e], k) != []
      ensures var g := Group(s, raw + [e], k);
              k in m' ==> m'[k] == DayTallyOf(g).(revenue := Total(g, Revenue))
    {
      GroupStep(s, raw, e, k);
      if k == DayOf(s, e) {
        DayTallyAppend(Group(s, raw, k), e);
      }
    }
  }

  // ---- Users: any arrival order ------------------------------------------------------------

  /** The user a visitor is linked to, as the identity table has it. */
  function IdentityUser(ids: map<Key, Identity>, site: string, visitor: string): Option<string> {
    UserIn(At(ids, VisitorKey(site, visitor)))
  }

  ghost predicate VisitsLinked(m: map<Key, VisitorRow>, ids: map<Key, Identity>) {
    forall k :: k in m ==> (k.VisitorKey? || k.DayVisitorKey?) && m[k].user == IdentityUser(ids, k.site, k.visitor)
  }

  ghost predicate VisitorSessionsLinked(m: map<Key, VisitorSessionRow>, ids: map<Key, Identity>) {
    forall k :: k in m ==> k.VisitorSessionKey? && m[k].user == IdentityUser(ids, k.site, k.visitor)
  }

  /** Every visitor-level summary exposes the linked user, on rows written before the link too. */
  ghost predicate UsersLinked(t: Tables) {
    && VisitsLinked(t.visitors, t.identities)
    && VisitorSessionsLinked(t.visitorSessions, t.identities)
    && VisitsLinked(t.dayVisitors, t.identities)
  }

  /** The identities differ at most at the event's visitor, which now has the user `link`. */
  ghost predicate Relinked(ids: map<Key, Identity>, ids': map<Key, Identity>, e: Event, link: Option<string>) {
    && (forall k :: k != VisitorOf(e) ==> (k in ids <==> k in ids') && (k in ids ==> ids'[k] == ids[k]))
    && IdentityUser(ids', e.site, e.visitor) == link
    && (e.user.None? ==> IdentityUser(ids, e.site, e.visitor) == link)
    && (e.user.Some? ==> link.Some?)
  }

  /** One event changes the identity of its own visitor only. */
  lemma IdentityAfter(t: Tables, e: Event)
    requires VisitsLinked(t.visitors, t.identities)
    ensures Canonical(t, e) == Link(t, e)
    ensures var i := LinkedIdentity(t, e);
            FoldIdentities(t, e)
            == if i.Some? then t.identities[VisitorOf(e) := Touched(i, e.ts).value] else t.identities
    ensures Relinked(t.identities, FoldIdentities(t, e), e, Link(t, e))
  {
  }

  lemma VisitsRelinked(m: map<Key, VisitorRow>, k: Key, ids: map<Key, Identity>, ids': map<Key, Identity>,
                       e: Event, link: Option<string>, user: Option<string>)
    requires VisitsLinked(m, ids) && Relinked(ids, ids', e, link)
    requires OfVisitor(k, e) && !k.VisitorSessionKey?
    requires user == Coalesce(link, e.user)
    ensures VisitsLinked(FoldVisits(m, k, e, link, user), ids')
  {
    var relinked := RelinkVisits(m, e, link);
    assert forall j :: j in m && !OfVisitor(j, e) ==> VisitorKey(j.site, j.visitor) != VisitorOf(e);
  }

  lemma VisitorSessionsRelinked(m: map<Key, VisitorSessionRow>, ids: map<Key, Identity>, ids': map<Key, Identity>,
                                e: Event, link: Option<string>)
    requires VisitorSessionsLinked(m, ids) && Relinked(ids, ids', e, link)
    ensures VisitorSessionsLinked(FoldVisitorSessions(m, e, link, link), ids')
  {
    var relinked := RelinkVisitorSessions(m, e, link);
    assert forall j :: j in m && !OfVisitor(j, e) ==> VisitorKey(j.site, j.visitor) != VisitorOf(e);
  }

  lemma UsersStep(s: Site, t: Tables, e: Event)
    requires UsersLinked(t)
    ensures UsersLinked(Fold(s, t, e))
  {
    IdentityAfter(t, e);
    var ids' := FoldIdentities(t, e);
    VisitsRelinked(t.visitors, VisitorOf(e), t.identities, ids', e, Link(t, e), Coalesce(Link(t, e), e.user));
    VisitsRelinked(t.dayVisitors, DayVisitorOf(s, e), t.identities, ids', e, Link(t, e), Canonical(t, e));
    VisitorSessionsRelinked(t.visitorSessions, t.identities, ids', e, Link(t, e));
  }

  // ---- Session rows name one visitor -----------------------------------------------------------

  ghost predicate OneVisitor(g: seq<Event>, v: string) {
    forall e :: e in g ==> e.visitor == v
  }

  /** A session or daily session whose rows all come from one visitor names that visitor. */
  ghost predicate SessionsNamed(s: Site, raw: seq<Event>, m: map<Key, SessionRow>) {
    forall k, v :: k in m && OneVisitor(Group(s, raw, k), v) ==> m[k].visitor == v
  }

  ghost predicate DaySessionsNamed(s: Site, raw: seq<Event>, m: map<Key, DaySessionRow>, ids: map<Key, Identity>) {
    forall k, v :: k in m && OneVisitor(Group(s, raw, k), v) ==>
      m[k].visitor == v && m[k].user == IdentityUser(ids, k.site, v)
  }

  function LastVisitor(g: seq<Event>): string
    requires g != []
  {
    g[|g| - 1].visitor
  }

  /** The folded session names the visitor of its last row, in whatever order the rows came. */
  ghost predicate SessionsNameLast(s: Site, raw: seq<Event>, m: map<Key, SessionRow>) {
    forall k :: k in m ==> k.SessionKey? && Group(s, raw, k) != [] && m[k].visitor == LastVisitor(Group(s, raw, k))
  }

  /** So does the daily session, and once that visitor is identified it exposes its user. */
  ghost predicate DaySessionsNameLast(s: Site, raw: seq<Event>, m: map<Key, DaySessionRow>, ids: map<Key, Identity>) {
    forall k :: k in m ==>
      && k.DaySessionKey? && Group(s, raw, k) != [] && m[k].visitor == LastVisitor(Group(s, raw, k))
      && (IdentityUser(ids, k.site, m[k].visitor).Some? ==> m[k].user == IdentityUser(ids, k.site, m[k].visitor))
  }

  lemma SessionsNameLastStep(s: Site, raw: seq<Event>, m: map<Key, SessionRow>, e: Event, user: Option<string>)
    requires SessionsNameLast(s, raw, m)
    ensures SessionsNameLast(s, raw + [e], FoldSessions(m, e, user, s.threshold(e.site)))
  {
    hide Group, FirstTally, NextTally, FirstJourney, NextJourney;
    var m' := FoldSessions(m, e, user, s.threshold(e.site));
    forall k | k in m'
      ensures k in m || Covers(s, k, e)
      ensures Group(s, raw + [e], k) != [] && m'[k].visitor == LastVisitor(Group(s, raw + [e], k))
    {
      GroupStep(s, raw, e, k);
    }
  }

  lemma DaySessionsNameLastStep(s: Site, raw: seq<Event>, m: map<Key, DaySessionRow>, e: Event,
                                ids: map<Key, Identity>, ids': map<Key, Identity>, link: Option<string>)
    requires DaySessionsNameLast(s, raw, m, ids) && Relinked(ids, ids', e, link)
    ensures DaySessionsNameLast(s, raw + [e], FoldDaySessions(m, DaySessionOf(s, e), e, link, link), ids')
  {
    hide Group;
    var m' := FoldDaySessions(m, DaySessionOf(s, e), e, link, link);
    forall k | k in m'
      ensures k in m || Covers(s, k, e)
      ensures Group(s, raw + [e], k) != [] && m'[k].visitor == LastVisitor(Group(s, raw + [e], k))
      ensures IdentityUser(ids', k.site, m'[k].visitor).Some? ==>
                m'[k].user == IdentityUser(ids', k.site, m'[k].visitor)
    {
      GroupStep(s, raw, e, k);
      if k != DaySessionOf(s, e) {
        assert VisitorKey(k.site, m[k].visitor) == VisitorOf(e) <==> k.site == e.site && m[k].visitor == e.visitor;
      }
    }
  }

  lemma SessionsNamedStep(s: Site, raw: seq<Event>, m: map<Key, SessionRow>, e: Event, user: Option<string>)
    requires SessionsTally(s, raw, m) && SessionsNamed(s, raw, m)
    ensures SessionsNamed(s, raw + [e], FoldSessions(m, e, user, s.threshold(e.site)))
  {
    var m' := FoldSessions(m, e, user, s.threshold(e.site));
    forall k, v | k in m' && OneVisitor(Group(s, raw + [e], k), v)
      ensures m'[k].visitor == v
    {
      GroupStep(s, raw, e, k);
      if k == SessionOf(e) {
        assert e in Group(s, raw, k) + [e];
      } else {
        assert k in m && OneVisitor(Group(s, raw, k), v);
      }
    }
  }

  lemma DaySessionRelinked(row: DaySessionRow, site: string, e: Event, ids: map<Key, Identity>,
                           ids': map<Key, Identity>, link: Option<string>)
    requires Relinked(ids, ids', e, link) && row.user == IdentityUser(ids, site, row.visitor)
    ensures var r := if e.user.Some? && site == e.site && row.visitor == e.visitor then row.(user := link) else row;
            && r.user == IdentityUser(ids', site, row.visitor)
            && (site == e.site && row.visitor == e.visitor ==> Coalesce(link, r.user) == link)
  {
    assert VisitorKey(site, row.visitor) == VisitorOf(e) <==> site == e.site && row.visitor == e.visitor;
  }

  lemma DaySessionsNamedStep(s: Site, raw: seq<Event>, m: map<Key, DaySessionRow>, e: Event,
                             ids: map<Key, Identity>, ids': map<Key, Identity>, link: Option<string>)
    requires DaySessionsTally(s, raw, m) && DaySessionsNamed(s, raw, m, ids) && Relinked(ids, ids', e, link)
    ensures DaySessionsNamed(s, raw + [e], FoldDaySessions(m, DaySessionOf(s, e), e, link, link), ids')
  {
    var key := DaySessionOf(s, e);
    var m' := FoldDaySessions(m, key, e, link, link);
    forall k, v | k in m' && OneVisitor(Group(s, raw + [e], k), v)
      ensures m'[k].visitor == v && m'[k].user == IdentityUser(ids', k.site, v)
    {
      GroupStep(s, raw, e, k);
      if k in m {
        assert OneVisitor(Group(s, raw, k), v) by {
          assert forall x :: x in Group(s, raw, k) ==> x in Group(s, raw + [e], k);
        }
        DaySessionRelinked(m[k], k.site, e, ids, ids', link);
      }
      if k == key {
        assert e in Group(s, raw + [e], k);
      }
    }
  }
}
