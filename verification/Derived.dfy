/**
 The derived tables, and the rebuild that recomputes each of them from raw events
 in one pass: a group of rows goes in, a table row comes out.

 Every row keeps the columns that cannot depend on arrival order in a tally of
 its own, beside the columns that can.
 */
module Derived {
  import opened Wrappers
  import opened Events

  datatype Span = Span(first: int, last: int)

  datatype VisitorTally = VisitorTally(span: Span, events: int, conversions: int)

  datatype SessionTally = SessionTally(
    span: Span, events: int, pageViews: int, conversions: int, activeMs: int,
    heartbeats: int, interactions: int, engaged: bool)

  datatype DayTally = DayTally(events: int, pageViews: int, conversions: int, revenue: int)

  /** A row of visitors or of daily_site_visitors. */
  datatype VisitorRow = VisitorRow(user: Option<string>, tally: VisitorTally, props: map<string, string>)

  /** The session columns whose value depends on which row came first or last. */
  datatype Journey = Journey(
    landing: Option<string>, exit: Option<string>, source: Option<string>, medium: Option<string>,
    campaign: Option<string>, device: Option<string>, props: map<string, string>)

  datatype SessionRow = SessionRow(visitor: string, user: Option<string>, tally: SessionTally, journey: Journey)
  datatype VisitorSessionRow = VisitorSessionRow(user: Option<string>, span: Span)
  datatype DaySessionRow = DaySessionRow(visitor: string, user: Option<string>, span: Span)
  datatype Identity = Identity(user: string, first: int, linked: int, last: int)

  datatype Tables = Tables(
    visitors: map<Key, VisitorRow>, identities: map<Key, Identity>,
    visitorSessions: map<Key, VisitorSessionRow>, sessions: map<Key, SessionRow>,
    days: map<Key, DayTally>, dayVisitors: map<Key, VisitorRow>, daySessions: map<Key, DaySessionRow>)

  // ---- Row expressions of the rebuild ------------------------------------------

  /** The rebuild's CASE over properties->>'active_seconds', whose pattern admits no sign. */
  function RebuiltActiveMs(e: Event): int {
    if IsHeartbeat(e) && e.active.Seconds? && e.active.n >= 0 then
      if e.active.n * 1000 < 3600000 then e.active.n * 1000 else 3600000
    else 0
  }

  /** The rebuild's revenue expression: one coalesced text, counted only when it is a plain decimal. */
  function RebuiltRevenue(e: Event): int {
    var amount := if e.value.NoAmount? then e.revenue else e.value;
    if e.name == "purchase" && amount.Decimal? then amount.amount else 0
  }

  function PropOf(key: string): Event -> Option<string> {
    (e: Event) => if key in e.sessionProps then Some(e.sessionProps[key]) else None
  }

  function PropKeys(g: seq<Event>): set<string> {
    set e, key | e in g && key in e.sessionProps :: key
  }

  /** The latest value of every session property: DISTINCT ON(key) by time and id, descending. */
  function LatestProps(g: seq<Event>): (m: map<string, string>)
    ensures m.Keys == PropKeys(g)
    ensures forall key :: key in m ==> Latest(g, PropOf(key)) == Some(m[key])
  {
    assert forall key :: key in PropKeys(g) ==> Latest(g, PropOf(key)).Some? by {
      forall key | key in PropKeys(g)
        ensures Latest(g, PropOf(key)).Some?
      {
        var e :| e in g && key in e.sessionProps;
        var i :| 0 <= i < |g| && g[i] == e;
        assert PropOf(key)(g[i]).Some?;
      }
    }
    map key | key in PropKeys(g) :: Latest(g, PropOf(key)).value
  }

  function LatestUserProps(g: seq<Event>): map<string, string> {
    match Latest(g, UserPropsOf) case None => map[] case Some(m) => m
  }

  function SpanOf(g: seq<Event>): Span
    requires g != []
  {
    Span(FirstSeen(g), LastSeen(g))
  }

  function VisitorTallyOf(g: seq<Event>): VisitorTally
    requires g != []
  {
    VisitorTally(SpanOf(g), |g|, Count(g, IsConversion))
  }

  function SessionTallyOf(g: seq<Event>, threshold: int): SessionTally
    requires g != []
  {
    var span := SpanOf(g);
    var pageViews, conversions := Count(g, IsPageView), Count(g, IsConversion);
    var activeMs := Total(g, RebuiltActiveMs);
    SessionTally(span, |g|, pageViews, conversions, activeMs, Count(g, IsHeartbeat), Count(g, IsInteraction),
                 span.last - span.first >= threshold * 1000000 || conversions > 0 || pageViews >= 2
                 || activeMs >= threshold * 1000)
  }

  function DayTallyOf(g: seq<Event>): DayTally {
    DayTally(|g|, Count(g, IsPageView), Count(g, IsConversion), Total(g, RebuiltRevenue))
  }

  function JourneyOf(g: seq<Event>): Journey {
    Journey(Earliest(g, LandingOf), Latest(g, LandingOf), Earliest(g, SourceOf), Earliest(g, MediumOf),
            Earliest(g, CampaignOf), Earliest(g, DeviceOf), LatestProps(g))
  }

  /** The visitor whose row comes first by time and id. */
  function EarliestVisitor(g: seq<Event>): string {
    match Earliest(g, (e: Event) => Some(e.visitor)) case None => "" case Some(v) => v
  }

  /** min(event_timestamp) over the rows that carry the user u. */
  function WithUser(g: seq<Event>, u: string): (r: seq<Event>)
    ensures forall e :: e in r <==> e in g && e.user == Some(u)
  {
    if g == [] then [] else
      (if g[0].user == Some(u) then [g[0]] else []) + WithUser(g[1..], u)
  }

  lemma LatestUserHasRows(g: seq<Event>)
    ensures Latest(g, UserOf).Some? ==> WithUser(g, Latest(g, UserOf).value) != []
  {
    match LatestAt(g, UserOf)
    case None =>
    case Some(i) =>
      assert g[i] in WithUser(g, g[i].user.value);
  }

  function IdentityOf(g: seq<Event>): Identity
    requires Latest(g, UserOf).Some?
  {
    LatestUserHasRows(g);
    var u := Latest(g, UserOf).value;
    Identity(u, FirstSeen(g), FirstSeen(WithUser(g, u)), LastSeen(g))
  }

  // ---- The rebuild ---------------------------------------------------------------

  /** The keys one row falls under, one of each kind. */
  function KeysOf(s: Site, e: Event): (r: set<Key>)
    ensures forall k :: k in r <==> Covers(s, k, e)
  {
    {VisitorOf(e), VisitorSessionOf(e), SessionOf(e), DayOf(s, e), DayVisitorOf(s, e), DaySessionOf(s, e)}
  }

  /** The distinct keys GROUP BY finds: those some row falls under. */
  function KeysIn(s: Site, raw: seq<Event>): (r: set<Key>)
    ensures forall k :: k in r <==> Group(s, raw, k) != []
  {
    if raw == [] then {} else KeysOf(s, raw[0]) + KeysIn(s, raw[1..])
  }

  /** The user the rebuilt identity table names for a visitor. */
  function RebuiltUser(s: Site, raw: seq<Event>, site: string, visitor: string): Option<string> {
    Latest(Group(s, raw, VisitorKey(site, visitor)), UserOf)
  }

  // One function per INSERT .. SELECT .. GROUP BY.

  function RebuildVisitors(s: Site, raw: seq<Event>): (m: map<Key, VisitorRow>)
    ensures forall k :: k in m <==> k.VisitorKey? && Group(s, raw, k) != []
    ensures forall k :: k in m ==> m[k] == RebuiltVisitor(s, raw, k)
  {
    map k | k in KeysIn(s, raw) && k.VisitorKey? :: RebuiltVisitor(s, raw, k)
  }

  function RebuildIdentities(s: Site, raw: seq<Event>): (m: map<Key, Identity>)
    ensures forall k :: k in m <==> k.VisitorKey? && Latest(Group(s, raw, k), UserOf).Some?
    ensures forall k :: k in m ==> m[k] == IdentityOf(Group(s, raw, k))
  {
    map k | k in KeysIn(s, raw) && k.VisitorKey?
      && Latest(Group(s, raw, k), UserOf).Some? :: IdentityOf(Group(s, raw, k))
  }

  function RebuildVisitorSessions(s: Site, raw: seq<Event>): (m: map<Key, VisitorSessionRow>)
    ensures forall k :: k in m <==> k.VisitorSessionKey? && Group(s, raw, k) != []
    ensures forall k :: k in m ==> m[k] == RebuiltVisitorSession(s, raw, k)
  {
    map k | k in KeysIn(s, raw) && k.VisitorSessionKey? :: RebuiltVisitorSession(s, raw, k)
  }

  function RebuildSessions(s: Site, raw: seq<Event>): (m: map<Key, SessionRow>)
    ensures forall k :: k in m <==> k.SessionKey? && Group(s, raw, k) != []
    ensures forall k :: k in m ==> m[k] == RebuiltSession(s, raw, k)
  {
    map k | k in KeysIn(s, raw) && k.SessionKey? :: RebuiltSession(s, raw, k)
  }

  function RebuildDays(s: Site, raw: seq<Event>): (m: map<Key, DayTally>)
    ensures forall k :: k in m <==> k.DayKey? && Group(s, raw, k) != []
    ensures forall k :: k in m ==> m[k] == DayTallyOf(Group(s, raw, k))
  {
    map k | k in KeysIn(s, raw) && k.DayKey? :: DayTallyOf(Group(s, raw, k))
  }

  function RebuildDayVisitors(s: Site, raw: seq<Event>): (m: map<Key, VisitorRow>)
    ensures forall k :: k in m <==> k.DayVisitorKey? && Group(s, raw, k) != []
    ensures forall k :: k in m ==> m[k] == RebuiltDayVisitor(s, raw, k)
  {
    map k | k in KeysIn(s, raw) && k.DayVisitorKey? :: RebuiltDayVisitor(s, raw, k)
  }

  function RebuildDaySessions(s: Site, raw: seq<Event>): (m: map<Key, DaySessionRow>)
    ensures forall k :: k in m <==> k.DaySessionKey? && Group(s, raw, k) != []
    ensures forall k :: k in m ==> m[k] == RebuiltDaySession(s, raw, k)
  {
    map k | k in KeysIn(s, raw) && k.DaySessionKey? :: RebuiltDaySession(s, raw, k)
  }

  /** Every derived table, recomputed from the raw events alone. */
  function Rebuild(s: Site, raw: seq<Event>): Tables {
    Tables(RebuildVisitors(s, raw), RebuildIdentities(s, raw), RebuildVisitorSessions(s, raw), RebuildSessions(s, raw),
           RebuildDays(s, raw), RebuildDayVisitors(s, raw), RebuildDaySessions(s, raw))
  }

  function RebuiltVisitor(s: Site, raw: seq<Event>, k: Key): VisitorRow
    requires Group(s, raw, k) != []
  {
    var g := Group(s, raw, k);
    VisitorRow(Latest(g, UserOf), VisitorTallyOf(g), LatestUserProps(g))
  }

  function RebuiltVisitorSession(s: Site, raw: seq<Event>, k: Key): VisitorSessionRow
    requires Group(s, raw, k) != []
  {
    var g := Group(s, raw, k);
    VisitorSessionRow(Latest(g, UserOf), SpanOf(g))
  }

  function RebuiltSession(s: Site, raw: seq<Event>, k: Key): SessionRow
    requires Group(s, raw, k) != []
  {
    var g := Group(s, raw, k);
    SessionRow(EarliestVisitor(g), Latest(g, UserOf), SessionTallyOf(g, s.threshold(k.site)), JourneyOf(g))
  }

  function RebuiltDayVisitor(s: Site, raw: seq<Event>, k: Key): VisitorRow
    requires k.DayVisitorKey?
    requires Group(s, raw, k) != []
  {
    var g := Group(s, raw, k);
    VisitorRow(Coalesce(RebuiltUser(s, raw, k.site, k.visitor), Latest(g, UserOf)), VisitorTallyOf(g),
               LatestUserProps(g))
  }

  function RebuiltDaySession(s: Site, raw: seq<Event>, k: Key): DaySessionRow
    requires k.DaySessionKey?
    requires Group(s, raw, k) != []
  {
    var g := Group(s, raw, k);
    var identified := (e: Event) => RebuiltUser(s, raw, e.site, e.visitor);
    DaySessionRow(EarliestVisitor(g), Coalesce(Latest(g, identified), Latest(g, UserOf)), SpanOf(g))
  }
}
