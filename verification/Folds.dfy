/**
 The incremental side of ingestion: what the statements run for one accepted event
 do to each derived table. A table's new content depends on the event, on its own
 old content and on the user the visitor is linked to, so each table has a function
 of its own; the statements themselves, in the order they run, are in Collector.
 */
module Folds {
  import opened Wrappers
  import opened Events
  import opened Derived

  function Min(a: int, b: int): int { if b < a then b else a }
  function Max(a: int, b: int): int { if a < b then b else a }
  function Flag(b: bool): nat { if b then 1 else 0 }

  function Widen(span: Span, ts: int): Span { Span(Min(span.first, ts), Max(span.last, ts)) }

  // ---- What the collector reads from one event --------------------------------

  /** The clamped engagement time of a heartbeat: negative counts as none, an hour at most. */
  function ActiveMs(e: Event): int {
    if e.name != "user_engagement" || e.active.NoSeconds? || e.active.n < 0 then 0
    else if e.active.n > 3600 then 3600 * 1000
    else e.active.n * 1000
  }

  /** The address a page view reports. */
  function PageShown(e: Event): Option<string> {
    if e.name == "page_view" then e.page else None
  }

  predicate Interacts(e: Event) {
    match e.name
    case "click" => true
    case "outbound_click" => true
    case "file_download" => true
    case "search" => true
    case "login" => true
    case "sign_up" => true
    case "form_start" => true
    case "form_submit" => true
    case "conversion" => true
    case "purchase" => true
    case "add_to_cart" => true
    case "begin_checkout" => true
    case "error" => true
    case _ => false
  }

  /** The first of the two amounts the collector can read as a number. */
  function Revenue(e: Event): int {
    if e.name != "purchase" then 0
    else
      match Numeric(e.value)
      case Some(r) => r
      case None => match Numeric(e.revenue) case Some(r) => r case None => 0
  }

  function Numeric(a: Amount): Option<int> {
    match a
    case NoAmount => None
    case Decimal(r) => Some(r)
    case Text(parsed) => parsed
  }

  // ---- visitor_identities --------------------------------------------------------

  /** The upsert an identified event makes; `first` is the visitor row's first_seen, if there is a row. */
  function LinkIdentity(was: Option<Identity>, first: Option<int>, e: Event, u: string): Identity {
    var seen := if first.Some? then first.value else e.ts;
    match was
    case None => Identity(u, seen, e.ts, e.ts)
    case Some(i) =>
      Identity(
        if e.ts >= i.last then u else i.user,
        Min(i.first, seen),
        if e.ts < i.last then i.linked else if i.user == u then Min(i.linked, e.ts) else e.ts,
        Max(i.last, e.ts))
  }

  function At<R>(m: map<Key, R>, k: Key): Option<R> { if k in m then Some(m[k]) else None }

  function FirstOf(row: Option<VisitorRow>): Option<int> {
    if row.Some? then Some(row.value.tally.span.first) else None
  }

  /** The identity of the visitor once the identify statement, if any, has run. */
  function Identified(was: Option<Identity>, visitor: Option<VisitorRow>, e: Event): Option<Identity> {
    if e.user.Some? then Some(LinkIdentity(was, FirstOf(visitor), e, e.user.value)) else was
  }

  function UserIn(i: Option<Identity>): Option<string> { if i.Some? then Some(i.value.user) else None }

  /** The same identity after the statement that moves last_seen for linked visitors. */
  function Touched(i: Option<Identity>, ts: int): Option<Identity> {
    if i.Some? then Some(i.value.(last := Max(i.value.last, ts))) else None
  }

  // ---- visitors and daily_site_visitors -----------------------------------------

  function FirstVisit(e: Event, user: Option<string>): VisitorRow {
    VisitorRow(user, VisitorTally(Span(e.ts, e.ts), 1, Flag(e.conversion)), e.userProps)
  }

  function NextVisit(was: VisitorRow, e: Event, user: Option<string>): VisitorRow {
    VisitorRow(
      Coalesce(user, was.user),
      VisitorTally(Widen(was.tally.span, e.ts), was.tally.events + 1, was.tally.conversions + Flag(e.conversion)),
      if e.userProps != map[] && e.ts >= was.tally.span.last then e.userProps else was.props)
  }

  function Visit(was: Option<VisitorRow>, e: Event, user: Option<string>): VisitorRow {
    if was.Some? then NextVisit(was.value, e, user) else FirstVisit(e, user)
  }

  predicate OfVisitor(k: Key, e: Event) {
    && k.site == e.site
    && (k.VisitorKey? || k.VisitorSessionKey? || k.DayVisitorKey?)
    && k.visitor == e.visitor
  }

  /** UPDATE .. FROM visitor_identities: every row of the visitor takes the linked user. */
  function RelinkVisits(m: map<Key, VisitorRow>, e: Event, link: Option<string>): (r: map<Key, VisitorRow>)
    ensures r.Keys == m.Keys
    ensures forall k :: k in m ==> r[k] == if e.user.Some? && OfVisitor(k, e) then m[k].(user := link) else m[k]
  {
    map k | k in m :: if e.user.Some? && OfVisitor(k, e) then m[k].(user := link) else m[k]
  }

  function FoldVisits(m: map<Key, VisitorRow>, k: Key, e: Event, link: Option<string>, user: Option<string>)
    : map<Key, VisitorRow>
  {
    var relinked := RelinkVisits(m, e, link);
    relinked[k := Visit(At(relinked, k), e, user)]
  }

  // ---- sessions --------------------------------------------------------------------

  function FirstTally(e: Event, threshold: int): SessionTally {
    var pageViews, conversions := Flag(e.name == "page_view"), Flag(e.conversion);
    SessionTally(Span(e.ts, e.ts), 1, pageViews, conversions, ActiveMs(e), Flag(e.name == "user_engagement"),
                 Flag(Interacts(e)),
                 conversions > 0 || pageViews >= 2 || ActiveMs(e) >= threshold * 1000)
  }

  function NextTally(was: SessionTally, e: Event, threshold: int): SessionTally {
    var span := Widen(was.span, e.ts);
    var pageViews, conversions := was.pageViews + Flag(e.name == "page_view"), was.conversions + Flag(e.conversion);
    var activeMs := was.activeMs + ActiveMs(e);
    SessionTally(span, was.events + 1, pageViews, conversions, activeMs,
                 was.heartbeats + Flag(e.name == "user_engagement"), was.interactions + Flag(Interacts(e)),
                 span.last - span.first >= threshold * 1000000 || conversions > 0 || pageViews >= 2
                 || activeMs >= threshold * 1000)
  }

  function FirstJourney(e: Event): Journey {
    Journey(PageShown(e), PageShown(e), e.source, e.medium, e.campaign, e.device, e.sessionProps)
  }

  function NextJourney(was: Journey, span: Span, e: Event): Journey {
    Journey(
      if e.ts < span.first && PageShown(e).Some? then PageShown(e) else Coalesce(was.landing, PageShown(e)),
      if e.ts >= span.last && PageShown(e).Some? then PageShown(e) else was.exit,
      Coalesce(was.source, e.source), Coalesce(was.medium, e.medium),
      Coalesce(was.campaign, e.campaign), Coalesce(was.device, e.device),
      if e.ts >= span.last then was.props + e.sessionProps else e.sessionProps + was.props)
  }

  function VisitSession(was: Option<SessionRow>, e: Event, user: Option<string>, threshold: int): SessionRow {
    match was
    case None => SessionRow(e.visitor, user, FirstTally(e, threshold), FirstJourney(e))
    case Some(r) =>
      SessionRow(e.visitor, Coalesce(user, r.user), NextTally(r.tally, e, threshold),
                 NextJourney(r.journey, r.tally.span, e))
  }

  function FoldSessions(m: map<Key, SessionRow>, e: Event, user: Option<string>, threshold: int): map<Key, SessionRow> {
    m[SessionOf(e) := VisitSession(At(m, SessionOf(e)), e, user, threshold)]
  }

  // ---- visitor_sessions and the daily tables --------------------------------------

  function RelinkVisitorSessions(m: map<Key, VisitorSessionRow>, e: Event, link: Option<string>)
    : (r: map<Key, VisitorSessionRow>)
    ensures r.Keys == m.Keys
    ensures forall k :: k in m ==> r[k] == if e.user.Some? && OfVisitor(k, e) then m[k].(user := link) else m[k]
  {
    map k | k in m :: if e.user.Some? && OfVisitor(k, e) then m[k].(user := link) else m[k]
  }

  function VisitVisitorSession(was: Option<VisitorSessionRow>, e: Event, user: Option<string>): VisitorSessionRow {
    match was
    case None => VisitorSessionRow(user, Span(e.ts, e.ts))
    case Some(r) => VisitorSessionRow(Coalesce(user, r.user), Widen(r.span, e.ts))
  }

  function FoldVisitorSessions(m: map<Key, VisitorSessionRow>, e: Event, link: Option<string>, user: Option<string>)
    : map<Key, VisitorSessionRow>
  {
    var relinked := RelinkVisitorSessions(m, e, link);
    relinked[VisitorSessionOf(e) := VisitVisitorSession(At(relinked, VisitorSessionOf(e)), e, user)]
  }

  function VisitDay(was: Option<DayTally>, e: Event): DayTally {
    match was
    case None => DayTally(1, Flag(e.name == "page_view"), Flag(e.conversion), Revenue(e))
    case Some(r) =>
      DayTally(r.events + 1, r.pageViews + Flag(e.name == "page_view"), r.conversions + Flag(e.conversion),
               r.revenue + Revenue(e))
  }

  function FoldDays(m: map<Key, DayTally>, k: Key, e: Event): map<Key, DayTally> {
    m[k := VisitDay(At(m, k), e)]
  }

  /** The daily session row names its visitor in a column, and that column selects the rows to relink. */
  predicate Relinks(k: Key, row: DaySessionRow, e: Event) {
    e.user.Some? && k.site == e.site && row.visitor == e.visitor
  }

  function RelinkDaySessions(m: map<Key, DaySessionRow>, e: Event, link: Option<string>): (r: map<Key, DaySessionRow>)
    ensures r.Keys == m.Keys
    ensures forall k :: k in m ==>
              r[k] == (if Relinks(k, m[k], e) then m[k].(user := link) else m[k])
  {
    map k | k in m :: if Relinks(k, m[k], e) then m[k].(user := link) else m[k]
  }

  function VisitDaySession(was: Option<DaySessionRow>, e: Event, user: Option<string>): DaySessionRow {
    match was
    case None => DaySessionRow(e.visitor, user, Span(e.ts, e.ts))
    case Some(r) => DaySessionRow(e.visitor, Coalesce(user, r.user), Widen(r.span, e.ts))
  }

  function FoldDaySessions(m: map<Key, DaySessionRow>, k: Key, e: Event, link: Option<string>, user: Option<string>)
    : map<Key, DaySessionRow>
  {
    var relinked := RelinkDaySessions(m, e, link);
    relinked[k := VisitDaySession(At(relinked, k), e, user)]
  }

  // ---- One accepted event -----------------------------------------------------------

  /** The identity the tables hold for the event's visitor after its identify statement. */
  function LinkedIdentity(t: Tables, e: Event): Option<Identity> {
    Identified(At(t.identities, VisitorOf(e)), At(t.visitors, VisitorOf(e)), e)
  }

  /** The user the visitor is linked to after the identify statement. */
  function Link(t: Tables, e: Event): Option<string> { UserIn(LinkedIdentity(t, e)) }

  /** The canonical user: what the visitor row carries after this event. */
  function Canonical(t: Tables, e: Event): Option<string> {
    var known := if VisitorOf(e) in t.visitors then t.visitors[VisitorOf(e)].user else None;
    Coalesce(Link(t, e), Coalesce(e.user, known))
  }

  function FoldIdentities(t: Tables, e: Event): map<Key, Identity> {
    var linked := LinkedIdentity(t, e);
    match (if Canonical(t, e).Some? then Touched(linked, e.ts) else linked)
    case None => t.identities
    case Some(i) => t.identities[VisitorOf(e) := i]
  }

  function Fold(s: Site, t: Tables, e: Event): Tables {
    var link, user := Link(t, e), Canonical(t, e);
    Tables(
      FoldVisits(t.visitors, VisitorOf(e), e, link, Coalesce(link, e.user)),
      FoldIdentities(t, e),
      FoldVisitorSessions(t.visitorSessions, e, link, user),
      FoldSessions(t.sessions, e, user, s.threshold(e.site)),
      FoldDays(t.days, DayOf(s, e), e),
      FoldVisits(t.dayVisitors, DayVisitorOf(s, e), e, link, user),
      FoldDaySessions(t.daySessions, DaySessionOf(s, e), e, link, user))
  }

  const NO_TABLES := Tables(map[], map[], map[], map[], map[], map[], map[])

  /** The fold of a whole arrival sequence. */
  function FoldAll(s: Site, raw: seq<Event>): Tables {
    if raw == [] then NO_TABLES
    else Fold(s, FoldAll(s, raw[..|raw| - 1]), raw[|raw| - 1])
  }
}
