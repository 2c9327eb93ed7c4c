/**
 Stored raw events, the keys the derived tables group them by, and the aggregate
 functions the rebuild statements use. Every aggregate here is stated over a whole
 group of rows, with no notion of one row arriving after another.

 A group is a sequence of rows in insertion order, so a row's position stands for
 its `id`, the tie-breaker of every ORDER BY in the rebuild.
 */
module Events {
  import opened Wrappers

  /** The property `active_seconds`, restricted to whole numbers. */
  datatype ActiveSeconds = NoSeconds | Seconds(n: int)

  /**
   A monetary property, in millionths: the scale of the column it is summed into.
   `Text` is a value that is not a plain decimal, with the number the collector's
   float parser still reads from it, if any.
   */
  datatype Amount = NoAmount | Decimal(amount: int) | Text(parsed: Option<int>)

  datatype Event = Event(
    site: string, eventId: int, env: string, visitor: string, session: string,
    ts: int, name: string, user: Option<string>,
    userProps: map<string, string>, sessionProps: map<string, string>,
    conversion: bool, page: Option<string>, source: Option<string>, medium: Option<string>,
    campaign: Option<string>, device: Option<string>,
    active: ActiveSeconds, value: Amount, revenue: Amount)

  /** What the collector reads from the site row: its calendar and its engagement threshold. */
  datatype Site = Site(localDate: (string, int) -> int, threshold: string -> int)

  /** The primary keys of the derived tables. */
  datatype Key =
    | VisitorKey(site: string, visitor: string)
    | VisitorSessionKey(site: string, visitor: string, session: string)
    | SessionKey(site: string, env: string, session: string)
    | DayKey(site: string, date: int, env: string)
    | DayVisitorKey(site: string, date: int, env: string, visitor: string)
    | DaySessionKey(site: string, date: int, env: string, session: string)

  predicate Covers(s: Site, k: Key, e: Event) {
    k.site == e.site &&
    match k
    case VisitorKey(_, v) => v == e.visitor
    case VisitorSessionKey(_, v, n) => v == e.visitor && n == e.session
    case SessionKey(_, env, n) => env == e.env && n == e.session
    case DayKey(_, d, env) => d == s.localDate(e.site, e.ts) && env == e.env
    case DayVisitorKey(_, d, env, v) => d == s.localDate(e.site, e.ts) && env == e.env && v == e.visitor
    case DaySessionKey(_, d, env, n) => d == s.localDate(e.site, e.ts) && env == e.env && n == e.session
  }

  function VisitorOf(e: Event): Key { VisitorKey(e.site, e.visitor) }
  function VisitorSessionOf(e: Event): Key { VisitorSessionKey(e.site, e.visitor, e.session) }
  function SessionOf(e: Event): Key { SessionKey(e.site, e.env, e.session) }
  function DayOf(s: Site, e: Event): Key { DayKey(e.site, s.localDate(e.site, e.ts), e.env) }
  function DayVisitorOf(s: Site, e: Event): Key { DayVisitorKey(e.site, s.localDate(e.site, e.ts), e.env, e.visitor) }
  function DaySessionOf(s: Site, e: Event): Key { DaySessionKey(e.site, s.localDate(e.site, e.ts), e.env, e.session) }

  /** The rows GROUP BY puts under one key, in insertion order. */
  function Group(s: Site, raw: seq<Event>, k: Key): seq<Event> {
    if raw == [] then []
    else (if Covers(s, k, raw[0]) then [raw[0]] else []) + Group(s, raw[1..], k)
  }

  lemma {:induction false} GroupAppend(s: Site, raw: seq<Event>, e: Event, k: Key)
    ensures Group(s, raw + [e], k) == Group(s, raw, k) + (if Covers(s, k, e) then [e] else [])
  {
    hide Covers;
    if raw == [] {
      assert raw + [e] == [e];
    } else {
      GroupAppend(s, raw[1..], e, k);
      assert (raw + [e])[1..] == raw[1..] + [e];
    }
  }

  lemma {:induction false} GroupMembers(s: Site, raw: seq<Event>, k: Key)
    ensures forall e :: e in Group(s, raw, k) <==> e in raw && Covers(s, k, e)
  {
    if raw != [] {
      GroupMembers(s, raw[1..], k);
      assert forall e :: e in raw <==> e == raw[0] || e in raw[1..];
    }
  }

  // ---- Aggregates -------------------------------------------------------------

  predicate IsPageView(e: Event) { e.name == "page_view" }
  predicate IsConversion(e: Event) { e.conversion }
  predicate IsHeartbeat(e: Event) { e.name == "user_engagement" }
  predicate IsInteraction(e: Event) {
    e.name in {"click", "outbound_click", "file_download", "search", "login", "sign_up", "form_start",
               "form_submit", "conversion", "purchase", "add_to_cart", "begin_checkout", "error"}
  }

  function LandingOf(e: Event): Option<string> { if IsPageView(e) then e.page else None }
  function SourceOf(e: Event): Option<string> { e.source }
  function MediumOf(e: Event): Option<string> { e.medium }
  function CampaignOf(e: Event): Option<string> { e.campaign }
  function DeviceOf(e: Event): Option<string> { e.device }
  function UserOf(e: Event): Option<string> { e.user }
  function UserPropsOf(e: Event): Option<map<string, string>> {
    if e.userProps != map[] then Some(e.userProps) else None
  }

  /** sum(f), zero over no rows */
  function Total(g: seq<Event>, f: Event -> int): int {
    if g == [] then 0 else f(g[0]) + Total(g[1..], f)
  }

  function Indicator(p: Event -> bool): Event -> int {
    (e: Event) => if p(e) then 1 else 0
  }

  /** count(*) FILTER(WHERE p) */
  function Count(g: seq<Event>, p: Event -> bool): int {
    Total(g, Indicator(p))
  }

  lemma {:induction false} TotalAppend(g: seq<Event>, e: Event, f: Event -> int)
    ensures Total(g + [e], f) == Total(g, f) + f(e)
  {
    if g == [] {
      assert g + [e] == [e];
    } else {
      TotalAppend(g[1..], e, f);
      assert (g + [e])[1..] == g[1..] + [e];
    }
  }

  lemma CountAppend(g: seq<Event>, e: Event, p: Event -> bool)
    ensures Count(g + [e], p) == Count(g, p) + (if p(e) then 1 else 0)
  {
    TotalAppend(g, e, Indicator(p));
  }

  /** t is min(event_timestamp) over the group. */
  ghost predicate IsFirstSeen(g: seq<Event>, t: int) {
    && (exists i :: 0 <= i < |g| && g[i].ts == t)
    && (forall i :: 0 <= i < |g| ==> t <= g[i].ts)
  }

  /** t is max(event_timestamp) over the group. */
  ghost predicate IsLastSeen(g: seq<Event>, t: int) {
    && (exists i :: 0 <= i < |g| && g[i].ts == t)
    && (forall i :: 0 <= i < |g| ==> g[i].ts <= t)
  }

  /** min(event_timestamp) */
  function FirstSeen(g: seq<Event>): (t: int)
    requires g != []
    ensures IsFirstSeen(g, t)
  {
    if |g| == 1 then
      assert g[0].ts == g[0].ts;
      g[0].ts
    else
      var rest := FirstSeen(g[1..]);
      ghost var i :| 0 <= i < |g[1..]| && g[1..][i].ts == rest;
      assert g[0].ts == g[0].ts && g[i + 1].ts == rest;
      assert forall j :: 1 <= j < |g| ==> g[j] == g[1..][j - 1];
      if g[0].ts < rest then g[0].ts else rest
  }

  /** max(event_timestamp) */
  function LastSeen(g: seq<Event>): (t: int)
    requires g != []
    ensures IsLastSeen(g, t)
  {
    if |g| == 1 then
      assert g[0].ts == g[0].ts;
      g[0].ts
    else
      var rest := LastSeen(g[1..]);
      ghost var i :| 0 <= i < |g[1..]| && g[1..][i].ts == rest;
      assert g[0].ts == g[0].ts && g[i + 1].ts == rest;
      assert forall j :: 1 <= j < |g| ==> g[j] == g[1..][j - 1];
      if rest < g[0].ts then g[0].ts else rest
  }

  lemma FirstSeenAppend(g: seq<Event>, e: Event)
    requires g != []
    ensures FirstSeen(g + [e]) == if e.ts < FirstSeen(g) then e.ts else FirstSeen(g)
  {
    var i :| 0 <= i < |g| && g[i].ts == FirstSeen(g);
    assert (g + [e])[i].ts == FirstSeen(g) && (g + [e])[|g|] == e;
    assert forall j :: 0 <= j < |g| ==> (g + [e])[j] == g[j];
  }

  lemma LastSeenAppend(g: seq<Event>, e: Event)
    requires g != []
    ensures LastSeen(g + [e]) == if LastSeen(g) < e.ts then e.ts else LastSeen(g)
  {
    var i :| 0 <= i < |g| && g[i].ts == LastSeen(g);
    assert (g + [e])[i].ts == LastSeen(g) && (g + [e])[|g|] == e;
    assert forall j :: 0 <= j < |g| ==> (g + [e])[j] == g[j];
  }

  /** Row i is the first with a value, ORDER BY event_timestamp, id. */
  ghost predicate IsEarliest<T>(g: seq<Event>, f: Event -> Option<T>, i: int) {
    && 0 <= i < |g| && f(g[i]).Some?
    && (forall j :: 0 <= j < |g| && f(g[j]).Some? ==> g[i].ts < g[j].ts || (g[i].ts == g[j].ts && i <= j))
  }

  /** Row i is the first with a value, ORDER BY event_timestamp DESC, id DESC. */
  ghost predicate IsLatest<T>(g: seq<Event>, f: Event -> Option<T>, i: int) {
    && 0 <= i < |g| && f(g[i]).Some?
    && (forall j :: 0 <= j < |g| && f(g[j]).Some? ==> g[j].ts < g[i].ts || (g[j].ts == g[i].ts && j <= i))
  }

  /** The row Earliest takes its value from. */
  function EarliestAt<T>(g: seq<Event>, f: Event -> Option<T>): (r: Option<nat>)
    ensures r.Some? ==> IsEarliest(g, f, r.value)
    ensures r.None? ==> forall j :: 0 <= j < |g| ==> f(g[j]).None?
  {
    if g == [] then None
    else
      var rest := EarliestAt(g[1..], f);
      assert forall j :: 1 <= j < |g| ==> g[j] == g[1..][j - 1];
      if rest.Some? && (f(g[0]).None? || g[rest.value + 1].ts < g[0].ts) then Some(rest.value + 1)
      else if f(g[0]).Some? then Some(0)
      else None
  }

  /** The row Latest takes its value from. */
  function LatestAt<T>(g: seq<Event>, f: Event -> Option<T>): (r: Option<nat>)
    ensures r.Some? ==> IsLatest(g, f, r.value)
    ensures r.None? ==> forall j :: 0 <= j < |g| ==> f(g[j]).None?
  {
    if g == [] then None
    else
      var rest := LatestAt(g[1..], f);
      assert forall j :: 1 <= j < |g| ==> g[j] == g[1..][j - 1];
      if rest.Some? && (f(g[0]).None? || g[0].ts <= g[rest.value + 1].ts) then Some(rest.value + 1)
      else if f(g[0]).Some? then Some(0)
      else None
  }

  /** (array_agg(f ORDER BY event_timestamp, id) FILTER(WHERE f IS NOT NULL))[1] */
  function Earliest<T>(g: seq<Event>, f: Event -> Option<T>): Option<T> {
    match EarliestAt(g, f) case None => None case Some(i) => f(g[i])
  }

  /** (array_agg(f ORDER BY event_timestamp DESC, id DESC) FILTER(WHERE f IS NOT NULL))[1] */
  function Latest<T>(g: seq<Event>, f: Event -> Option<T>): Option<T> {
    match LatestAt(g, f) case None => None case Some(i) => f(g[i])
  }

  /** No row of the group is later than the timestamp t. */
  ghost predicate NoneAfter(g: seq<Event>, t: int) {
    forall i :: 0 <= i < |g| ==> g[i].ts <= t
  }

  /** The rows arrived in non-decreasing timestamp order. */
  ghost predicate InOrder(g: seq<Event>) {
    forall i, j :: 0 <= i < j < |g| ==> g[i].ts <= g[j].ts
  }

  lemma EarliestAppend<T>(g: seq<Event>, e: Event, f: Event -> Option<T>)
    requires NoneAfter(g, e.ts)
    ensures Earliest(g + [e], f) == Coalesce(Earliest(g, f), f(e))
  {
    var h := g + [e];
    assert h[|g|] == e && forall j :: 0 <= j < |g| ==> h[j] == g[j];
    match EarliestAt(g, f)
    case Some(i) => assert IsEarliest(h, f, i);
    case None =>
      if f(e).Some? { assert IsEarliest(h, f, |g|); }
  }

  lemma LatestAppend<T>(g: seq<Event>, e: Event, f: Event -> Option<T>)
    requires NoneAfter(g, e.ts)
    ensures Latest(g + [e], f) == Coalesce(f(e), Latest(g, f))
  {
    var h := g + [e];
    assert h[|g|] == e && forall j :: 0 <= j < |g| ==> h[j] == g[j];
    if f(e).Some? {
      assert IsLatest(h, f, |g|);
    } else {
      match LatestAt(g, f)
      case Some(i) => assert IsLatest(h, f, i);
      case None =>
    }
  }

  lemma InOrderAppend(g: seq<Event>, e: Event)
    requires InOrder(g + [e])
    ensures InOrder(g) && NoneAfter(g, e.ts)
  {
    var h := g + [e];
    assert h[|g|] == e && forall j :: 0 <= j < |g| ==> h[j] == g[j];
  }
}
