/**
 The derived tables as single rows, and the statements of one accepted event as a
 program over them. A statement reads the snapshot taken when it began and updates the
 latest version of each row it locks, which is what READ COMMITTED gives it.
 */
module Rows {
  import opened Wrappers
  import opened Events
  import opened Derived
  import opened Folds
  import opened Agreement
  import opened Ordered

  datatype Table = Visitors | Identities | VisitorSessions | Sessions | Days | DayVisitors | DaySessions

  datatype Slot = Slot(table: Table, key: Key)

  datatype Row =
    | VisitorCell(visit: VisitorRow)
    | IdentityCell(identity: Identity)
    | VisitorSessionCell(visitorSession: VisitorSessionRow)
    | SessionCell(session: SessionRow)
    | DayCell(day: DayTally)
    | DaySessionCell(daySession: DaySessionRow)

  type RowMap = map<Slot, Row>

  function RowIn(rows: RowMap, slot: Slot): Option<Row> {
    if slot in rows then Some(rows[slot]) else None
  }

  // ---- The statements of one event -------------------------------------------------------------

  /**
   Statements in the order they run: identify, four that relink the visitor's rows, the
   visitor, the identity's last_seen, session, visitor session, and the three daily ones.
   */
  const STAGES := 12

  function KeyFor(s: Site, table: Table, e: Event): Key {
    match table
    case Visitors => VisitorOf(e)
    case Identities => VisitorOf(e)
    case VisitorSessions => VisitorSessionOf(e)
    case Sessions => SessionOf(e)
    case Days => DayOf(s, e)
    case DayVisitors => DayVisitorOf(s, e)
    case DaySessions => DaySessionOf(s, e)
  }

  function SlotFor(s: Site, table: Table, e: Event): Slot {
    Slot(table, KeyFor(s, table, e))
  }

  /** The statement that counts the event in a table. */
  function StageOf(table: Table): nat {
    match table
    case Identities => 0
    case Visitors => 5
    case Sessions => 7
    case VisitorSessions => 8
    case Days => 9
    case DayVisitors => 10
    case DaySessions => 11
  }

  function TableOf(k: nat): Table {
    if k == 0 || k == 6 then Identities
    else if k == 1 || k == 5 then Visitors
    else if k == 2 || k == 8 then VisitorSessions
    else if k == 3 || k == 10 then DayVisitors
    else if k == 7 then Sessions
    else if k == 9 then Days
    else DaySessions
  }

  function IdentityAt(rows: RowMap, e: Event): Option<Identity> {
    match RowIn(rows, Slot(Identities, VisitorOf(e))) case Some(IdentityCell(i)) => Some(i) case _ => None
  }

  function VisitorAt(rows: RowMap, e: Event): Option<VisitorRow> {
    match RowIn(rows, Slot(Visitors, VisitorOf(e))) case Some(VisitorCell(v)) => Some(v) case _ => None
  }

  /** The user RETURNING gave: the one in the visitor row the transaction has written. */
  function CanonicalIn(rows: RowMap, e: Event): Option<string> {
    match VisitorAt(rows, e) case Some(v) => v.user case None => None
  }

  /** The row belongs to the visitor, by its key or, for a daily session, by its visitor column. */
  predicate Concerns(slot: Slot, row: Row, site: string, visitor: string) {
    && slot.key.site == site
    && match slot.table
       case Visitors => slot.key.VisitorKey? && slot.key.visitor == visitor
       case Identities => slot.key.VisitorKey? && slot.key.visitor == visitor
       case VisitorSessions => slot.key.VisitorSessionKey? && slot.key.visitor == visitor
       case DayVisitors => slot.key.DayVisitorKey? && slot.key.visitor == visitor
       case DaySessions => row.DaySessionCell? && row.daySession.visitor == visitor
       case Sessions => false
       case Days => false
  }

  function Renamed(row: Row, user: Option<string>): Row {
    match row
    case VisitorCell(v) => VisitorCell(v.(user := user))
    case VisitorSessionCell(v) => VisitorSessionCell(v.(user := user))
    case DaySessionCell(d) => DaySessionCell(d.(user := user))
    case _ => row
  }

  /** The rows a relinking statement finds. */
  function Found(rows: RowMap, e: Event, k: nat): set<Slot> {
    set slot | slot in rows && slot.table == TableOf(k) && Concerns(slot, rows[slot], e.site, e.visitor)
  }

  /** INSERT .. ON CONFLICT DO UPDATE of one table. */
  function Upserted(s: Site, table: Table, was: Option<Row>, e: Event, link: Option<string>, canonical: Option<string>)
    : Row
  {
    match table
    case Visitors =>
      VisitorCell(Visit(match was case Some(VisitorCell(v)) => Some(v) case _ => None, e, Coalesce(link, e.user)))
    case DayVisitors =>
      VisitorCell(Visit(match was case Some(VisitorCell(v)) => Some(v) case _ => None, e, canonical))
    case Sessions =>
      var row := match was case Some(SessionCell(v)) => Some(v) case _ => None;
      SessionCell(VisitSession(row, e, canonical, s.threshold(e.site)))
    case VisitorSessions =>
      var row := match was case Some(VisitorSessionCell(v)) => Some(v) case _ => None;
      VisitorSessionCell(VisitVisitorSession(row, e, canonical))
    case Days =>
      DayCell(VisitDay(match was case Some(DayCell(v)) => Some(v) case _ => None, e))
    case DaySessions =>
      DaySessionCell(VisitDaySession(match was case Some(DaySessionCell(v)) => Some(v) case _ => None, e, canonical))
    case Identities => IdentityCell(Identity("", 0, 0, 0))
  }

  function IdentifyWrites(e: Event, snap: RowMap, latest: RowMap): RowMap {
    if e.user.None? then map[]
    else
      map[Slot(Identities, VisitorOf(e)) :=
            IdentityCell(LinkIdentity(IdentityAt(latest, e), FirstOf(VisitorAt(snap, e)), e, e.user.value))]
  }

  /** UPDATE .. FROM visitor_identities: the rows found in the snapshot whose latest version still matches. */
  function RelinkWrites(e: Event, k: nat, snap: RowMap, latest: RowMap): RowMap {
    if e.user.None? then map[]
    else
      map slot | slot in Found(snap, e, k) && slot in latest && Concerns(slot, latest[slot], e.site, e.visitor) ::
        Renamed(latest[slot], UserIn(IdentityAt(snap, e)))
  }

  function TouchWrites(e: Event, snap: RowMap, latest: RowMap): RowMap {
    if CanonicalIn(latest, e).None? || IdentityAt(snap, e).None? || IdentityAt(latest, e).None? then map[]
    else map[Slot(Identities, VisitorOf(e)) := IdentityCell(Touched(IdentityAt(latest, e), e.ts).value)]
  }

  function UpsertWrites(s: Site, e: Event, table: Table, snap: RowMap, latest: RowMap): RowMap {
    map[SlotFor(s, table, e) :=
          Upserted(s, table, RowIn(latest, SlotFor(s, table, e)), e, UserIn(IdentityAt(snap, e)),
                   CanonicalIn(latest, e))]
  }

  /** The rows statement k writes, from its snapshot and the latest version of the rows it has locked. */
  function Writes(s: Site, e: Event, k: nat, snap: RowMap, latest: RowMap): RowMap {
    if k == 0 then IdentifyWrites(e, snap, latest)
    else if 1 <= k <= 4 then RelinkWrites(e, k, snap, latest)
    else if k == 6 then TouchWrites(e, snap, latest)
    else UpsertWrites(s, e, TableOf(k), snap, latest)
  }

  /** The rows statement k has to lock before it writes. */
  function Locks(s: Site, e: Event, k: nat, snap: RowMap): set<Slot> {
    if 1 <= k <= 4 then (if e.user.None? then {} else Found(snap, e, k))
    else if k == 0 then (if e.user.None? then {} else {Slot(Identities, VisitorOf(e))})
    else if k == 6 then (if IdentityAt(snap, e).None? then {} else {Slot(Identities, VisitorOf(e))})
    else {SlotFor(s, TableOf(k), e)}
  }

  lemma WritesLocked(s: Site, e: Event, k: nat, snap: RowMap, latest: RowMap)
    ensures Writes(s, e, k, snap, latest).Keys <= Locks(s, e, k, snap)
  {
  }

  // ---- The columns that cannot depend on order ----------------------------------------------------

  const BLANK := Journey(None, None, None, None, None, None, map[])

  /** The row with every order-sensitive column blanked. */
  function Plain(row: Row): Row {
    match row
    case VisitorCell(v) => VisitorCell(VisitorRow(None, v.tally, map[]))
    case IdentityCell(_) => IdentityCell(Identity("", 0, 0, 0))
    case VisitorSessionCell(v) => VisitorSessionCell(VisitorSessionRow(None, v.span))
    case SessionCell(v) => SessionCell(SessionRow("", None, v.tally, BLANK))
    case DayCell(_) => row
    case DaySessionCell(v) => DaySessionCell(DaySessionRow("", None, v.span))
  }

  function PlainIn(rows: RowMap, slot: Slot): Option<Row> {
    if slot in rows then Some(Plain(rows[slot])) else None
  }

  predicate RightKind(slot: Slot) {
    match slot.table
    case Visitors => slot.key.VisitorKey?
    case Identities => slot.key.VisitorKey?
    case VisitorSessions => slot.key.VisitorSessionKey?
    case Sessions => slot.key.SessionKey?
    case Days => slot.key.DayKey?
    case DayVisitors => slot.key.DayVisitorKey?
    case DaySessions => slot.key.DaySessionKey?
  }

  /** The blanked row a group of raw events comes to; revenue is the sum of the collector's readings. */
  function Expected(s: Site, slot: Slot, g: seq<Event>): Option<Row> {
    if !RightKind(slot) || g == [] then None
    else
      match slot.table
      case Visitors => Some(VisitorCell(VisitorRow(None, VisitorTallyOf(g), map[])))
      case DayVisitors => Some(VisitorCell(VisitorRow(None, VisitorTallyOf(g), map[])))
      case Identities => if Latest(g, UserOf).Some? then Some(IdentityCell(Identity("", 0, 0, 0))) else None
      case VisitorSessions => Some(VisitorSessionCell(VisitorSessionRow(None, SpanOf(g))))
      case Sessions => Some(SessionCell(SessionRow("", None, SessionTallyOf(g, s.threshold(slot.key.site)), BLANK)))
      case Days => Some(DayCell(DayTallyOf(g).(revenue := Total(g, Revenue))))
      case DaySessions => Some(DaySessionCell(DaySessionRow("", None, SpanOf(g))))
  }

  /** The event is one this row counts. */
  predicate CountedIn(s: Site, slot: Slot, e: Event) {
    RightKind(slot) && Covers(s, slot.key, e) && (slot.table == Identities ==> e.user.Some?)
  }

  lemma OneSlotPerTable(s: Site, slot: Slot, e: Event)
    ensures CountedIn(s, slot, e) ==> slot == SlotFor(s, slot.table, e)
    ensures CountedIn(s, SlotFor(s, slot.table, e), e) <==> (slot.table == Identities ==> e.user.Some?)
  {
  }

  lemma {:induction false} GroupConcat(s: Site, a: seq<Event>, b: seq<Event>, k: Key)
    ensures Group(s, a + b, k) == Group(s, a, k) + Group(s, b, k)
  {
    hide Covers;
    if b == [] {
      assert a + b == a && Group(s, b, k) == [];
    } else {
      var init, e := b[..|b| - 1], b[|b| - 1];
      assert b == init + [e] && a + b == (a + init) + [e];
      GroupConcat(s, a, init, k);
      GroupAppend(s, a + init, e, k);
      GroupAppend(s, init, e, k);
    }
  }

  /** One more event the row does not count leaves the expected row alone. */
  lemma ExpectedIgnoresOne(s: Site, slot: Slot, raw: seq<Event>, e: Event)
    requires !CountedIn(s, slot, e)
    ensures Expected(s, slot, Group(s, raw + [e], slot.key)) == Expected(s, slot, Group(s, raw, slot.key))
  {
    hide VisitorTallyOf, SessionTallyOf, DayTallyOf, SpanOf, Total, Latest;
    GroupAppend(s, raw, e, slot.key);
    var g := Group(s, raw, slot.key);
    if Covers(s, slot.key, e) && RightKind(slot) {
      LatestUserAppended(g, e);
    } else {
      assert g + [] == g;
    }
  }

  lemma LatestUserAppended(g: seq<Event>, e: Event)
    ensures Latest(g + [e], UserOf).Some? <==> Latest(g, UserOf).Some? || e.user.Some?
    ensures Latest([], UserOf).None?
  {
    LatestNoneAppend(g, e);
  }

  /** Rows the events in the middle do not touch expect the same without them. */
  lemma {:induction false} ExpectedIgnores(s: Site, slot: Slot, a: seq<Event>, b: seq<Event>, c: seq<Event>)
    requires forall i :: 0 <= i < |b| ==> !CountedIn(s, slot, b[i])
    ensures Expected(s, slot, Group(s, a + b + c, slot.key)) == Expected(s, slot, Group(s, a + c, slot.key))
    decreases |c|, |b|
  {
    hide Expected, CountedIn, Group;
    if c != [] {
      var init, e := c[..|c| - 1], c[|c| - 1];
      ExpectedIgnores(s, slot, a, b, init);
      assert a + b + c == (a + b + init) + [e] && a + c == (a + init) + [e];
      ExpectedTogether(s, slot, a, b, init, e);
    } else if b != [] {
      var init, e := b[..|b| - 1], b[|b| - 1];
      ExpectedIgnores(s, slot, a, init, []);
      assert a + b + c == (a + init + []) + [e] && a + c == a + [];
      ExpectedIgnoresOne(s, slot, a + init + [], e);
    } else {
      assert a + b + c == a + c;
    }
  }

  lemma NoneCounted(s: Site, slot: Slot, b: seq<Event>)
    requires RightKind(slot) && slot.table != Identities && forall i :: 0 <= i < |b| ==> !CountedIn(s, slot, b[i])
    ensures Group(s, b, slot.key) == []
  {
    GroupMembers(s, b, slot.key);
    if Group(s, b, slot.key) != [] {
      var e := Group(s, b, slot.key)[0];
      assert e in b;
      assert CountedIn(s, slot, e);
    }
  }

  /** Two histories with the same expected row have it after the same event too. */
  lemma ExpectedTogether(s: Site, slot: Slot, a: seq<Event>, b: seq<Event>, c: seq<Event>, e: Event)
    requires forall i :: 0 <= i < |b| ==> !CountedIn(s, slot, b[i])
    requires Expected(s, slot, Group(s, a + b + c, slot.key)) == Expected(s, slot, Group(s, a + c, slot.key))
    ensures Expected(s, slot, Group(s, (a + b + c) + [e], slot.key))
            == Expected(s, slot, Group(s, (a + c) + [e], slot.key))
  {
    if !RightKind(slot) {
    } else if !CountedIn(s, slot, e) {
      ExpectedIgnoresOne(s, slot, a + b + c, e);
      ExpectedIgnoresOne(s, slot, a + c, e);
    } else if slot.table == Identities {
      GroupAppend(s, a + b + c, e, slot.key);
      GroupAppend(s, a + c, e, slot.key);
      LatestUserAppended(Group(s, a + b + c, slot.key), e);
      LatestUserAppended(Group(s, a + c, slot.key), e);
    } else {
      NoneCounted(s, slot, b);
      GroupConcat(s, a + b, c, slot.key);
      GroupConcat(s, a, b, slot.key);
      GroupConcat(s, a, c, slot.key);
      assert Group(s, a, slot.key) + [] == Group(s, a, slot.key);
      GroupAppend(s, a + b + c, e, slot.key);
      GroupAppend(s, a + c, e, slot.key);
    }
  }

  // ---- One statement on a view ------------------------------------------------------------------------

  /** The events a table counts while event e, after those of base, is at statement k. */
  function Extent(base: seq<Event>, e: Event, k: nat, table: Table): seq<Event> {
    if StageOf(table) < k then base + [e] else base
  }

  /** Every row of the view is, order-sensitive columns blanked, what its events come to. */
  ghost predicate Counts(s: Site, view: RowMap, base: seq<Event>, e: Event, k: nat) {
    forall slot :: PlainIn(view, slot) == Expected(s, slot, Group(s, Extent(base, e, k, slot.table), slot.key))
  }

  /** The same between events. */
  ghost predicate CountsAll(s: Site, view: RowMap, raw: seq<Event>) {
    forall slot :: PlainIn(view, slot) == Expected(s, slot, Group(s, raw, slot.key))
  }

  lemma SessionCounts(s: Site, was: Option<Row>, e: Event, canonical: Option<string>, g: seq<Event>)
    requires (match was case None => None case Some(r) => Some(Plain(r))) == Expected(s, SlotFor(s, Sessions, e), g)
    ensures Some(Plain(Upserted(s, Sessions, was, e, None, canonical))) == Expected(s, SlotFor(s, Sessions, e), g + [e])
  {
    hide SessionTallyOf, FirstTally, NextTally, FirstJourney, NextJourney;
    assert g == [] ==> g + [e] == [e];
    SessionTallyAppend(g, e, s.threshold(e.site));
  }

  lemma SpansCount(s: Site, table: Table, was: Option<Row>, e: Event, canonical: Option<string>, g: seq<Event>)
    requires table == VisitorSessions || table == DaySessions
    requires (match was case None => None case Some(r) => Some(Plain(r))) == Expected(s, SlotFor(s, table, e), g)
    ensures Some(Plain(Upserted(s, table, was, e, None, canonical))) == Expected(s, SlotFor(s, table, e), g + [e])
  {
    hide SpanOf;
    assert g == [] ==> g + [e] == [e];
    SpanAppend(g, e);
  }

  lemma DayCounts(s: Site, was: Option<Row>, e: Event, g: seq<Event>)
    requires (match was case None => None case Some(r) => Some(Plain(r))) == Expected(s, SlotFor(s, Days, e), g)
    ensures Some(Plain(Upserted(s, Days, was, e, None, None))) == Expected(s, SlotFor(s, Days, e), g + [e])
  {
    hide DayTallyOf, VisitDay, Total;
    assert g == [] ==> g + [e] == [e];
    DayTallyAppend(g, e);
  }

  lemma VisitsCount(s: Site, table: Table, was: Option<Row>, e: Event, link: Option<string>, canonical: Option<string>,
                    g: seq<Event>)
    requires table == Visitors || table == DayVisitors
    requires (match was case None => None case Some(r) => Some(Plain(r))) == Expected(s, SlotFor(s, table, e), g)
    ensures Some(Plain(Upserted(s, table, was, e, link, canonical))) == Expected(s, SlotFor(s, table, e), g + [e])
  {
    hide VisitorTallyOf, Visit;
    assert g == [] ==> g + [e] == [e];
    VisitCounts(was, e, if table == Visitors then Coalesce(link, e.user) else canonical, g);
  }

  /** An upsert on a row that counts g counts g and the event. */
  lemma UpsertCounts(s: Site, table: Table, was: Option<Row>, e: Event, link: Option<string>, canonical: Option<string>,
                     g: seq<Event>)
    requires table != Identities
    requires (match was case None => None case Some(r) => Some(Plain(r))) == Expected(s, SlotFor(s, table, e), g)
    ensures Some(Plain(Upserted(s, table, was, e, link, canonical))) == Expected(s, SlotFor(s, table, e), g + [e])
  {
    hide Expected, Plain;
    match table {
      case Sessions => SessionCounts(s, was, e, canonical, g);
      case Days => DayCounts(s, was, e, g);
      case Visitors => VisitsCount(s, table, was, e, link, canonical, g);
      case DayVisitors => VisitsCount(s, table, was, e, link, canonical, g);
      case _ => SpansCount(s, table, was, e, canonical, g);
    }
  }

  lemma VisitCounts(was: Option<Row>, e: Event, user: Option<string>, g: seq<Event>)
    requires was.None? <==> g == []
    requires was.Some? ==> Plain(was.value) == VisitorCell(VisitorRow(None, VisitorTallyOf(g), map[]))
    ensures var v := match was case Some(VisitorCell(v)) => Some(v) case _ => None;
            Visit(v, e, user).tally == VisitorTallyOf(if g == [] then [e] else g + [e])
  {
    hide VisitorTallyOf;
    VisitorTallyAppend(g, e);
  }

  /** A statement that only changes users: blanked, every row is what it was. */
  lemma RelinkCounts(s: Site, e: Event, k: nat, snap: RowMap, view: RowMap, slot: Slot)
    requires 1 <= k <= 4 || k == 6
    ensures PlainIn(view + Writes(s, e, k, snap, view), slot) == PlainIn(view, slot)
  {
    hide LinkIdentity, Upserted, Touched;
  }

  lemma IdentifyCounts(s: Site, e: Event, snap: RowMap, view: RowMap, slot: Slot, base: seq<Event>)
    requires PlainIn(view, slot) == Expected(s, slot, Group(s, base, slot.key))
    ensures PlainIn(view + Writes(s, e, 0, snap, view), slot)
            == Expected(s, slot, Group(s, if slot.table == Identities then base + [e] else base, slot.key))
  {
    hide LinkIdentity, VisitorTallyOf, SessionTallyOf, DayTallyOf, SpanOf, Total, Latest, Group;
    OneSlotPerTable(s, slot, e);
    if slot.table == Identities {
      if CountedIn(s, slot, e) {
        GroupAppend(s, base, e, slot.key);
        LatestUserAppended(Group(s, base, slot.key), e);
      } else {
        ExpectedIgnoresOne(s, slot, base, e);
      }
    }
  }

  lemma UpsertStageCounts(s: Site, e: Event, k: nat, snap: RowMap, view: RowMap, slot: Slot, base: seq<Event>)
    requires k == 5 || 7 <= k < STAGES
    requires PlainIn(view, slot) == Expected(s, slot, Group(s, base, slot.key))
    ensures PlainIn(view + Writes(s, e, k, snap, view), slot)
            == Expected(s, slot, Group(s, if slot.table == TableOf(k) then base + [e] else base, slot.key))
  {
    hide Upserted, Expected, Group, Plain;
    OneSlotPerTable(s, slot, e);
    if slot.table == TableOf(k) {
      if CountedIn(s, slot, e) {
        UpsertCounts(s, slot.table, RowIn(view, slot), e, UserIn(IdentityAt(snap, e)), CanonicalIn(view, e),
                     Group(s, base, slot.key));
        GroupAppend(s, base, e, slot.key);
      } else {
        ExpectedIgnoresOne(s, slot, base, e);
      }
    }
  }

  /** Whatever its snapshot, a statement counts the event in its own table and nowhere else. */
  lemma StageCounts(s: Site, e: Event, k: nat, snap: RowMap, view: RowMap, base: seq<Event>)
    requires k < STAGES && Counts(s, view, base, e, k)
    ensures Counts(s, view + Writes(s, e, k, snap, view), base, e, k + 1)
  {
    hide Writes, Expected, PlainIn, Group;
    forall slot
      ensures PlainIn(view + Writes(s, e, k, snap, view), slot)
              == Expected(s, slot, Group(s, Extent(base, e, k + 1, slot.table), slot.key))
    {
      var counted := Extent(base, e, k, slot.table);
      if k == 0 {
        IdentifyCounts(s, e, snap, view, slot, counted);
      } else if 1 <= k <= 4 || k == 6 {
        RelinkCounts(s, e, k, snap, view, slot);
      } else {
        UpsertStageCounts(s, e, k, snap, view, slot, counted);
      }
    }
  }

  /** The statement that counts an event in a table writes the row that counts it. */
  lemma WritesCounted(s: Site, e: Event, snap: RowMap, latest: RowMap, slot: Slot)
    requires CountedIn(s, slot, e)
    ensures slot in Writes(s, e, StageOf(slot.table), snap, latest)
  {
    hide LinkIdentity, Upserted;
    OneSlotPerTable(s, slot, e);
  }

  // ---- Rows and tables ----------------------------------------------------------------------------------

  /** The row a set of tables holds in one place. */
  function RowOf(t: Tables, slot: Slot): Option<Row> {
    match slot.table
    case Visitors => (match At(t.visitors, slot.key) case None => None case Some(v) => Some(VisitorCell(v)))
    case Identities => (match At(t.identities, slot.key) case None => None case Some(i) => Some(IdentityCell(i)))
    case VisitorSessions =>
      (match At(t.visitorSessions, slot.key) case None => None case Some(v) => Some(VisitorSessionCell(v)))
    case Sessions => (match At(t.sessions, slot.key) case None => None case Some(v) => Some(SessionCell(v)))
    case Days => (match At(t.days, slot.key) case None => None case Some(v) => Some(DayCell(v)))
    case DayVisitors => (match At(t.dayVisitors, slot.key) case None => None case Some(v) => Some(VisitorCell(v)))
    case DaySessions => (match At(t.daySessions, slot.key) case None => None case Some(v) => Some(DaySessionCell(v)))
  }

  /** The row with its order-sensitive columns and its revenue blanked. */
  function Tallied(row: Option<Row>): Option<Row> {
    match row
    case None => None
    case Some(DayCell(d)) => Some(DayCell(d.(revenue := 0)))
    case Some(r) => Some(Plain(r))
  }

  lemma VisitorRebuilt(s: Site, raw: seq<Event>, k: Key)
    ensures Tallied(Expected(s, Slot(Visitors, k), Group(s, raw, k)))
            == Tallied(match At(RebuildVisitors(s, raw), k) case None => None case Some(r) => Some(VisitorCell(r)))
  {
    hide Group, VisitorTallyOf, SessionTallyOf, SpanOf, Total, Latest, LatestUserProps, KeysIn, IdentityOf, JourneyOf,
         EarliestVisitor, RebuildVisitors, RebuildIdentities, RebuildVisitorSessions, RebuildSessions, RebuildDays,
         RebuildDayVisitors, RebuildDaySessions, DayTallyOf, Count;
  }

  lemma NobodyNamed()
    ensures Latest([], UserOf).None?
  {
  }

  lemma IdentityRebuilt(s: Site, raw: seq<Event>, k: Key)
    ensures Tallied(Expected(s, Slot(Identities, k), Group(s, raw, k)))
            == Tallied(match At(RebuildIdentities(s, raw), k) case None => None case Some(r) => Some(IdentityCell(r)))
  {
    hide Group, VisitorTallyOf, SessionTallyOf, SpanOf, Total, Latest, LatestUserProps, KeysIn, IdentityOf, JourneyOf,
         EarliestVisitor, RebuildVisitors, RebuildIdentities, RebuildVisitorSessions, RebuildSessions, RebuildDays,
         RebuildDayVisitors, RebuildDaySessions, DayTallyOf, Count;
    NobodyNamed();
  }

  lemma VisitorSessionRebuilt(s: Site, raw: seq<Event>, k: Key)
    ensures Tallied(Expected(s, Slot(VisitorSessions, k), Group(s, raw, k)))
            == Tallied(match At(RebuildVisitorSessions(s, raw), k) case None => None
                       case Some(r) => Some(VisitorSessionCell(r)))
  {
    hide Group, VisitorTallyOf, SessionTallyOf, SpanOf, Total, Latest, LatestUserProps, KeysIn, IdentityOf, JourneyOf,
         EarliestVisitor, RebuildVisitors, RebuildIdentities, RebuildVisitorSessions, RebuildSessions, RebuildDays,
         RebuildDayVisitors, RebuildDaySessions, DayTallyOf, Count;
  }

  lemma SessionRebuilt(s: Site, raw: seq<Event>, k: Key)
    ensures Tallied(Expected(s, Slot(Sessions, k), Group(s, raw, k)))
            == Tallied(match At(RebuildSessions(s, raw), k) case None => None case Some(r) => Some(SessionCell(r)))
  {
    hide Group, VisitorTallyOf, SessionTallyOf, SpanOf, Total, Latest, LatestUserProps, KeysIn, IdentityOf, JourneyOf,
         EarliestVisitor, RebuildVisitors, RebuildIdentities, RebuildVisitorSessions, RebuildSessions, RebuildDays,
         RebuildDayVisitors, RebuildDaySessions, DayTallyOf, Count;
  }

  lemma DayRebuilt(s: Site, raw: seq<Event>, k: Key)
    ensures Tallied(Expected(s, Slot(Days, k), Group(s, raw, k)))
            == Tallied(match At(RebuildDays(s, raw), k) case None => None case Some(r) => Some(DayCell(r)))
  {
    hide Group, VisitorTallyOf, SessionTallyOf, SpanOf, Total, Latest, LatestUserProps, KeysIn, IdentityOf, JourneyOf,
         EarliestVisitor, RebuildVisitors, RebuildIdentities, RebuildVisitorSessions, RebuildSessions, RebuildDays,
         RebuildDayVisitors, RebuildDaySessions, Count;
  }

  lemma DayVisitorRebuilt(s: Site, raw: seq<Event>, k: Key)
    ensures Tallied(Expected(s, Slot(DayVisitors, k), Group(s, raw, k)))
            == Tallied(match At(RebuildDayVisitors(s, raw), k) case None => None case Some(r) => Some(VisitorCell(r)))
  {
    hide Group, VisitorTallyOf, SessionTallyOf, SpanOf, Total, Latest, LatestUserProps, KeysIn, IdentityOf, JourneyOf,
         EarliestVisitor, RebuildVisitors, RebuildIdentities, RebuildVisitorSessions, RebuildSessions, RebuildDays,
         RebuildDayVisitors, RebuildDaySessions, DayTallyOf, Count;
  }

  lemma DaySessionRebuilt(s: Site, raw: seq<Event>, k: Key)
    ensures Tallied(Expected(s, Slot(DaySessions, k), Group(s, raw, k)))
            == Tallied(match At(RebuildDaySessions(s, raw), k) case None => None
                       case Some(r) => Some(DaySessionCell(r)))
  {
    hide Group, VisitorTallyOf, SessionTallyOf, SpanOf, Total, Latest, LatestUserProps, KeysIn, IdentityOf, JourneyOf,
         EarliestVisitor, RebuildVisitors, RebuildIdentities, RebuildVisitorSessions, RebuildSessions, RebuildDays,
         RebuildDayVisitors, RebuildDaySessions, DayTallyOf, Count;
  }

  lemma ExpectedIsRebuilt(s: Site, raw: seq<Event>, slot: Slot)
    ensures Tallied(Expected(s, slot, Group(s, raw, slot.key))) == Tallied(RowOf(Rebuild(s, raw), slot))
  {
    hide Expected, Tallied, Group, At, RebuildVisitors, RebuildIdentities, RebuildVisitorSessions, RebuildSessions,
         RebuildDays, RebuildDayVisitors, RebuildDaySessions;
    var k := slot.key;
    match slot.table
    case Visitors => VisitorRebuilt(s, raw, k);
    case Identities => IdentityRebuilt(s, raw, k);
    case VisitorSessions => VisitorSessionRebuilt(s, raw, k);
    case Sessions => SessionRebuilt(s, raw, k);
    case Days => DayRebuilt(s, raw, k);
    case DayVisitors => DayVisitorRebuilt(s, raw, k);
    case DaySessions => DaySessionRebuilt(s, raw, k);
  }

  /** Rows that count the raw events agree with the rebuild on every column that cannot depend on order. */
  lemma CountsAgreeWithRebuild(s: Site, rows: RowMap, raw: seq<Event>, slot: Slot)
    requires CountsAll(s, rows, raw)
    ensures Tallied(RowIn(rows, slot)) == Tallied(RowOf(Rebuild(s, raw), slot))
  {
    hide Expected, Rebuild, RowOf, Group;
    ExpectedIsRebuilt(s, raw, slot);
    assert PlainIn(rows, slot) == Expected(s, slot, Group(s, raw, slot.key));
    assert Tallied(RowIn(rows, slot)) == Tallied(PlainIn(rows, slot));
  }
}
