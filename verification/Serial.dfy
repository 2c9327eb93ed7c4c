/**
 When the workers' interleaved statements leave what a serial run leaves: in every column,
 exactly when no two open transactions may hold events of one visitor.
 */
module Serial {
  import opened Wrappers
  import opened Events
  import opened Derived
  import opened Folds
  import opened Agreement
  import opened Inbox
  import opened Rows
  import opened Isolation
  import W = Workers

  // ---- Statements one after another -----------------------------------------------------------------

  datatype Op = Op(e: Event, stage: nat)

  /** Statements with nothing in between: each reads and updates what the ones before left. */
  function RunOps(s: Site, rows: RowMap, ops: seq<Op>): RowMap {
    if ops == [] then rows
    else
      var r, op := RunOps(s, rows, ops[..|ops| - 1]), ops[|ops| - 1];
      r + Writes(s, op.e, op.stage, r, r)
  }

  function Written(s: Site, rows: RowMap, ops: seq<Op>): set<Slot> {
    if ops == [] then {}
    else
      var r, op := RunOps(s, rows, ops[..|ops| - 1]), ops[|ops| - 1];
      Written(s, rows, ops[..|ops| - 1]) + Writes(s, op.e, op.stage, r, r).Keys
  }

  /** The first k statements of an event. */
  function Stages(e: Event, k: nat): (r: seq<Op>)
    ensures |r| == k && forall i :: 0 <= i < k ==> r[i] == Op(e, i)
  {
    seq(k, i requires 0 <= i < k => Op(e, i))
  }

  function OpsOf(events: seq<Event>): seq<Op> {
    if events == [] then [] else OpsOf(events[..|events| - 1]) + Stages(events[|events| - 1], STAGES)
  }

  lemma RunOpsOne(s: Site, rows: RowMap, ops: seq<Op>, op: Op)
    ensures var r := RunOps(s, rows, ops);
            && RunOps(s, rows, ops + [op]) == r + Writes(s, op.e, op.stage, r, r)
            && Written(s, rows, ops + [op]) == Written(s, rows, ops) + Writes(s, op.e, op.stage, r, r).Keys
  {
    hide Writes;
    assert (ops + [op])[..|ops|] == ops;
  }

  lemma {:induction false} RunOpsConcat(s: Site, rows: RowMap, a: seq<Op>, b: seq<Op>)
    ensures RunOps(s, rows, a + b) == RunOps(s, RunOps(s, rows, a), b)
  {
    hide Writes;
    if b == [] {
      assert a + b == a;
    } else {
      var init, op := b[..|b| - 1], b[|b| - 1];
      RunOpsConcat(s, rows, a, init);
      assert a + b == (a + init) + [op];
      RunOpsOne(s, rows, a + init, op);
    }
  }

  // ---- Rows of other visitors do not matter -------------------------------------------------------------

  ghost predicate ForeignTo(theirs: RowMap, e: Event) {
    forall slot :: slot in theirs ==> !Concerns(slot, theirs[slot], e.site, e.visitor)
  }

  /** A statement writes the same whether or not rows of other visitors, which it does not write, are there. */
  lemma WritesLocal(s: Site, e: Event, k: nat, rows: RowMap, theirs: RowMap)
    requires k < STAGES && ForeignTo(theirs, e)
    requires Writes(s, e, k, rows, rows).Keys !! theirs.Keys
    ensures Writes(s, e, k, rows + theirs, rows + theirs) == Writes(s, e, k, rows, rows)
  {
    hide LinkIdentity, Upserted, Touched;
    var all := rows + theirs;
    ReadsLocal(e, rows, theirs);
    if 1 <= k <= 4 && e.user.Some? {
      assert Writes(s, e, k, rows, rows).Keys == Found(rows, e, k);
      assert Found(all, e, k) == Found(rows, e, k);
    } else if k == 5 || k >= 7 {
      var slot := SlotFor(s, TableOf(k), e);
      assert slot in Writes(s, e, k, rows, rows).Keys;
      assert RowIn(all, slot) == RowIn(rows, slot);
    }
  }

  lemma ReadsLocal(e: Event, rows: RowMap, theirs: RowMap)
    requires ForeignTo(theirs, e)
    ensures IdentityAt(rows + theirs, e) == IdentityAt(rows, e)
    ensures VisitorAt(rows + theirs, e) == VisitorAt(rows, e)
  {
  }

  lemma Swapped(r: RowMap, w: RowMap, theirs: RowMap)
    requires w.Keys !! theirs.Keys
    ensures (r + theirs) + w == (r + w) + theirs
  {
  }

  lemma {:induction false} RunLocal(s: Site, rows: RowMap, theirs: RowMap, ops: seq<Op>)
    requires forall i :: 0 <= i < |ops| ==> ops[i].stage < STAGES && ForeignTo(theirs, ops[i].e)
    requires Written(s, rows, ops) !! theirs.Keys
    ensures RunOps(s, rows + theirs, ops) == RunOps(s, rows, ops) + theirs
    ensures Written(s, rows + theirs, ops) == Written(s, rows, ops)
  {
    hide Writes, ForeignTo;
    if ops != [] {
      var init, op := ops[..|ops| - 1], ops[|ops| - 1];
      RunLocal(s, rows, theirs, init);
      var r := RunOps(s, rows, init);
      WritesLocal(s, op.e, op.stage, r, theirs);
      Swapped(r, Writes(s, op.e, op.stage, r, r), theirs);
    }
  }

  // ---- A snapshot that is still good -----------------------------------------------------------------------

  /** Nothing a statement of the event reads has changed since the snapshot, and no row it looks for has appeared. */
  ghost predicate Fresh(snap: RowMap, view: RowMap, e: Event) {
    && IdentityAt(snap, e) == IdentityAt(view, e) && VisitorAt(snap, e) == VisitorAt(view, e)
    && (forall slot :: slot in view && Concerns(slot, view[slot], e.site, e.visitor) ==>
          slot in snap && Concerns(slot, snap[slot], e.site, e.visitor))
  }

  lemma FreshWrites(s: Site, e: Event, k: nat, snap: RowMap, view: RowMap)
    requires Fresh(snap, view, e)
    ensures Writes(s, e, k, snap, view) == Writes(s, e, k, view, view)
  {
    hide LinkIdentity, Upserted, Touched;
    if 1 <= k <= 4 && e.user.Some? {
      assert Writes(s, e, k, snap, view).Keys == Found(view, e, k) == Writes(s, e, k, view, view).Keys;
    }
  }

  /** What a statement writes belongs to its event's visitor, or to no visitor. */
  lemma WritesOwn(s: Site, e: Event, k: nat, snap: RowMap, latest: RowMap, slot: Slot, site: string, visitor: string)
    requires slot in Writes(s, e, k, snap, latest) && Concerns(slot, Writes(s, e, k, snap, latest)[slot], site, visitor)
    ensures site == e.site && visitor == e.visitor
  {
    hide LinkIdentity, Touched, Visit, VisitSession, VisitVisitorSession, VisitDay;
  }

  // ---- The invariant of a run that keeps visitors apart --------------------------------------------------------

  function OpsAt(t: W.Txn, p: Progress): seq<Op> {
    match p
    case Idle => OpsOf(W.Pending(t))
    case _ => OpsOf(Init(W.Pending(t))) + Stages(p.e, p.stage)
  }

  /** The transaction's rows are what its statements alone leave, and all they wrote is its own. */
  ghost predicate RanAlone(s: Site, rows: RowMap, mine: RowMap, ops: seq<Op>) {
    rows + mine == RunOps(s, rows, ops) && Written(s, rows, ops) <= mine.Keys
  }

  /** A row that belongs to a visitor belongs to one of these events' visitors. */
  ghost predicate Owned(mine: RowMap, events: seq<Event>) {
    forall slot, site, visitor :: slot in mine && Concerns(slot, mine[slot], site, visitor) ==>
      exists i :: 0 <= i < |events| && events[i].site == site && events[i].visitor == visitor
  }

  ghost predicate Alone(s: Site, rows: RowMap, t: W.Txn, l: Local) {
    && ProgressOk(t, l.progress)
    && RanAlone(s, rows, l.mine, OpsAt(t, l.progress)) && Owned(l.mine, W.Pending(t))
    && RanAlone(s, rows, l.saved, OpsOf(SavedEvents(t))) && Owned(l.saved, SavedEvents(t))
    && (l.progress.Reading? ==> Fresh(l.progress.snap, rows + l.mine, l.progress.e))
  }

  /** Every row is the one the tables hold. */
  ghost predicate Represents(rows: RowMap, t: Tables) {
    forall slot: Slot :: RowIn(rows, slot) == RowOf(t, slot)
  }

  ghost predicate SerialInv(s: Site, st: State) {
    && Inv(s, st)
    && Represents(st.rows, FoldAll(s, st.ledger.db.raw))
    && (forall w :: w in st.locals ==> Alone(s, st.rows, st.ledger.txns[w], st.locals[w]))
  }

  predicate SameVisitor(a: Event, b: Event) {
    a.site == b.site && a.visitor == b.visitor
  }

  /** Two open transactions hold events of one visitor only where the policy lets them. */
  ghost predicate Within(share: (string, string) -> bool, st: State) {
    forall v, w, i, j ::
      v in st.ledger.txns && w in st.ledger.txns && v != w
      && 0 <= i < |W.Pending(st.ledger.txns[v])| && 0 <= j < |W.Pending(st.ledger.txns[w])|
      && SameVisitor(W.Pending(st.ledger.txns[v])[i], W.Pending(st.ledger.txns[w])[j]) ==>
        share(W.Pending(st.ledger.txns[v])[i].site, W.Pending(st.ledger.txns[v])[i].visitor)
  }

  // ---- Own steps ----------------------------------------------------------------------------------------------------

  lemma StagesNext(e: Event, k: nat)
    ensures Stages(e, k + 1) == Stages(e, k) + [Op(e, k)]
  {
  }

  lemma OpsNext(t: W.Txn, p: Progress)
    requires p.Reading? && ProgressOk(t, p)
    ensures OpsAt(t, After(p.e, p.stage)) == OpsAt(t, p) + [Op(p.e, p.stage)]
  {
    StagesNext(p.e, p.stage);
    var a, b := OpsOf(Init(W.Pending(t))), Stages(p.e, p.stage);
    assert a + (b + [Op(p.e, p.stage)]) == (a + b) + [Op(p.e, p.stage)];
  }

  lemma WroteAlone(s: Site, rows: RowMap, t: W.Txn, l: Local)
    requires Alone(s, rows, t, l) && l.progress.Reading?
    ensures Alone(s, rows, t, Wrote(s, rows, l))
  {
    hide Writes, Fresh, RunOps, Written, Concerns;
    var p, l' := l.progress, Wrote(s, rows, l);
    var view := rows + l.mine;
    var ops := OpsAt(t, p);
    FreshWrites(s, p.e, p.stage, p.snap, view);
    RunOpsOne(s, rows, ops, Op(p.e, p.stage));
    OpsNext(t, p);
    var w := Writes(s, p.e, p.stage, p.snap, view);
    assert rows + l'.mine == view + w;
    forall slot, site, visitor | slot in l'.mine && Concerns(slot, l'.mine[slot], site, visitor)
      ensures exists i :: 0 <= i < |W.Pending(t)| && W.Pending(t)[i].site == site && W.Pending(t)[i].visitor == visitor
    {
      if slot in w {
        WritesOwn(s, p.e, p.stage, p.snap, view, slot, site, visitor);
        assert W.Pending(t)[|W.Pending(t)| - 1] == p.e;
      } else {
        assert slot in l.mine;
      }
    }
  }

  lemma ReadAlone(s: Site, rows: RowMap, t: W.Txn, l: Local)
    requires Alone(s, rows, t, l) && l.progress.Due?
    ensures Alone(s, rows, t, l.(progress := Reading(l.progress.e, l.progress.stage, rows + l.mine)))
  {
    hide RanAlone, Owned;
  }

  lemma OwnedMore(mine: RowMap, events: seq<Event>, e: Event)
    requires Owned(mine, events)
    ensures Owned(mine, events + [e])
  {
    hide Concerns;
    forall slot, site, visitor | slot in mine && Concerns(slot, mine[slot], site, visitor)
      ensures exists i ::
                && 0 <= i < |events + [e]|
                && (events + [e])[i].site == site && (events + [e])[i].visitor == visitor
    {
      var i :| 0 <= i < |events| && events[i].site == site && events[i].visitor == visitor;
      assert (events + [e])[i] == events[i];
    }
  }

  /** Before the first statement of an event only the events before it have run. */
  lemma OpsAtInsert(t: W.Txn, t': W.Txn, e: Event)
    requires W.Pending(t') == W.Pending(t) + [e]
    ensures OpsAt(t', Due(e, 0)) == OpsAt(t, Idle)
  {
    assert Init(W.Pending(t')) == W.Pending(t);
    assert OpsOf(W.Pending(t)) + Stages(e, 0) == OpsOf(W.Pending(t));
  }

  lemma InsertedAlone(s: Site, rows: RowMap, t: W.Txn, l: Local, entry: W.Entry)
    requires Alone(s, rows, t, l) && l.progress.Idle?
    ensures var now := if entry.accepted then l.(progress := Due(entry.e, 0)) else l;
            Alone(s, rows, t.(current := t.current + [entry]), now)
  {
    hide RanAlone, Owned, OpsAt, OpsOf;
    var t' := t.(current := t.current + [entry]);
    PendingInserted(t, entry);
    if entry.accepted {
      OwnedMore(l.mine, W.Pending(t), entry.e);
      OpsAtInsert(t, t', entry.e);
    } else {
      assert W.Pending(t) + [] == W.Pending(t);
      IdleOps(t, t');
    }
  }

  lemma IdleOps(t: W.Txn, t': W.Txn)
    requires W.Pending(t) == W.Pending(t')
    ensures OpsAt(t, Idle) == OpsAt(t', Idle)
  {
  }

  lemma FinishedAlone(s: Site, rows: RowMap, t: W.Txn, l: Local)
    requires Alone(s, rows, t, l) && l.progress.Idle?
    ensures Alone(s, rows, W.Txn(t.claims, t.outcomes + [W.Processed(t.current)], []), l.(saved := l.mine))
  {
    hide RanAlone, Owned;
    PendingFinished(t);
  }

  lemma RolledBackAlone(s: Site, rows: RowMap, t: W.Txn, l: Local)
    requires Alone(s, rows, t, l)
    ensures Alone(s, rows, W.Txn(t.claims, t.outcomes + [W.Failed], []), Local(l.saved, l.saved, Idle))
  {
    hide RanAlone, Owned;
    PendingRolledBack(t);
  }

  lemma BegunAlone(s: Site, rows: RowMap, claims: seq<W.Claim>)
    ensures Alone(s, rows, W.Txn(claims, [], []), Local(map[], map[], Idle))
  {
    assert W.Log([]) + [] == [];
    assert rows + map[] == rows;
  }

  // ---- Another transaction's commit -------------------------------------------------------------

  ghost predicate ForeignToAll(theirs: RowMap, events: seq<Event>) {
    forall i :: 0 <= i < |events| ==> ForeignTo(theirs, events[i])
  }

  lemma {:induction false} OpsForeign(theirs: RowMap, events: seq<Event>)
    requires ForeignToAll(theirs, events)
    ensures forall i :: 0 <= i < |OpsOf(events)| ==>
              OpsOf(events)[i].stage < STAGES && ForeignTo(theirs, OpsOf(events)[i].e)
  {
    hide ForeignTo;
    if events != [] {
      var init := events[..|events| - 1];
      assert forall i :: 0 <= i < |init| ==> init[i] == events[i];
      OpsForeign(theirs, init);
    }
  }

  lemma RanAloneStands(s: Site, rows: RowMap, mine: RowMap, ops: seq<Op>, theirs: RowMap)
    requires RanAlone(s, rows, mine, ops) && mine.Keys !! theirs.Keys
    requires forall i :: 0 <= i < |ops| ==> ops[i].stage < STAGES && ForeignTo(theirs, ops[i].e)
    ensures RanAlone(s, rows + theirs, mine, ops)
  {
    hide ForeignTo, RunOps, Written;
    RunLocal(s, rows, theirs, ops);
    assert (rows + theirs) + mine == (rows + mine) + theirs;
  }

  lemma FreshStands(snap: RowMap, rows: RowMap, mine: RowMap, e: Event, theirs: RowMap)
    requires Fresh(snap, rows + mine, e) && mine.Keys !! theirs.Keys && ForeignTo(theirs, e)
    ensures Fresh(snap, (rows + theirs) + mine, e)
  {
    assert (rows + theirs) + mine == (rows + mine) + theirs;
    ReadsLocal(e, rows + mine, theirs);
  }

  lemma AloneStands(s: Site, rows: RowMap, t: W.Txn, l: Local, theirs: RowMap)
    requires Alone(s, rows, t, l) && l.mine.Keys !! theirs.Keys && l.saved.Keys <= l.mine.Keys
    requires ForeignToAll(theirs, W.Pending(t)) && ForeignToAll(theirs, SavedEvents(t))
    ensures Alone(s, rows + theirs, t, l)
  {
    hide ForeignTo, RanAlone, Owned, Fresh;
    OpsForeign(theirs, W.Pending(t));
    OpsForeign(theirs, SavedEvents(t));
    if !l.progress.Idle? {
      var init := Init(W.Pending(t));
      assert forall i :: 0 <= i < |init| ==> init[i] == W.Pending(t)[i];
      assert ForeignTo(theirs, W.Pending(t)[|W.Pending(t)| - 1]);
      OpsForeign(theirs, init);
    }
    RanAloneStands(s, rows, l.mine, OpsAt(t, l.progress), theirs);
    RanAloneStands(s, rows, l.saved, OpsOf(SavedEvents(t)), theirs);
    if l.progress.Reading? {
      FreshStands(l.progress.snap, rows, l.mine, l.progress.e, theirs);
    }
  }

  // ---- The statements of an event are one step of the fold --------------------------------------

  // What statement k does to each whole table when nothing runs beside it.

  function LinkIn(t: Tables, e: Event): Option<string> {
    UserIn(At(t.identities, VisitorOf(e)))
  }

  function ReturnedIn(t: Tables, e: Event): Option<string> {
    match At(t.visitors, VisitorOf(e)) case Some(v) => v.user case None => None
  }

  function StageVisitors(t: Tables, e: Event, k: nat): map<Key, VisitorRow> {
    if k == 1 then RelinkVisits(t.visitors, e, LinkIn(t, e))
    else if k == 5 then
      t.visitors[VisitorOf(e) := Visit(At(t.visitors, VisitorOf(e)), e, Coalesce(LinkIn(t, e), e.user))]
    else t.visitors
  }

  function StageIdentities(t: Tables, e: Event, k: nat): map<Key, Identity> {
    var now := if k == 0 then (if e.user.Some? then LinkedIdentity(t, e) else None)
               else if k == 6 && ReturnedIn(t, e).Some? then Touched(At(t.identities, VisitorOf(e)), e.ts)
               else None;
    match now case None => t.identities case Some(i) => t.identities[VisitorOf(e) := i]
  }

  function StageVisitorSessions(t: Tables, e: Event, k: nat): map<Key, VisitorSessionRow> {
    var key := VisitorSessionOf(e);
    if k == 2 then RelinkVisitorSessions(t.visitorSessions, e, LinkIn(t, e))
    else if k == 8 then
      t.visitorSessions[key := VisitVisitorSession(At(t.visitorSessions, key), e, ReturnedIn(t, e))]
    else t.visitorSessions
  }

  function StageSessions(s: Site, t: Tables, e: Event, k: nat): map<Key, SessionRow> {
    if k == 7 then FoldSessions(t.sessions, e, ReturnedIn(t, e), s.threshold(e.site)) else t.sessions
  }

  function StageDays(s: Site, t: Tables, e: Event, k: nat): map<Key, DayTally> {
    if k == 9 then FoldDays(t.days, DayOf(s, e), e) else t.days
  }

  function StageDayVisitors(s: Site, t: Tables, e: Event, k: nat): map<Key, VisitorRow> {
    if k == 3 then RelinkVisits(t.dayVisitors, e, LinkIn(t, e))
    else if k == 10 then
      t.dayVisitors[DayVisitorOf(s, e) := Visit(At(t.dayVisitors, DayVisitorOf(s, e)), e, ReturnedIn(t, e))]
    else t.dayVisitors
  }

  function StageDaySessions(s: Site, t: Tables, e: Event, k: nat): map<Key, DaySessionRow> {
    if k == 4 then RelinkDaySessions(t.daySessions, e, LinkIn(t, e))
    else if k == 11 then
      t.daySessions[DaySessionOf(s, e) := VisitDaySession(At(t.daySessions, DaySessionOf(s, e)), e, ReturnedIn(t, e))]
    else t.daySessions
  }

  function StageTables(s: Site, t: Tables, e: Event, k: nat): Tables {
    Tables(StageVisitors(t, e, k), StageIdentities(t, e, k), StageVisitorSessions(t, e, k), StageSessions(s, t, e, k),
           StageDays(s, t, e, k), StageDayVisitors(s, t, e, k), StageDaySessions(s, t, e, k))
  }

  /** Every key stands in the table of its kind. */
  ghost predicate Keyed(t: Tables) {
    && (forall k :: k in t.visitors ==> k.VisitorKey?) && (forall k :: k in t.dayVisitors ==> k.DayVisitorKey?)
    && (forall k :: k in t.visitorSessions ==> k.VisitorSessionKey?)
  }

  lemma ReadsRepresented(rows: RowMap, t: Tables, e: Event)
    requires Represents(rows, t)
    ensures IdentityAt(rows, e) == At(t.identities, VisitorOf(e)) && VisitorAt(rows, e) == At(t.visitors, VisitorOf(e))
  {
    assert RowIn(rows, Slot(Identities, VisitorOf(e))) == RowOf(t, Slot(Identities, VisitorOf(e)));
    assert RowIn(rows, Slot(Visitors, VisitorOf(e))) == RowOf(t, Slot(Visitors, VisitorOf(e)));
  }

  /** A statement leaves the other tables alone. */
  lemma OtherTables(s: Site, rows: RowMap, t: Tables, e: Event, k: nat, slot: Slot)
    requires k < STAGES && slot.table != TableOf(k)
    ensures RowIn(rows + Writes(s, e, k, rows, rows), slot) == RowIn(rows, slot)
    ensures RowOf(StageTables(s, t, e, k), slot) == RowOf(t, slot)
  {
    hide IdentifyWrites, RelinkWrites, TouchWrites, UpsertWrites, At, RelinkVisits, RelinkVisitorSessions,
         RelinkDaySessions, Visit, VisitVisitorSession, FoldSessions, FoldDays, VisitDaySession, LinkedIdentity, LinkIn,
         ReturnedIn;
    WritesOneTable(s, e, k, rows);
  }

  lemma WritesOneTable(s: Site, e: Event, k: nat, rows: RowMap)
    requires k < STAGES
    ensures forall slot :: slot in Writes(s, e, k, rows, rows) ==> slot.table == TableOf(k)
  {
    hide LinkIdentity, Upserted, Touched;
  }

  lemma IdentifyRepresents(s: Site, rows: RowMap, t: Tables, e: Event, slot: Slot)
    requires Represents(rows, t) && slot.table == Identities
    ensures RowIn(rows + Writes(s, e, 0, rows, rows), slot) == RowOf(StageTables(s, t, e, 0), slot)
  {
    hide StageVisitors, StageVisitorSessions, StageSessions, StageDays, StageDayVisitors, StageDaySessions;
    hide LinkIdentity;
    ReadsRepresented(rows, t, e);
    assert RowIn(rows, slot) == RowOf(t, slot);
  }

  lemma VisitorsRelinked(s: Site, rows: RowMap, t: Tables, e: Event, slot: Slot)
    requires Represents(rows, t) && Keyed(t) && slot.table == Visitors
    ensures RowIn(rows + RelinkWrites(e, 1, rows, rows), slot) == RowOf(StageTables(s, t, e, 1), slot)
  {
    hide StageIdentities, StageVisitorSessions, StageSessions, StageDays, StageDayVisitors, StageDaySessions;
    hide Represents, Visit, VisitVisitorSession, VisitDaySession, FoldSessions, FoldDays, LinkedIdentity, Touched,
         RelinkVisitorSessions, RelinkDaySessions;
    ReadsRepresented(rows, t, e);
    SlotRepresented(rows, t, slot);
  }

  lemma VisitorSessionsRelinked(s: Site, rows: RowMap, t: Tables, e: Event, slot: Slot)
    requires Represents(rows, t) && Keyed(t) && slot.table == VisitorSessions
    ensures RowIn(rows + RelinkWrites(e, 2, rows, rows), slot) == RowOf(StageTables(s, t, e, 2), slot)
  {
    hide StageVisitors, StageIdentities, StageSessions, StageDays, StageDayVisitors, StageDaySessions;
    hide Represents, Visit, VisitVisitorSession, VisitDaySession, FoldSessions, FoldDays, LinkedIdentity, Touched,
         RelinkVisits, RelinkDaySessions;
    ReadsRepresented(rows, t, e);
    SlotRepresented(rows, t, slot);
  }

  lemma DayVisitorsRelinked(s: Site, rows: RowMap, t: Tables, e: Event, slot: Slot)
    requires Represents(rows, t) && Keyed(t) && slot.table == DayVisitors
    ensures RowIn(rows + RelinkWrites(e, 3, rows, rows), slot) == RowOf(StageTables(s, t, e, 3), slot)
  {
    hide StageVisitors, StageIdentities, StageVisitorSessions, StageSessions, StageDays, StageDaySessions;
    hide Represents, Visit, VisitVisitorSession, VisitDaySession, FoldSessions, FoldDays, LinkedIdentity, Touched,
         RelinkVisitorSessions, RelinkDaySessions;
    ReadsRepresented(rows, t, e);
    SlotRepresented(rows, t, slot);
  }

  lemma DaySessionsRelinked(s: Site, rows: RowMap, t: Tables, e: Event, slot: Slot)
    requires Represents(rows, t) && Keyed(t) && slot.table == DaySessions
    ensures RowIn(rows + RelinkWrites(e, 4, rows, rows), slot) == RowOf(StageTables(s, t, e, 4), slot)
  {
    hide StageVisitors, StageIdentities, StageVisitorSessions, StageSessions, StageDays, StageDayVisitors;
    hide Represents, Visit, VisitVisitorSession, VisitDaySession, FoldSessions, FoldDays, LinkedIdentity, Touched,
         RelinkVisits, RelinkVisitorSessions;
    ReadsRepresented(rows, t, e);
    SlotRepresented(rows, t, slot);
  }

  lemma RelinkRepresents(s: Site, rows: RowMap, t: Tables, e: Event, k: nat, slot: Slot)
    requires Represents(rows, t) && Keyed(t) && 1 <= k <= 4 && slot.table == TableOf(k)
    ensures RowIn(rows + Writes(s, e, k, rows, rows), slot) == RowOf(StageTables(s, t, e, k), slot)
  {
    hide Represents, RelinkWrites, StageTables, RowOf, Keyed;
    if k == 1 {
      VisitorsRelinked(s, rows, t, e, slot);
    } else if k == 2 {
      VisitorSessionsRelinked(s, rows, t, e, slot);
    } else if k == 3 {
      DayVisitorsRelinked(s, rows, t, e, slot);
    } else {
      DaySessionsRelinked(s, rows, t, e, slot);
    }
  }

  lemma TouchRepresents(s: Site, rows: RowMap, t: Tables, e: Event, slot: Slot)
    requires Represents(rows, t) && slot.table == Identities
    ensures RowIn(rows + Writes(s, e, 6, rows, rows), slot) == RowOf(StageTables(s, t, e, 6), slot)
  {
    hide StageVisitors, StageVisitorSessions, StageSessions, StageDays, StageDayVisitors, StageDaySessions;
    ReadsRepresented(rows, t, e);
    assert RowIn(rows, slot) == RowOf(t, slot);
  }

  lemma VisitorUpsert(s: Site, rows: RowMap, t: Tables, e: Event, slot: Slot)
    requires Represents(rows, t) && slot.table == Visitors
    ensures RowIn(rows + UpsertWrites(s, e, Visitors, rows, rows), slot) == RowOf(StageTables(s, t, e, 5), slot)
  {
    hide StageIdentities, StageVisitorSessions, StageSessions, StageDays, StageDayVisitors, StageDaySessions;
    hide Visit, VisitSession, VisitVisitorSession, VisitDay, VisitDaySession, Represents, RelinkVisits,
         RelinkVisitorSessions, RelinkDaySessions, LinkedIdentity, Touched;
    ReadsRepresented(rows, t, e);
    SlotRepresented(rows, t, slot);
    SlotRepresented(rows, t, SlotFor(s, Visitors, e));
  }

  lemma SessionUpsert(s: Site, rows: RowMap, t: Tables, e: Event, slot: Slot)
    requires Represents(rows, t) && slot.table == Sessions
    ensures RowIn(rows + UpsertWrites(s, e, Sessions, rows, rows), slot) == RowOf(StageTables(s, t, e, 7), slot)
  {
    hide StageVisitors, StageIdentities, StageVisitorSessions, StageDays, StageDayVisitors, StageDaySessions;
    hide Visit, VisitSession, VisitVisitorSession, VisitDay, VisitDaySession, Represents, RelinkVisits,
         RelinkVisitorSessions, RelinkDaySessions, LinkedIdentity, Touched;
    ReadsRepresented(rows, t, e);
    SlotRepresented(rows, t, slot);
    SlotRepresented(rows, t, SlotFor(s, Sessions, e));
  }

  lemma VisitorSessionUpsert(s: Site, rows: RowMap, t: Tables, e: Event, slot: Slot)
    requires Represents(rows, t) && slot.table == VisitorSessions
    ensures RowIn(rows + UpsertWrites(s, e, VisitorSessions, rows, rows), slot) == RowOf(StageTables(s, t, e, 8), slot)
  {
    hide StageVisitors, StageIdentities, StageSessions, StageDays, StageDayVisitors, StageDaySessions;
    hide Visit, VisitSession, VisitVisitorSession, VisitDay, VisitDaySession, Represents, RelinkVisits,
         RelinkVisitorSessions, RelinkDaySessions, LinkedIdentity, Touched;
    ReadsRepresented(rows, t, e);
    SlotRepresented(rows, t, slot);
    SlotRepresented(rows, t, SlotFor(s, VisitorSessions, e));
  }

  lemma DayUpsert(s: Site, rows: RowMap, t: Tables, e: Event, slot: Slot)
    requires Represents(rows, t) && slot.table == Days
    ensures RowIn(rows + UpsertWrites(s, e, Days, rows, rows), slot) == RowOf(StageTables(s, t, e, 9), slot)
  {
    hide StageVisitors, StageIdentities, StageVisitorSessions, StageSessions, StageDayVisitors, StageDaySessions;
    hide Visit, VisitSession, VisitVisitorSession, VisitDay, VisitDaySession, Represents, RelinkVisits,
         RelinkVisitorSessions, RelinkDaySessions, LinkedIdentity, Touched;
    ReadsRepresented(rows, t, e);
    SlotRepresented(rows, t, slot);
    SlotRepresented(rows, t, SlotFor(s, Days, e));
  }

  lemma DayVisitorUpsert(s: Site, rows: RowMap, t: Tables, e: Event, slot: Slot)
    requires Represents(rows, t) && slot.table == DayVisitors
    ensures RowIn(rows + UpsertWrites(s, e, DayVisitors, rows, rows), slot) == RowOf(StageTables(s, t, e, 10), slot)
  {
    hide StageVisitors, StageIdentities, StageVisitorSessions, StageSessions, StageDays, StageDaySessions;
    hide Visit, VisitSession, VisitVisitorSession, VisitDay, VisitDaySession, Represents, RelinkVisits,
         RelinkVisitorSessions, RelinkDaySessions, LinkedIdentity, Touched;
    ReadsRepresented(rows, t, e);
    SlotRepresented(rows, t, slot);
    SlotRepresented(rows, t, SlotFor(s, DayVisitors, e));
  }

  lemma DaySessionUpsert(s: Site, rows: RowMap, t: Tables, e: Event, slot: Slot)
    requires Represents(rows, t) && slot.table == DaySessions
    ensures RowIn(rows + UpsertWrites(s, e, DaySessions, rows, rows), slot) == RowOf(StageTables(s, t, e, 11), slot)
  {
    hide StageVisitors, StageIdentities, StageVisitorSessions, StageSessions, StageDays, StageDayVisitors;
    hide Visit, VisitSession, VisitVisitorSession, VisitDay, VisitDaySession, Represents, RelinkVisits,
         RelinkVisitorSessions, RelinkDaySessions, LinkedIdentity, Touched;
    ReadsRepresented(rows, t, e);
    SlotRepresented(rows, t, slot);
    SlotRepresented(rows, t, SlotFor(s, DaySessions, e));
  }

  lemma UpsertRepresents(s: Site, rows: RowMap, t: Tables, e: Event, k: nat, slot: Slot)
    requires Represents(rows, t) && (k == 5 || 7 <= k < STAGES) && slot.table == TableOf(k)
    ensures RowIn(rows + Writes(s, e, k, rows, rows), slot) == RowOf(StageTables(s, t, e, k), slot)
  {
    hide Represents, UpsertWrites, StageTables, RowOf;
    if k == 5 {
      VisitorUpsert(s, rows, t, e, slot);
    } else if k == 7 {
      SessionUpsert(s, rows, t, e, slot);
    } else if k == 8 {
      VisitorSessionUpsert(s, rows, t, e, slot);
    } else if k == 9 {
      DayUpsert(s, rows, t, e, slot);
    } else if k == 10 {
      DayVisitorUpsert(s, rows, t, e, slot);
    } else {
      DaySessionUpsert(s, rows, t, e, slot);
    }
  }

  lemma StageRepresents(s: Site, rows: RowMap, t: Tables, e: Event, k: nat)
    requires Represents(rows, t) && Keyed(t) && k < STAGES
    ensures Represents(rows + Writes(s, e, k, rows, rows), StageTables(s, t, e, k)) && Keyed(StageTables(s, t, e, k))
  {
    hide Represents, Writes, RowOf, StageTables;
    forall slot: Slot
      ensures RowIn(rows + Writes(s, e, k, rows, rows), slot) == RowOf(StageTables(s, t, e, k), slot)
    {
      if slot.table != TableOf(k) {
        OtherTables(s, rows, t, e, k, slot);
        SlotRepresented(rows, t, slot);
      } else if k == 0 {
        IdentifyRepresents(s, rows, t, e, slot);
      } else if k <= 4 {
        RelinkRepresents(s, rows, t, e, k, slot);
      } else if k == 6 {
        TouchRepresents(s, rows, t, e, slot);
      } else {
        UpsertRepresents(s, rows, t, e, k, slot);
      }
    }
    Represented(rows + Writes(s, e, k, rows, rows), StageTables(s, t, e, k));
    StageKeyed(s, t, e, k);
  }

  lemma Represented(rows: RowMap, t: Tables)
    requires forall slot: Slot :: RowIn(rows, slot) == RowOf(t, slot)
    ensures Represents(rows, t)
  {
  }

  lemma SlotRepresented(rows: RowMap, t: Tables, slot: Slot)
    requires Represents(rows, t)
    ensures RowIn(rows, slot) == RowOf(t, slot)
  {
  }

  lemma StageKeys(s: Site, t: Tables, e: Event, k: nat)
    ensures var t' := StageTables(s, t, e, k);
            && t'.visitors.Keys == t.visitors.Keys + (if k == 5 then {VisitorOf(e)} else {})
            && t'.dayVisitors.Keys == t.dayVisitors.Keys + (if k == 10 then {DayVisitorOf(s, e)} else {})
            && t'.visitorSessions.Keys == t.visitorSessions.Keys + (if k == 8 then {VisitorSessionOf(e)} else {})
  {
    hide Visit, VisitVisitorSession, StageSessions, StageDays, StageDaySessions, StageIdentities, RelinkVisits,
         RelinkVisitorSessions,
         LinkIn, ReturnedIn, At;
  }

  lemma StageKeyed(s: Site, t: Tables, e: Event, k: nat)
    requires Keyed(t)
    ensures Keyed(StageTables(s, t, e, k))
  {
    hide StageTables;
    StageKeys(s, t, e, k);
    var t' := StageTables(s, t, e, k);
    assert forall key :: key in t'.visitors <==> key in t'.visitors.Keys;
    assert forall key :: key in t'.dayVisitors <==> key in t'.dayVisitors.Keys;
    assert forall key :: key in t'.visitorSessions <==> key in t'.visitorSessions.Keys;
  }

  function StagesTables(s: Site, t: Tables, e: Event, k: nat): Tables {
    if k == 0 then t else StageTables(s, StagesTables(s, t, e, k - 1), e, k - 1)
  }

  lemma {:induction false} StagesRepresent(s: Site, rows: RowMap, t: Tables, e: Event, k: nat)
    requires Represents(rows, t) && Keyed(t) && k <= STAGES
    ensures Represents(RunOps(s, rows, Stages(e, k)), StagesTables(s, t, e, k)) && Keyed(StagesTables(s, t, e, k))
  {
    hide Represents, Writes, StageTables, Keyed;
    if k > 0 {
      StagesRepresent(s, rows, t, e, k - 1);
      StagesNext(e, k - 1);
      RunOpsOne(s, rows, Stages(e, k - 1), Op(e, k - 1));
      StageRepresents(s, RunOps(s, rows, Stages(e, k - 1)), StagesTables(s, t, e, k - 1), e, k - 1);
    }
  }

  /** After the visitor's statement its row carries the canonical user. */
  lemma CanonicalReturned(t: Tables, e: Event)
    ensures var link := Link(t, e);
            Visit(At(RelinkVisits(t.visitors, e, link), VisitorOf(e)), e, Coalesce(link, e.user)).user
              == Canonical(t, e)
  {
  }

  lemma HalfStages(s: Site, t: Tables, e: Event)
    ensures var link, h := Link(t, e), StagesTables(s, t, e, 6);
            && h.visitors == FoldVisits(t.visitors, VisitorOf(e), e, link, Coalesce(link, e.user))
            && h.identities == StageIdentities(t, e, 0)
            && h.visitorSessions == RelinkVisitorSessions(t.visitorSessions, e, link)
            && h.dayVisitors == RelinkVisits(t.dayVisitors, e, link)
            && h.daySessions == RelinkDaySessions(t.daySessions, e, link)
            && h.sessions == t.sessions && h.days == t.days
  {
    hide RelinkVisits, RelinkVisitorSessions, RelinkDaySessions, Visit, LinkIdentity;
    var t1 := StageTables(s, t, e, 0);
    assert UserIn(At(t1.identities, VisitorOf(e))) == Link(t, e);
    var t2 := StageTables(s, t1, e, 1);
    var t3 := StageTables(s, t2, e, 2);
    var t4 := StageTables(s, t3, e, 3);
    var t5 := StageTables(s, t4, e, 4);
    assert t == StagesTables(s, t, e, 0) && t1 == StagesTables(s, t, e, 1);
    assert t2 == StagesTables(s, t, e, 2) && t3 == StagesTables(s, t, e, 3);
    assert t4 == StagesTables(s, t, e, 4) && t5 == StagesTables(s, t, e, 5);
    assert StagesTables(s, t, e, 6) == StageTables(s, t5, e, 5);
  }

  /** The last six statements, from whatever the first six left. */
  /** The last six statements of an event. */
  function LastTables(s: Site, h: Tables, e: Event): Tables {
    var touched := StageTables(s, h, e, 6);
    var sessions := StageTables(s, touched, e, 7);
    var visitorSessions := StageTables(s, sessions, e, 8);
    var days := StageTables(s, visitorSessions, e, 9);
    var dayVisitors := StageTables(s, days, e, 10);
    StageTables(s, dayVisitors, e, 11)
  }

  lemma LastStages(s: Site, h: Tables, e: Event)
    requires VisitorOf(e) in h.visitors
    ensures var canonical, t := h.visitors[VisitorOf(e)].user, LastTables(s, h, e);
            var inVisitor, inDay, inSession := VisitorSessionOf(e), DayVisitorOf(s, e), DaySessionOf(s, e);
            && t.visitors == h.visitors
            && t.identities == StageIdentities(h, e, 6)
            && t.sessions == FoldSessions(h.sessions, e, canonical, s.threshold(e.site))
            && t.visitorSessions
               == h.visitorSessions[inVisitor := VisitVisitorSession(At(h.visitorSessions, inVisitor), e, canonical)]
            && t.days == FoldDays(h.days, DayOf(s, e), e)
            && t.dayVisitors == h.dayVisitors[inDay := Visit(At(h.dayVisitors, inDay), e, canonical)]
            && t.daySessions
               == h.daySessions[inSession := VisitDaySession(At(h.daySessions, inSession), e, canonical)]
  {
    hide Visit, VisitVisitorSession, VisitDaySession, FoldSessions, FoldDays, Touched, RelinkVisits,
         RelinkVisitorSessions, RelinkDaySessions, LinkedIdentity;
  }

  lemma TailUnrolled(s: Site, t: Tables, e: Event)
    ensures StagesTables(s, t, e, STAGES) == LastTables(s, StagesTables(s, t, e, 6), e)
  {
    hide StageTables;
    assert StagesTables(s, t, e, 7) == StageTables(s, StagesTables(s, t, e, 6), e, 6);
    assert StagesTables(s, t, e, 8) == StageTables(s, StagesTables(s, t, e, 7), e, 7);
    assert StagesTables(s, t, e, 9) == StageTables(s, StagesTables(s, t, e, 8), e, 8);
    assert StagesTables(s, t, e, 10) == StageTables(s, StagesTables(s, t, e, 9), e, 9);
    assert StagesTables(s, t, e, 11) == StageTables(s, StagesTables(s, t, e, 10), e, 10);
    assert StagesTables(s, t, e, 12) == StageTables(s, StagesTables(s, t, e, 11), e, 11);
  }

  /** The identity both halves leave is the fold's. */
  lemma IdentitiesFold(t: Tables, h: Tables, e: Event)
    requires h.identities == StageIdentities(t, e, 0) && ReturnedIn(h, e) == Canonical(t, e)
    ensures StageIdentities(h, e, 6) == FoldIdentities(t, e)
  {
    hide LinkIdentity, Canonical;
    assert e.user.Some? ==> Canonical(t, e).Some? by { IdentifiedIsCanonical(t, e); }
  }

  lemma IdentifiedIsCanonical(t: Tables, e: Event)
    ensures e.user.Some? ==> Canonical(t, e).Some?
  {
  }

  /** The twelve statements, one after another, are the fold of the event. */
  lemma StagesFold(s: Site, t: Tables, e: Event)
    ensures StagesTables(s, t, e, STAGES) == Fold(s, t, e)
  {
    hide RelinkVisits, RelinkVisitorSessions, RelinkDaySessions, Visit, LinkIdentity, VisitVisitorSession,
         VisitDaySession, FoldSessions, FoldDays, Canonical, StageTables, StagesTables, LastTables, FoldIdentities,
         LinkedIdentity, Touched;
    HalfStages(s, t, e);
    CanonicalReturned(t, e);
    TailUnrolled(s, t, e);
    var h := StagesTables(s, t, e, 6);
    LastStages(s, h, e);
    IdentitiesFold(t, h, e);
  }

  lemma {:induction false} OpsRepresent(s: Site, rows: RowMap, raw: seq<Event>, events: seq<Event>)
    requires Represents(rows, FoldAll(s, raw))
    ensures Represents(RunOps(s, rows, OpsOf(events)), FoldAll(s, raw + events))
  {
    hide Represents, FoldAll, Fold, StagesTables, RunOps, Keyed;
    if events == [] {
      assert raw + events == raw;
      assert RunOps(s, rows, []) == rows by { NoOps(s, rows); }
    } else {
      var init, e := events[..|events| - 1], events[|events| - 1];
      OpsRepresent(s, rows, raw, init);
      RunOpsConcat(s, rows, OpsOf(init), Stages(e, STAGES));
      FoldedKeyed(s, raw + init);
      StagesRepresent(s, RunOps(s, rows, OpsOf(init)), FoldAll(s, raw + init), e, STAGES);
      StagesFold(s, FoldAll(s, raw + init), e);
      FoldAllAppend(s, raw + init, e);
      assert raw + events == (raw + init) + [e];
    }
  }

  lemma NoOps(s: Site, rows: RowMap)
    ensures RunOps(s, rows, []) == rows
  {
  }

  lemma {:induction false} FoldedKeyed(s: Site, raw: seq<Event>)
    ensures Keyed(FoldAll(s, raw))
  {
    if raw != [] {
      hide FoldSessions, FoldDays, FoldDaySessions, Link, Canonical, FoldIdentities, Visit, VisitVisitorSession;
      FoldedKeyed(s, raw[..|raw| - 1]);
    }
  }

  // ---- Every step of a run that keeps visitors apart --------------------------------------------

  const NOBODY := (site: string, visitor: string) => false

  lemma AloneAt(s: Site, st: State, w: nat)
    requires SerialInv(s, st) && w in st.locals
    ensures w in st.ledger.txns && Alone(s, st.rows, st.ledger.txns[w], st.locals[w])
    ensures st.locals[w].saved.Keys <= st.locals[w].mine.Keys
    ensures forall v :: v in st.locals && v != w ==> st.locals[w].mine.Keys !! st.locals[v].mine.Keys
  {
  }

  lemma StatementAlone(s: Site, st: State, step: Step)
    requires SerialInv(s, st) && Enabled(s, st, step) && !step.Ledger?
    ensures var now := Next(s, st, step);
            && now.ledger == st.ledger && now.rows == st.rows && now.locals.Keys == st.locals.Keys
            && (forall v :: v in now.locals ==>
                v in st.ledger.txns && Alone(s, st.rows, st.ledger.txns[v], now.locals[v]))
  {
    hide SerialInv, Alone, Writes, Locks;
    var w := step.worker;
    forall v | v in st.locals
      ensures v in st.ledger.txns && Alone(s, st.rows, st.ledger.txns[v], Next(s, st, step).locals[v])
    {
      AloneAt(s, st, v);
      if v == w {
        match step {
          case Read(_) => ReadAlone(s, st.rows, st.ledger.txns[w], st.locals[w]);
          case Write(_) => WroteAlone(s, st.rows, st.ledger.txns[w], st.locals[w]);
        }
      }
    }
  }

  /** What a step of the inbox does to the worker that takes it and to the others. */
  lemma LedgerStepAlone(s: Site, st: State, x: W.Step, v: nat)
    requires SerialInv(s, st) && Enabled(s, st, Ledger(x)) && !x.Commit?
    requires v in Next(s, st, Ledger(x)).locals
    ensures v in Next(s, st, Ledger(x)).ledger.txns
    ensures Alone(s, st.rows, Next(s, st, Ledger(x)).ledger.txns[v], Next(s, st, Ledger(x)).locals[v])
  {
    hide SerialInv, Alone;
    if !x.Deliver? && v == x.worker {
      if x.Begin? {
        BegunAlone(s, st.rows, x.claims);
      } else {
        AloneAt(s, st, v);
        match x {
          case Insert(_) =>
            InsertedAlone(s, st.rows, st.ledger.txns[v], st.locals[v],
                          W.Next(s, st.ledger, x).txns[v].current[|st.ledger.txns[v].current|]);
          case Finish(_) => FinishedAlone(s, st.rows, st.ledger.txns[v], st.locals[v]);
          case FailJob(_) => RolledBackAlone(s, st.rows, st.ledger.txns[v], st.locals[v]);
          case Crash(_) => assert false;
        }
      }
    } else {
      AloneAt(s, st, v);
    }
  }

  /** A visitor's rows are foreign to a transaction that holds no event of the visitor. */
  lemma ApartIsForeign(st: State, w: nat, v: nat, mine: RowMap)
    requires Within(NOBODY, st) && w in st.ledger.txns && v in st.ledger.txns && w != v
    requires Owned(mine, W.Pending(st.ledger.txns[w]))
    ensures ForeignToAll(mine, W.Pending(st.ledger.txns[v]))
    ensures ForeignToAll(mine, SavedEvents(st.ledger.txns[v]))
  {
    hide Concerns;
    var theirs, ours := W.Pending(st.ledger.txns[w]), W.Pending(st.ledger.txns[v]);
    assert forall i, j :: 0 <= i < |theirs| && 0 <= j < |ours| ==> !SameVisitor(theirs[i], ours[j]);
    forall j, slot | 0 <= j < |ours| && slot in mine
      ensures !Concerns(slot, mine[slot], ours[j].site, ours[j].visitor)
    {
      assert forall i :: 0 <= i < |theirs| ==>
        !(theirs[i].site == ours[j].site && theirs[i].visitor == ours[j].visitor) by {
        forall i | 0 <= i < |theirs|
          ensures !(theirs[i].site == ours[j].site && theirs[i].visitor == ours[j].visitor)
        {
          assert !SameVisitor(theirs[i], ours[j]);
        }
      }
    }
    var t := st.ledger.txns[v];
    W.AcceptedAppend(W.Log(t.outcomes), t.current);
    assert forall j :: 0 <= j < |SavedEvents(t)| ==> SavedEvents(t)[j] == ours[j];
  }

  lemma CommitSerial(s: Site, st: State, w: nat)
    requires SerialInv(s, st) && Enabled(s, st, Ledger(W.Commit(w))) && Within(NOBODY, st)
    ensures SerialInv(s, Next(s, st, Ledger(W.Commit(w))))
  {
    hide Inv, W.Inv, Alone, Represents, Within, FoldAll, RunOps;
    NextKeeps(s, st, Ledger(W.Commit(w)));
    LedgerHeld(s, st);
    CommitAppends(s, st.ledger, w);
    AloneAt(s, st, w);
    var t, l := st.ledger.txns[w], st.locals[w];
    var now := Next(s, st, Ledger(W.Commit(w)));
    OpsRepresent(s, st.rows, st.ledger.db.raw, W.Pending(t));
    RanWhole(s, st.rows, t, l);
    forall v | v in now.locals
      ensures v in now.ledger.txns && Alone(s, now.rows, now.ledger.txns[v], now.locals[v])
    {
      AloneAt(s, st, v);
      ApartIsForeign(st, w, v, l.mine);
      AloneStands(s, st.rows, st.ledger.txns[v], st.locals[v], l.mine);
    }
  }

  lemma RanWhole(s: Site, rows: RowMap, t: W.Txn, l: Local)
    requires Alone(s, rows, t, l)
    ensures Owned(l.mine, W.Pending(t))
    ensures l.progress.Idle? ==> rows + l.mine == RunOps(s, rows, OpsOf(W.Pending(t)))
  {
  }

  lemma SerialStep(s: Site, st: State, step: Step)
    requires SerialInv(s, st) && Enabled(s, st, step) && Within(NOBODY, st)
    ensures SerialInv(s, Next(s, st, step))
  {
    hide Inv, Alone, Represents, Within, FoldAll;
    NextKeeps(s, st, step);
    match step
    case Read(_) => StatementAlone(s, st, step);
    case Write(_) => StatementAlone(s, st, step);
    case Ledger(x) =>
      if x.Commit? {
        CommitSerial(s, st, x.worker);
      } else {
        RawUnmoved(s, st.ledger, x);
        forall v | v in Next(s, st, step).locals
          ensures v in Next(s, st, step).ledger.txns
          ensures Alone(s, st.rows, Next(s, st, step).ledger.txns[v], Next(s, st, step).locals[v])
        {
          LedgerStepAlone(s, st, x, v);
        }
      }
  }

  // ---- Runs -------------------------------------------------------------------------------------

  /** A run in which two open transactions hold events of one visitor only where the policy lets them. */
  ghost predicate RunWithin(s: Site, share: (string, string) -> bool, states: seq<State>, steps: seq<Step>) {
    Run(s, states, steps) && forall i :: 0 <= i < |states| ==> Within(share, states[i])
  }

  lemma StartSerial(s: Site)
    ensures SerialInv(s, START)
  {
    StartKeeps(s);
  }

  lemma {:induction false} RunSerial(s: Site, states: seq<State>, steps: seq<Step>, i: nat)
    requires RunWithin(s, NOBODY, states, steps) && i < |states|
    ensures SerialInv(s, states[i])
  {
    hide SerialInv, Next, Enabled, Within;
    if i == 0 {
      StartSerial(s);
    } else {
      RunSerial(s, states, steps, i - 1);
      assert states[(i - 1) + 1] == Next(s, states[i - 1], steps[i - 1]);
      SerialStep(s, states[i - 1], steps[i - 1]);
    }
  }

  /**
   Where no two open transactions hold events of one visitor, the committed rows are in every
   column the fold of the committed raw events: the tables a serial run of the committed jobs
   leaves.
   */
  lemma ApartIsSerial(s: Site, states: seq<State>, steps: seq<Step>, i: nat)
    requires RunWithin(s, NOBODY, states, steps) && i < |states|
    ensures Represents(states[i].rows, FoldAll(s, states[i].ledger.db.raw))
    ensures states[i].ledger.db.tables == FoldAll(s, states[i].ledger.db.raw)
  {
    hide Inv, FoldAll, Represents;
    RunSerial(s, states, steps, i);
    LedgerHeld(s, states[i]);
    W.StateSettled(s, states[i].ledger);
  }

  /** And every commit is a serial run of its jobs, derived rows included. */
  lemma ApartCommitsAreSerial(s: Site, states: seq<State>, steps: seq<Step>, i: nat)
    requires RunWithin(s, NOBODY, states, steps) && i < |steps| && steps[i].Ledger? && steps[i].step.Commit?
    ensures steps[i].step.worker in states[i].ledger.txns
    ensures var t := states[i].ledger.txns[steps[i].step.worker];
            && |t.claims| == |t.outcomes| && AllKnown(states[i].ledger.db, W.JobsOf(t.claims, t.outcomes))
            && states[i + 1].ledger.db == RunJobs(s, states[i].ledger.db, W.JobsOf(t.claims, t.outcomes))
            && Represents(states[i + 1].rows, RunJobs(s, states[i].ledger.db, W.JobsOf(t.claims, t.outcomes)).tables)
  {
    hide Inv, FoldAll, Represents;
    ApartIsSerial(s, states, steps, i + 1);
    RunSerial(s, states, steps, i);
    LedgerHeld(s, states[i]);
    W.CommitSound(s, states[i].ledger.db, states[i].ledger.txns[steps[i].step.worker]);
  }
}
