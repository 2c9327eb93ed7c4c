/**
 The workers at READ COMMITTED, statement by statement. Every derived row a transaction
 writes stays its own, and locked, until it commits; a statement reads the snapshot it
 began with and updates the latest version of each row once no other transaction holds
 it; rolling back to a savepoint gives up the rows written since, and their locks.

 The ledger is the same run seen from the inbox: claims, raw rows, quality counts. Its
 tables are a reference, what running the committed jobs one after another would leave;
 the rows really written are the ones here.
 */
module Isolation {
  import opened Wrappers
  import opened Events
  import opened Derived
  import opened Folds
  import opened Inbox
  import opened Rows
  import W = Workers

  /** A worker between statements of an event, inside one, or between events. */
  datatype Progress = Idle | Due(e: Event, stage: nat) | Reading(e: Event, stage: nat, snap: RowMap)

  /** What a transaction has written and the savepoint of its job brings back. */
  datatype Local = Local(mine: RowMap, saved: RowMap, progress: Progress)

  datatype State = State(ledger: W.State, rows: RowMap, locals: map<nat, Local>)

  datatype Step =
    | Ledger(step: W.Step)
    | Read(worker: nat)
    | Write(worker: nat)

  const START := State(W.State(W.EMPTY_DB, map[]), map[], map[])

  function View(st: State, w: nat): RowMap
    requires w in st.locals
  {
    st.rows + st.locals[w].mine
  }

  /** No other transaction holds a row the statement has to lock. */
  predicate Free(s: Site, st: State, w: nat)
    requires w in st.locals && st.locals[w].progress.Reading?
  {
    var p := st.locals[w].progress;
    forall v :: v in st.locals && v != w ==> Locks(s, p.e, p.stage, p.snap) !! st.locals[v].mine.Keys
  }

  predicate Between(st: State, w: nat) {
    w in st.locals && st.locals[w].progress.Idle?
  }

  predicate Enabled(s: Site, st: State, step: Step) {
    match step
    case Ledger(x) =>
      && W.Enabled(st.ledger, x)
      && (x.Insert? || x.Finish? || x.Commit? ==> Between(st, x.worker))
      && (x.FailJob? || x.Crash? ==> x.worker in st.locals)
    case Read(w) => w in st.locals && st.locals[w].progress.Due?
    case Write(w) => w in st.locals && st.locals[w].progress.Reading? && Free(s, st, w)
  }

  function Put(st: State, w: nat, l: Local): State {
    st.(locals := st.locals[w := l])
  }

  /** The next statement of the event is due, or the event is done. */
  function After(e: Event, stage: nat): Progress {
    if stage + 1 < STAGES then Due(e, stage + 1) else Idle
  }

  function Wrote(s: Site, rows: RowMap, l: Local): Local
    requires l.progress.Reading?
  {
    var p := l.progress;
    l.(mine := l.mine + Writes(s, p.e, p.stage, p.snap, rows + l.mine), progress := After(p.e, p.stage))
  }

  function Next(s: Site, st: State, step: Step): State
    requires Enabled(s, st, step)
  {
    match step
    case Read(w) =>
      var p := st.locals[w].progress;
      Put(st, w, st.locals[w].(progress := Reading(p.e, p.stage, View(st, w))))
    case Write(w) => Put(st, w, Wrote(s, st.rows, st.locals[w]))
    case Ledger(x) =>
      var now := st.(ledger := W.Next(s, st.ledger, x));
      match x
      case Deliver(_, _, _) => now
      case Begin(w, _) => Put(now, w, Local(map[], map[], Idle))
      case Insert(w) =>
        var entry := now.ledger.txns[w].current[|now.ledger.txns[w].current| - 1];
        if entry.accepted then Put(now, w, st.locals[w].(progress := Due(entry.e, 0))) else now
      case Finish(w) => Put(now, w, st.locals[w].(saved := st.locals[w].mine))
      case FailJob(w) => Put(now, w, Local(st.locals[w].saved, st.locals[w].saved, Idle))
      case Commit(w) => now.(rows := st.rows + st.locals[w].mine, locals := st.locals - {w})
      case Crash(w) => now.(locals := st.locals - {w})
  }

  // ---- The invariant --------------------------------------------------------------------------------

  function Init(events: seq<Event>): seq<Event> {
    if events == [] then [] else events[..|events| - 1]
  }

  /** The events a transaction has counted in a table so far. */
  function Folded(t: W.Txn, p: Progress, table: Table): seq<Event> {
    match p
    case Idle => W.Pending(t)
    case _ => Extent(Init(W.Pending(t)), p.e, p.stage, table)
  }

  /** The transaction is at a statement of the last event it stored. */
  predicate ProgressOk(t: W.Txn, p: Progress) {
    !p.Idle? ==> p.stage < STAGES && W.Pending(t) != [] && W.Pending(t)[|W.Pending(t)| - 1] == p.e && t.current != []
  }

  /**
   With its own writes, a row counts the committed events and those it was told of; and the rows
   told of are its own.
   */
  ghost predicate SlotOk(s: Site, rows: RowMap, raw: seq<Event>, mine: RowMap, slot: Slot, told: seq<Event>) {
    && PlainIn(rows + mine, slot) == Expected(s, slot, Group(s, raw + told, slot.key))
    && (forall i :: 0 <= i < |told| && CountedIn(s, slot, told[i]) ==> slot in mine)
  }

  function SavedEvents(t: W.Txn): seq<Event> {
    W.AcceptedIn(W.Log(t.outcomes))
  }

  ghost predicate LocalOk(s: Site, rows: RowMap, raw: seq<Event>, t: W.Txn, l: Local) {
    && ProgressOk(t, l.progress)
    && l.saved.Keys <= l.mine.Keys
    && (forall slot: Slot :: SlotOk(s, rows, raw, l.mine, slot, Folded(t, l.progress, slot.table)))
    && (forall slot: Slot :: SlotOk(s, rows, raw, l.saved, slot, SavedEvents(t)))
    && (t.current == [] ==> l.mine == l.saved)
  }

  ghost predicate Exclusive(st: State) {
    forall v, w :: v in st.locals && w in st.locals && v != w ==> st.locals[v].mine.Keys !! st.locals[w].mine.Keys
  }

  ghost predicate Inv(s: Site, st: State) {
    && W.Inv(s, st.ledger)
    && st.locals.Keys == st.ledger.txns.Keys
    && CountsAll(s, st.rows, st.ledger.db.raw)
    && (forall w :: w in st.locals ==> LocalOk(s, st.rows, st.ledger.db.raw, st.ledger.txns[w], st.locals[w]))
    && Exclusive(st)
  }

  // ---- Steps of one worker on its own ------------------------------------------------------------------

  lemma ReadKeeps(s: Site, rows: RowMap, raw: seq<Event>, t: W.Txn, l: Local, snap: RowMap)
    requires LocalOk(s, rows, raw, t, l) && l.progress.Due?
    ensures LocalOk(s, rows, raw, t, l.(progress := Reading(l.progress.e, l.progress.stage, snap)))
  {
    hide SlotOk;
  }

  /** A statement writes: its table counts one event more, and the rows it wrote are the transaction's. */
  lemma WriteKeeps(s: Site, rows: RowMap, raw: seq<Event>, t: W.Txn, l: Local)
    requires LocalOk(s, rows, raw, t, l) && l.progress.Reading?
    ensures LocalOk(s, rows, raw, t, Wrote(s, rows, l))
  {
    hide Writes, Expected, Group, PlainIn;
    var p, l' := l.progress, Wrote(s, rows, l);
    var view := rows + l.mine;
    var base := raw + Init(W.Pending(t));
    forall slot: Slot
      ensures PlainIn(view, slot) == Expected(s, slot, Group(s, Extent(base, p.e, p.stage, slot.table), slot.key))
    {
      assert SlotOk(s, rows, raw, l.mine, slot, Folded(t, p, slot.table));
      assert raw + Folded(t, p, slot.table) == Extent(base, p.e, p.stage, slot.table);
    }
    StageCounts(s, p.e, p.stage, p.snap, view, base);
    var written := Writes(s, p.e, p.stage, p.snap, view);
    assert view + written == rows + l'.mine;
    forall slot: Slot
      ensures SlotOk(s, rows, raw, l'.mine, slot, Folded(t, l'.progress, slot.table))
    {
      WroteSlot(s, rows, raw, t, l, slot);
    }
  }

  lemma WroteSlot(s: Site, rows: RowMap, raw: seq<Event>, t: W.Txn, l: Local, slot: Slot)
    requires l.progress.Reading? && ProgressOk(t, l.progress)
    requires SlotOk(s, rows, raw, l.mine, slot, Folded(t, l.progress, slot.table))
    requires Counts(s, rows + Wrote(s, rows, l).mine, raw + Init(W.Pending(t)), l.progress.e, l.progress.stage + 1)
    ensures SlotOk(s, rows, raw, Wrote(s, rows, l).mine, slot, Folded(t, Wrote(s, rows, l).progress, slot.table))
  {
    hide Writes, Expected, Group, PlainIn, CountedIn;
    var p, l' := l.progress, Wrote(s, rows, l);
    var before, now := Folded(t, p, slot.table), Folded(t, l'.progress, slot.table);
    assert W.Pending(t) == Init(W.Pending(t)) + [p.e];
    assert now == Extent(Init(W.Pending(t)), p.e, p.stage + 1, slot.table);
    assert raw + now == Extent(raw + Init(W.Pending(t)), p.e, p.stage + 1, slot.table);
    forall i | 0 <= i < |now| && CountedIn(s, slot, now[i])
      ensures slot in l'.mine
    {
      if i < |before| {
        assert before[i] == now[i];
      } else {
        WritesCounted(s, p.e, p.snap, rows + l.mine, slot);
      }
    }
  }

  // ---- Pending events as the jobs go on --------------------------------------------------------------

  lemma PendingInserted(t: W.Txn, entry: W.Entry)
    ensures W.Pending(t.(current := t.current + [entry])) == W.Pending(t) + if entry.accepted then [entry.e] else []
  {
    var log := W.Log(t.outcomes);
    assert log + (t.current + [entry]) == (log + t.current) + [entry];
    W.AcceptedAppend(log + t.current, [entry]);
    assert W.AcceptedIn([entry]) == (if entry.accepted then [entry.e] else []) + W.AcceptedIn([]);
  }

  lemma PendingFinished(t: W.Txn)
    ensures var t' := W.Txn(t.claims, t.outcomes + [W.Processed(t.current)], []);
            W.Pending(t') == W.Pending(t) == SavedEvents(t')
  {
    W.LogAppend(t.outcomes, W.Processed(t.current));
    assert W.Log(t.outcomes + [W.Processed(t.current)]) + [] == W.Log(t.outcomes) + t.current;
  }

  lemma PendingRolledBack(t: W.Txn)
    ensures var t' := W.Txn(t.claims, t.outcomes + [W.Failed], []);
            W.Pending(t') == SavedEvents(t') == SavedEvents(t)
  {
    W.LogAppend(t.outcomes, W.Failed);
    assert W.Log(t.outcomes) + [] == W.Log(t.outcomes);
  }

  /** A new row is stored: its derived statements are all still to run. */
  lemma InsertedKeeps(s: Site, rows: RowMap, raw: seq<Event>, t: W.Txn, l: Local, entry: W.Entry)
    requires LocalOk(s, rows, raw, t, l) && l.progress.Idle?
    ensures var now := if entry.accepted then l.(progress := Due(entry.e, 0)) else l;
            LocalOk(s, rows, raw, t.(current := t.current + [entry]), now)
  {
    hide SlotOk;
    var t' := t.(current := t.current + [entry]);
    PendingInserted(t, entry);
    assert W.Pending(t) + [] == W.Pending(t);
    assert entry.accepted ==> Init(W.Pending(t')) == W.Pending(t);
    forall slot: Slot
      ensures SlotOk(s, rows, raw, l.mine, slot,
                     Folded(t', if entry.accepted then Due(entry.e, 0) else Idle, slot.table))
      ensures SlotOk(s, rows, raw, l.saved, slot, SavedEvents(t'))
    {
      assert SlotOk(s, rows, raw, l.mine, slot, Folded(t, l.progress, slot.table));
      assert SlotOk(s, rows, raw, l.saved, slot, SavedEvents(t));
    }
  }

  lemma FinishedKeeps(s: Site, rows: RowMap, raw: seq<Event>, t: W.Txn, l: Local)
    requires LocalOk(s, rows, raw, t, l) && l.progress.Idle?
    ensures LocalOk(s, rows, raw, W.Txn(t.claims, t.outcomes + [W.Processed(t.current)], []), l.(saved := l.mine))
  {
    hide SlotOk;
    PendingFinished(t);
    forall slot: Slot
      ensures SlotOk(s, rows, raw, l.mine, slot, W.Pending(t))
    {
      assert SlotOk(s, rows, raw, l.mine, slot, Folded(t, l.progress, slot.table));
    }
  }

  lemma RolledBackKeeps(s: Site, rows: RowMap, raw: seq<Event>, t: W.Txn, l: Local)
    requires LocalOk(s, rows, raw, t, l)
    ensures LocalOk(s, rows, raw, W.Txn(t.claims, t.outcomes + [W.Failed], []), Local(l.saved, l.saved, Idle))
  {
    hide SlotOk;
    PendingRolledBack(t);
  }

  lemma BegunKeeps(s: Site, rows: RowMap, raw: seq<Event>, claims: seq<W.Claim>)
    requires CountsAll(s, rows, raw)
    ensures LocalOk(s, rows, raw, W.Txn(claims, [], []), Local(map[], map[], Idle))
  {
    hide Expected, PlainIn, Group;
    assert W.Log([]) + [] == [];
    assert rows + map[] == rows && raw + [] == raw;
  }

  // ---- A commit --------------------------------------------------------------------------------------------

  /** What another transaction commits is disjoint from this one's rows, so each still counts what it counted. */
  lemma SlotStands(s: Site, rows: RowMap, raw: seq<Event>, theirs: RowMap, pending: seq<Event>, mine: RowMap,
                   slot: Slot, told: seq<Event>)
    requires SlotOk(s, rows, raw, mine, slot, told) && SlotOk(s, rows, raw, theirs, slot, pending)
    requires mine.Keys !! theirs.Keys
    ensures SlotOk(s, rows + theirs, raw + pending, mine, slot, told)
  {
    hide Expected, Group, CountedIn;
    assert raw + pending + [] == raw + pending;
    if slot in mine {
      assert PlainIn((rows + theirs) + mine, slot) == PlainIn(rows + mine, slot);
      ExpectedIgnores(s, slot, raw, pending, told);
    } else {
      assert PlainIn((rows + theirs) + mine, slot) == PlainIn(rows + theirs, slot);
      ExpectedIgnores(s, slot, raw + pending, told, []);
      assert raw + pending + told + [] == raw + pending + told;
    }
  }

  lemma OtherStands(s: Site, rows: RowMap, raw: seq<Event>, t: W.Txn, l: Local, theirs: RowMap, pending: seq<Event>)
    requires LocalOk(s, rows, raw, t, l) && l.mine.Keys !! theirs.Keys
    requires forall slot: Slot :: SlotOk(s, rows, raw, theirs, slot, pending)
    ensures LocalOk(s, rows + theirs, raw + pending, t, l)
  {
    hide SlotOk;
    forall slot: Slot
      ensures SlotOk(s, rows + theirs, raw + pending, l.mine, slot, Folded(t, l.progress, slot.table))
      ensures SlotOk(s, rows + theirs, raw + pending, l.saved, slot, SavedEvents(t))
    {
      SlotStands(s, rows, raw, theirs, pending, l.mine, slot, Folded(t, l.progress, slot.table));
      SlotStands(s, rows, raw, theirs, pending, l.saved, slot, SavedEvents(t));
    }
  }

  lemma CommittedCounts(s: Site, rows: RowMap, raw: seq<Event>, t: W.Txn, l: Local)
    requires LocalOk(s, rows, raw, t, l) && l.progress.Idle?
    ensures CountsAll(s, rows + l.mine, raw + W.Pending(t))
    ensures forall slot: Slot :: SlotOk(s, rows, raw, l.mine, slot, W.Pending(t))
  {
    hide Expected, PlainIn, Group;
    forall slot: Slot
      ensures PlainIn(rows + l.mine, slot) == Expected(s, slot, Group(s, raw + W.Pending(t), slot.key))
    {
      assert SlotOk(s, rows, raw, l.mine, slot, Folded(t, l.progress, slot.table));
    }
    assert forall slot: Slot :: Folded(t, l.progress, slot.table) == W.Pending(t);
  }

  // ---- Every step keeps the invariant ---------------------------------------------------------------------------

  /** One worker's state changes, the committed rows do not. */
  lemma PutKeeps(s: Site, st: State, ledger: W.State, w: nat, l: Local)
    requires Inv(s, st) && W.Inv(s, ledger) && ledger.db.raw == st.ledger.db.raw
    requires ledger.txns.Keys == st.ledger.txns.Keys + {w}
    requires forall v :: v in st.ledger.txns && v != w ==> ledger.txns[v] == st.ledger.txns[v]
    requires LocalOk(s, st.rows, st.ledger.db.raw, ledger.txns[w], l)
    requires forall v :: v in st.locals && v != w ==> l.mine.Keys !! st.locals[v].mine.Keys
    ensures Inv(s, Put(st.(ledger := ledger), w, l))
  {
    hide W.Inv, LocalOk, CountsAll, Exclusive;
    PutExclusive(st, ledger, w, l);
  }

  lemma PutExclusive(st: State, ledger: W.State, w: nat, l: Local)
    requires Exclusive(st) && forall v :: v in st.locals && v != w ==> l.mine.Keys !! st.locals[v].mine.Keys
    ensures Exclusive(Put(st.(ledger := ledger), w, l))
  {
  }

  lemma Held(s: Site, st: State, w: nat)
    requires Inv(s, st) && w in st.locals
    ensures w in st.ledger.txns && LocalOk(s, st.rows, st.ledger.db.raw, st.ledger.txns[w], st.locals[w])
    ensures forall v :: v in st.locals && v != w ==> st.locals[w].mine.Keys !! st.locals[v].mine.Keys
    ensures W.Inv(s, st.ledger) && CountsAll(s, st.rows, st.ledger.db.raw)
  {
  }

  lemma StatementKeeps(s: Site, st: State, step: Step)
    requires Inv(s, st) && Enabled(s, st, step) && !step.Ledger?
    ensures Inv(s, Next(s, st, step))
  {
    hide Inv, LocalOk, CountsAll, Writes, Locks;
    var w := step.worker;
    Held(s, st, w);
    var l, t := st.locals[w], st.ledger.txns[w];
    match step {
      case Read(_) => ReadKeeps(s, st.rows, st.ledger.db.raw, t, l, View(st, w));
      case Write(_) =>
        WriteKeeps(s, st.rows, st.ledger.db.raw, t, l);
        WritesLocked(s, l.progress.e, l.progress.stage, l.progress.snap, View(st, w));
    }
    KeysSame(s, st);
    PutKeeps(s, st, st.ledger, w, Next(s, st, step).locals[w]);
  }

  lemma KeysSame(s: Site, st: State)
    requires Inv(s, st)
    ensures st.locals.Keys == st.ledger.txns.Keys
  {
  }

  lemma RawUnmoved(s: Site, st: W.State, x: W.Step)
    requires W.Enabled(st, x) && !x.Commit?
    ensures W.Next(s, st, x).db.raw == st.db.raw
  {
  }

  lemma InsertKeeps(s: Site, st: State, w: nat)
    requires Inv(s, st) && Enabled(s, st, Ledger(W.Insert(w)))
    ensures Inv(s, Next(s, st, Ledger(W.Insert(w))))
  {
    hide Inv, W.Inv, LocalOk, CountsAll;
    var x := W.Insert(w);
    WorkersHeld(s, st, x);
    Held(s, st, w);
    KeysSame(s, st);
    W.NextKeeps(s, st.ledger, x);
    var l, t, ledger := st.locals[w], st.ledger.txns[w], W.Next(s, st.ledger, x);
    var entry := ledger.txns[w].current[|t.current|];
    InsertedKeeps(s, st.rows, st.ledger.db.raw, t, l, entry);
    PutKeeps(s, st, ledger, w, if entry.accepted then l.(progress := Due(entry.e, 0)) else l);
    assert st.locals[w := l] == st.locals;
  }

  lemma FinishKeeps(s: Site, st: State, w: nat)
    requires Inv(s, st) && Enabled(s, st, Ledger(W.Finish(w)))
    ensures Inv(s, Next(s, st, Ledger(W.Finish(w))))
  {
    hide Inv, W.Inv, LocalOk, CountsAll;
    var x := W.Finish(w);
    WorkersHeld(s, st, x);
    Held(s, st, w);
    KeysSame(s, st);
    W.NextKeeps(s, st.ledger, x);
    FinishedKeeps(s, st.rows, st.ledger.db.raw, st.ledger.txns[w], st.locals[w]);
    PutKeeps(s, st, W.Next(s, st.ledger, x), w, st.locals[w].(saved := st.locals[w].mine));
  }

  lemma FailJobKeeps(s: Site, st: State, w: nat)
    requires Inv(s, st) && Enabled(s, st, Ledger(W.FailJob(w)))
    ensures Inv(s, Next(s, st, Ledger(W.FailJob(w))))
  {
    hide Inv, W.Inv, LocalOk, CountsAll;
    var x := W.FailJob(w);
    WorkersHeld(s, st, x);
    Held(s, st, w);
    KeysSame(s, st);
    SavedWithin(s, st, w);
    W.NextKeeps(s, st.ledger, x);
    RolledBackKeeps(s, st.rows, st.ledger.db.raw, st.ledger.txns[w], st.locals[w]);
    PutKeeps(s, st, W.Next(s, st.ledger, x), w, Local(st.locals[w].saved, st.locals[w].saved, Idle));
  }

  lemma WorkersHeld(s: Site, st: State, x: W.Step)
    requires Inv(s, st) && Enabled(s, st, Ledger(x)) && !x.Deliver? && !x.Begin?
    ensures x.worker in st.locals && x.worker in st.ledger.txns
  {
  }

  lemma SavedWithin(s: Site, st: State, w: nat)
    requires Inv(s, st) && w in st.locals
    ensures st.locals[w].saved.Keys <= st.locals[w].mine.Keys
  {
  }

  lemma BeginKeeps(s: Site, st: State, w: nat, claims: seq<W.Claim>)
    requires Inv(s, st) && Enabled(s, st, Ledger(W.Begin(w, claims)))
    ensures Inv(s, Next(s, st, Ledger(W.Begin(w, claims))))
  {
    hide Inv, W.Inv, LocalOk, CountsAll;
    KeysSame(s, st);
    LedgerHeld(s, st);
    W.NextKeeps(s, st.ledger, W.Begin(w, claims));
    BegunKeeps(s, st.rows, st.ledger.db.raw, claims);
    PutKeeps(s, st, W.Next(s, st.ledger, W.Begin(w, claims)), w, Local(map[], map[], Idle));
  }

  lemma LedgerHeld(s: Site, st: State)
    requires Inv(s, st)
    ensures W.Inv(s, st.ledger) && CountsAll(s, st.rows, st.ledger.db.raw)
  {
  }

  lemma DeliverKeeps(s: Site, st: State, x: W.Step)
    requires Inv(s, st) && Enabled(s, st, Ledger(x)) && x.Deliver?
    ensures Inv(s, Next(s, st, Ledger(x)))
  {
    hide W.Inv, LocalOk, CountsAll;
    W.NextKeeps(s, st.ledger, x);
  }

  lemma CrashKeeps(s: Site, st: State, x: W.Step)
    requires Inv(s, st) && Enabled(s, st, Ledger(x)) && x.Crash?
    ensures Inv(s, Next(s, st, Ledger(x)))
  {
    hide W.Inv, LocalOk, CountsAll;
    W.NextKeeps(s, st.ledger, x);
  }

  /** A commit stores what the transaction had pending, after what was there. */
  lemma CommitAppends(s: Site, st: W.State, w: nat)
    requires W.Inv(s, st) && W.Enabled(st, W.Commit(w))
    ensures W.Next(s, st, W.Commit(w)).db.raw == st.db.raw + W.Pending(st.txns[w])
  {
    W.CommitSound(s, st.db, st.txns[w]);
  }

  lemma CommitKeeps(s: Site, st: State, w: nat)
    requires Inv(s, st) && Enabled(s, st, Ledger(W.Commit(w)))
    ensures Inv(s, Next(s, st, Ledger(W.Commit(w))))
  {
    hide W.Inv, LocalOk, CountsAll, SlotOk;
    W.NextKeeps(s, st.ledger, W.Commit(w));
    CommitAppends(s, st.ledger, w);
    Held(s, st, w);
    var t, l := st.ledger.txns[w], st.locals[w];
    CommittedCounts(s, st.rows, st.ledger.db.raw, t, l);
    var now := Next(s, st, Ledger(W.Commit(w)));
    forall v | v in now.locals
      ensures LocalOk(s, now.rows, now.ledger.db.raw, now.ledger.txns[v], now.locals[v])
    {
      OtherStands(s, st.rows, st.ledger.db.raw, st.ledger.txns[v], st.locals[v], l.mine, W.Pending(t));
    }
  }

  /** Every step of every worker keeps the invariant. */
  lemma NextKeeps(s: Site, st: State, step: Step)
    requires Inv(s, st) && Enabled(s, st, step)
    ensures Inv(s, Next(s, st, step))
  {
    hide Inv;
    match step
    case Read(_) => StatementKeeps(s, st, step);
    case Write(_) => StatementKeeps(s, st, step);
    case Ledger(x) =>
      match x {
        case Deliver(_, _, _) => DeliverKeeps(s, st, x);
        case Begin(w, claims) => BeginKeeps(s, st, w, claims);
        case Commit(w) => CommitKeeps(s, st, w);
        case Crash(_) => CrashKeeps(s, st, x);
        case Insert(w) => InsertKeeps(s, st, w);
        case Finish(w) => FinishKeeps(s, st, w);
        case FailJob(w) => FailJobKeeps(s, st, w);
      }
  }

  // ---- Runs ------------------------------------------------------------------------------------------------------

  ghost predicate Run(s: Site, states: seq<State>, steps: seq<Step>) {
    && |states| == |steps| + 1 && states[0] == START
    && (forall i :: 0 <= i < |steps| ==>
        Enabled(s, states[i], steps[i]) && states[i + 1] == Next(s, states[i], steps[i]))
  }

  lemma StartKeeps(s: Site)
    ensures Inv(s, START)
  {
    forall slot: Slot
      ensures PlainIn(map[], slot) == Expected(s, slot, Group(s, [], slot.key))
    {
    }
  }

  lemma {:induction false} RunKeeps(s: Site, states: seq<State>, steps: seq<Step>, i: nat)
    requires Run(s, states, steps) && i < |states|
    ensures Inv(s, states[i])
  {
    hide Inv, Next, Enabled;
    if i == 0 {
      StartKeeps(s);
    } else {
      RunKeeps(s, states, steps, i - 1);
      NextKeeps(s, states[i - 1], steps[i - 1]);
    }
  }

  /**
   At every state of every run, statements interleaved at READ COMMITTED in any way: the
   committed rows agree with the rebuild from the committed raw events on every column that
   cannot depend on order, and daily revenue is the sum of the collector's readings.
   */
  lemma EveryRunAgreesWithRebuild(s: Site, states: seq<State>, steps: seq<Step>, i: nat, slot: Slot)
    requires Run(s, states, steps) && i < |states|
    ensures var st := states[i];
            && Tallied(RowIn(st.rows, slot)) == Tallied(RowOf(Rebuild(s, st.ledger.db.raw), slot))
            && (slot.table == Days && slot in st.rows && st.rows[slot].DayCell? ==>
                  st.rows[slot].day.revenue == Total(Group(s, st.ledger.db.raw, slot.key), Revenue))
  {
    hide Inv, Tallied, RowOf, Rebuild, Group, Run, CountsAll, W.Inv, Total;
    RunKeeps(s, states, steps, i);
    LedgerHeld(s, states[i]);
    CountsAgreeWithRebuild(s, states[i].rows, states[i].ledger.db.raw, slot);
    if slot.table == Days && slot in states[i].rows && states[i].rows[slot].DayCell? {
      RevenueCounted(s, states[i].rows, states[i].ledger.db.raw, slot);
    }
  }

  lemma RevenueCounted(s: Site, rows: RowMap, raw: seq<Event>, slot: Slot)
    requires CountsAll(s, rows, raw) && slot.table == Days && slot in rows && rows[slot].DayCell?
    ensures rows[slot].day.revenue == Total(Group(s, raw, slot.key), Revenue)
  {
    hide Group, Total, DayTallyOf, VisitorTallyOf, SessionTallyOf, SpanOf, Latest;
    assert PlainIn(rows, slot) == Expected(s, slot, Group(s, raw, slot.key));
  }

  /**
   At every state of every run: each inbox row was ingested at most once or dead-lettered at
   most once and never both, dead exactly when ten of its attempts failed; one raw row per
   accepted event; and accepted plus duplicate events are the events of the ingested rows.
   */
  lemma EveryRunIsSound(s: Site, states: seq<State>, steps: seq<Step>, i: nat)
    requires Run(s, states, steps) && i < |states|
    ensures W.Settlement(states[i].ledger.db)
  {
    hide Inv;
    RunKeeps(s, states, steps, i);
    LedgerHeld(s, states[i]);
    W.StateSettled(s, states[i].ledger);
  }

  /**
   What inserting decided before the commit stands at it: a commit settles its jobs as running
   them one after another would.
   */
  lemma CommitsSettleSerially(s: Site, states: seq<State>, steps: seq<Step>, i: nat)
    requires Run(s, states, steps) && i < |steps| && steps[i].Ledger? && steps[i].step.Commit?
    ensures steps[i].step.worker in states[i].ledger.txns
    ensures var t, db, db' := states[i].ledger.txns[steps[i].step.worker], states[i].ledger.db, states[i + 1].ledger.db;
            && |t.claims| == |t.outcomes| && AllKnown(db, W.JobsOf(t.claims, t.outcomes))
            && var serial := RunJobs(s, db, W.JobsOf(t.claims, t.outcomes));
               && db'.raw == serial.raw && db'.quality == serial.quality && db'.inbox == serial.inbox
               && db'.done == serial.done && db'.dead == serial.dead && db'.failures == serial.failures
  {
    hide Inv;
    RunKeeps(s, states, steps, i);
    LedgerHeld(s, states[i]);
    W.CommitSound(s, states[i].ledger.db, states[i].ledger.txns[steps[i].step.worker]);
  }

  /** Only a commit changes committed rows, to the transaction's own; nobody else ever sees a row before. */
  lemma OnlyCommitsShow(s: Site, states: seq<State>, steps: seq<Step>, i: nat)
    requires Run(s, states, steps) && i < |steps|
    ensures steps[i].Ledger? && steps[i].step.Commit? ==>
              steps[i].step.worker in states[i].locals
              && states[i + 1].rows == states[i].rows + states[i].locals[steps[i].step.worker].mine
    ensures !(steps[i].Ledger? && steps[i].step.Commit?) ==> states[i + 1].rows == states[i].rows
  {
  }

  // ---- A failed attempt leaves no trace ----------------------------------------------------------------------------

  /** The worker is between jobs: at its transaction's start, or where the last job ended. */
  predicate BetweenJobs(st: State, w: nat) {
    w in st.locals && w in st.ledger.txns && st.ledger.txns[w].current == []
  }

  /**
   Steps j to i are one job of the worker: it began between jobs at j, and none of them ended it
   or its transaction.
   */
  ghost predicate OneJob(states: seq<State>, w: nat, j: nat, i: nat)
    requires j <= i < |states|
  {
    && BetweenJobs(states[j], w)
    && (forall k :: j <= k <= i ==>
          && w in states[k].locals && w in states[k].ledger.txns
          && states[k].ledger.txns[w].outcomes == states[j].ledger.txns[w].outcomes)
  }

  lemma {:induction false} SavedSinceJobBegan(s: Site, states: seq<State>, steps: seq<Step>, w: nat, j: nat, i: nat)
    requires Run(s, states, steps) && j <= i < |states| && OneJob(states, w, j, i)
    ensures states[i].locals[w].saved == states[j].locals[w].mine
    decreases i - j
  {
    hide Next, Enabled, Inv;
    if i == j {
      RunKeeps(s, states, steps, j);
      SavedBetween(s, states[j], w);
    } else {
      SavedSinceJobBegan(s, states, steps, w, j, i - 1);
      assert states[(i - 1) + 1] == Next(s, states[i - 1], steps[i - 1]);
      SavedKept(s, states[i - 1], steps[i - 1], w);
    }
  }

  lemma SavedBetween(s: Site, st: State, w: nat)
    requires Inv(s, st) && BetweenJobs(st, w)
    ensures st.locals[w].saved == st.locals[w].mine
  {
  }

  lemma SavedKept(s: Site, st: State, step: Step, w: nat)
    requires Enabled(s, st, step) && w in st.locals && w in st.ledger.txns
    requires w in Next(s, st, step).locals && w in Next(s, st, step).ledger.txns
    requires Next(s, st, step).ledger.txns[w].outcomes == st.ledger.txns[w].outcomes
    ensures Next(s, st, step).locals[w].saved == st.locals[w].saved
  {
    hide Writes, Locks;
  }

  /**
   However many statements of a job ran, and whatever other transactions did meanwhile, its
   failure leaves the transaction with exactly the rows it had written when the job began, and
   the committed rows untouched.
   */
  lemma FailedJobLeavesNoTrace(s: Site, states: seq<State>, steps: seq<Step>, w: nat, j: nat, i: nat)
    requires Run(s, states, steps) && j <= i < |steps| && OneJob(states, w, j, i)
    requires steps[i] == Ledger(W.FailJob(w))
    ensures states[i + 1].rows == states[i].rows
    ensures w in states[i + 1].locals && states[i + 1].locals[w].mine == states[j].locals[w].mine
    ensures w in states[i + 1].ledger.txns
            && W.Pending(states[i + 1].ledger.txns[w]) == W.Pending(states[j].ledger.txns[w])
  {
    SavedSinceJobBegan(s, states, steps, w, j, i);
    PendingRolledBack(states[i].ledger.txns[w]);
    assert W.Log(states[j].ledger.txns[w].outcomes) + [] == W.Log(states[j].ledger.txns[w].outcomes);
  }
}
