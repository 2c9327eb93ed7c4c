/**
 The run that shows why visitors have to be kept apart: an identify event overtakes the
 uncommitted first session of its visitor, and leaves that session's row unlinked.
 */
module Overtaken {
  import opened Wrappers
  import opened Events
  import opened Derived
  import opened Folds
  import opened Agreement
  import opened Arrivals
  import opened Inbox
  import opened Rows
  import opened Isolation
  import opened Serial
  import W = Workers

  /** One moment, in microseconds. */
  const AT := 1760000000 * 1000000

  function Plainly(site: string, id: int, env: string, visitor: string, session: string, name: string,
                   user: Option<string>): Event {
    Event(site, id, env, visitor, session, AT, name, user, map[], map[], false, None, None, None, None, None,
          NoSeconds, NoAmount, NoAmount)
  }

  /** The visitor's first event, in one session, before anyone knows who it is. */
  function Anonymous(site: string, visitor: string): Event {
    Plainly(site, 1, "production", visitor, "first", "page_view", None)
  }

  /**
   The same visitor signs in, in another session and another environment, so that the two
   events have only the visitor's own rows in common and nothing else makes one wait.
   */
  function SignIn(site: string, visitor: string): Event {
    Plainly(site, 2, "staging", visitor, "second", "login", Some("u"))
  }

  // ---- Making a run longer --------------------------------------------------------------------------

  datatype Trace = Trace(states: seq<State>, steps: seq<Step>)

  function Last(r: Trace): State {
    if r.states == [] then START else r.states[|r.states| - 1]
  }

  lemma Extend(s: Site, share: (string, string) -> bool, r: Trace, step: Step) returns (r': Trace)
    requires RunWithin(s, share, r.states, r.steps)
    requires Enabled(s, Last(r), step) && Within(share, Next(s, Last(r), step))
    ensures RunWithin(s, share, r'.states, r'.steps) && Last(r') == Next(s, Last(r), step)
  {
    hide Enabled, Next, Within;
    r' := Trace(r.states + [Next(s, Last(r), step)], r.steps + [step]);
  }

  /** Statements k to j - 1 of an event. */
  function Range(e: Event, k: nat, j: nat): (r: seq<Op>)
    requires k <= j
    ensures |r| == j - k && forall i :: 0 <= i < j - k ==> r[i] == Op(e, k + i)
  {
    seq(j - k, i requires 0 <= i < j - k => Op(e, k + i))
  }

  /** The locks the statements need are held by nobody else. */
  ghost predicate Unlocked(s: Site, st: State, w: nat, e: Event, k: nat, j: nat)
    requires w in st.locals && k <= j
  {
    forall v, i :: v in st.locals && v != w && k <= i < j ==>
      Locks(s, e, i, RunOps(s, View(st, w), Range(e, k, i))) !! st.locals[v].mine.Keys
  }

  function Stepped(e: Event, j: nat): Progress {
    if j < STAGES then Due(e, j) else Idle
  }

  lemma ReadFirst(s: Site, share: (string, string) -> bool, r: Trace, w: nat, e: Event, k: nat) returns (r': Trace)
    requires RunWithin(s, share, r.states, r.steps) && k < STAGES
    requires w in Last(r).locals && Last(r).locals[w].progress == Due(e, k)
    ensures RunWithin(s, share, r'.states, r'.steps)
    ensures var st := Last(r); Last(r') == Put(st, w, st.locals[w].(progress := Reading(e, k, View(st, w))))
  {
    hide Within;
    WithinLedger(share, r);
    r' := Extend(s, share, r, Read(w));
  }

  lemma ThenWrite(s: Site, share: (string, string) -> bool, r: Trace, w: nat, e: Event, k: nat, view: RowMap)
    returns (r': Trace)
    requires RunWithin(s, share, r.states, r.steps) && k < STAGES
    requires w in Last(r).locals && Last(r).locals[w].progress == Reading(e, k, view) && View(Last(r), w) == view
    requires forall v :: v in Last(r).locals && v != w ==> Locks(s, e, k, view) !! Last(r).locals[v].mine.Keys
    ensures RunWithin(s, share, r'.states, r'.steps)
    ensures var st, mine := Last(r), Last(r).locals[w].mine + Writes(s, e, k, view, view);
            Last(r') == Put(st, w, Local(mine, st.locals[w].saved, Stepped(e, k + 1)))
  {
    hide Within, Locks, Writes;
    WithinLedger(share, r);
    r' := Extend(s, share, r, Write(w));
  }

  /** The worker has run statements k to j - 1, and nothing else has happened. */
  ghost predicate Ran(s: Site, st: State, st': State, w: nat, e: Event, k: nat, j: nat)
    requires k <= j && w in st.locals
  {
    && st'.ledger == st.ledger && st'.rows == st.rows && st'.locals.Keys == st.locals.Keys
    && (forall v :: v in st.locals && v != w ==> st'.locals[v] == st.locals[v])
    && st'.locals[w].progress == Stepped(e, j) && st'.locals[w].saved == st.locals[w].saved
    && View(st', w) == RunOps(s, View(st, w), Range(e, k, j))
  }

  /** One more statement after those. */
  function OneMore(s: Site, st: State, w: nat, e: Event, k: nat): State
    requires w in st.locals
  {
    var mine := st.locals[w].mine + Writes(s, e, k, View(st, w), View(st, w));
    Put(st, w, Local(mine, st.locals[w].saved, Stepped(e, k + 1)))
  }

  lemma RangeNext(e: Event, k: nat, j: nat)
    requires k < j
    ensures Range(e, k, j) == Range(e, k, j - 1) + [Op(e, j - 1)]
  {
  }

  lemma ViewOneMore(s: Site, st: State, w: nat, e: Event, k: nat)
    requires w in st.locals
    ensures View(OneMore(s, st, w, e, k), w) == View(st, w) + Writes(s, e, k, View(st, w), View(st, w))
  {
    hide Writes;
  }

  lemma RanOneMore(s: Site, st: State, mid: State, w: nat, e: Event, k: nat, j: nat)
    requires k < j && w in st.locals && Ran(s, st, mid, w, e, k, j - 1)
    ensures Ran(s, st, OneMore(s, mid, w, e, j - 1), w, e, k, j)
  {
    hide Writes, RunOps, Range, View;
    RangeNext(e, k, j);
    RunOpsOne(s, View(st, w), Range(e, k, j - 1), Op(e, j - 1));
    ViewOneMore(s, mid, w, e, j - 1);
  }

  lemma StillFree(s: Site, st: State, mid: State, w: nat, e: Event, k: nat, j: nat)
    requires k < j && w in st.locals && Unlocked(s, st, w, e, k, j) && Ran(s, st, mid, w, e, k, j - 1)
    ensures w in mid.locals && mid.locals[w].progress == Stepped(e, j - 1)
    ensures forall v :: v in mid.locals && v != w ==> Locks(s, e, j - 1, View(mid, w)) !! mid.locals[v].mine.Keys
  {
    hide Locks, RunOps;
  }

  lemma StatementRuns(s: Site, share: (string, string) -> bool, r: Trace, w: nat, e: Event, k: nat) returns (r': Trace)
    requires RunWithin(s, share, r.states, r.steps) && k < STAGES
    requires w in Last(r).locals && Last(r).locals[w].progress == Due(e, k)
    requires forall v :: v in Last(r).locals && v != w ==>
               Locks(s, e, k, View(Last(r), w)) !! Last(r).locals[v].mine.Keys
    ensures RunWithin(s, share, r'.states, r'.steps) && Last(r') == OneMore(s, Last(r), w, e, k)
  {
    hide Writes, Locks, RunWithin;
    var st := Last(r);
    var m := ReadFirst(s, share, r, w, e, k);
    r' := ThenWrite(s, share, m, w, e, k, View(st, w));
    assert Last(r').locals == OneMore(s, st, w, e, k).locals;
  }

  /** With its locks free a worker runs statements k to j - 1 straight through. */
  lemma {:induction false} RunThrough(s: Site, share: (string, string) -> bool, r: Trace, w: nat, e: Event, k: nat,
                                      j: nat)
    returns (r': Trace)
    requires RunWithin(s, share, r.states, r.steps) && k <= j <= STAGES
    requires w in Last(r).locals && Last(r).locals[w].progress == Stepped(e, k) && Unlocked(s, Last(r), w, e, k, j)
    ensures RunWithin(s, share, r'.states, r'.steps) && Ran(s, Last(r), Last(r'), w, e, k, j)
    decreases j
  {
    hide Ran, Writes, Locks, RunWithin, Unlocked;
    if k == j {
      r' := r;
      RanNothing(s, Last(r), w, e, k);
    } else {
      FewerUnlocked(s, Last(r), w, e, k, j);
      var m := RunThrough(s, share, r, w, e, k, j - 1);
      StillFree(s, Last(r), Last(m), w, e, k, j);
      r' := StatementRuns(s, share, m, w, e, j - 1);
      RanOneMore(s, Last(r), Last(m), w, e, k, j);
    }
  }

  lemma RanNothing(s: Site, st: State, w: nat, e: Event, k: nat)
    requires w in st.locals && st.locals[w].progress == Stepped(e, k)
    ensures Ran(s, st, st, w, e, k, k)
  {
    assert Range(e, k, k) == [];
  }

  lemma FewerUnlocked(s: Site, st: State, w: nat, e: Event, k: nat, j: nat)
    requires w in st.locals && k < j && Unlocked(s, st, w, e, k, j)
    ensures Unlocked(s, st, w, e, k, j - 1)
  {
  }

  /** What a policy says about a state it says about every state with the same open transactions. */
  lemma WithinLedger(share: (string, string) -> bool, r: Trace)
    requires r.states != [] && forall i :: 0 <= i < |r.states| ==> Within(share, r.states[i])
    ensures forall st: State :: st.ledger == Last(r).ledger ==> Within(share, st)
  {
    assert Within(share, Last(r));
  }

  // ---- The two workers ------------------------------------------------------------------------------------------

  function Boxes(a: Event, b: Event): map<int, InboxRow> {
    map[1 := InboxRow([a], 0, 0, false), 2 := InboxRow([b], 0, 0, false)]
  }

  function Opened(current: seq<W.Entry>, id: int): W.Txn {
    W.Txn([W.Claim(id, 0)], [], current)
  }

  lemma NothingPending(id: int)
    ensures W.Pending(Opened([], id)) == []
  {
    assert W.Log([]) + [] == [];
  }

  lemma OnePending(e: Event, id: int)
    ensures W.Pending(Opened([W.Entry(e, true)], id)) == [e]
  {
    NothingPending(id);
    PendingInserted(Opened([], id), W.Entry(e, true));
    assert [] + [W.Entry(e, true)] == [W.Entry(e, true)];
  }

  /** Both rows delivered. */
  lemma Delivered(s: Site, share: (string, string) -> bool, a: Event, b: Event) returns (r: Trace)
    ensures RunWithin(s, share, r.states, r.steps)
    ensures Last(r) == State(W.State(W.EMPTY_DB.(inbox := Boxes(a, b)), map[]), map[], map[])
  {
    r := Trace([START], []);
    r := Extend(s, share, r, Ledger(W.Deliver(1, [a], 0)));
    r := Extend(s, share, r, Ledger(W.Deliver(2, [b], 0)));
    assert Last(r).ledger.db.inbox == Boxes(a, b);
  }

  /** Both rows delivered, both transactions open. */
  lemma Begun(s: Site, share: (string, string) -> bool, a: Event, b: Event) returns (r: Trace)
    ensures RunWithin(s, share, r.states, r.steps)
    ensures var db, txns := W.EMPTY_DB.(inbox := Boxes(a, b)), map[1 := Opened([], 1), 2 := Opened([], 2)];
            var idle := Local(map[], map[], Idle);
            Last(r) == State(W.State(db, txns), map[], map[1 := idle, 2 := idle])
  {
    hide RunWithin, W.Pending;
    NothingPending(1);
    NothingPending(2);
    r := Delivered(s, share, a, b);
    r := Extend(s, share, r, Ledger(W.Begin(1, [W.Claim(1, 0)])));
    r := Extend(s, share, r, Ledger(W.Begin(2, [W.Claim(2, 0)])));
  }

  lemma OnlyIdentityWritten(s: Site, b: Event)
    requires b.user.Some?
    ensures Writes(s, b, 0, map[], map[]).Keys == {Slot(Identities, VisitorOf(b))}
  {
    hide LinkIdentity;
  }

  lemma NothingFound(s: Site, b: Event, rows: RowMap, k: nat)
    requires 1 <= k <= 4 && rows.Keys == {Slot(Identities, VisitorOf(b))}
    ensures Writes(s, b, k, rows, rows) == map[] && Locks(s, b, k, rows) == {}
  {
    assert Found(rows, b, k) == {};
  }

  /** The identify statement and the relinking ones find nothing where nothing of the visitor is committed. */
  lemma {:induction false} NothingToRelink(s: Site, b: Event, i: nat)
    requires 1 <= i <= 5 && b.user.Some?
    ensures RunOps(s, map[], Range(b, 0, i)).Keys == {Slot(Identities, VisitorOf(b))}
  {
    hide Writes, RunOps;
    RangeNext(b, 0, i);
    RunOpsOne(s, map[], Range(b, 0, i - 1), Op(b, i - 1));
    if i == 1 {
      NoOps(s, map[]);
      assert Range(b, 0, 0) == [];
      OnlyIdentityWritten(s, b);
    } else {
      NothingToRelink(s, b, i - 1);
      NothingFound(s, b, RunOps(s, map[], Range(b, 0, i - 1)), i - 1);
    }
  }

  lemma LateWritesElsewhere(s: Site, b: Event, k: nat, rows: RowMap, key: Key)
    requires 5 <= k < STAGES && key != VisitorSessionOf(b)
    ensures Slot(VisitorSessions, key) !in Writes(s, b, k, rows, rows)
  {
    hide Upserted, Touched, IdentityAt, CanonicalIn;
  }

  /** The late statements of an event leave the visitor session rows of other sessions alone. */
  lemma {:induction false} OtherSessionLeft(s: Site, rows: RowMap, b: Event, j: nat, key: Key)
    requires 5 <= j <= STAGES && key != VisitorSessionOf(b)
    ensures RowIn(RunOps(s, rows, Range(b, 5, j)), Slot(VisitorSessions, key))
            == RowIn(rows, Slot(VisitorSessions, key))
  {
    hide Writes, RunOps;
    if j == 5 {
      assert Range(b, 5, 5) == [];
      NoOps(s, rows);
    } else {
      OtherSessionLeft(s, rows, b, j - 1, key);
      RangeNext(b, 5, j);
      RunOpsOne(s, rows, Range(b, 5, j - 1), Op(b, j - 1));
      LateWritesElsewhere(s, b, j - 1, RunOps(s, rows, Range(b, 5, j - 1)), key);
    }
  }

  /** What the anonymous event leaves where there was nothing. */
  lemma FirstRows(s: Site, a: Event)
    requires a.user.None?
    ensures var rows := RunOps(s, map[], Range(a, 0, STAGES));
            && Slot(Identities, VisitorOf(a)) !in rows
            && RowIn(rows, Slot(VisitorSessions, VisitorSessionOf(a)))
               == Some(VisitorSessionCell(VisitorSessionRow(None, Span(a.ts, a.ts))))
  {
    hide RunOps, Represents;
    assert Range(a, 0, STAGES) == Stages(a, STAGES);
    NothingRepresented();
    StagesRepresent(s, map[], NO_TABLES, a, STAGES);
    StagesFold(s, NO_TABLES, a);
    var t := Fold(s, NO_TABLES, a);
    FirstFold(s, a);
    SlotRepresented(RunOps(s, map[], Range(a, 0, STAGES)), t, Slot(Identities, VisitorOf(a)));
    SlotRepresented(RunOps(s, map[], Range(a, 0, STAGES)), t, Slot(VisitorSessions, VisitorSessionOf(a)));
  }

  lemma NothingRepresented()
    ensures Represents(map[], NO_TABLES) && Keyed(NO_TABLES)
  {
  }

  lemma FirstFold(s: Site, a: Event)
    requires a.user.None?
    ensures var t := Fold(s, NO_TABLES, a);
            && VisitorOf(a) !in t.identities
            && VisitorSessionOf(a) in t.visitorSessions
            && t.visitorSessions[VisitorSessionOf(a)] == VisitorSessionRow(None, Span(a.ts, a.ts))
  {
  }

  /** In a serial run, in either order, the session ends up linked. */
  lemma SerialLinks(s: Site, a: Event, b: Event)
    requires a.user.None? && b.user.Some? && SameVisitor(a, b) && a.session != b.session
    ensures var t := FoldAll(s, [a, b]);
            VisitorSessionOf(a) in t.visitorSessions && t.visitorSessions[VisitorSessionOf(a)].user == b.user
  {
    hide FoldSessions, FoldDays, FoldDaySessions, FoldVisits;
    assert [a, b][..1] == [a] && [a][..0] == [];
    assert FoldAll(s, [a]) == Fold(s, NO_TABLES, a);
    FirstFold(s, a);
    LinkedFresh(s, a, b);
  }

  lemma LinkedFresh(s: Site, a: Event, b: Event)
    requires a.user.None? && b.user.Some? && SameVisitor(a, b)
    ensures Link(Fold(s, NO_TABLES, a), b) == b.user
  {
    FirstFold(s, a);
  }

  // ---- The run -----------------------------------------------------------------------------------------------------

  /** Both transactions open, on an inbox that holds the two rows, with nothing committed. */
  predicate Opening(st: State, a: Event, b: Event, first: seq<W.Entry>, second: seq<W.Entry>) {
    && st.rows == map[] && st.locals.Keys == {1, 2}
    && st.ledger == W.State(W.EMPTY_DB.(inbox := Boxes(a, b)), map[1 := Opened(first, 1), 2 := Opened(second, 2)])
  }

  lemma UnlockedAlone(s: Site, st: State, w: nat, e: Event, k: nat, j: nat)
    requires w in st.locals && k <= j && forall v :: v in st.locals && v != w ==> st.locals[v].mine == map[]
    ensures Unlocked(s, st, w, e, k, j)
  {
    hide Locks, RunOps;
  }

  /** The first worker has run every statement of the anonymous event. */
  ghost predicate FirstDone(s: Site, st: State, a: Event, b: Event, second: seq<W.Entry>) {
    && Opening(st, a, b, [W.Entry(a, true)], second)
    && st.locals[1].mine == RunOps(s, map[], Range(a, 0, STAGES)) && st.locals[1].progress.Idle?
  }

  function Inserted(st: State, w: nat, e: Event): State
    requires w in st.locals
  {
    Put(st.(ledger := st.ledger.(txns := st.ledger.txns[w := Opened([W.Entry(e, true)], w)])), w,
        st.locals[w].(progress := Due(e, 0)))
  }

  /** The worker stores the one event of its one job. */
  lemma Inserts(s: Site, share: (string, string) -> bool, r: Trace, w: nat, e: Event) returns (r': Trace)
    requires RunWithin(s, share, r.states, r.steps)
    requires w in Last(r).ledger.txns && Last(r).ledger.txns[w] == Opened([], w)
    requires w in Last(r).ledger.db.inbox && Last(r).ledger.db.inbox[w].events == [e] && Last(r).ledger.db.raw == []
    requires w in Last(r).locals && Last(r).locals[w].progress.Idle?
    requires forall v :: v in Last(r).ledger.txns && v != w ==> !Stored(W.Pending(Last(r).ledger.txns[v]), e)
    requires Within(share, Inserted(Last(r), w, e))
    ensures RunWithin(s, share, r'.states, r'.steps) && Last(r') == Inserted(Last(r), w, e)
  {
    hide RunWithin, Within, Stored;
    var st, x := Last(r), W.Insert(w);
    NothingPending(w);
    NothingStored(e);
    assert st.ledger.db.raw + W.Pending(st.ledger.txns[w]) == [];
    assert W.Enabled(st.ledger, x);
    assert [] + [W.Entry(e, true)] == [W.Entry(e, true)];
    assert W.Next(s, st.ledger, x) == Inserted(st, w, e).ledger;
    assert Next(s, st, Ledger(x)) == Inserted(st, w, e);
    r' := Extend(s, share, r, Ledger(x));
  }

  lemma NothingStored(e: Event)
    ensures !Stored([], e)
  {
  }

  lemma FirstRuns(s: Site, share: (string, string) -> bool, a: Event, b: Event) returns (r: Trace)
    ensures RunWithin(s, share, r.states, r.steps) && FirstDone(s, Last(r), a, b, [])
    ensures Last(r).locals[2] == Local(map[], map[], Idle)
  {
    hide RunWithin, RunOps, Range, Unlocked, Ran, W.Pending;
    r := Begun(s, share, a, b);
    NothingPending(2);
    OnePending(a, 1);
    NothingStored(a);
    r := Inserts(s, share, r, 1, a);
    var mid := Last(r);
    UnlockedAlone(s, mid, 1, a, 0, STAGES);
    r := RunThrough(s, share, r, 1, a, 0, STAGES);
    RanFromNothing(s, mid, Last(r), 1, a, STAGES);
  }

  /** On an empty database a transaction's rows are what its statements alone leave. */
  lemma RanFromNothing(s: Site, st: State, st': State, w: nat, e: Event, j: nat)
    requires w in st.locals && Ran(s, st, st', w, e, 0, j) && st.rows == map[] && st.locals[w].mine == map[]
    ensures w in st'.locals && st'.locals[w].mine == RunOps(s, map[], Range(e, 0, j))
    ensures st'.ledger == st.ledger && st'.rows == map[] && st'.locals.Keys == st.locals.Keys
    ensures st'.locals[w].progress == Stepped(e, j)
    ensures forall v :: v in st.locals && v != w ==> st'.locals[v] == st.locals[v]
  {
    hide RunOps, Range;
    assert View(st, w) == map[];
    assert View(st', w) == st'.locals[w].mine;
  }

  lemma SecondInserts(s: Site, share: (string, string) -> bool, r: Trace, a: Event, b: Event) returns (r': Trace)
    requires RunWithin(s, share, r.states, r.steps) && FirstDone(s, Last(r), a, b, [])
    requires Last(r).locals[2] == Local(map[], map[], Idle)
    requires !SameId(a, b) && SameVisitor(a, b) && share(a.site, a.visitor)
    ensures RunWithin(s, share, r'.states, r'.steps) && FirstDone(s, Last(r'), a, b, [W.Entry(b, true)])
    ensures Last(r').locals[2] == Local(map[], map[], Due(b, 0))
  {
    hide RunWithin, RunOps, Range, W.Pending;
    OnePending(a, 1);
    OnePending(b, 2);
    r' := Inserts(s, share, r, 2, b);
  }

  lemma SecondUnlocked(s: Site, st: State, a: Event, b: Event)
    requires FirstDone(s, st, a, b, [W.Entry(b, true)]) && st.locals[2] == Local(map[], map[], Due(b, 0))
    requires a.user.None? && b.user.Some? && SameVisitor(a, b)
    ensures Unlocked(s, st, 2, b, 0, 5)
  {
    hide RunOps;
    FirstRows(s, a);
    assert View(st, 2) == map[];
    forall i | 0 <= i < 5
      ensures Locks(s, b, i, RunOps(s, map[], Range(b, 0, i))) !! st.locals[1].mine.Keys
    {
      if i > 0 {
        NothingToRelink(s, b, i);
        NothingFound(s, b, RunOps(s, map[], Range(b, 0, i)), i);
      }
    }
  }

  /** The identify event is past its relinking statements, waiting for the visitor's row. */
  ghost predicate SecondWaits(s: Site, st: State, a: Event, b: Event) {
    && FirstDone(s, st, a, b, [W.Entry(b, true)])
    && st.locals[2].mine == RunOps(s, map[], Range(b, 0, 5)) && st.locals[2].progress == Due(b, 5)
  }

  lemma SecondRuns(s: Site, share: (string, string) -> bool, r: Trace, a: Event, b: Event) returns (r': Trace)
    requires RunWithin(s, share, r.states, r.steps) && FirstDone(s, Last(r), a, b, [W.Entry(b, true)])
    requires Last(r).locals[2] == Local(map[], map[], Due(b, 0))
    requires a.user.None? && b.user.Some? && SameVisitor(a, b)
    ensures RunWithin(s, share, r'.states, r'.steps) && SecondWaits(s, Last(r'), a, b)
  {
    hide RunWithin, RunOps, Range, Unlocked, Ran;
    SecondUnlocked(s, Last(r), a, b);
    r' := RunThrough(s, share, r, 2, b, 0, 5);
    RanFromNothing(s, Last(r), Last(r'), 2, b, 5);
  }

  function Finished(st: State, w: nat, e: Event): State
    requires w in st.locals
  {
    var t := W.Txn([W.Claim(w, 0)], [W.Processed([W.Entry(e, true)])], []);
    Put(st.(ledger := st.ledger.(txns := st.ledger.txns[w := t])), w, st.locals[w].(saved := st.locals[w].mine))
  }

  lemma Finishes(s: Site, share: (string, string) -> bool, r: Trace, w: nat, e: Event) returns (r': Trace)
    requires RunWithin(s, share, r.states, r.steps)
    requires w in Last(r).ledger.txns && Last(r).ledger.txns[w] == Opened([W.Entry(e, true)], w)
    requires w in Last(r).ledger.db.inbox && Last(r).ledger.db.inbox[w].events == [e]
    requires w in Last(r).locals && Last(r).locals[w].progress.Idle?
    ensures RunWithin(s, share, r'.states, r'.steps) && Last(r') == Finished(Last(r), w, e)
    ensures W.Pending(Last(r').ledger.txns[w]) == [e]
  {
    hide RunWithin, Within, W.Pending;
    var st, x := Last(r), W.Finish(w);
    OnePending(e, w);
    PendingFinished(st.ledger.txns[w]);
    assert [] + [W.Processed([W.Entry(e, true)])] == [W.Processed([W.Entry(e, true)])];
    assert Next(s, st, Ledger(x)) == Finished(st, w, e);
    StaysWithin(s, share, r, Ledger(x));
    r' := Extend(s, share, r, Ledger(x));
  }

  /** What a transaction of one processed event does to the inbox. */
  lemma OneProcessed(s: Site, db: Db, w: nat, e: Event)
    requires w in db.inbox
    ensures W.ApplyOutcomes(s, db, [W.Claim(w, 0)], [W.Processed([W.Entry(e, true)])]).inbox
            == db.inbox[w := db.inbox[w].(processed := true)]
  {
    hide W.ApplyEntries;
    var claims, outcomes := [W.Claim(w, 0)], [W.Processed([W.Entry(e, true)])];
    assert claims[1..] == [] && outcomes[1..] == [];
  }

  /** The worker finishes its job and commits. */
  lemma CommitsOne(s: Site, share: (string, string) -> bool, r: Trace, w: nat, e: Event) returns (r': Trace)
    requires RunWithin(s, share, r.states, r.steps)
    requires w in Last(r).ledger.txns && Last(r).ledger.txns[w] == Opened([W.Entry(e, true)], w)
    requires w in Last(r).ledger.db.inbox && Last(r).ledger.db.inbox[w].events == [e]
    requires w in Last(r).locals && Last(r).locals[w].progress.Idle?
    ensures RunWithin(s, share, r'.states, r'.steps)
    ensures var st, st' := Last(r), Last(r');
            && st'.rows == st.rows + st.locals[w].mine && st'.locals == st.locals - {w}
            && st'.ledger.txns == st.ledger.txns - {w} && st'.ledger.db.raw == st.ledger.db.raw + [e]
            && st'.ledger.db.inbox == st.ledger.db.inbox[w := st.ledger.db.inbox[w].(processed := true)]
  {
    hide RunWithin, Within, W.Pending, W.ApplyOutcomes, W.Inv;
    var m := Finishes(s, share, r, w, e);
    var x := W.Commit(w);
    LastHeld(s, share, m);
    assert W.Enabled(Last(m).ledger, x);
    CommitAppends(s, Last(m).ledger, w);
    OneProcessed(s, Last(r).ledger.db, w, e);
    StaysWithin(s, share, m, Ledger(x));
    r' := Extend(s, share, m, Ledger(x));
  }

  lemma LastHeld(s: Site, share: (string, string) -> bool, r: Trace)
    requires RunWithin(s, share, r.states, r.steps)
    ensures Within(share, Last(r)) && W.Inv(s, Last(r).ledger)
  {
    hide Within, Inv;
    RunKeeps(s, r.states, r.steps, |r.states| - 1);
    LedgerHeld(s, Last(r));
  }

  /** A step after which every open transaction holds what it held keeps to the policy. */
  lemma StaysWithin(s: Site, share: (string, string) -> bool, r: Trace, step: Step)
    requires RunWithin(s, share, r.states, r.steps) && Enabled(s, Last(r), step)
    requires forall w :: w in Next(s, Last(r), step).ledger.txns ==>
               && w in Last(r).ledger.txns
               && W.Pending(Next(s, Last(r), step).ledger.txns[w]) == W.Pending(Last(r).ledger.txns[w])
    ensures Within(share, Next(s, Last(r), step))
  {
    hide Enabled, Next;
    LastHeld(s, share, r);
  }

  /** The visitor's first session stays unlinked, while the identity names its user. */
  lemma Overtakes(s: Site, share: (string, string) -> bool, a: Event, b: Event) returns (r: Trace)
    requires !SameId(a, b) && SameVisitor(a, b) && a.session != b.session && a.user.None? && b.user.Some?
    requires share(a.site, a.visitor)
    ensures RunWithin(s, share, r.states, r.steps) && Last(r).ledger.db.raw == [a, b]
    ensures RowIn(Last(r).rows, Slot(VisitorSessions, VisitorSessionOf(a)))
            == Some(VisitorSessionCell(VisitorSessionRow(None, Span(a.ts, a.ts))))
  {
    hide RunWithin, RunOps, Range, Unlocked;
    r := FirstRuns(s, share, a, b);
    r := SecondInserts(s, share, r, a, b);
    r := SecondRuns(s, share, r, a, b);
    r := CommitsOne(s, share, r, 1, a);
    var mid := Last(r);
    UnlockedAlone(s, mid, 2, b, 5, STAGES);
    r := RunThrough(s, share, r, 2, b, 5, STAGES);
    r := CommitsOne(s, share, r, 2, b);
    FirstRows(s, a);
    NothingToRelink(s, b, 5);
    OtherSessionLeft(s, View(mid, 2), b, STAGES, VisitorSessionOf(a));
  }

  // ---- The exact condition ----------------------------------------------------------------------

  /**
   The committed rows are in every column the fold of the committed events, in every run a
   policy allows, exactly when the policy lets no two open transactions hold events of one visitor.
   */
  lemma SerialExactly(s: Site, share: (string, string) -> bool)
    ensures (forall states: seq<State>, steps, i :: RunWithin(s, share, states, steps) && 0 <= i < |states| ==>
               Represents(states[i].rows, FoldAll(s, states[i].ledger.db.raw)))
            <==> (forall site, visitor :: !share(site, visitor))
  {
    hide RunWithin, Represents, FoldAll;
    if site, visitor :| share(site, visitor) {
      var a, b := Anonymous(site, visitor), SignIn(site, visitor);
      var r := Overtakes(s, share, a, b);
      SerialLinks(s, a, b);
      if Represents(Last(r).rows, FoldAll(s, [a, b])) {
        SlotRepresented(Last(r).rows, FoldAll(s, [a, b]), Slot(VisitorSessions, VisitorSessionOf(a)));
      }
    } else {
      forall states: seq<State>, steps, i | RunWithin(s, share, states, steps) && 0 <= i < |states|
        ensures Represents(states[i].rows, FoldAll(s, states[i].ledger.db.raw))
      {
        NobodyShares(s, share, states, steps);
        ApartIsSerial(s, states, steps, i);
      }
    }
  }

  lemma NobodyShares(s: Site, share: (string, string) -> bool, states: seq<State>, steps: seq<Step>)
    requires RunWithin(s, share, states, steps) && forall site, visitor :: !share(site, visitor)
    ensures RunWithin(s, NOBODY, states, steps)
  {
  }
}
