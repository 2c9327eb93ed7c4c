/**
 Any number of workers draining the inbox at once, one transaction each, seen from the
 inbox: claims, raw rows, quality counts. A worker's writes are its own until it
 commits; a crash or an error outside a job drops them. Claimed rows are locked, and an
 insert waits while another open transaction holds an uncommitted row with the same
 event id, which is what the unique key enforces.

 The tables here are a reference: what running the committed jobs one after another
 would leave. Module Isolation has the derived rows as the statements really write them.
 */
module Workers {
  import opened Wrappers
  import opened Seqs
  import opened Events
  import opened Derived
  import opened Folds
  import opened Ingestion
  import opened Arrivals
  import opened Inbox

  /** One INSERT .. ON CONFLICT DO NOTHING, and whether it stored a row. */
  datatype Entry = Entry(e: Event, accepted: bool)

  datatype Outcome = Failed | Processed(entries: seq<Entry>)

  datatype Claim = Claim(id: int, attempts: nat)

  /** An open transaction: the locked rows, the outcome of each finished job, the job under its savepoint. */
  datatype Txn = Txn(claims: seq<Claim>, outcomes: seq<Outcome>, current: seq<Entry>)

  datatype State = State(db: Db, txns: map<nat, Txn>)

  datatype Step =
    | Deliver(id: int, events: seq<Event>, blocked: nat)
    | Begin(worker: nat, claims: seq<Claim>)
    | Insert(worker: nat)
    | Finish(worker: nat)
    | FailJob(worker: nat)
    | Commit(worker: nat)
    | Crash(worker: nat)

  // ---- What a transaction holds -------------------------------------------------------------------

  function AcceptedIn(entries: seq<Entry>): seq<Event> {
    if entries == [] then []
    else (if entries[0].accepted then [entries[0].e] else []) + AcceptedIn(entries[1..])
  }

  function EventsIn(entries: seq<Entry>): seq<Event> {
    seq(|entries|, i requires 0 <= i < |entries| => entries[i].e)
  }

  /** The surviving inserts of the finished jobs; a job rolled back to its savepoint leaves none. */
  function Log(outcomes: seq<Outcome>): seq<Entry> {
    if outcomes == [] then []
    else (if outcomes[0].Processed? then outcomes[0].entries else []) + Log(outcomes[1..])
  }

  function Pending(t: Txn): seq<Event> { AcceptedIn(Log(t.outcomes) + t.current) }

  predicate Working(st: State, w: nat) {
    && w in st.txns
    && |st.txns[w].outcomes| < |st.txns[w].claims|
    && st.txns[w].claims[|st.txns[w].outcomes|].id in st.db.inbox
  }

  /** The events of the job a worker is in the middle of. */
  function Job(st: State, w: nat): seq<Event>
    requires Working(st, w)
  {
    st.db.inbox[st.txns[w].claims[|st.txns[w].outcomes|].id].events
  }

  // ---- Commit -------------------------------------------------------------------------------------------

  function ApplyEntry(s: Site, db: Db, entry: Entry, blocked: nat): Db {
    if entry.accepted then
      db.(raw := db.raw + [entry.e], tables := Fold(s, db.tables, entry.e),
          quality := db.quality.(accepted := db.quality.accepted + 1, blocked := db.quality.blocked + blocked))
    else
      db.(quality := db.quality.(duplicates := db.quality.duplicates + 1))
  }

  /** The rows a job wrote: what each insert decided when it ran. */
  function ApplyEntries(s: Site, db: Db, entries: seq<Entry>, blocked: nat): (r: Db)
    ensures r.inbox == db.inbox
    decreases |entries|
  {
    if entries == [] then db
    else
      var left := if entries[0].accepted then 0 else blocked;
      ApplyEntries(s, ApplyEntry(s, db, entries[0], blocked), entries[1..], left)
  }

  function ApplyOutcome(s: Site, db: Db, claim: Claim, outcome: Outcome): (r: Db)
    requires claim.id in db.inbox
    ensures r.inbox.Keys == db.inbox.Keys
  {
    match outcome
    case Failed => Inbox.Fail(db, claim.id, claim.attempts)
    case Processed(entries) => Inbox.Finish(ApplyEntries(s, db, entries, db.inbox[claim.id].blocked), claim.id)
  }

  predicate Claimed(db: Db, claims: seq<Claim>) {
    forall i :: 0 <= i < |claims| ==> claims[i].id in db.inbox
  }

  function ApplyOutcomes(s: Site, db: Db, claims: seq<Claim>, outcomes: seq<Outcome>): (r: Db)
    requires |claims| == |outcomes| && Claimed(db, claims)
    ensures r.inbox.Keys == db.inbox.Keys
    decreases |claims|
  {
    if claims == [] then db
    else ApplyOutcomes(s, ApplyOutcome(s, db, claims[0], outcomes[0]), claims[1..], outcomes[1..])
  }

  // ---- Steps --------------------------------------------------------------------------------------------

  predicate Locked(st: State, id: int) {
    exists w :: w in st.txns && (exists i :: 0 <= i < |st.txns[w].claims| && st.txns[w].claims[i].id == id)
  }

  predicate DistinctClaims(claims: seq<Claim>) {
    forall i, j :: 0 <= i < j < |claims| ==> claims[i].id != claims[j].id
  }

  predicate Enabled(st: State, step: Step) {
    match step
    case Deliver(id, _, _) => id !in st.db.inbox
    case Begin(w, claims) =>
      && w !in st.txns && DistinctClaims(claims)
      && (forall i :: 0 <= i < |claims| ==>
            && claims[i].id in st.db.inbox && !st.db.inbox[claims[i].id].processed
            && st.db.inbox[claims[i].id].attempts == claims[i].attempts
            && !Locked(st, claims[i].id))
    case Insert(w) =>
      && Working(st, w) && |st.txns[w].current| < |Job(st, w)|
      && (forall v :: v in st.txns && v != w ==> !Stored(Pending(st.txns[v]), Job(st, w)[|st.txns[w].current|]))
    case Finish(w) => Working(st, w) && |st.txns[w].current| == |Job(st, w)|
    case FailJob(w) => Working(st, w)
    case Commit(w) =>
      && w in st.txns && |st.txns[w].outcomes| == |st.txns[w].claims| && Claimed(st.db, st.txns[w].claims)
    case Crash(w) => w in st.txns
  }

  function Next(s: Site, st: State, step: Step): State
    requires Enabled(st, step)
  {
    match step
    case Deliver(id, events, blocked) =>
      st.(db := st.db.(inbox := st.db.inbox[id := InboxRow(events, blocked, 0, false)]))
    case Begin(w, claims) => st.(txns := st.txns[w := Txn(claims, [], [])])
    case Insert(w) =>
      var t := st.txns[w];
      var e := Job(st, w)[|t.current|];
      st.(txns := st.txns[w := t.(current := t.current + [Entry(e, !Stored(st.db.raw + Pending(t), e))])])
    case Finish(w) =>
      var t := st.txns[w];
      st.(txns := st.txns[w := Txn(t.claims, t.outcomes + [Processed(t.current)], [])])
    case FailJob(w) =>
      var t := st.txns[w];
      st.(txns := st.txns[w := Txn(t.claims, t.outcomes + [Failed], [])])
    case Commit(w) =>
      State(ApplyOutcomes(s, st.db, st.txns[w].claims, st.txns[w].outcomes), st.txns - {w})
    case Crash(w) => st.(txns := st.txns - {w})
  }

  // ---- Decisions taken before a commit are right at the commit ---------------------------------------------

  /** Replaying the entries on these raw rows takes every decision the same way. */
  predicate Decided(raw: seq<Event>, entries: seq<Entry>)
    decreases |entries|
  {
    entries != [] ==>
      && (entries[0].accepted <==> !Stored(raw, entries[0].e))
      && Decided(if entries[0].accepted then raw + [entries[0].e] else raw, entries[1..])
  }

  lemma StoredAppend(a: seq<Event>, b: seq<Event>, e: Event)
    ensures Stored(a + b, e) <==> Stored(a, e) || Stored(b, e)
  {
    if Stored(a, e) {
      var i :| 0 <= i < |a| && SameId(a[i], e);
      assert (a + b)[i] == a[i];
    }
    if Stored(b, e) {
      var i :| 0 <= i < |b| && SameId(b[i], e);
      assert (a + b)[|a| + i] == b[i];
    }
  }

  lemma {:induction false} AcceptedAppend(a: seq<Entry>, b: seq<Entry>)
    ensures AcceptedIn(a + b) == AcceptedIn(a) + AcceptedIn(b)
  {
    if a == [] {
      assert a + b == b;
    } else {
      AcceptedAppend(a[1..], b);
      Seqs.TailConcat(a, b);
      Seqs.Assoc(if a[0].accepted then [a[0].e] else [], AcceptedIn(a[1..]), AcceptedIn(b));
    }
  }

  lemma {:induction false} LogAppend(outcomes: seq<Outcome>, o: Outcome)
    ensures Log(outcomes + [o]) == Log(outcomes) + (if o.Processed? then o.entries else [])
  {
    if outcomes == [] {
      assert outcomes + [o] == [o];
    } else {
      LogAppend(outcomes[1..], o);
      assert (outcomes + [o])[1..] == outcomes[1..] + [o];
    }
  }

  lemma {:induction false} DecidedAppend(raw: seq<Event>, a: seq<Entry>, b: seq<Entry>)
    ensures Decided(raw, a + b) <==> Decided(raw, a) && Decided(raw + AcceptedIn(a), b)
    decreases |a|
  {
    if a == [] {
      assert a + b == b && raw + [] == raw;
    } else {
      hide Stored;
      assert (a + b)[0] == a[0] && (a + b)[1..] == a[1..] + b;
      if a[0].accepted {
        DecidedAppend(raw + [a[0].e], a[1..], b);
        assert raw + [a[0].e] + AcceptedIn(a[1..]) == raw + AcceptedIn(a);
      } else {
        DecidedAppend(raw, a[1..], b);
        assert AcceptedIn(a) == AcceptedIn(a[1..]);
      }
    }
  }

  ghost predicate Disjoint(a: seq<Event>, b: seq<Event>) {
    forall i, j :: 0 <= i < |a| && 0 <= j < |b| ==> !SameId(a[i], b[j])
  }

  /** Other transactions committing rows with other ids change none of the decisions. */
  lemma {:induction false} DecisionsStand(raw: seq<Event>, more: seq<Event>, entries: seq<Entry>, grown: seq<Event>)
    requires Decided(raw, entries) && Disjoint(more, AcceptedIn(entries))
    requires forall e :: Stored(grown, e) <==> Stored(raw, e) || Stored(more, e)
    ensures Decided(grown, entries)
    decreases |entries|
  {
    if entries != [] {
      var e, rest := entries[0].e, entries[1..];
      if entries[0].accepted {
        assert AcceptedIn(entries)[0] == e;
        forall x
          ensures Stored(grown + [e], x) <==> Stored(raw + [e], x) || Stored(more, x)
        {
          StoredAppend(grown, [e], x);
          StoredAppend(raw, [e], x);
        }
        assert AcceptedIn(rest) == AcceptedIn(entries)[1..];
        DecisionsStand(raw + [e], more, rest, grown + [e]);
      } else {
        assert AcceptedIn(entries) == AcceptedIn(rest);
        DecisionsStand(raw, more, rest, grown);
      }
    }
  }

  // ---- A commit is a serial run of its jobs -----------------------------------------------------------------

  function JobOf(claim: Claim, outcome: Outcome): Inbox.Job {
    Inbox.Job(claim.id, claim.attempts, outcome.Failed?)
  }

  function JobsOf(claims: seq<Claim>, outcomes: seq<Outcome>): (jobs: seq<Inbox.Job>)
    requires |claims| == |outcomes|
    decreases |claims|
  {
    if claims == [] then []
    else [JobOf(claims[0], outcomes[0])] + JobsOf(claims[1..], outcomes[1..])
  }

  lemma {:induction false} JobsAt(claims: seq<Claim>, outcomes: seq<Outcome>)
    requires |claims| == |outcomes|
    ensures |JobsOf(claims, outcomes)| == |claims|
    ensures forall i :: 0 <= i < |claims| ==> JobsOf(claims, outcomes)[i] == JobOf(claims[i], outcomes[i])
    decreases |claims|
  {
    if claims != [] {
      JobsAt(claims[1..], outcomes[1..]);
    }
  }

  /** The entries of every processed job are the events of its row. */
  predicate EntriesMatch(db: Db, claims: seq<Claim>, outcomes: seq<Outcome>)
    requires |outcomes| <= |claims| && Claimed(db, claims)
  {
    forall i :: 0 <= i < |outcomes| && outcomes[i].Processed? ==>
      EventsIn(outcomes[i].entries) == db.inbox[claims[i].id].events
  }

  lemma EntryIsInsert(s: Site, db: Db, entry: Entry, blocked: nat)
    requires entry.accepted <==> !Stored(db.raw, entry.e)
    ensures ApplyEntry(s, db, entry, blocked) == Inbox.Insert(s, db, entry.e, blocked)
    ensures (if entry.accepted then 0 else blocked) == Spend(db, entry.e, blocked)
    ensures ApplyEntry(s, db, entry, blocked).raw == if entry.accepted then db.raw + [entry.e] else db.raw
  {
  }

  lemma EventsTail(entries: seq<Entry>)
    requires entries != []
    ensures EventsIn(entries) != [] && EventsIn(entries)[0] == entries[0].e
    ensures EventsIn(entries)[1..] == EventsIn(entries[1..])
  {
  }

  lemma {:induction false} EntriesAreInserts(s: Site, db: Db, entries: seq<Entry>, blocked: nat)
    requires Decided(db.raw, entries)
    ensures ApplyEntries(s, db, entries, blocked) == InsertAll(s, db, EventsIn(entries), blocked)
    ensures ApplyEntries(s, db, entries, blocked).raw == db.raw + AcceptedIn(entries)
    decreases |entries|
  {
    if entries == [] {
      assert db.raw + [] == db.raw;
    } else {
      EntryIsInsert(s, db, entries[0], blocked);
      EventsTail(entries);
      var left := if entries[0].accepted then 0 else blocked;
      EntriesAreInserts(s, ApplyEntry(s, db, entries[0], blocked), entries[1..], left);
      assert db.raw + [entries[0].e] + AcceptedIn(entries[1..]) == db.raw + ([entries[0].e] + AcceptedIn(entries[1..]));
      assert [] + AcceptedIn(entries[1..]) == AcceptedIn(entries[1..]);
    }
  }

  lemma OutcomeIsJob(s: Site, db: Db, claim: Claim, outcome: Outcome)
    requires claim.id in db.inbox
    requires outcome.Processed? ==>
               Decided(db.raw, outcome.entries) && EventsIn(outcome.entries) == db.inbox[claim.id].events
    ensures ApplyOutcome(s, db, claim, outcome) == RunJob(s, db, JobOf(claim, outcome))
    ensures ApplyOutcome(s, db, claim, outcome).raw == db.raw + AcceptedIn(Log([outcome]))
  {
    match outcome
    case Failed => assert db.raw + [] == db.raw;
    case Processed(entries) =>
      EntriesAreInserts(s, db, entries, db.inbox[claim.id].blocked);
      assert Log([outcome]) == entries + [] == entries;
  }

  lemma RestMatches(s: Site, db: Db, claims: seq<Claim>, outcomes: seq<Outcome>)
    requires |claims| == |outcomes| > 0 && Claimed(db, claims) && DistinctClaims(claims)
             && EntriesMatch(db, claims, outcomes)
    requires ApplyOutcome(s, db, claims[0], outcomes[0])
             == RunJob(s, db, JobOf(claims[0], outcomes[0]))
    ensures var db' := ApplyOutcome(s, db, claims[0], outcomes[0]);
            && Claimed(db', claims[1..]) && DistinctClaims(claims[1..]) && EntriesMatch(db', claims[1..], outcomes[1..])
  {
    var db' := ApplyOutcome(s, db, claims[0], outcomes[0]);
    var job := JobOf(claims[0], outcomes[0]);
    forall i | 0 <= i < |outcomes[1..]| && outcomes[1..][i].Processed?
      ensures EventsIn(outcomes[1..][i].entries) == db'.inbox[claims[1..][i].id].events
    {
      RunJobOthers(s, db, job, claims[i + 1].id);
    }
  }

  /** The first outcome's decisions, and the rest's on the rows the first one leaves. */
  lemma FirstDecided(raw: seq<Event>, outcomes: seq<Outcome>)
    requires outcomes != [] && Decided(raw, Log(outcomes))
    ensures outcomes[0].Processed? ==> Decided(raw, outcomes[0].entries)
    ensures Decided(raw + AcceptedIn(Log([outcomes[0]])), Log(outcomes[1..]))
    ensures AcceptedIn(Log(outcomes)) == AcceptedIn(Log([outcomes[0]])) + AcceptedIn(Log(outcomes[1..]))
  {
    var first := if outcomes[0].Processed? then outcomes[0].entries else [];
    assert Log([outcomes[0]]) == first;
    DecidedAppend(raw, first, Log(outcomes[1..]));
    AcceptedAppend(first, Log(outcomes[1..]));
  }

  lemma RunJobsHead(s: Site, db: Db, job: Inbox.Job, rest: seq<Inbox.Job>)
    requires job.id in db.inbox && AllKnown(RunJob(s, db, job), rest)
    ensures AllKnown(db, [job] + rest)
    ensures RunJobs(s, db, [job] + rest) == RunJobs(s, RunJob(s, db, job), rest)
  {
    var jobs := [job] + rest;
    assert jobs[0] == job && jobs[1..] == rest;
    assert forall i :: 1 <= i < |jobs| ==> jobs[i] == rest[i - 1];
  }

  /** What the first outcome leaves the rest of the transaction to do. */
  lemma Peel(s: Site, db: Db, claims: seq<Claim>, outcomes: seq<Outcome>)
    requires |claims| == |outcomes| > 0 && Claimed(db, claims) && DistinctClaims(claims)
    requires EntriesMatch(db, claims, outcomes) && Decided(db.raw, Log(outcomes))
    ensures var db' := ApplyOutcome(s, db, claims[0], outcomes[0]);
            && db' == RunJob(s, db, JobOf(claims[0], outcomes[0]))
            && Claimed(db', claims[1..]) && DistinctClaims(claims[1..]) && EntriesMatch(db', claims[1..], outcomes[1..])
            && Decided(db'.raw, Log(outcomes[1..]))
            && db'.raw + AcceptedIn(Log(outcomes[1..])) == db.raw + AcceptedIn(Log(outcomes))
  {
    hide Decided;
    FirstDecided(db.raw, outcomes);
    OutcomeIsJob(s, db, claims[0], outcomes[0]);
    RestMatches(s, db, claims, outcomes);
    var a, b := AcceptedIn(Log([outcomes[0]])), AcceptedIn(Log(outcomes[1..]));
    Seqs.Assoc(db.raw, a, b);
  }

  /** Committing is running the transaction's jobs one after another on the rows committed so far. */
  lemma {:induction false} CommitIsSerial(s: Site, db: Db, claims: seq<Claim>, outcomes: seq<Outcome>)
    requires |claims| == |outcomes| && Claimed(db, claims) && DistinctClaims(claims)
    requires EntriesMatch(db, claims, outcomes) && Decided(db.raw, Log(outcomes))
    ensures AllKnown(db, JobsOf(claims, outcomes))
    ensures ApplyOutcomes(s, db, claims, outcomes) == RunJobs(s, db, JobsOf(claims, outcomes))
    ensures ApplyOutcomes(s, db, claims, outcomes).raw == db.raw + AcceptedIn(Log(outcomes))
    decreases |claims|
  {
    if claims == [] {
      assert db.raw + [] == db.raw;
    } else {
      Peel(s, db, claims, outcomes);
      CommitIsSerial(s, ApplyOutcome(s, db, claims[0], outcomes[0]), claims[1..], outcomes[1..]);
      RunJobsHead(s, db, JobOf(claims[0], outcomes[0]), JobsOf(claims[1..], outcomes[1..]));
    }
  }

  // ---- Every run --------------------------------------------------------------------------------------------

  /** The claimed rows are still waiting, with the attempts that were read. */
  ghost predicate ClaimsHold(db: Db, claims: seq<Claim>) {
    && Claimed(db, claims) && DistinctClaims(claims)
    && (forall i :: 0 <= i < |claims| ==> Current(db, Inbox.Job(claims[i].id, claims[i].attempts, false)))
  }

  ghost predicate TxnOk(db: Db, t: Txn) {
    && ClaimsHold(db, t.claims)
    && |t.outcomes| <= |t.claims| && EntriesMatch(db, t.claims, t.outcomes)
    && (if |t.outcomes| < |t.claims| then EventsIn(t.current) <= db.inbox[t.claims[|t.outcomes|].id].events
        else t.current == [])
    && Decided(db.raw, Log(t.outcomes) + t.current)
  }

  /** Two open transactions claim different rows and hold uncommitted events with different ids. */
  ghost predicate Apart(t: Txn, u: Txn) {
    && (forall i, j :: 0 <= i < |t.claims| && 0 <= j < |u.claims| ==> t.claims[i].id != u.claims[j].id)
    && Disjoint(Pending(t), Pending(u)) && Disjoint(Pending(u), Pending(t))
  }

  ghost predicate Inv(s: Site, st: State) {
    && Sound(s, st.db)
    && (forall w :: w in st.txns ==> TxnOk(st.db, st.txns[w]))
    && (forall v, w :: v in st.txns && w in st.txns && v != w ==> Apart(st.txns[v], st.txns[w]))
  }

  const EMPTY_DB := Db([], NO_TABLES, Quality(0, 0, 0), map[], [], [], [])

  function Enqueued(db: Db, id: int, events: seq<Event>, blocked: nat): Db {
    db.(inbox := db.inbox[id := InboxRow(events, blocked, 0, false)])
  }

  lemma EnqueueSound(s: Site, db: Db, id: int, events: seq<Event>, blocked: nat)
    requires Sound(s, db) && id !in db.inbox
    ensures Sound(s, Enqueued(db, id, events, blocked))
  {
    DeliveredSame(db.inbox, Enqueued(db, id, events, blocked).inbox, db.done);
    assert multiset(db.failures)[id] == 0;
  }

  lemma EnqueueLeavesTxn(db: Db, id: int, events: seq<Event>, blocked: nat, t: Txn)
    requires TxnOk(db, t) && id !in db.inbox
    ensures TxnOk(Enqueued(db, id, events, blocked), t)
  {
    hide Decided;
  }

  lemma DeliverKeeps(s: Site, st: State, id: int, events: seq<Event>, blocked: nat)
    requires Inv(s, st) && id !in st.db.inbox
    ensures Inv(s, Next(s, st, Deliver(id, events, blocked)))
  {
    hide Sound, TxnOk, Apart;
    EnqueueSound(s, st.db, id, events, blocked);
    forall w | w in st.txns
      ensures TxnOk(Enqueued(st.db, id, events, blocked), st.txns[w])
    {
      EnqueueLeavesTxn(st.db, id, events, blocked, st.txns[w]);
    }
  }

  lemma BegunOk(db: Db, claims: seq<Claim>)
    requires ClaimsHold(db, claims)
    ensures TxnOk(db, Txn(claims, [], [])) && Pending(Txn(claims, [], [])) == []
  {
    hide ClaimsHold;
    assert Log([]) + [] == [];
    assert EventsIn([]) == [];
  }

  /** The claimed rows are locked by nobody else. */
  lemma BegunApart(st: State, w: nat, claims: seq<Claim>, v: nat)
    requires Enabled(st, Begin(w, claims)) && v in st.txns
    ensures var t := Txn(claims, [], []); Pending(t) == [] ==> Apart(st.txns[v], t) && Apart(t, st.txns[v])
  {
    hide Pending;
    forall i, j | 0 <= i < |st.txns[v].claims| && 0 <= j < |claims|
      ensures st.txns[v].claims[i].id != claims[j].id
    {
      assert !Locked(st, claims[j].id);
    }
  }

  lemma ClaimsEnabled(st: State, w: nat, claims: seq<Claim>)
    requires Enabled(st, Begin(w, claims))
    ensures ClaimsHold(st.db, claims)
  {
  }

  lemma BeginKeeps(s: Site, st: State, w: nat, claims: seq<Claim>)
    requires Inv(s, st) && Enabled(st, Begin(w, claims))
    ensures Inv(s, Next(s, st, Begin(w, claims)))
  {
    hide Sound, TxnOk, Apart, Pending, ClaimsHold;
    ClaimsEnabled(st, w, claims);
    BegunOk(st.db, claims);
    forall v | v in st.txns
      ensures Apart(st.txns[v], Txn(claims, [], [])) && Apart(Txn(claims, [], []), st.txns[v])
    {
      BegunApart(st, w, claims, v);
    }
  }

  /** Replacing one transaction keeps the rest of the invariant. */
  lemma ReplaceKeeps(s: Site, st: State, w: nat, t: Txn)
    requires Inv(s, st) && w in st.txns && t.claims == st.txns[w].claims && TxnOk(st.db, t)
    requires forall v :: v in st.txns && v != w ==>
               Disjoint(Pending(t), Pending(st.txns[v])) && Disjoint(Pending(st.txns[v]), Pending(t))
    ensures Inv(s, st.(txns := st.txns[w := t]))
  {
    hide Sound, TxnOk, Disjoint, Pending;
    forall v | v in st.txns && v != w
      ensures Apart(st.txns[v], t) && Apart(t, st.txns[v])
    {
      assert Apart(st.txns[v], st.txns[w]);
    }
  }

  function Inserted(db: Db, t: Txn, e: Event): Txn {
    t.(current := t.current + [Entry(e, !Stored(db.raw + Pending(t), e))])
  }

  lemma InsertedOk(db: Db, t: Txn, e: Event)
    requires TxnOk(db, t) && |t.outcomes| < |t.claims|
    requires var events := db.inbox[t.claims[|t.outcomes|].id].events;
             |t.current| < |events| && events[|t.current|] == e
    ensures TxnOk(db, Inserted(db, t, e))
    ensures Pending(Inserted(db, t, e)) == Pending(t) + if Stored(db.raw + Pending(t), e) then [] else [e]
  {
    var entry := Entry(e, !Stored(db.raw + Pending(t), e));
    var log := Log(t.outcomes) + t.current;
    assert Log(t.outcomes) + (t.current + [entry]) == log + [entry];
    DecidedAppend(db.raw, log, [entry]);
    AcceptedAppend(log, [entry]);
    assert AcceptedIn([entry]) == if entry.accepted then [e] else [];
    assert EventsIn(t.current + [entry]) == EventsIn(t.current) + [e];
  }

  lemma DisjointAppend(a: seq<Event>, b: seq<Event>, e: Event)
    requires Disjoint(a, b) && Disjoint(b, a) && !Stored(b, e)
    ensures Disjoint(a + [e], b) && Disjoint(b, a + [e])
  {
  }

  lemma InsertKeeps(s: Site, st: State, w: nat)
    requires Inv(s, st) && Enabled(st, Insert(w))
    ensures Inv(s, Next(s, st, Insert(w)))
  {
    var t := st.txns[w];
    var e := Job(st, w)[|t.current|];
    InsertedOk(st.db, t, e);
    forall v | v in st.txns && v != w
      ensures Disjoint(Pending(Inserted(st.db, t, e)), Pending(st.txns[v]))
      ensures Disjoint(Pending(st.txns[v]), Pending(Inserted(st.db, t, e)))
    {
      assert Apart(t, st.txns[v]);
      DisjointAppend(Pending(t), Pending(st.txns[v]), e);
    }
    ReplaceKeeps(s, st, w, Inserted(st.db, t, e));
  }

  lemma FinishKeeps(s: Site, st: State, w: nat)
    requires Inv(s, st) && Enabled(st, Finish(w))
    ensures Inv(s, Next(s, st, Finish(w)))
  {
    var t := st.txns[w];
    assert TxnOk(st.db, t);
    var t' := Txn(t.claims, t.outcomes + [Processed(t.current)], []);
    LogAppend(t.outcomes, Processed(t.current));
    assert Log(t'.outcomes) + [] == Log(t.outcomes) + t.current;
    assert EventsIn([]) == [];
    assert TxnOk(st.db, t');
    forall v | v in st.txns && v != w
      ensures Disjoint(Pending(t'), Pending(st.txns[v])) && Disjoint(Pending(st.txns[v]), Pending(t'))
    {
      assert Apart(t, st.txns[v]);
    }
    ReplaceKeeps(s, st, w, t');
  }

  lemma RolledBackOk(db: Db, t: Txn)
    requires TxnOk(db, t) && |t.outcomes| < |t.claims|
    ensures TxnOk(db, Txn(t.claims, t.outcomes + [Failed], []))
    ensures Pending(Txn(t.claims, t.outcomes + [Failed], [])) <= Pending(t)
  {
    LogAppend(t.outcomes, Failed);
    assert Log(t.outcomes + [Failed]) + [] == Log(t.outcomes);
    DecidedAppend(db.raw, Log(t.outcomes), t.current);
    AcceptedAppend(Log(t.outcomes), t.current);
    assert EventsIn([]) == [];
  }

  lemma FailJobKeeps(s: Site, st: State, w: nat)
    requires Inv(s, st) && Enabled(st, FailJob(w))
    ensures Inv(s, Next(s, st, FailJob(w)))
  {
    hide Sound, TxnOk;
    var t := st.txns[w];
    var t' := Txn(t.claims, t.outcomes + [Failed], []);
    RolledBackOk(st.db, t);
    forall v | v in st.txns && v != w
      ensures Disjoint(Pending(t'), Pending(st.txns[v])) && Disjoint(Pending(st.txns[v]), Pending(t'))
    {
      assert Apart(t, st.txns[v]);
    }
    ReplaceKeeps(s, st, w, t');
  }

  lemma CrashKeeps(s: Site, st: State, w: nat)
    requires Inv(s, st) && w in st.txns
    ensures Inv(s, st.(txns := st.txns - {w}))
  {
  }

  /** The committing transaction's own effect: a serial run of its jobs. */
  lemma CommitSound(s: Site, db: Db, t: Txn)
    requires Sound(s, db) && TxnOk(db, t) && |t.outcomes| == |t.claims|
    ensures AllKnown(db, JobsOf(t.claims, t.outcomes))
    ensures var db' := ApplyOutcomes(s, db, t.claims, t.outcomes);
            && db' == RunJobs(s, db, JobsOf(t.claims, t.outcomes))
            && db'.raw == db.raw + Pending(t)
            && Sound(s, db')
  {
    assert Log(t.outcomes) + [] == Log(t.outcomes);
    CommitIsSerial(s, db, t.claims, t.outcomes);
    JobsAt(t.claims, t.outcomes);
    RunJobsSound(s, db, JobsOf(t.claims, t.outcomes));
  }

  lemma DecisionsStandThrough(raw: seq<Event>, t: Txn, u: Txn)
    requires Apart(t, u) && Decided(raw, Log(u.outcomes) + u.current)
    ensures Decided(raw + Pending(t), Log(u.outcomes) + u.current)
  {
    forall e
      ensures Stored(raw + Pending(t), e) <==> Stored(raw, e) || Stored(Pending(t), e)
    {
      StoredAppend(raw, Pending(t), e);
    }
    DecisionsStand(raw, Pending(t), Log(u.outcomes) + u.current, raw + Pending(t));
  }

  lemma RowsStand(s: Site, db: Db, t: Txn, u: Txn)
    requires |t.outcomes| == |t.claims| && TxnOk(db, u) && Apart(t, u)
    requires AllKnown(db, JobsOf(t.claims, t.outcomes))
    ensures var db' := RunJobs(s, db, JobsOf(t.claims, t.outcomes));
            && ClaimsHold(db', u.claims)
            && (forall i :: 0 <= i < |u.claims| ==> db'.inbox[u.claims[i].id] == db.inbox[u.claims[i].id])
  {
    var jobs := JobsOf(t.claims, t.outcomes);
    JobsAt(t.claims, t.outcomes);
    forall i | 0 <= i < |u.claims|
      ensures RunJobs(s, db, jobs).inbox[u.claims[i].id] == db.inbox[u.claims[i].id]
      ensures Current(RunJobs(s, db, jobs), Inbox.Job(u.claims[i].id, u.claims[i].attempts, false))
    {
      assert Current(db, Inbox.Job(u.claims[i].id, u.claims[i].attempts, false));
      RunJobsOthers(s, db, jobs, u.claims[i].id);
    }
  }

  lemma TxnStands(db: Db, db': Db, u: Txn)
    requires TxnOk(db, u) && ClaimsHold(db', u.claims)
    requires forall i :: 0 <= i < |u.claims| ==> db'.inbox[u.claims[i].id] == db.inbox[u.claims[i].id]
    requires Decided(db'.raw, Log(u.outcomes) + u.current)
    ensures TxnOk(db', u)
  {
  }

  /** Another transaction's commit leaves this one's claims and decisions standing. */
  lemma OthersStand(s: Site, db: Db, t: Txn, u: Txn)
    requires Sound(s, db) && TxnOk(db, t) && |t.outcomes| == |t.claims| && TxnOk(db, u) && Apart(t, u)
    ensures TxnOk(ApplyOutcomes(s, db, t.claims, t.outcomes), u)
  {
    CommitSound(s, db, t);
    RowsStand(s, db, t, u);
    DecisionsStandThrough(db.raw, t, u);
    TxnStands(db, ApplyOutcomes(s, db, t.claims, t.outcomes), u);
  }

  lemma CommitKeeps(s: Site, st: State, w: nat)
    requires Inv(s, st) && Enabled(st, Commit(w))
    ensures Inv(s, Next(s, st, Commit(w)))
  {
    CommitSound(s, st.db, st.txns[w]);
    forall v | v in st.txns && v != w
      ensures TxnOk(Next(s, st, Commit(w)).db, st.txns[v])
    {
      OthersStand(s, st.db, st.txns[w], st.txns[v]);
    }
  }

  /** No step of any worker breaks the invariant. */
  lemma NextKeeps(s: Site, st: State, step: Step)
    requires Inv(s, st) && Enabled(st, step)
    ensures Inv(s, Next(s, st, step))
  {
    match step
    case Deliver(id, events, blocked) => DeliverKeeps(s, st, id, events, blocked);
    case Begin(w, claims) => BeginKeeps(s, st, w, claims);
    case Insert(w) => InsertKeeps(s, st, w);
    case Finish(w) => FinishKeeps(s, st, w);
    case FailJob(w) => FailJobKeeps(s, st, w);
    case Commit(w) => CommitKeeps(s, st, w);
    case Crash(w) => CrashKeeps(s, st, w);
  }

  // ---- What the invariant settles -----------------------------------------------------------------------------

  /**
   Each row was ingested at most once or dead-lettered at most once and never both, dead
   exactly when ten of its attempts failed; one raw row per accepted event; and accepted
   plus duplicate events are the events of the ingested rows.
   */
  ghost predicate Settlement(db: Db) {
    && Distinct(db.done) && Distinct(db.dead) && (forall id :: !(id in db.done && id in db.dead))
    && (forall id :: id in db.inbox ==> (id in db.dead <==> multiset(db.failures)[id] == 10))
    && (forall id :: multiset(db.failures)[id] <= 10)
    && DistinctIds(db.raw) && db.quality.accepted == |db.raw|
    && (forall i :: 0 <= i < |db.done| ==> db.done[i] in db.inbox)
    && db.quality.accepted + db.quality.duplicates == Delivered(db.inbox, db.done)
  }

  lemma StateSettled(s: Site, st: State)
    requires Inv(s, st)
    ensures Settlement(st.db) && st.db.tables == FoldAll(s, st.db.raw)
  {
    hide TxnOk, Apart;
    var db := st.db;
    assert forall id :: id !in db.inbox ==> id !in db.failures;
    assert forall id :: id !in db.failures ==> multiset(db.failures)[id] == 0;
  }
}
