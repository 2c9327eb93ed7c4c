/**
 The durable inbox and what processing its rows one after another does: the serial
 meaning that every interleaving of workers is measured against.
 */
module Inbox {
  import opened Wrappers
  import opened Seqs
  import opened Events
  import opened Derived
  import opened Folds
  import opened Agreement
  import opened Ordered
  import opened Ingestion
  import opened Arrivals

  /** A durable delivery: its events, and how many properties privacy filtering removed from it. */
  datatype InboxRow = InboxRow(events: seq<Event>, blocked: nat, attempts: nat, processed: bool)

  /** The totals of data_quality_daily. */
  datatype Quality = Quality(accepted: nat, duplicates: nat, blocked: nat)

  /**
   `done` and `failures` are history variables: the rows finished as processed, and the
   row of every failed attempt, in the order these were committed.
   */
  datatype Db = Db(
    raw: seq<Event>, tables: Tables, quality: Quality,
    inbox: map<int, InboxRow>, dead: seq<int>, done: seq<int>, failures: seq<int>)

  const MAX_RETRIES := 9

  /** One event: stored and folded if its id is new, counted as a duplicate otherwise. */
  function Insert(s: Site, db: Db, e: Event, blocked: nat): Db {
    if Stored(db.raw, e) then
      db.(quality := db.quality.(duplicates := db.quality.duplicates + 1))
    else
      db.(raw := db.raw + [e], tables := Fold(s, db.tables, e),
          quality := db.quality.(accepted := db.quality.accepted + 1, blocked := db.quality.blocked + blocked))
  }

  /** The delivery's blocked count is spent on the first event that is accepted. */
  function Spend(db: Db, e: Event, blocked: nat): nat {
    if Stored(db.raw, e) then blocked else 0
  }

  function InsertAll(s: Site, db: Db, events: seq<Event>, blocked: nat): Db
    decreases |events|
  {
    if events == [] then db
    else InsertAll(s, Insert(s, db, events[0], blocked), events[1..], Spend(db, events[0], blocked))
  }

  function Finish(db: Db, id: int): Db
    requires id in db.inbox
  {
    db.(inbox := db.inbox[id := db.inbox[id].(processed := true)], done := db.done + [id])
  }

  /** A failed attempt: counted, and on the tenth the row is finished as a dead letter. */
  function Fail(db: Db, id: int, attempts: nat): Db
    requires id in db.inbox
  {
    var row := db.inbox[id].(attempts := db.inbox[id].attempts + 1);
    if attempts >= MAX_RETRIES then
      db.(inbox := db.inbox[id := row.(processed := true)], dead := db.dead + [id], failures := db.failures + [id])
    else
      db.(inbox := db.inbox[id := row], failures := db.failures + [id])
  }

  /** One claimed row, with the attempts its worker read and whether processing it failed. */
  datatype Job = Job(id: int, attempts: nat, failed: bool)

  function RunJob(s: Site, db: Db, job: Job): (r: Db)
    requires job.id in db.inbox
    ensures r.inbox.Keys == db.inbox.Keys
  {
    if job.failed then Fail(db, job.id, job.attempts)
    else
      var row := db.inbox[job.id];
      InsertAllKeeps(s, db, row.events, row.blocked);
      Finish(InsertAll(s, db, row.events, row.blocked), job.id)
  }

  predicate AllKnown(db: Db, jobs: seq<Job>) {
    forall i :: 0 <= i < |jobs| ==> jobs[i].id in db.inbox
  }

  /** Rows one after another, in one transaction. */
  function RunJobs(s: Site, db: Db, jobs: seq<Job>): (r: Db)
    requires AllKnown(db, jobs)
    ensures r.inbox.Keys == db.inbox.Keys
    decreases |jobs|
  {
    if jobs == [] then db else RunJobs(s, RunJob(s, db, jobs[0]), jobs[1..])
  }

  lemma {:induction false} InsertAllKeeps(s: Site, db: Db, events: seq<Event>, blocked: nat)
    ensures InsertAll(s, db, events, blocked).inbox == db.inbox
    ensures InsertAll(s, db, events, blocked).dead == db.dead && InsertAll(s, db, events, blocked).done == db.done
    ensures InsertAll(s, db, events, blocked).failures == db.failures
    decreases |events|
  {
    if events != [] {
      InsertAllKeeps(s, Insert(s, db, events[0], blocked), events[1..], Spend(db, events[0], blocked));
    }
  }

  // ---- What every batch keeps ------------------------------------------------------------------

  /** How many events the listed rows hold. */
  function Delivered(inbox: map<int, InboxRow>, ids: seq<int>): nat
    requires forall i :: 0 <= i < |ids| ==> ids[i] in inbox
  {
    if ids == [] then 0
    else Delivered(inbox, ids[..|ids| - 1]) + |inbox[ids[|ids| - 1]].events|
  }

  /**
   Raw ids are unique, the derived tables are the fold of the raw rows and of nothing else, one
   raw row per acceptance.
   */
  ghost predicate RawSound(s: Site, db: Db) {
    && DistinctIds(db.raw)
    && db.tables == FoldAll(s, db.raw)
    && db.quality.accepted == |db.raw|
  }

  /** Every event of every ingested row was either accepted or counted as a duplicate. */
  ghost predicate Conserved(db: Db) {
    && (forall i :: 0 <= i < |db.done| ==> db.done[i] in db.inbox)
    && db.quality.accepted + db.quality.duplicates == Delivered(db.inbox, db.done)
  }

  /** A row is finished at most once, as ingested or as dead, and as dead exactly when its tenth attempt failed. */
  ghost predicate Settled(db: Db) {
    && Distinct(db.done) && Distinct(db.dead)
    && (forall id :: id in db.done ==> id !in db.dead)
    && (forall id :: id in db.dead || id in db.done || id in db.failures ==> id in db.inbox)
    && (forall id :: id in db.inbox ==> (db.inbox[id].processed <==> id in db.done || id in db.dead))
    && (forall id :: id in db.inbox ==> multiset(db.failures)[id] == db.inbox[id].attempts <= MAX_RETRIES + 1)
    && (forall id :: id in db.inbox ==> (id in db.dead <==> multiset(db.failures)[id] == MAX_RETRIES + 1))
  }

  ghost predicate Sound(s: Site, db: Db) {
    RawSound(s, db) && Conserved(db) && Settled(db)
  }

  lemma {:induction false} DeliveredSame(inbox: map<int, InboxRow>, inbox': map<int, InboxRow>, ids: seq<int>)
    requires forall i :: 0 <= i < |ids| ==> ids[i] in inbox && ids[i] in inbox'
    requires forall i :: 0 <= i < |ids| ==> inbox'[ids[i]].events == inbox[ids[i]].events
    ensures Delivered(inbox, ids) == Delivered(inbox', ids)
  {
    if ids != [] {
      DeliveredSame(inbox, inbox', ids[..|ids| - 1]);
    }
  }

  lemma FoldAllAppend(s: Site, raw: seq<Event>, e: Event)
    ensures FoldAll(s, raw + [e]) == Fold(s, FoldAll(s, raw), e)
  {
    assert (raw + [e])[..|raw|] == raw;
  }

  lemma InsertSound(s: Site, db: Db, e: Event, blocked: nat)
    requires RawSound(s, db)
    ensures var r := Insert(s, db, e, blocked);
            && RawSound(s, r)
            && r.quality.accepted + r.quality.duplicates == db.quality.accepted + db.quality.duplicates + 1
            && r.quality.blocked + Spend(db, e, blocked) == db.quality.blocked + blocked
            && db.raw <= r.raw && Stored(r.raw, e)
  {
    hide Fold, FoldAll;
    FoldAllAppend(s, db.raw, e);
    if !Stored(db.raw, e) {
      var raw := db.raw + [e];
      assert raw[|db.raw|] == e;
      assert forall i :: 0 <= i < |db.raw| ==> raw[i] == db.raw[i];
    }
  }

  /** Nothing more is spent than the delivery's blocked count, and all of it once anything was accepted. */
  lemma {:induction false} InsertAllSound(s: Site, db: Db, events: seq<Event>, blocked: nat)
    requires RawSound(s, db)
    ensures var r := InsertAll(s, db, events, blocked);
            && RawSound(s, r) && db.raw <= r.raw
            && r.quality.accepted + r.quality.duplicates == db.quality.accepted + db.quality.duplicates + |events|
            && r.quality.blocked == db.quality.blocked
               + (if r.quality.accepted > db.quality.accepted then blocked else 0)
    decreases |events|
  {
    if events != [] {
      InsertSound(s, db, events[0], blocked);
      InsertAllSound(s, Insert(s, db, events[0], blocked), events[1..], Spend(db, events[0], blocked));
    }
  }

  lemma FinishSettles(db: Db, r: Db, id: int)
    requires id in db.inbox && !db.inbox[id].processed && Conserved(db) && Settled(db)
    requires r.inbox == db.inbox[id := db.inbox[id].(processed := true)] && r.dead == db.dead
             && r.done == db.done + [id]
             && r.failures == db.failures
    requires r.quality.accepted + r.quality.duplicates
             == db.quality.accepted + db.quality.duplicates + |db.inbox[id].events|
    ensures Conserved(r) && Settled(r)
  {
    assert r.done[..|r.done| - 1] == db.done;
    DeliveredSame(db.inbox, r.inbox, db.done);
  }

  lemma FailSettles(db: Db, id: int)
    requires id in db.inbox && !db.inbox[id].processed && Conserved(db) && Settled(db)
    ensures var r := Fail(db, id, db.inbox[id].attempts);
            Conserved(r) && Settled(r)
  {
    DeliveredSame(db.inbox, Fail(db, id, db.inbox[id].attempts).inbox, db.done);
  }

  /** The job's row is waiting, and the attempts its worker read are current. */
  predicate Current(db: Db, job: Job) {
    job.id in db.inbox && !db.inbox[job.id].processed && db.inbox[job.id].attempts == job.attempts
  }

  lemma RunJobSound(s: Site, db: Db, job: Job)
    requires Sound(s, db) && Current(db, job)
    ensures Sound(s, RunJob(s, db, job))
  {
    if job.failed {
      FailSettles(db, job.id);
    } else {
      var row := db.inbox[job.id];
      var mid := InsertAll(s, db, row.events, row.blocked);
      InsertAllKeeps(s, db, row.events, row.blocked);
      InsertAllSound(s, db, row.events, row.blocked);
      FinishSettles(db, Finish(mid, job.id), job.id);
    }
  }

  lemma RunJobOthers(s: Site, db: Db, job: Job, id: int)
    requires job.id in db.inbox && id in db.inbox && id != job.id
    ensures RunJob(s, db, job).inbox[id] == db.inbox[id]
  {
    if !job.failed {
      InsertAllKeeps(s, db, db.inbox[job.id].events, db.inbox[job.id].blocked);
    }
  }

  predicate DistinctJobs(jobs: seq<Job>) {
    forall i, j :: 0 <= i < j < |jobs| ==> jobs[i].id != jobs[j].id
  }

  predicate AllCurrent(db: Db, jobs: seq<Job>) {
    forall i :: 0 <= i < |jobs| ==> Current(db, jobs[i])
  }

  lemma RestStaysCurrent(s: Site, db: Db, jobs: seq<Job>)
    requires jobs != [] && DistinctJobs(jobs) && AllCurrent(db, jobs)
    ensures DistinctJobs(jobs[1..])
    ensures AllCurrent(RunJob(s, db, jobs[0]), jobs[1..])
  {
    var db' := RunJob(s, db, jobs[0]);
    forall i | 0 <= i < |jobs[1..]|
      ensures Current(db', jobs[1..][i])
    {
      assert jobs[1..][i] == jobs[i + 1];
      assert Current(db, jobs[i + 1]);
      RunJobOthers(s, db, jobs[0], jobs[i + 1].id);
    }
  }

  /** Any batch of claimed rows, with any of them failing, keeps the database sound. */
  lemma {:induction false} RunJobsSound(s: Site, db: Db, jobs: seq<Job>)
    requires Sound(s, db) && DistinctJobs(jobs)
    requires AllKnown(db, jobs)
    requires AllCurrent(db, jobs)
    ensures Sound(s, RunJobs(s, db, jobs))
    decreases |jobs|
  {
    if jobs != [] {
      RunJobSound(s, db, jobs[0]);
      RestStaysCurrent(s, db, jobs);
      RunJobsSound(s, RunJob(s, db, jobs[0]), jobs[1..]);
    }
  }

  lemma {:induction false} RunJobsOthers(s: Site, db: Db, jobs: seq<Job>, id: int)
    requires AllKnown(db, jobs) && id in db.inbox
    requires forall i :: 0 <= i < |jobs| ==> jobs[i].id != id
    ensures RunJobs(s, db, jobs).inbox[id] == db.inbox[id]
    decreases |jobs|
  {
    if jobs != [] {
      RunJobOthers(s, db, jobs[0], id);
      RunJobsOthers(s, RunJob(s, db, jobs[0]), jobs[1..], id);
    }
  }
}
