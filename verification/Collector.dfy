/**
 The collector's statements in the order it runs them, on tables that are updated in
 place: one method per statement, a savepoint per inbox row, one batch per transaction.
 */
module Collector {
  import opened Wrappers
  import opened Seqs
  import opened Events
  import opened Derived
  import opened Folds
  import opened Agreement
  import opened Ingestion
  import opened Arrivals
  import opened Inbox
  import opened Repairs

  /** What a savepoint brings back: everything a job's statements can write. */
  datatype Savepoint = Savepoint(raw: seq<Event>, tables: Tables, quality: Quality)

  const BATCH_LIMIT := 100

  /**
   Statements of one event that can fail: raw insert, quality, identity, visitor, touch, session,
   visitor session, daily.
   */
  const STATEMENTS := 8

  class Store {
    const site: Site
    var raw: seq<Event>
    var quality: Quality
    var visitors: map<Key, VisitorRow>
    var identities: map<Key, Identity>
    var visitorSessions: map<Key, VisitorSessionRow>
    var sessions: map<Key, SessionRow>
    var days: map<Key, DayTally>
    var dayVisitors: map<Key, VisitorRow>
    var daySessions: map<Key, DaySessionRow>
    var inbox: map<int, InboxRow>
    var dead: seq<int>
    ghost var done: seq<int>
    ghost var failures: seq<int>

    constructor (site: Site)
      ensures this.site == site && Contents() == Db([], NO_TABLES, Quality(0, 0, 0), map[], [], [], [])
    {
      this.site := site;
      raw, quality := [], Quality(0, 0, 0);
      visitors, identities, visitorSessions, sessions := map[], map[], map[], map[];
      days, dayVisitors, daySessions := map[], map[], map[];
      inbox, dead, done, failures := map[], [], [], [];
    }

    function AllTables(): Tables
      reads this
    {
      Tables(visitors, identities, visitorSessions, sessions, days, dayVisitors, daySessions)
    }

    ghost function Contents(): Db
      reads this
    {
      Db(raw, AllTables(), quality, inbox, dead, done, failures)
    }

    // ---- Rebuilds ---------------------------------------------------------------------------------

    /** RebuildSiteDailyAggregates, and RebuildEnvironmentDateRange with its narrower scope. */
    method RebuildDaily(scope: Key -> bool)
      modifies this`days, this`dayVisitors, this`daySessions
      ensures AllTables() == DailyRebuilt(site, raw, old(AllTables()), scope)
    {
      hide RebuildDays, DayVisitorsFrom, DaySessionsFrom, Filled, Deleted;
      daySessions := Deleted(daySessions, scope);
      dayVisitors := Deleted(dayVisitors, scope);
      days := Deleted(days, scope);
      days := Filled(days, RebuildDays(site, raw), scope);
      dayVisitors := Filled(dayVisitors, DayVisitorsFrom(site, raw, identities), scope);
      daySessions := Filled(daySessions, DaySessionsFrom(site, raw, identities), scope);
    }

    /** RebuildSiteDerivedData: every table of the site is emptied, then filled in order of what reads what. */
    method RebuildSite(x: string)
      modifies this`visitors, this`identities, this`visitorSessions, this`sessions, this`days, this`dayVisitors,
               this`daySessions
      ensures AllTables() == SiteRebuilt(site, raw, old(AllTables()), x)
    {
      hide RebuildVisitors, RebuildIdentities, RebuildVisitorSessions, RebuildSessions, RebuildDays, DayVisitorsFrom,
           DaySessionsFrom, Filled, Deleted;
      var scope := OfSite(x);
      ghost var was := AllTables();
      sessions := Deleted(sessions, scope);
      visitorSessions := Deleted(visitorSessions, scope);
      identities := Deleted(identities, scope);
      visitors := Deleted(visitors, scope);
      visitors := Filled(visitors, RebuildVisitors(site, raw), scope);
      identities := Filled(identities, RebuildIdentities(site, raw), scope);
      visitorSessions := Filled(visitorSessions, RebuildVisitorSessions(site, raw), scope);
      sessions := Filled(sessions, RebuildSessions(site, raw), scope);
      RebuildDaily(scope);
    }

    // ---- The statements of one event ------------------------------------------------------------

    method UpdateVisitorIdentity(e: Event)
      requires e.user.Some?
      modifies this`identities, this`visitors, this`visitorSessions, this`dayVisitors, this`daySessions
      ensures var t := old(AllTables());
              && LinkedIdentity(t, e).Some?
              && identities == t.identities[VisitorOf(e) := LinkedIdentity(t, e).value]
              && visitors == RelinkVisits(t.visitors, e, Link(t, e))
              && visitorSessions == RelinkVisitorSessions(t.visitorSessions, e, Link(t, e))
              && dayVisitors == RelinkVisits(t.dayVisitors, e, Link(t, e))
              && daySessions == RelinkDaySessions(t.daySessions, e, Link(t, e))
    {
      var k := VisitorOf(e);
      var seen := if k in visitors then visitors[k].tally.span.first else e.ts;
      if k !in identities {
        identities := identities[k := Identity(e.user.value, seen, e.ts, e.ts)];
      } else {
        var i := identities[k];
        var user := if e.ts >= i.last then e.user.value else i.user;
        var linked := if e.ts < i.last then i.linked else if i.user == e.user.value then Min(i.linked, e.ts) else e.ts;
        identities := identities[k := Identity(user, Min(i.first, seen), linked, Max(i.last, e.ts))];
      }
      var link := Some(identities[k].user);
      visitors := RelinkVisits(visitors, e, link);
      visitorSessions := RelinkVisitorSessions(visitorSessions, e, link);
      dayVisitors := RelinkVisits(dayVisitors, e, link);
      daySessions := RelinkDaySessions(daySessions, e, link);
    }

    /** The visitor upsert; returns the canonical user the row ends up with. */
    method UpdateVisitor(e: Event) returns (user: Option<string>)
      modifies this`visitors
      ensures var k := VisitorOf(e);
              var given := Coalesce(UserIn(At(identities, k)), e.user);
              && visitors == old(visitors)[k := Visit(At(old(visitors), k), e, given)]
              && user == visitors[k].user
    {
      var k := VisitorOf(e);
      var given := Coalesce(if k in identities then Some(identities[k].user) else None, e.user);
      if k !in visitors {
        visitors := visitors[k := FirstVisit(e, given)];
      } else {
        var was := visitors[k];
        var props := if e.userProps != map[] && e.ts >= was.tally.span.last then e.userProps else was.props;
        visitors := visitors[k := VisitorRow(
          if given.Some? then given else was.user,
          VisitorTally(Span(Min(was.tally.span.first, e.ts), Max(was.tally.span.last, e.ts)),
                       was.tally.events + 1, was.tally.conversions + Flag(e.conversion)),
          props)];
      }
      user := visitors[k].user;
    }

    method TouchIdentity(e: Event)
      modifies this`identities
      ensures identities ==
              if VisitorOf(e) in old(identities)
              then old(identities)[VisitorOf(e) := Touched(At(old(identities), VisitorOf(e)), e.ts).value]
              else old(identities)
    {
      var k := VisitorOf(e);
      if k in identities {
        identities := identities[k := identities[k].(last := Max(identities[k].last, e.ts))];
      }
    }

    method UpdateSession(e: Event, user: Option<string>)
      modifies this`sessions
      ensures sessions == FoldSessions(old(sessions), e, user, site.threshold(e.site))
    {
      var k := SessionOf(e);
      var threshold := site.threshold(e.site);
      if k !in sessions {
        sessions := sessions[k := SessionRow(e.visitor, user, FirstTally(e, threshold), FirstJourney(e))];
      } else {
        var was := sessions[k];
        sessions := sessions[k := SessionRow(e.visitor, Coalesce(user, was.user), NextTally(was.tally, e, threshold),
                                             NextJourney(was.journey, was.tally.span, e))];
      }
    }

    method UpdateVisitorSession(e: Event, user: Option<string>)
      modifies this`visitorSessions
      ensures var k := VisitorSessionOf(e);
              visitorSessions == old(visitorSessions)[k := VisitVisitorSession(At(old(visitorSessions), k), e, user)]
    {
      var k := VisitorSessionOf(e);
      if k !in visitorSessions {
        visitorSessions := visitorSessions[k := VisitorSessionRow(user, Span(e.ts, e.ts))];
      } else {
        var was := visitorSessions[k];
        visitorSessions := visitorSessions[k := VisitorSessionRow(Coalesce(user, was.user), Widen(was.span, e.ts))];
      }
    }

    method UpdateDailyAggregates(e: Event, user: Option<string>)
      modifies this`days, this`dayVisitors, this`daySessions
      ensures days == FoldDays(old(days), DayOf(site, e), e)
      ensures var k := DayVisitorOf(site, e);
              dayVisitors == old(dayVisitors)[k := Visit(At(old(dayVisitors), k), e, user)]
      ensures var k := DaySessionOf(site, e);
              daySessions == old(daySessions)[k := VisitDaySession(At(old(daySessions), k), e, user)]
    {
      var d, v, n := DayOf(site, e), DayVisitorOf(site, e), DaySessionOf(site, e);
      if d !in days {
        days := days[d := DayTally(1, Flag(e.name == "page_view"), Flag(e.conversion), Revenue(e))];
      } else {
        var was := days[d];
        days := days[d := DayTally(was.events + 1, was.pageViews + Flag(e.name == "page_view"),
                                   was.conversions + Flag(e.conversion), was.revenue + Revenue(e))];
      }
      dayVisitors := dayVisitors[v := Visit(At(dayVisitors, v), e, user)];
      if n !in daySessions {
        daySessions := daySessions[n := DaySessionRow(e.visitor, user, Span(e.ts, e.ts))];
      } else {
        var was := daySessions[n];
        daySessions := daySessions[n := DaySessionRow(e.visitor, Coalesce(user, was.user), Widen(was.span, e.ts))];
      }
    }

    // ---- One event -------------------------------------------------------------------------------------

    /**
     Identify, visitor and touch statements. `failing` names the statement the database
     refuses, if any; what ran before it has already been written.
     */
    method FoldVisitorHalf(e: Event, failing: Option<nat>) returns (ok: bool, user: Option<string>)
      modifies this`identities, this`visitors, this`visitorSessions, this`dayVisitors, this`daySessions
      ensures var t := old(AllTables());
              ok ==>
                && user == Canonical(t, e)
                && identities == FoldIdentities(t, e)
                && visitors == FoldVisits(t.visitors, VisitorOf(e), e, Link(t, e), Coalesce(Link(t, e), e.user))
                && visitorSessions == RelinkVisitorSessions(t.visitorSessions, e, Link(t, e))
                && dayVisitors == RelinkVisits(t.dayVisitors, e, Link(t, e))
                && daySessions == RelinkDaySessions(t.daySessions, e, Link(t, e))
      ensures failing.None? ==> ok
      ensures ok ==> failing != Some(3) && failing != Some(4) && (failing == Some(2) ==> e.user.None?)
    {
      user := None;
      if e.user.Some? {
        if failing == Some(2) { return false, None; }
        UpdateVisitorIdentity(e);
      } else {
        SkippedRelink(AllTables(), e);
      }
      if failing == Some(3) { return false, None; }
      user := UpdateVisitor(e);
      if failing == Some(4) { return false, user; }
      if user.Some? {
        TouchIdentity(e);
      }
      ok := true;
    }

    /** Every statement of an accepted event after its raw row and its quality count. */
    method FoldEvent(e: Event, failing: Option<nat>) returns (ok: bool)
      modifies this`identities, this`visitors, this`visitorSessions, this`sessions, this`days, this`dayVisitors,
               this`daySessions
      ensures ok ==> AllTables() == Fold(site, old(AllTables()), e)
      ensures failing.None? ==> ok
      ensures ok ==> failing.None? || failing.value < 3 || failing.value >= STATEMENTS
    {
      hide Fold, Link, Canonical, FoldIdentities, Visit, VisitSession, VisitVisitorSession, VisitDay, VisitDaySession;
      ghost var t := AllTables();
      var user;
      ok, user := FoldVisitorHalf(e, failing);
      if !ok || failing == Some(5) { return false; }
      UpdateSession(e, user);
      if failing == Some(6) { return false; }
      UpdateVisitorSession(e, user);
      if failing == Some(7) { return false; }
      UpdateDailyAggregates(e, user);
      StatementsFold(site, t, AllTables(), e);
    }

    // ---- One inbox row ----------------------------------------------------------------------------------

    /** One event: its raw row, and its counts and folds if the row is new. */
    method ProcessEvent(e: Event, blocked: nat, failing: Option<nat>) returns (ok: bool, left: nat)
      modifies this`raw, this`quality, this`identities, this`visitors, this`visitorSessions, this`sessions,
               this`days, this`dayVisitors, this`daySessions
      ensures ok && Stored(old(raw), e) ==>
                raw == old(raw) && AllTables() == old(AllTables()) && left == blocked
                && quality == old(quality).(duplicates := old(quality).duplicates + 1)
      ensures ok && !Stored(old(raw), e) ==>
                raw == old(raw) + [e] && AllTables() == Fold(site, old(AllTables()), e) && left == 0
                && quality == old(quality).(accepted := old(quality).accepted + 1,
                                            blocked := old(quality).blocked + blocked)
      ensures failing.None? ==> ok
      ensures failing == Some(0) ==> !ok
    {
      left := blocked;
      if failing == Some(0) { return false, left; }
      if Stored(raw, e) {
        quality := quality.(duplicates := quality.duplicates + 1);
        return true, left;
      }
      raw := raw + [e];
      if failing == Some(1) { return false, left; }
      quality := quality.(accepted := quality.accepted + 1, blocked := quality.blocked + blocked);
      left := 0;
      ok := FoldEvent(e, failing);
    }

    /** The events of one row. `faults` says which statement of which event fails, if any. */
    method ProcessOne(id: int, faults: (int, nat) -> Option<nat>) returns (ok: bool)
      requires id in inbox
      modifies this`raw, this`quality, this`identities, this`visitors, this`visitorSessions, this`sessions,
               this`days, this`dayVisitors, this`daySessions
      ensures ok ==> Contents() == InsertAll(site, old(Contents()), inbox[id].events, inbox[id].blocked)
      ensures (forall i: nat :: i < |inbox[id].events| ==> faults(id, i).None?) ==> ok
      ensures (exists i: nat :: i < |inbox[id].events| && faults(id, i) == Some(0)) ==> !ok
    {
      hide InsertAll, Fold;
      var events, blocked := inbox[id].events, inbox[id].blocked;
      ghost var all := InsertAll(site, Contents(), events, blocked);
      ghost var i0 := inbox;
      assert events[0..] == events;
      var i: nat := 0;
      while i < |events|
        invariant i <= |events| && inbox == i0
        invariant InsertAll(site, Contents(), events[i..], blocked) == all
        invariant forall j: nat :: j < i ==> faults(id, j) != Some(0)
      {
        ghost var before, held := Contents(), blocked;
        ok, blocked := ProcessEvent(events[i], blocked, faults(id, i));
        if !ok { return false; }
        EventInserted(site, before, Contents(), events, i, held, blocked);
        i := i + 1;
      }
      NothingLeft(site, Contents(), events, blocked);
      ok := true;
    }

    // ---- One batch -----------------------------------------------------------------------------------------

    method Save() returns (sp: Savepoint)
      ensures sp == Savepoint(raw, AllTables(), quality)
    {
      sp := Savepoint(raw, AllTables(), quality);
    }

    method RollbackTo(sp: Savepoint)
      modifies this`raw, this`quality, this`identities, this`visitors, this`visitorSessions, this`sessions,
               this`days, this`dayVisitors, this`daySessions
      ensures Savepoint(raw, AllTables(), quality) == sp
    {
      raw, quality := sp.raw, sp.quality;
      visitors, identities, visitorSessions := sp.tables.visitors, sp.tables.identities, sp.tables.visitorSessions;
      sessions, days := sp.tables.sessions, sp.tables.days;
      dayVisitors, daySessions := sp.tables.dayVisitors, sp.tables.daySessions;
    }

    /** One claimed row under its savepoint: ingested, or rolled back and counted, or dead-lettered. */
    method ProcessRow(id: int, faults: (int, nat) -> Option<nat>) returns (job: Job)
      requires id in inbox
      modifies this
      ensures job.id == id && job.attempts == old(inbox)[id].attempts
      ensures Contents() == RunJob(site, old(Contents()), job)
      ensures (forall i: nat :: i < |old(inbox)[id].events| ==> faults(id, i).None?) ==> !job.failed
      ensures (exists i: nat :: i < |old(inbox)[id].events| && faults(id, i) == Some(0)) ==> job.failed
    {
      var sp := Save();
      var row := inbox[id];
      var ok := ProcessOne(id, faults);
      job := Job(id, row.attempts, !ok);
      if ok {
        inbox := inbox[id := row.(processed := true)];
        done := done + [id];
      } else {
        RollbackTo(sp);
        if row.attempts >= MAX_RETRIES {
          dead := dead + [id];
          inbox := inbox[id := row.(attempts := row.attempts + 1, processed := true)];
        } else {
          inbox := inbox[id := row.(attempts := row.attempts + 1)];
        }
        failures := failures + [id];
      }
    }

    /** SELECT .. ORDER BY id LIMIT 100 over the rows that are due and that no other worker has locked. */
    method Claim(due: set<int>) returns (ids: seq<int>)
      ensures |ids| <= BATCH_LIMIT
      ensures forall i, j :: 0 <= i < j < |ids| ==> ids[i] < ids[j]
      ensures forall i :: 0 <= i < |ids| ==> ids[i] in due && ids[i] in inbox && !inbox[ids[i]].processed
      ensures forall id :: id in due && id in inbox && !inbox[id].processed && id !in ids ==>
                |ids| == BATCH_LIMIT && (forall i :: 0 <= i < |ids| ==> ids[i] < id)
    {
      ids := [];
      var rest := set id | id in due && id in inbox && !inbox[id].processed;
      while rest != {} && |ids| < BATCH_LIMIT
        invariant |ids| <= BATCH_LIMIT
        invariant forall i, j :: 0 <= i < j < |ids| ==> ids[i] < ids[j]
        invariant forall i :: 0 <= i < |ids| ==> ids[i] in due && ids[i] in inbox && !inbox[ids[i]].processed
        invariant forall i, id :: 0 <= i < |ids| && id in rest ==> ids[i] < id
        invariant forall id :: id in due && id in inbox && !inbox[id].processed <==> id in rest || id in ids
        decreases |rest|
      {
        var least := Least(rest);
        ids, rest := ids + [least], rest - {least};
      }
    }

    /** One transaction: claim, then one row after another. */
    method ProcessBatch(due: set<int>, faults: (int, nat) -> Option<nat>) returns (jobs: seq<Job>)
      modifies this
      ensures AllKnown(old(Contents()), jobs) && Contents() == RunJobs(site, old(Contents()), jobs)
      ensures |jobs| <= BATCH_LIMIT && DistinctJobs(jobs) && AllCurrent(old(Contents()), jobs)
      ensures Sound(site, old(Contents())) ==> Sound(site, Contents())
    {
      hide Sound, RunJob;
      ghost var start := Contents();
      var ids := Claim(due);
      jobs := [];
      var i := 0;
      while i < |ids|
        invariant 0 <= i <= |ids| && |jobs| == i && inbox.Keys == start.inbox.Keys
        invariant forall k :: 0 <= k < i ==> jobs[k].id == ids[k] && Current(start, jobs[k])
        invariant AllKnown(start, jobs) && Contents() == RunJobs(site, start, jobs)
        invariant forall k :: i <= k < |ids| ==> inbox[ids[k]] == start.inbox[ids[k]]
      {
        ghost var before := Contents();
        var job := ProcessRow(ids[i], faults);
        RunJobsAppend(site, start, jobs, job);
        forall k | i + 1 <= k < |ids|
          ensures inbox[ids[k]] == start.inbox[ids[k]]
        {
          RunJobOthers(site, before, job, ids[k]);
        }
        jobs := jobs + [job];
        i := i + 1;
      }
      if Sound(site, start) {
        RunJobsSound(site, start, jobs);
      }
    }
  }

  method Least(ids: set<int>) returns (least: int)
    requires ids != {}
    ensures least in ids && forall id :: id in ids ==> least <= id
  {
    NonEmpty(ids);
    least :| least in ids;
    var rest := ids - {least};
    while rest != {}
      invariant least in ids && rest <= ids
      invariant forall id :: id in ids && id !in rest ==> least <= id
      decreases |rest|
    {
      NonEmpty(rest);
      var id :| id in rest;
      if id < least { least := id; }
      rest := rest - {id};
    }
  }

  lemma {:induction false} RunJobsAppend(s: Site, db: Db, jobs: seq<Job>, job: Job)
    requires AllKnown(db, jobs) && job.id in db.inbox
    ensures AllKnown(db, jobs + [job])
    ensures RunJobs(s, db, jobs + [job]) == RunJob(s, RunJobs(s, db, jobs), job)
    decreases |jobs|
  {
    var all := jobs + [job];
    assert forall i :: 0 <= i < |jobs| ==> all[i] == jobs[i];
    if jobs != [] {
      RunJobsAppend(s, RunJob(s, db, jobs[0]), jobs[1..], job);
      assert all[1..] == jobs[1..] + [job];
    } else {
      assert all == [job] && all[1..] == [];
    }
  }

  /** One processed event takes the first step of what is left of the delivery. */
  lemma EventInserted(s: Site, db: Db, db': Db, events: seq<Event>, i: nat, blocked: nat, left: nat)
    requires i < |events|
    requires db'.inbox == db.inbox && db'.dead == db.dead && db'.done == db.done && db'.failures == db.failures
    requires Stored(db.raw, events[i]) ==>
               db'.raw == db.raw && db'.tables == db.tables && left == blocked
               && db'.quality == db.quality.(duplicates := db.quality.duplicates + 1)
    requires !Stored(db.raw, events[i]) ==>
               db'.raw == db.raw + [events[i]] && db'.tables == Fold(s, db.tables, events[i]) && left == 0
               && db'.quality == db.quality.(accepted := db.quality.accepted + 1,
                                             blocked := db.quality.blocked + blocked)
    ensures InsertAll(s, db, events[i..], blocked) == InsertAll(s, db', events[i + 1..], left)
  {
    assert db' == Insert(s, db, events[i], blocked) && left == Spend(db, events[i], blocked);
    assert events[i..][1..] == events[i + 1..];
  }

  lemma NothingLeft(s: Site, db: Db, events: seq<Event>, blocked: nat)
    ensures InsertAll(s, db, events[|events|..], blocked) == db
  {
  }

  /** What the statements of an accepted event leave, table by table, is the fold. */
  lemma StatementsFold(s: Site, t: Tables, t': Tables, e: Event)
    requires t'.visitors == FoldVisits(t.visitors, VisitorOf(e), e, Link(t, e), Coalesce(Link(t, e), e.user))
    requires t'.identities == FoldIdentities(t, e)
    requires t'.visitorSessions == FoldVisitorSessions(t.visitorSessions, e, Link(t, e), Canonical(t, e))
    requires t'.sessions == FoldSessions(t.sessions, e, Canonical(t, e), s.threshold(e.site))
    requires t'.days == FoldDays(t.days, DayOf(s, e), e)
    requires t'.dayVisitors == FoldVisits(t.dayVisitors, DayVisitorOf(s, e), e, Link(t, e), Canonical(t, e))
    requires t'.daySessions == FoldDaySessions(t.daySessions, DaySessionOf(s, e), e, Link(t, e), Canonical(t, e))
    ensures t' == Fold(s, t, e)
  {
  }

  /** An anonymous event runs no identify statement, and relinking would have changed nothing. */
  lemma SkippedRelink(t: Tables, e: Event)
    requires e.user.None?
    ensures RelinkVisits(t.visitors, e, Link(t, e)) == t.visitors
    ensures RelinkVisits(t.dayVisitors, e, Link(t, e)) == t.dayVisitors
    ensures RelinkVisitorSessions(t.visitorSessions, e, Link(t, e)) == t.visitorSessions
    ensures RelinkDaySessions(t.daySessions, e, Link(t, e)) == t.daySessions
  {
  }
}
