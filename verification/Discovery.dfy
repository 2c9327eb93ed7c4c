/**
 The per-issuer cache of provider discovery: one request discovers, the others wait;
 a failure is believed for a while, and an abandoned attempt is nobody's answer.
 */
module Discovery {
  import opened Wrappers

  /** How long a failure is believed, in nanoseconds. */
  const RETRY := 30 * 1000000000

  datatype Answer = Provider(name: string) | Failure(error: string)

  /** One attempt. The fields are written by its leader before done and read by others only after. */
  datatype Entry = Entry(issuer: string, leader: nat, done: bool, answer: Option<Answer>, stamped: int, until: int,
                         abandoned: bool)

  datatype Phase =
    | AtTop
    | Leading(entry: nat)
    | Answered(entry: nat)
    | Stamped(entry: nat)
    | Judged(entry: nat)
    | Waiting(entry: nat)
    // the four ways out
    | Led(entry: nat)
    | Waited(entry: nat)
    | Cached(entry: nat, at: int)
    | Quit

  /** A call of oauthProvider; waits lists the entries it has waited on, in order. */
  datatype Caller = Caller(issuer: string, phase: Phase, cancelled: bool, waits: seq<nat>)

  datatype State = State(now: int, cache: map<string, nat>, entries: seq<Entry>, callers: map<nat, Caller>)

  datatype Step =
    | Tick(passed: nat)
    | Call(r: nat, issuer: string)
    | Cancel(r: nat)
    | Look(r: nat)
    | Discover(r: nat, answer: Answer)
    | Stamp(r: nat)
    | Judge(r: nat)
    | Close(r: nat)
    | Wake(r: nat)
    | Leave(r: nat)

  predicate Enabled(s: State, a: Step) {
    match a
    case Tick(_) => true
    case Call(r, _) => r !in s.callers
    case Cancel(r) => r in s.callers && !s.callers[r].cancelled
    case Look(r) => r in s.callers && s.callers[r].phase.AtTop?
                    && (s.callers[r].issuer in s.cache ==> s.cache[s.callers[r].issuer] < |s.entries|)
    case Discover(r, _) => r in s.callers && s.callers[r].phase.Leading? && s.callers[r].phase.entry < |s.entries|
    case Stamp(r) => r in s.callers && s.callers[r].phase.Answered? && s.callers[r].phase.entry < |s.entries|
    case Judge(r) => r in s.callers && s.callers[r].phase.Stamped? && s.callers[r].phase.entry < |s.entries|
    case Close(r) => r in s.callers && s.callers[r].phase.Judged? && s.callers[r].phase.entry < |s.entries|
    case Wake(r) => r in s.callers && s.callers[r].phase.Waiting? && s.callers[r].phase.entry < |s.entries|
                    && s.entries[s.callers[r].phase.entry].done
    case Leave(r) => r in s.callers && s.callers[r].phase.Waiting? && s.callers[r].cancelled
  }

  function Failed(e: Entry): bool {
    match e.answer case Some(Failure(_)) => true case _ => false
  }

  /** A finished entry is served from the cache while it is a success or a failure still believed. */
  predicate Believed(e: Entry, now: int) {
    !e.abandoned && (!Failed(e) || now < e.until)
  }

  function Move(s: State, r: nat, p: Phase): State
    requires r in s.callers
  {
    s.(callers := s.callers[r := s.callers[r].(phase := p)])
  }

  predicate OnEntry(p: Phase) {
    !p.AtTop? && !p.Quit?
  }

  function Amend(s: State, r: nat, e: Entry, p: Phase): State
    requires r in s.callers && OnEntry(s.callers[r].phase) && s.callers[r].phase.entry < |s.entries|
  {
    Move(s.(entries := s.entries[s.callers[r].phase.entry := e]), r, p)
  }

  /** One turn of the loop under the lock: answer from the cache, wait, or become the leader of a new entry. */
  function Looked(s: State, r: nat): State
    requires Enabled(s, Look(r))
  {
    var c := s.callers[r];
    if c.issuer in s.cache && !s.entries[s.cache[c.issuer]].done then
      s.(callers := s.callers[r := c.(phase := Waiting(s.cache[c.issuer]), waits := c.waits + [s.cache[c.issuer]])])
    else if c.issuer in s.cache && Believed(s.entries[s.cache[c.issuer]], s.now) then
      Move(s, r, Cached(s.cache[c.issuer], s.now))
    else
      var f := |s.entries|;
      Move(s.(cache := s.cache[c.issuer := f], entries := s.entries + [Entry(c.issuer, r, false, None, 0, 0, false)]),
           r, Leading(f))
  }

  function Apply(s: State, a: Step): State
    requires Enabled(s, a)
  {
    match a
    case Tick(d) => s.(now := s.now + d)
    case Call(r, issuer) => s.(callers := s.callers[r := Caller(issuer, AtTop, false, [])])
    case Cancel(r) => s.(callers := s.callers[r := s.callers[r].(cancelled := true)])
    case Look(r) => Looked(s, r)
    case Discover(r, answer) =>
      var f := s.callers[r].phase.entry;
      Amend(s, r, s.entries[f].(answer := Some(answer)), Answered(f))
    case Stamp(r) =>
      var f := s.callers[r].phase.entry;
      Amend(s, r, s.entries[f].(stamped := s.now, until := s.now + RETRY), Stamped(f))
    case Judge(r) =>
      var f := s.callers[r].phase.entry;
      Amend(s, r, s.entries[f].(abandoned := Failed(s.entries[f]) && s.callers[r].cancelled), Judged(f))
    case Close(r) =>
      var f := s.callers[r].phase.entry;
      Amend(s, r, s.entries[f].(done := true), Led(f))
    case Wake(r) =>
      var f := s.callers[r].phase.entry;
      Move(s, r, if s.entries[f].abandoned then AtTop else Waited(f))
    case Leave(r) => Move(s, r, Quit)
  }

  // ---- The invariant -----------------------------------------------------------------------------

  predicate Working(p: Phase) {
    p.Leading? || p.Answered? || p.Stamped? || p.Judged?
  }

  predicate Complete(e: Entry) {
    e.answer.Some? && e.until == e.stamped + RETRY
  }

  /** What an entry says about its leader, and how much of it is filled in at each stage. */
  ghost predicate EntryOk(cache: map<string, nat>, callers: map<nat, Caller>, f: nat, e: Entry) {
    && e.leader in callers && callers[e.leader].issuer == e.issuer
    && e.issuer in cache && f <= cache[e.issuer]
    && var p := callers[e.leader].phase;
       && (!e.done ==> cache[e.issuer] == f && Working(p) && p.entry == f)
       && (e.done || p.Stamped? || p.Judged? ==> Complete(e))
       && (e.done || !p.Leading? ==> e.answer.Some?)
       && (e.abandoned ==> Failed(e) && callers[e.leader].cancelled && (e.done || p.Judged?))
  }

  ghost predicate CallerOk(entries: seq<Entry>, r: nat, c: Caller) {
    && (OnEntry(c.phase) ==> c.phase.entry < |entries| && entries[c.phase.entry].issuer == c.issuer)
    && (Working(c.phase) ==> entries[c.phase.entry].leader == r && !entries[c.phase.entry].done)
    && (c.phase.Led? ==> entries[c.phase.entry].leader == r && entries[c.phase.entry].done)
    && (c.phase.Waited? || c.phase.Cached? ==> entries[c.phase.entry].done && !entries[c.phase.entry].abandoned)
    && (c.phase.Cached? ==> Believed(entries[c.phase.entry], c.phase.at))
    && (c.phase.Waiting? ==> c.waits != [] && c.waits[|c.waits| - 1] == c.phase.entry)
  }

  predicate Spent(entries: seq<Entry>, f: nat) {
    f < |entries| && entries[f].done && entries[f].abandoned
  }

  /** A caller waits on later and later entries, and only after the earlier ones were abandoned. */
  ghost predicate WaitsOk(entries: seq<Entry>, c: Caller) {
    && (forall i :: 0 <= i < |c.waits| ==> c.waits[i] < |entries| && entries[c.waits[i]].issuer == c.issuer)
    && (forall i, j :: 0 <= i < j < |c.waits| ==> c.waits[i] < c.waits[j])
    && (forall i :: 0 <= i < |c.waits| ==> (i < |c.waits| - 1 || c.phase.AtTop?) ==> Spent(entries, c.waits[i]))
  }

  ghost predicate Inv(s: State) {
    && (forall f :: 0 <= f < |s.entries| ==> EntryOk(s.cache, s.callers, f, s.entries[f]))
    && (forall r :: r in s.callers ==> CallerOk(s.entries, r, s.callers[r]))
    && (forall r :: r in s.callers ==> WaitsOk(s.entries, s.callers[r]))
    && (forall k :: k in s.cache ==> s.cache[k] < |s.entries| && s.entries[s.cache[k]].issuer == k)
  }

  lemma Known(s: State, r: nat)
    requires Inv(s) && r in s.callers
    ensures CallerOk(s.entries, r, s.callers[r]) && WaitsOk(s.entries, s.callers[r])
    ensures OnEntry(s.callers[r].phase) ==>
              EntryOk(s.cache, s.callers, s.callers[r].phase.entry, s.entries[s.callers[r].phase.entry])
    ensures s.callers[r].issuer in s.cache ==>
              s.cache[s.callers[r].issuer] < |s.entries|
              && EntryOk(s.cache, s.callers, s.cache[s.callers[r].issuer], s.entries[s.cache[s.callers[r].issuer]])
  {
  }

  // ---- Steps that leave the entries alone -------------------------------------------------------

  /** A caller that is not at work on an entry moves on, or is cancelled. */
  lemma CallerMoves(s: State, r: nat, c: Caller)
    requires Inv(s)
    requires r in s.callers ==> c.issuer == s.callers[r].issuer && (s.callers[r].cancelled ==> c.cancelled)
    requires r in s.callers ==> c.phase == s.callers[r].phase || (!Working(s.callers[r].phase) && !Working(c.phase))
    requires CallerOk(s.entries, r, c) && WaitsOk(s.entries, c)
    ensures Inv(s.(callers := s.callers[r := c]))
  {
    hide CallerOk, WaitsOk;
    var t := s.(callers := s.callers[r := c]);
    forall f | 0 <= f < |t.entries|
      ensures EntryOk(t.cache, t.callers, f, t.entries[f])
    {
      assert EntryOk(s.cache, s.callers, f, s.entries[f]);
    }
  }

  lemma WakeKeeps(s: State, r: nat)
    requires Inv(s) && Enabled(s, Wake(r))
    ensures Inv(Apply(s, Wake(r)))
  {
    hide Inv;
    Known(s, r);
    CallerMoves(s, r, Apply(s, Wake(r)).callers[r]);
  }

  lemma LeaveKeeps(s: State, r: nat)
    requires Inv(s) && Enabled(s, Leave(r))
    ensures Inv(Apply(s, Leave(r)))
  {
    hide Inv;
    Known(s, r);
    CallerMoves(s, r, s.callers[r].(phase := Quit));
  }

  lemma CallKeeps(s: State, a: Step)
    requires Inv(s) && Enabled(s, a) && (a.Call? || a.Cancel?)
    ensures Inv(Apply(s, a))
  {
    hide Inv;
    if a.Cancel? {
      Known(s, a.r);
    }
    CallerMoves(s, a.r, Apply(s, a).callers[a.r]);
  }

  // ---- Steps that fill in an entry ----------------------------------------------------------------

  /** One unfinished entry is rewritten: what every other caller knows about finished ones still holds. */
  lemma OthersUnmoved(entries: seq<Entry>, f: nat, e: Entry, x: nat, c: Caller)
    requires f < |entries| && !entries[f].done && e.issuer == entries[f].issuer && e.leader == entries[f].leader
    requires CallerOk(entries, x, c) && WaitsOk(entries, c)
    requires Working(c.phase) ==> c.phase.entry != f
    ensures CallerOk(entries[f := e], x, c) && WaitsOk(entries[f := e], c)
  {
    var after := entries[f := e];
    forall i | 0 <= i < |c.waits| && (i < |c.waits| - 1 || c.phase.AtTop?)
      ensures Spent(after, c.waits[i])
    {
      assert Spent(entries, c.waits[i]);
    }
  }

  /** A leader at work on its entry: the other entries do not depend on its stage. */
  lemma OtherEntriesAmended(s: State, r: nat, p: Phase, g: nat)
    requires Inv(s) && r in s.callers && Working(s.callers[r].phase) && g < |s.entries| && g != s.callers[r].phase.entry
    ensures EntryOk(s.cache, s.callers[r := s.callers[r].(phase := p)], g, s.entries[g])
  {
    hide CallerOk, WaitsOk;
    assert EntryOk(s.cache, s.callers, g, s.entries[g]);
  }

  lemma OwnCallAmended(entries: seq<Entry>, r: nat, c: Caller, e: Entry, p: Phase)
    requires CallerOk(entries, r, c) && WaitsOk(entries, c) && Working(c.phase)
    requires OnEntry(p) && p.entry == c.phase.entry && (if e.done then p.Led? else Working(p))
    requires e.issuer == entries[p.entry].issuer && e.leader == r
    ensures CallerOk(entries[p.entry := e], r, c.(phase := p)) && WaitsOk(entries[p.entry := e], c.(phase := p))
  {
    OthersUnmoved(entries, p.entry, e, r, c.(phase := Quit));
  }

  /** A leader writes its own unfinished entry and moves to the next stage. */
  lemma AmendKeeps(s: State, r: nat, e: Entry, p: Phase)
    requires Inv(s) && r in s.callers && Working(s.callers[r].phase) && s.callers[r].phase.entry < |s.entries|
    requires var f := s.callers[r].phase.entry;
             && OnEntry(p) && p.entry == f && (if e.done then p.Led? else Working(p))
             && e.issuer == s.entries[f].issuer && e.leader == r
             && EntryOk(s.cache, s.callers[r := s.callers[r].(phase := p)], f, e)
    ensures Inv(Amend(s, r, e, p))
  {
    hide EntryOk, WaitsOk, CallerOk;
    var t := Amend(s, r, e, p);
    var f := s.callers[r].phase.entry;
    WorkingEntry(s, r);
    forall g | 0 <= g < |t.entries|
      ensures EntryOk(t.cache, t.callers, g, t.entries[g])
    {
      if g != f {
        OtherEntriesAmended(s, r, p, g);
      }
    }
    OwnCallAmended(s.entries, r, s.callers[r], e, p);
    forall x | x in t.callers
      ensures CallerOk(t.entries, x, t.callers[x]) && WaitsOk(t.entries, t.callers[x])
    {
      if x != r {
        WorksElsewhere(s, r, x);
        OthersUnmoved(s.entries, f, e, x, s.callers[x]);
      }
    }
  }

  lemma WorkingEntry(s: State, r: nat)
    requires Inv(s) && r in s.callers && Working(s.callers[r].phase)
    ensures s.callers[r].phase.entry < |s.entries|
    ensures var e := s.entries[s.callers[r].phase.entry]; !e.done && e.leader == r
  {
    assert CallerOk(s.entries, r, s.callers[r]);
  }

  lemma WorksElsewhere(s: State, r: nat, x: nat)
    requires Inv(s) && r in s.callers && x in s.callers && x != r && Working(s.callers[r].phase)
    ensures Working(s.callers[x].phase) ==> s.callers[x].phase.entry != s.callers[r].phase.entry
    ensures CallerOk(s.entries, x, s.callers[x]) && WaitsOk(s.entries, s.callers[x])
  {
    WorkingEntry(s, r);
    if Working(s.callers[x].phase) {
      WorkingEntry(s, x);
    }
  }

  lemma LeaderStepKeeps(s: State, a: Step)
    requires Inv(s) && Enabled(s, a) && (a.Discover? || a.Stamp? || a.Judge? || a.Close?)
    ensures Inv(Apply(s, a))
  {
    hide Inv;
    Known(s, a.r);
    var f := s.callers[a.r].phase.entry;
    var t := Apply(s, a);
    AmendKeeps(s, a.r, t.entries[f], t.callers[a.r].phase);
  }

  // ---- The step under the lock -----------------------------------------------------------------------

  lemma WaitAppended(entries: seq<Entry>, r: nat, c: Caller, f: nat)
    requires CallerOk(entries, r, c) && WaitsOk(entries, c) && c.phase.AtTop?
    requires f < |entries| && entries[f].issuer == c.issuer
    requires forall i :: 0 <= i < |c.waits| ==> c.waits[i] < f
    ensures var c' := c.(phase := Waiting(f), waits := c.waits + [f]); CallerOk(entries, r, c') && WaitsOk(entries, c')
  {
    var c' := c.(phase := Waiting(f), waits := c.waits + [f]);
    forall i | 0 <= i < |c'.waits| - 1
      ensures Spent(entries, c'.waits[i])
    {
      assert Spent(entries, c.waits[i]);
    }
  }

  lemma WaitJoins(s: State, r: nat)
    requires Inv(s) && Enabled(s, Look(r))
    requires s.callers[r].issuer in s.cache && !s.entries[s.cache[s.callers[r].issuer]].done
    ensures Inv(Looked(s, r))
  {
    hide Inv;
    Known(s, r);
    var c := s.callers[r];
    var f := s.cache[c.issuer];
    KnownIssuer(s, c.issuer);
    forall i | 0 <= i < |c.waits|
      ensures c.waits[i] < f
    {
      assert Spent(s.entries, c.waits[i]);
      OlderEntry(s, c.waits[i]);
    }
    WaitAppended(s.entries, r, c, f);
    CallerMoves(s, r, c.(phase := Waiting(f), waits := c.waits + [f]));
  }

  /** The cache holds the newest entry of an issuer. */
  lemma OlderEntry(s: State, f: nat)
    requires Inv(s) && f < |s.entries|
    ensures s.entries[f].issuer in s.cache && f <= s.cache[s.entries[f].issuer]
    ensures !s.entries[f].done ==> f == s.cache[s.entries[f].issuer]
  {
    assert EntryOk(s.cache, s.callers, f, s.entries[f]);
  }

  lemma MoreEntries(entries: seq<Entry>, e: Entry, x: nat, c: Caller)
    requires CallerOk(entries, x, c) && WaitsOk(entries, c)
    ensures CallerOk(entries + [e], x, c) && WaitsOk(entries + [e], c)
  {
    forall i | 0 <= i < |c.waits| && (i < |c.waits| - 1 || c.phase.AtTop?)
      ensures Spent(entries + [e], c.waits[i])
    {
      assert Spent(entries, c.waits[i]);
    }
  }

  /** A new entry is led by a caller that was at the top of its loop, and replaces only a finished one. */
  lemma EntriesLed(s: State, r: nat)
    requires Inv(s) && r in s.callers && s.callers[r].phase.AtTop?
    requires s.callers[r].issuer in s.cache ==>
               s.cache[s.callers[r].issuer] < |s.entries| && s.entries[s.cache[s.callers[r].issuer]].done
    ensures forall g :: 0 <= g < |s.entries| ==>
              EntryOk(s.cache[s.callers[r].issuer := |s.entries|],
                      s.callers[r := s.callers[r].(phase := Leading(|s.entries|))],
                      g, s.entries[g])
  {
    hide CallerOk, WaitsOk;
    forall g | 0 <= g < |s.entries|
      ensures EntryOk(s.cache[s.callers[r].issuer := |s.entries|],
                      s.callers[r := s.callers[r].(phase := Leading(|s.entries|))],
                      g, s.entries[g])
    {
      assert EntryOk(s.cache, s.callers, g, s.entries[g]);
    }
  }

  lemma CallersKeep(s: State, e: Entry)
    requires Inv(s)
    ensures forall x :: x in s.callers ==>
              CallerOk(s.entries + [e], x, s.callers[x]) && WaitsOk(s.entries + [e], s.callers[x])
  {
    hide EntryOk, CallerOk, WaitsOk;
    forall x | x in s.callers
      ensures CallerOk(s.entries + [e], x, s.callers[x]) && WaitsOk(s.entries + [e], s.callers[x])
    {
      MoreEntries(s.entries, e, x, s.callers[x]);
    }
  }

  lemma LeaderJoins(entries: seq<Entry>, e: Entry, r: nat, c: Caller)
    requires CallerOk(entries + [e], r, c) && WaitsOk(entries + [e], c)
    requires e.leader == r && e.issuer == c.issuer && !e.done && c.phase.AtTop?
    ensures CallerOk(entries + [e], r, c.(phase := Leading(|entries|)))
    ensures WaitsOk(entries + [e], c.(phase := Leading(|entries|)))
  {
  }

  lemma LeadKeeps(s: State, r: nat)
    requires Inv(s) && Enabled(s, Look(r))
    requires s.callers[r].issuer in s.cache ==>
               var e := s.entries[s.cache[s.callers[r].issuer]]; e.done && !Believed(e, s.now)
    ensures Inv(Looked(s, r))
  {
    hide CallerOk, WaitsOk;
    var t := Looked(s, r);
    var e := t.entries[|s.entries|];
    EntriesLed(s, r);
    CallersKeep(s, e);
    LeaderJoins(s.entries, e, r, s.callers[r]);
  }

  lemma LookKeeps(s: State, r: nat)
    requires Inv(s) && Enabled(s, Look(r))
    ensures Inv(Looked(s, r))
  {
    hide Inv;
    Known(s, r);
    var c := s.callers[r];
    if c.issuer in s.cache && !s.entries[s.cache[c.issuer]].done {
      WaitJoins(s, r);
    } else if c.issuer in s.cache && Believed(s.entries[s.cache[c.issuer]], s.now) {
      KnownIssuer(s, c.issuer);
      CallerMoves(s, r, c.(phase := Cached(s.cache[c.issuer], s.now)));
    } else {
      LeadKeeps(s, r);
    }
  }

  lemma KnownIssuer(s: State, issuer: string)
    requires Inv(s) && issuer in s.cache
    ensures s.cache[issuer] < |s.entries| && s.entries[s.cache[issuer]].issuer == issuer
  {
  }

  /** Every step keeps the invariant. */
  lemma StepKeeps(s: State, a: Step)
    requires Inv(s) && Enabled(s, a)
    ensures Inv(Apply(s, a))
  {
    match a
    case Tick(_) =>
    case Call(_, _) => CallKeeps(s, a);
    case Cancel(_) => CallKeeps(s, a);
    case Look(r) => LookKeeps(s, r);
    case Discover(_, _) => LeaderStepKeeps(s, a);
    case Stamp(_) => LeaderStepKeeps(s, a);
    case Judge(_) => LeaderStepKeeps(s, a);
    case Close(_) => LeaderStepKeeps(s, a);
    case Wake(r) => WakeKeeps(s, r);
    case Leave(r) => LeaveKeeps(s, r);
  }

  // ---- Safety in every state ------------------------------------------------------------------------

  /** At most one discovery per issuer is in flight. */
  lemma OneInFlight(s: State, f: nat, g: nat)
    requires Inv(s) && f < |s.entries| && g < |s.entries| && s.entries[f].issuer == s.entries[g].issuer
    requires !s.entries[f].done && !s.entries[g].done
    ensures f == g && s.entries[f].leader in s.callers && Working(s.callers[s.entries[f].leader].phase)
  {
    OlderEntry(s, f);
    OlderEntry(s, g);
    assert EntryOk(s.cache, s.callers, f, s.entries[f]);
  }

  /** Nobody but the leader itself returns an abandoned outcome, and a failure from the cache was still believed. */
  lemma NobodyReturnsAbandoned(s: State, r: nat)
    requires Inv(s) && r in s.callers && (s.callers[r].phase.Waited? || s.callers[r].phase.Cached?)
    ensures s.callers[r].phase.entry < |s.entries|
    ensures var e := s.entries[s.callers[r].phase.entry];
            && e.issuer == s.callers[r].issuer && e.done && e.answer.Some? && !e.abandoned
            && (s.callers[r].phase.Cached? && e.answer.value.Failure? ==>
                s.callers[r].phase.at < e.stamped + 30_000_000_000)
  {
    Known(s, r);
  }

  /** A caller never waits twice on the same attempt, and waits again only after the last one was abandoned. */
  lemma RetriesAreForAbandoned(s: State, r: nat, i: nat, j: nat)
    requires Inv(s) && r in s.callers && i < j < |s.callers[r].waits|
    ensures s.callers[r].waits[i] < s.callers[r].waits[j]
    ensures s.callers[r].waits[i] < |s.entries| && s.entries[s.callers[r].waits[i]].abandoned
    ensures var e := s.entries[s.callers[r].waits[i]]; e.leader in s.callers && s.callers[e.leader].cancelled
  {
    Known(s, r);
    var f := s.callers[r].waits[i];
    assert Spent(s.entries, f);
    assert EntryOk(s.cache, s.callers, f, s.entries[f]);
  }

  /** A new attempt starts only when the last one was abandoned, or failed and is no longer believed. */
  lemma NewAttemptOnlyAfterExpiry(s: State, r: nat)
    requires Inv(s) && Enabled(s, Look(r)) && |Looked(s, r).entries| > |s.entries|
    ensures s.callers[r].issuer in s.cache ==>
              var e := s.entries[s.cache[s.callers[r].issuer]];
              e.done && e.answer.Some? && e.answer.value.Failure?
                && (e.abandoned || e.stamped + 30_000_000_000 <= s.now)
  {
    Known(s, r);
  }

  // ---- Runs -----------------------------------------------------------------------------------------

  const START := State(0, map[], [], map[])

  ghost predicate Run(states: seq<State>, steps: seq<Step>) {
    && |states| == |steps| + 1 && states[0] == START
    && forall i :: 0 <= i < |steps| ==> Enabled(states[i], steps[i]) && states[i + 1] == Apply(states[i], steps[i])
  }

  lemma StartKeeps()
    ensures Inv(START)
  {
  }

  lemma {:induction false} EveryStateKeeps(states: seq<State>, steps: seq<Step>, i: nat)
    requires Run(states, steps) && i < |states|
    ensures Inv(states[i])
  {
    hide Inv, Apply, Enabled;
    if i == 0 {
      StartKeeps();
    } else {
      EveryStateKeeps(states, steps, i - 1);
      StepKeeps(states[i - 1], steps[i - 1]);
    }
  }

  predicate InFlight(s: State, f: nat) {
    f < |s.entries| && !s.entries[f].done
  }

  /**
   In every state of every run: one discovery per issuer in flight at most, no waiter with an
   abandoned outcome, and no failure answered from the cache after it expired.
   */
  lemma EveryRunIsSafe(states: seq<State>, steps: seq<Step>, i: nat)
    requires Run(states, steps) && i < |states|
    ensures var s := states[i];
            && (forall f: nat, g: nat ::
                  InFlight(s, f) && InFlight(s, g) && s.entries[f].issuer == s.entries[g].issuer ==> f == g)
            && (forall r :: r in s.callers && (s.callers[r].phase.Waited? || s.callers[r].phase.Cached?) ==>
                  && s.callers[r].phase.entry < |s.entries|
                  && var e := s.entries[s.callers[r].phase.entry];
                     && e.done && e.answer.Some? && !e.abandoned
                     && (s.callers[r].phase.Cached? && e.answer.value.Failure? ==>
                         s.callers[r].phase.at < e.stamped + 30_000_000_000))
  {
    hide Inv;
    EveryStateKeeps(states, steps, i);
    var s := states[i];
    forall f: nat, g: nat | InFlight(s, f) && InFlight(s, g) && s.entries[f].issuer == s.entries[g].issuer
      ensures f == g
    {
      OneInFlight(s, f, g);
    }
    forall r | r in s.callers && (s.callers[r].phase.Waited? || s.callers[r].phase.Cached?)
      ensures s.callers[r].phase.entry < |s.entries|
      ensures var e := s.entries[s.callers[r].phase.entry];
              && e.done && e.answer.Some? && !e.abandoned
              && (s.callers[r].phase.Cached? && e.answer.value.Failure? ==>
                  s.callers[r].phase.at < e.stamped + 30_000_000_000)
    {
      NobodyReturnsAbandoned(s, r);
    }
  }

  /** A finished attempt is never written again; while it is a success it is never replaced either. */
  lemma StepPreservesFinished(s: State, a: Step, f: nat)
    requires Inv(s) && Enabled(s, a) && f < |s.entries| && s.entries[f].done
    ensures f < |Apply(s, a).entries| && Apply(s, a).entries[f] == s.entries[f]
    ensures forall k :: k in s.cache && s.cache[k] == f && !Failed(s.entries[f]) ==>
              k in Apply(s, a).cache && Apply(s, a).cache[k] == f
  {
    assert EntryOk(s.cache, s.callers, f, s.entries[f]);
    if !a.Tick? && !a.Call? {
      Known(s, a.r);
    }
  }

  /** Once an issuer's discovery has succeeded, every later state of the run holds the same success. */
  lemma {:induction false} SuccessIsForever(states: seq<State>, steps: seq<Step>, i: nat, j: nat, k: string)
    requires Run(states, steps) && i <= j < |states|
    requires k in states[i].cache && states[i].cache[k] < |states[i].entries|
    requires var e := states[i].entries[states[i].cache[k]]; e.done && e.answer.Some? && e.answer.value.Provider?
    ensures k in states[j].cache && states[j].cache[k] == states[i].cache[k] < |states[j].entries|
    ensures states[j].entries[states[j].cache[k]] == states[i].entries[states[i].cache[k]]
    decreases j - i
  {
    hide Apply, Enabled, Inv;
    if i < j {
      SuccessIsForever(states, steps, i, j - 1, k);
      EveryStateKeeps(states, steps, j - 1);
      StepPreservesFinished(states[j - 1], steps[j - 1], states[i].cache[k]);
    }
  }

  /** Once an issuer's discovery has succeeded, no further one is started for it. */
  lemma NoDiscoveryAfterSuccess(states: seq<State>, steps: seq<Step>, i: nat, j: nat, r: nat)
    requires Run(states, steps) && i <= j < |steps| && steps[j] == Look(r)
    requires r in states[j].callers && states[j].callers[r].issuer in states[i].cache
    requires var k := states[j].callers[r].issuer;
             states[i].cache[k] < |states[i].entries|
             && var e := states[i].entries[states[i].cache[k]];
                e.done && e.answer.Some? && e.answer.value.Provider?
    ensures states[j + 1].entries == states[j].entries
    ensures states[j + 1].callers[r].phase == Cached(states[i].cache[states[j].callers[r].issuer], states[j].now)
  {
    var k := states[j].callers[r].issuer;
    SuccessIsForever(states, steps, i, j, k);
    EveryStateKeeps(states, steps, j);
    var f := states[j].cache[k];
    assert EntryOk(states[j].cache, states[j].callers, f, states[j].entries[f]);
  }

  // ---- Where an outcome comes from -------------------------------------------------------------------

  lemma CancelledNext(s: State, a: Step, r: nat)
    requires Enabled(s, a)
    ensures r in s.callers ==>
              r in Apply(s, a).callers
              && (Apply(s, a).callers[r].cancelled <==> s.callers[r].cancelled || a == Cancel(r))
    ensures r !in s.callers && r in Apply(s, a).callers ==> a.Call? && !Apply(s, a).callers[r].cancelled
    ensures a == Cancel(r) ==> r in s.callers
  {
    hide Believed;
  }

  /** Whether a caller was cancelled is what the run says. */
  lemma {:induction false} CancelledExactly(states: seq<State>, steps: seq<Step>, i: nat, r: nat)
    requires Run(states, steps) && i < |states| && r in states[i].callers
    ensures states[i].callers[r].cancelled <==> exists j :: 0 <= j < i && steps[j] == Cancel(r)
  {
    hide Apply, Enabled;
    if i > 0 {
      CancelledNext(states[i - 1], steps[i - 1], r);
      if r in states[i - 1].callers {
        CancelledExactly(states, steps, i - 1, r);
      } else {
        NotCancelledBefore(states, steps, i - 1, r);
      }
    }
  }

  function Elapsed(steps: seq<Step>): nat {
    if steps == [] then 0
    else Elapsed(steps[..|steps| - 1]) + match steps[|steps| - 1] case Tick(passed) => passed case _ => 0
  }

  lemma NowNext(s: State, a: Step)
    requires Enabled(s, a)
    ensures Apply(s, a).now == s.now + match a case Tick(passed) => passed case _ => 0
  {
  }

  /** Time is what the ticks of the run add up to. */
  lemma {:induction false} TimeIsTicks(states: seq<State>, steps: seq<Step>, i: nat)
    requires Run(states, steps) && i < |states|
    ensures states[i].now == Elapsed(steps[..i])
  {
    hide Apply, Enabled;
    if i > 0 {
      TimeIsTicks(states, steps, i - 1);
      NowNext(states[i - 1], steps[i - 1]);
      assert steps[..i][..i - 1] == steps[..i - 1];
    }
  }

  lemma {:induction false} NotCancelledBefore(states: seq<State>, steps: seq<Step>, i: nat, r: nat)
    requires Run(states, steps) && i < |states| && r !in states[i].callers
    ensures forall j :: 0 <= j < i ==> steps[j] != Cancel(r)
  {
    hide Apply, Enabled;
    if i > 0 {
      CancelledNext(states[i - 1], steps[i - 1], r);
      NotCancelledBefore(states, steps, i - 1, r);
    }
  }

  /** The leader of entry f has stamped it, or judged it. */
  predicate Past(s: State, f: nat, judged: bool)
    requires f < |s.entries|
  {
    var e := s.entries[f];
    e.done || (e.leader in s.callers
               && (var p := s.callers[e.leader].phase; p == Judged(f) || (!judged && p == Stamped(f))))
  }

  /** What one step does to an entry that is there: to its answer, to its stamp and to the judgement on it. */
  lemma StepTellsAnswer(s: State, a: Step, f: nat)
    requires Inv(s) && Enabled(s, a) && f < |s.entries|
    ensures f < |Apply(s, a).entries|
    ensures var e, e' := s.entries[f], Apply(s, a).entries[f];
            && e'.leader == e.leader && e'.issuer == e.issuer
            && (e'.answer == e.answer
                || (e'.answer.Some? && a == Discover(e.leader, e'.answer.value)))
  {
    hide Believed, Failed, WaitsOk;
    assert EntryOk(s.cache, s.callers, f, s.entries[f]);
    if !a.Tick? && !a.Call? {
      Known(s, a.r);
    }
  }

  lemma StepTellsStamp(s: State, a: Step, f: nat)
    requires Inv(s) && Enabled(s, a) && f < |s.entries| && f < |Apply(s, a).entries|
    requires Past(Apply(s, a), f, false)
    ensures var e, e' := s.entries[f], Apply(s, a).entries[f];
            || (Past(s, f, false) && e'.stamped == e.stamped && e'.until == e.until)
            || (a == Stamp(e.leader) && e'.stamped == s.now && e'.until == s.now + 30_000_000_000)
  {
    hide Believed, Failed, WaitsOk;
    assert EntryOk(s.cache, s.callers, f, s.entries[f]);
    if !a.Tick? && !a.Call? {
      Known(s, a.r);
    }
  }

  lemma StepTellsJudgement(s: State, a: Step, f: nat)
    requires Inv(s) && Enabled(s, a) && f < |s.entries| && f < |Apply(s, a).entries|
    requires Past(Apply(s, a), f, true)
    ensures var e, e' := s.entries[f], Apply(s, a).entries[f];
            || (Past(s, f, true) && e'.abandoned == e.abandoned && e'.answer == e.answer)
            || (a == Judge(e.leader) && e.leader in s.callers && e'.answer.Some?
                && (e'.abandoned <==> e'.answer.value.Failure? && s.callers[e.leader].cancelled))
  {
    hide Believed, WaitsOk;
    assert EntryOk(s.cache, s.callers, f, s.entries[f]);
    if !a.Tick? && !a.Call? {
      Known(s, a.r);
    }
  }

  lemma NewEntryIsBlank(s: State, a: Step, f: nat)
    requires Inv(s) && Enabled(s, a) && |s.entries| <= f < |Apply(s, a).entries|
    ensures Apply(s, a).entries[f].answer.None? && !Past(Apply(s, a), f, false) && !Past(Apply(s, a), f, true)
  {
    if !a.Tick? && !a.Call? {
      Known(s, a.r);
    }
  }

  /** The answer is what the leader discovered. */
  ghost predicate AnswerTold(states: seq<State>, steps: seq<Step>, i: nat, e: Entry) {
    e.answer.Some? && exists d :: 0 <= d < i < |states| == |steps| + 1 && steps[d] == Discover(e.leader, e.answer.value)
  }

  /** It is believed for thirty seconds from when the leader stamped it. */
  ghost predicate StampTold(states: seq<State>, steps: seq<Step>, i: nat, e: Entry) {
    exists t :: 0 <= t < i < |states| == |steps| + 1 && steps[t] == Stamp(e.leader)
                && e.stamped == states[t].now && e.until == states[t].now + 30_000_000_000
  }

  /** It is abandoned exactly when it is a failure and the leader had been cancelled when it looked. */
  ghost predicate JudgementTold(states: seq<State>, steps: seq<Step>, i: nat, e: Entry) {
    e.answer.Some? && exists j :: 0 <= j < i < |states| == |steps| + 1 && steps[j] == Judge(e.leader)
                                  && e.leader in states[j].callers
                                  && (e.abandoned <==> e.answer.value.Failure? && states[j].callers[e.leader].cancelled)
  }

  lemma {:induction false} EntriesTold(states: seq<State>, steps: seq<Step>, i: nat, f: nat)
    requires Run(states, steps) && i < |states| && f < |states[i].entries|
    ensures var s := states[i];
            && (s.entries[f].answer.Some? ==> AnswerTold(states, steps, i, s.entries[f]))
            && (Past(s, f, false) ==> StampTold(states, steps, i, s.entries[f]))
            && (Past(s, f, true) ==> JudgementTold(states, steps, i, s.entries[f]))
  {
    hide Apply, Enabled, Inv, Past;
    if i > 0 {
      var s, a := states[i - 1], steps[i - 1];
      EveryStateKeeps(states, steps, i - 1);
      if f < |s.entries| {
        EntriesTold(states, steps, i - 1, f);
        StepTellsAnswer(s, a, f);
        if Past(states[i], f, false) {
          StepTellsStamp(s, a, f);
        }
        if Past(states[i], f, true) {
          StepTellsJudgement(s, a, f);
        }
      } else {
        NewEntryIsBlank(s, a, f);
      }
    }
  }

  /**
   In every run a finished attempt holds what its leader discovered, is stamped with the time of the leader's
   stamp and believed for thirty seconds after it, and is abandoned exactly when it failed and the leader had
   been cancelled when it judged the outcome.
   */
  lemma FinishedHasHistory(states: seq<State>, steps: seq<Step>, i: nat, f: nat)
    requires Run(states, steps) && i < |states| && f < |states[i].entries| && states[i].entries[f].done
    ensures var e := states[i].entries[f];
            AnswerTold(states, steps, i, e) && StampTold(states, steps, i, e) && JudgementTold(states, steps, i, e)
  {
    hide AnswerTold, StampTold, JudgementTold, Inv;
    EntriesTold(states, steps, i, f);
    EveryStateKeeps(states, steps, i);
    FinishedIsAnswered(states[i], f);
  }

  lemma FinishedIsAnswered(s: State, f: nat)
    requires Inv(s) && f < |s.entries| && s.entries[f].done
    ensures s.entries[f].answer.Some?
  {
    assert EntryOk(s.cache, s.callers, f, s.entries[f]);
  }

  // ---- Nobody is stuck ---------------------------------------------------------------------------------

  predicate Finished(p: Phase) {
    p.Led? || p.Waited? || p.Cached? || p.Quit?
  }

  /** A caller that has not returned has a step to take, or waits for a leader that has one. */
  lemma SomeoneCanMove(s: State, r: nat) returns (a: Step)
    requires Inv(s) && r in s.callers && !Finished(s.callers[r].phase)
    ensures Enabled(s, a) && !a.Tick? && !a.Call? && !a.Cancel?
    ensures a.r == r || (s.callers[r].phase.Waiting? && a.r == s.entries[s.callers[r].phase.entry].leader)
  {
    Known(s, r);
    var c := s.callers[r];
    if c.phase.Waiting? && s.entries[c.phase.entry].done {
      a := Wake(r);
    } else {
      var l := if c.phase.Waiting? then s.entries[c.phase.entry].leader else r;
      Known(s, l);
      match s.callers[l].phase {
        case Leading(_) => a := Discover(l, Failure(""));
        case Answered(_) => a := Stamp(l);
        case Stamped(_) => a := Judge(l);
        case Judged(_) => a := Close(l);
        case AtTop => a := Look(l);
        case _ => assert false;
      }
    }
  }
}
