/**
 Identical reads share one computation. Requests are interleaved step by step: the
 map of flights changes only under its mutex, a flight's outcome is set before its
 channel closes, and a request's own context may be cancelled at any time.
 */
module SharedReads {
  import opened Wrappers

  datatype Response = Response(status: nat, body: string)

  /** One shared computation. closed counts how often its channel was closed. */
  datatype Flight = Flight(key: string, leader: nat, ok: bool, response: Option<Response>, closed: nat)

  datatype Phase =
    // the leader, from registering its flight to closing it
    | Leading(flight: nat)
    | Recorded(flight: nat, answer: Response)
    | Written(flight: nat, answer: Response)
    | Panicked(flight: nat, answer: Response)
    | Settled(flight: nat)
    | Removed(flight: nat)
    | Led(flight: nat)
    // a request that found its key in the map
    | Waiting(flight: nat)
    | Woken(flight: nat)
    | Copied(flight: nat)
    | Alone
    | ServedAlone
    | PanickedAlone
    | Left

  datatype Request = Request(key: string, phase: Phase, cancelled: bool, wrote: seq<Response>)

  datatype State = State(calls: map<string, nat>, flights: seq<Flight>, requests: map<nat, Request>)

  datatype Step =
    | Arrive(r: nat, key: string)
    | Cancel(r: nat)
    | Serve(r: nat, answer: Response)
    | Panic(r: nat, answer: Response)
    | WriteOwn(r: nat)
    | Settle(r: nat)
    | Remove(r: nat)
    | Close(r: nat)
    | Wake(r: nat)
    | Leave(r: nat)
    | Copy(r: nat)
    | Turn(r: nat)
    | ServeSelf(r: nat, answer: Response)
    | PanicSelf(r: nat)

  const START := State(map[], [], map[])

  predicate Enabled(s: State, a: Step) {
    if a.Arrive? then a.r !in s.requests
    else
      && a.r in s.requests
      && var q := s.requests[a.r];
         && (q.phase.Waiting? || q.phase.Woken? || q.phase.Written? || q.phase.Panicked? || q.phase.Removed? ==>
               q.phase.flight < |s.flights|)
         && match a
            case Arrive(_, _) => false
            case Cancel(_) => !q.cancelled
            case Serve(_, _) => q.phase.Leading?
            case Panic(_, _) => q.phase.Leading?
            case WriteOwn(_) => q.phase.Recorded?
            case Settle(_) => q.phase.Written? || q.phase.Panicked?
            case Remove(_) => q.phase.Settled?
            case Close(_) => q.phase.Removed?
            case Wake(_) => q.phase.Waiting? && s.flights[q.phase.flight].closed > 0
            case Leave(_) => q.phase.Waiting? && q.cancelled
            case Copy(_) => q.phase.Woken? && s.flights[q.phase.flight].ok && s.flights[q.phase.flight].response.Some?
            case Turn(_) => q.phase.Woken? && !s.flights[q.phase.flight].ok
            case ServeSelf(_, _) => q.phase.Alone?
            case PanicSelf(_) => q.phase.Alone?
  }

  function Put(s: State, r: nat, q: Request): State {
    s.(requests := s.requests[r := q])
  }

  /** The first request with a key registers a flight and leads it; the others join the flight they find. */
  function Joined(s: State, r: nat, key: string): State {
    if key in s.calls then Put(s, r, Request(key, Waiting(s.calls[key]), false, []))
    else
      var f := |s.flights|;
      Put(State(s.calls[key := f], s.flights + [Flight(key, r, false, None, 0)], s.requests),
          r, Request(key, Leading(f), false, []))
  }

  /** The deferred block sets the outcome while the entry is still registered. */
  function Outcome(s: State, r: nat): State
    requires r in s.requests && Enabled(s, Settle(r))
  {
    var q := s.requests[r];
    var f := q.phase.flight;
    var flight := s.flights[f].(ok := !q.cancelled && !q.phase.Panicked?, response := Some(q.phase.answer));
    Put(s.(flights := s.flights[f := flight]), r, q.(phase := Settled(f)))
  }

  function Apply(s: State, a: Step): State
    requires Enabled(s, a)
  {
    if a.Arrive? then Joined(s, a.r, a.key)
    else
      var q := s.requests[a.r];
      match a
      case Cancel(r) => Put(s, r, q.(cancelled := true))
      case Serve(r, answer) => Put(s, r, q.(phase := Recorded(q.phase.flight, answer)))
      case Panic(r, answer) => Put(s, r, q.(phase := Panicked(q.phase.flight, answer)))
      case WriteOwn(r) =>
        Put(s, r, q.(phase := Written(q.phase.flight, q.phase.answer), wrote := q.wrote + [q.phase.answer]))
      case Settle(r) => Outcome(s, r)
      case Remove(r) => Put(s.(calls := s.calls - {q.key}), r, q.(phase := Removed(q.phase.flight)))
      case Close(r) =>
        var f := q.phase.flight;
        Put(s.(flights := s.flights[f := s.flights[f].(closed := s.flights[f].closed + 1)]), r, q.(phase := Led(f)))
      case Wake(r) => Put(s, r, q.(phase := Woken(q.phase.flight)))
      case Leave(r) => Put(s, r, q.(phase := Left))
      case Copy(r) =>
        Put(s, r, q.(phase := Copied(q.phase.flight), wrote := q.wrote + [s.flights[q.phase.flight].response.value]))
      case Turn(r) => Put(s, r, q.(phase := Alone))
      case ServeSelf(r, answer) => Put(s, r, q.(phase := ServedAlone, wrote := q.wrote + [answer]))
      case PanicSelf(r) => Put(s, r, q.(phase := PanickedAlone))
  }

  /** The stages of a leader whose flight is still in the map. */
  predicate Registered(p: Phase) {
    p.Leading? || p.Recorded? || p.Written? || p.Panicked? || p.Settled?
  }

  predicate Leads(p: Phase) {
    Registered(p) || p.Removed? || p.Led?
  }

  predicate Attached(p: Phase) {
    Leads(p) || p.Waiting? || p.Woken? || p.Copied?
  }

  predicate Silent(p: Phase) {
    p.Leading? || p.Recorded? || p.Panicked? || p.Waiting? || p.Woken? || p.Alone? || p.PanickedAlone? || p.Left?
  }

  /** What a request's phase says about its flight and about what was written so far. */
  ghost predicate RequestOk(calls: map<string, nat>, flights: seq<Flight>, r: nat, q: Request) {
    && (Attached(q.phase) ==> q.phase.flight < |flights| && flights[q.phase.flight].key == q.key)
    && (Leads(q.phase) ==> flights[q.phase.flight].leader == r)
    && (Registered(q.phase) ==> q.key in calls && calls[q.key] == q.phase.flight)
    && (q.phase.Woken? || q.phase.Copied? ==> flights[q.phase.flight].closed == 1)
    && (q.phase.Copied? ==>
          && flights[q.phase.flight].ok && flights[q.phase.flight].response.Some?
          && q.wrote == [flights[q.phase.flight].response.value])
    && (q.phase.Written? ==> q.wrote == [q.phase.answer])
    && (q.phase.ServedAlone? ==> |q.wrote| == 1)
    && (Silent(q.phase) ==> q.wrote == [])
    && (q.phase.Left? ==> q.cancelled)
  }

  /** What a flight's record says about its leader. */
  ghost predicate FlightOk(requests: map<nat, Request>, f: nat, x: Flight) {
    && x.leader in requests && Leads(requests[x.leader].phase) && requests[x.leader].phase.flight == f
    && var phase := requests[x.leader].phase;
       && x.closed == (if phase.Led? then 1 else 0)
       && (x.ok ==> (phase.Settled? || phase.Removed? || phase.Led?)
                    && x.response.Some? && requests[x.leader].wrote == [x.response.value])
  }

  /** What an entry of the map says: its flight's leader has not removed it. */
  ghost predicate EntryOk(s: State, k: string, f: nat) {
    && f < |s.flights| && s.flights[f].key == k
    && s.flights[f].leader in s.requests && Registered(s.requests[s.flights[f].leader].phase)
  }

  ghost predicate Inv(s: State) {
    && (forall r :: r in s.requests ==> RequestOk(s.calls, s.flights, r, s.requests[r]))
    && (forall f :: 0 <= f < |s.flights| ==> FlightOk(s.requests, f, s.flights[f]))
    && (forall k :: k in s.calls ==> EntryOk(s, k, s.calls[k]))
  }

  lemma ArriveKeeps(s: State, r: nat, key: string)
    requires Inv(s) && r !in s.requests
    ensures Inv(Joined(s, r, key))
  {
    var t := Joined(s, r, key);
    forall x | x in t.requests
      ensures RequestOk(t.calls, t.flights, x, t.requests[x])
    {
      assert x != r ==> RequestOk(s.calls, s.flights, x, s.requests[x]);
    }
    forall f | 0 <= f < |t.flights|
      ensures FlightOk(t.requests, f, t.flights[f])
    {
      assert f < |s.flights| ==> FlightOk(s.requests, f, s.flights[f]);
    }
  }

  /** A step that only moves one request. */
  lemma MoveKeeps(s: State, r: nat, q: Request)
    requires Inv(s) && r in s.requests && s.requests[r].key == q.key
    requires RequestOk(s.calls, s.flights, r, q)
    requires Leads(q.phase) <==> Leads(s.requests[r].phase)
    requires Registered(q.phase) <==> Registered(s.requests[r].phase)
    requires Leads(q.phase) ==> s.requests[r].phase.flight == q.phase.flight
    requires Leads(q.phase) ==> FlightOk(s.requests[r := q], q.phase.flight, s.flights[q.phase.flight])
    ensures Inv(Put(s, r, q))
  {
    hide RequestOk;
    var t := Put(s, r, q);
    forall f | 0 <= f < |t.flights|
      ensures FlightOk(t.requests, f, t.flights[f])
    {
      assert FlightOk(s.requests, f, s.flights[f]);
    }
    forall k | k in t.calls
      ensures EntryOk(t, k, t.calls[k])
    {
      assert EntryOk(s, k, s.calls[k]);
    }
  }

  lemma SettleKeeps(s: State, r: nat)
    requires Inv(s) && Enabled(s, Settle(r))
    ensures Inv(Outcome(s, r))
  {
    var t := Outcome(s, r);
    assert RequestOk(s.calls, s.flights, r, s.requests[r]);
    var f := s.requests[r].phase.flight;
    assert FlightOk(s.requests, f, s.flights[f]);
    forall x | x in t.requests
      ensures RequestOk(t.calls, t.flights, x, t.requests[x])
    {
      assert RequestOk(s.calls, s.flights, x, s.requests[x]);
    }
    forall g | 0 <= g < |t.flights|
      ensures FlightOk(t.requests, g, t.flights[g])
    {
      assert FlightOk(s.requests, g, s.flights[g]);
    }
  }

  lemma RemoveKeeps(s: State, r: nat)
    requires Inv(s) && Enabled(s, Remove(r))
    ensures Inv(Apply(s, Remove(r)))
  {
    var t := Apply(s, Remove(r));
    assert RequestOk(s.calls, s.flights, r, s.requests[r]);
    forall x | x in t.requests
      ensures RequestOk(t.calls, t.flights, x, t.requests[x])
    {
      assert RequestOk(s.calls, s.flights, x, s.requests[x]);
      if Registered(s.requests[x].phase) && s.requests[x].key == s.requests[r].key {
        assert s.requests[x].phase.flight == s.requests[r].phase.flight;
      }
    }
    forall g | 0 <= g < |t.flights|
      ensures FlightOk(t.requests, g, t.flights[g])
    {
      assert FlightOk(s.requests, g, s.flights[g]);
    }
    forall k | k in t.calls
      ensures EntryOk(t, k, t.calls[k])
    {
      assert EntryOk(s, k, s.calls[k]);
    }
  }

  lemma CloseKeeps(s: State, r: nat)
    requires Inv(s) && Enabled(s, Close(r))
    ensures Inv(Apply(s, Close(r)))
  {
    var t := Apply(s, Close(r));
    assert RequestOk(s.calls, s.flights, r, s.requests[r]);
    var f := s.requests[r].phase.flight;
    assert FlightOk(s.requests, f, s.flights[f]);
    forall x | x in t.requests
      ensures RequestOk(t.calls, t.flights, x, t.requests[x])
    {
      assert RequestOk(s.calls, s.flights, x, s.requests[x]);
    }
    forall g | 0 <= g < |t.flights|
      ensures FlightOk(t.requests, g, t.flights[g])
    {
      assert FlightOk(s.requests, g, s.flights[g]);
    }
    forall k | k in t.calls
      ensures EntryOk(t, k, t.calls[k])
    {
      assert EntryOk(s, k, s.calls[k]);
    }
  }

  lemma Known(s: State, r: nat)
    requires Inv(s) && r in s.requests
    ensures RequestOk(s.calls, s.flights, r, s.requests[r])
    ensures Attached(s.requests[r].phase) ==>
              FlightOk(s.requests, s.requests[r].phase.flight, s.flights[s.requests[r].phase.flight])
  {
  }

  lemma LeaderMovesKeep(s: State, a: Step)
    requires Inv(s) && Enabled(s, a) && (a.Serve? || a.Panic? || a.WriteOwn?)
    ensures Inv(Apply(s, a))
  {
    hide Inv;
    Known(s, a.r);
    MoveKeeps(s, a.r, Apply(s, a).requests[a.r]);
  }

  lemma WaiterMovesKeep(s: State, a: Step)
    requires Inv(s) && Enabled(s, a) && (a.Wake? || a.Leave? || a.Copy? || a.Turn? || a.ServeSelf? || a.PanicSelf?)
    ensures Inv(Apply(s, a))
  {
    hide Inv;
    Known(s, a.r);
    MoveKeeps(s, a.r, Apply(s, a).requests[a.r]);
  }

  lemma CancelKeeps(s: State, r: nat)
    requires Inv(s) && Enabled(s, Cancel(r))
    ensures Inv(Apply(s, Cancel(r)))
  {
    hide Inv;
    Known(s, r);
    MoveKeeps(s, r, s.requests[r].(cancelled := true));
  }

  /** Every step keeps the invariant. */
  lemma StepKeeps(s: State, a: Step)
    requires Inv(s) && Enabled(s, a)
    ensures Inv(Apply(s, a))
  {
    hide Inv;
    if a.Arrive? {
      ArriveKeeps(s, a.r, a.key);
    } else if a.Settle? {
      SettleKeeps(s, a.r);
    } else if a.Remove? {
      RemoveKeeps(s, a.r);
    } else if a.Close? {
      CloseKeeps(s, a.r);
    } else if a.Cancel? {
      CancelKeeps(s, a.r);
    } else if a.Serve? || a.Panic? || a.WriteOwn? {
      LeaderMovesKeep(s, a);
    } else {
      WaiterMovesKeep(s, a);
    }
  }

  // ---- Safety in every state ----------------------------------------------------------------------

  /** At most one leader per key has its flight in the map. */
  lemma OneLeaderPerKey(s: State, r: nat, r': nat)
    requires Inv(s) && r in s.requests && r' in s.requests
    requires Registered(s.requests[r].phase) && Registered(s.requests[r'].phase)
             && s.requests[r].key == s.requests[r'].key
    ensures r == r'
  {
    assert RequestOk(s.calls, s.flights, r, s.requests[r]) && RequestOk(s.calls, s.flights, r', s.requests[r']);
  }

  /** A closed flight was closed once and is no longer in the map, so nobody can join it. */
  lemma ClosedOnceAndRemoved(s: State, f: nat)
    requires Inv(s) && f < |s.flights|
    ensures s.flights[f].closed <= 1
    ensures s.flights[f].closed == 1 ==> f !in s.calls.Values
  {
    assert FlightOk(s.requests, f, s.flights[f]);
    if f in s.calls.Values {
      var k :| k in s.calls && s.calls[k] == f;
      assert EntryOk(s, k, f);
    }
  }

  // ---- Runs -----------------------------------------------------------------------------------------

  ghost predicate Run(states: seq<State>, steps: seq<Step>) {
    && |states| == |steps| + 1 && states[0] == START
    && forall i :: 0 <= i < |steps| ==> Enabled(states[i], steps[i]) && states[i + 1] == Apply(states[i], steps[i])
  }

  lemma {:induction false} EveryStateKeeps(states: seq<State>, steps: seq<Step>, i: nat)
    requires Run(states, steps) && i < |states|
    ensures Inv(states[i])
  {
    hide Inv, Apply, Enabled;
    if i == 0 {
      assert Inv(START) by { StartKeeps(); }
    } else {
      EveryStateKeeps(states, steps, i - 1);
      StepKeeps(states[i - 1], steps[i - 1]);
    }
  }

  lemma StartKeeps()
    ensures Inv(START)
  {
  }

  predicate Follows(p: Phase) {
    p.Waiting? || p.Woken? || p.Copied?
  }

  /** A request that follows a flight followed it before, or is just joining it. */
  lemma FollowedBefore(s: State, a: Step, r: nat)
    requires Enabled(s, a) && r in Apply(s, a).requests && Follows(Apply(s, a).requests[r].phase)
    ensures var q := Apply(s, a).requests[r];
            if a == Arrive(r, q.key) then q.key in s.calls && s.calls[q.key] == q.phase.flight
            else
              && r in s.requests && s.requests[r].key == q.key
              && Follows(s.requests[r].phase) && s.requests[r].phase.flight == q.phase.flight
  {
  }

  /** A request attached to a flight without leading it joined that flight while it was in the map. */
  lemma {:induction false} JoinedWhileRegistered(states: seq<State>, steps: seq<Step>, n: nat, r: nat) returns (i: nat)
    requires Run(states, steps) && n < |states| && r in states[n].requests && Follows(states[n].requests[r].phase)
    ensures i < n && steps[i] == Arrive(r, states[n].requests[r].key)
    ensures var q := states[n].requests[r]; q.key in states[i].calls && states[i].calls[q.key] == q.phase.flight
  {
    assert n > 0;
    hide Apply, Enabled;
    FollowedBefore(states[n - 1], steps[n - 1], r);
    if steps[n - 1] == Arrive(r, states[n].requests[r].key) {
      i := n - 1;
    } else {
      i := JoinedWhileRegistered(states, steps, n - 1, r);
    }
  }

  /** A flight's outcome is good only because its leader, neither cancelled nor failed, set it so. */
  lemma {:induction false} GoodOutcomeWasSettled(states: seq<State>, steps: seq<Step>, n: nat, f: nat) returns (i: nat)
    requires Run(states, steps) && n < |states| && f < |states[n].flights| && states[n].flights[f].ok
    ensures i < n && steps[i] == Settle(states[n].flights[f].leader)
    ensures steps[i].r in states[i].requests
    ensures var q := states[i].requests[steps[i].r];
            && !q.cancelled && q.phase == Written(f, q.phase.answer)
            && states[n].flights[f].response == Some(q.phase.answer)
  {
    assert n > 0;
    var s, a := states[n - 1], steps[n - 1];
    EveryStateKeeps(states, steps, n - 1);
    if a.Settle? && s.requests[a.r].phase.flight == f {
      i := n - 1;
      assert RequestOk(s.calls, s.flights, a.r, s.requests[a.r]);
    } else {
      assert f < |s.flights| && s.flights[f].ok;
      i := GoodOutcomeWasSettled(states, steps, n - 1, f);
    }
  }

  /**
   Whoever is given a copied response joined a flight that was then in the map, whose
   leader later settled it uncancelled and without a panic; the copy is what that
   leader wrote to its own client, and nothing else was written.
   */
  lemma SharedOnlyFromGoodFlights(states: seq<State>, steps: seq<Step>, n: nat, r: nat) returns (i: nat, j: nat)
    requires Run(states, steps) && n < |states| && r in states[n].requests && states[n].requests[r].phase.Copied?
    ensures i < n && j < n && steps[i] == Arrive(r, states[n].requests[r].key)
    ensures var q := states[n].requests[r]; var f := q.phase.flight;
            && q.key in states[i].calls && states[i].calls[q.key] == f
            && f < |states[n].flights| && steps[j] == Settle(states[n].flights[f].leader)
            && steps[j].r in states[j].requests && !states[j].requests[steps[j].r].cancelled
            && states[j].requests[steps[j].r].phase.Written?
            && steps[j].r in states[n].requests
            && q.wrote == states[n].requests[steps[j].r].wrote == [states[j].requests[steps[j].r].phase.answer]
  {
    EveryStateKeeps(states, steps, n);
    var s := states[n];
    var f := s.requests[r].phase.flight;
    assert RequestOk(s.calls, s.flights, r, s.requests[r]);
    assert FlightOk(s.requests, f, s.flights[f]);
    i := JoinedWhileRegistered(states, steps, n, r);
    j := GoodOutcomeWasSettled(states, steps, n, f);
  }

  // ---- Nobody is left waiting ------------------------------------------------------------------------

  predicate Finished(p: Phase) {
    p.Led? || p.Copied? || p.ServedAlone? || p.PanickedAlone? || p.Left?
  }

  /** A request that is not finished has a step to take, or waits for a leader that has one. */
  lemma SomeoneCanMove(s: State, r: nat) returns (a: Step)
    requires Inv(s) && r in s.requests && !Finished(s.requests[r].phase)
    ensures Enabled(s, a) && !a.Arrive? && !a.Cancel?
    ensures a.r == r || (s.requests[r].phase.Waiting? && a.r == s.flights[s.requests[r].phase.flight].leader)
  {
    var q := s.requests[r];
    assert RequestOk(s.calls, s.flights, r, q);
    if q.phase.Waiting? {
      var l := s.flights[q.phase.flight].leader;
      assert FlightOk(s.requests, q.phase.flight, s.flights[q.phase.flight]);
      assert RequestOk(s.calls, s.flights, l, s.requests[l]);
      a := if s.requests[l].phase.Led? then Wake(r) else NextOf(s, l);
    } else if q.phase.Woken? {
      var l := s.flights[q.phase.flight].leader;
      assert FlightOk(s.requests, q.phase.flight, s.flights[q.phase.flight]);
      a := if s.flights[q.phase.flight].ok then Copy(r) else Turn(r);
    } else {
      a := NextOf(s, r);
    }
  }

  /** The step a running request takes next when its handler answers. */
  function NextOf(s: State, r: nat): Step
    requires r in s.requests
  {
    match s.requests[r].phase
    case Leading(_) => Serve(r, Response(200, ""))
    case Recorded(_, _) => WriteOwn(r)
    case Written(_, _) => Settle(r)
    case Panicked(_, _) => Settle(r)
    case Settled(_) => Remove(r)
    case Removed(_) => Close(r)
    case _ => ServeSelf(r, Response(200, ""))
  }

  /** How many steps of its own a request has left at most. */
  function StepsLeft(p: Phase): nat {
    match p
    case Leading(_) => 5
    case Recorded(_, _) => 4
    case Written(_, _) => 3
    case Panicked(_, _) => 3
    case Settled(_) => 2
    case Removed(_) => 1
    case Waiting(_) => 3
    case Woken(_) => 2
    case Alone => 1
    case _ => 0
  }

  /** Every step but an arrival or a cancellation brings one request closer to its end and moves no other. */
  lemma StepsRunOut(s: State, a: Step, r: nat)
    requires Enabled(s, a) && !a.Arrive? && r in s.requests
    ensures r in Apply(s, a).requests
    ensures var p, p' := s.requests[r].phase, Apply(s, a).requests[r].phase;
            if a.r == r && !a.Cancel? then StepsLeft(p') < StepsLeft(p) else p' == p
  {
  }

  /**
   When a waiter is finished it has written exactly one response, unless its own
   context was cancelled while it waited or its own handler panicked.
   */
  lemma FinishedWaiterWroteOnce(s: State, r: nat)
    requires Inv(s) && r in s.requests && Finished(s.requests[r].phase) && !s.requests[r].phase.Led?
    ensures !s.requests[r].cancelled && !s.requests[r].phase.PanickedAlone? ==> |s.requests[r].wrote| == 1
    ensures |s.requests[r].wrote| == if s.requests[r].phase.Left? || s.requests[r].phase.PanickedAlone? then 0 else 1
    ensures s.requests[r].phase.Left? ==> s.requests[r].cancelled
  {
    assert RequestOk(s.calls, s.flights, r, s.requests[r]);
  }

  /** The request leads a flight that is in the map. */
  predicate LeadsFor(s: State, r: nat) {
    r in s.requests && Registered(s.requests[r].phase)
  }

  /**
   In every state of every run: one leader per key at most, no flight closed twice or closed
   while it is in the map, and one response exactly from every finished waiter that was
   neither cancelled nor let down by its own handler.
   */
  lemma EveryRunIsSafe(states: seq<State>, steps: seq<Step>, i: nat)
    requires Run(states, steps) && i < |states|
    ensures var s := states[i];
            && (forall r, r' ::
                  LeadsFor(s, r) && LeadsFor(s, r') && s.requests[r].key == s.requests[r'].key ==> r == r')
            && (forall f :: 0 <= f < |s.flights| ==>
                  s.flights[f].closed <= 1 && (s.flights[f].closed == 1 ==> f !in s.calls.Values))
            && (forall r :: r in s.requests && Finished(s.requests[r].phase) && !s.requests[r].phase.Led? ==>
                  (|s.requests[r].wrote|
                   == if s.requests[r].phase.Left? || s.requests[r].phase.PanickedAlone? then 0 else 1)
                  && (s.requests[r].phase.Left? ==> s.requests[r].cancelled))
  {
    hide Inv, Registered, Finished;
    EveryStateKeeps(states, steps, i);
    var s := states[i];
    forall r, r' | LeadsFor(s, r) && LeadsFor(s, r') && s.requests[r].key == s.requests[r'].key
      ensures r == r'
    {
      OneLeaderPerKey(s, r, r');
    }
    forall f | 0 <= f < |s.flights|
      ensures s.flights[f].closed <= 1 && (s.flights[f].closed == 1 ==> f !in s.calls.Values)
    {
      ClosedOnceAndRemoved(s, f);
    }
    forall r | r in s.requests && Finished(s.requests[r].phase) && !s.requests[r].phase.Led?
      ensures |s.requests[r].wrote| == if s.requests[r].phase.Left? || s.requests[r].phase.PanickedAlone? then 0 else 1
      ensures s.requests[r].phase.Left? ==> s.requests[r].cancelled
    {
      FinishedWaiterWroteOnce(s, r);
    }
  }

  // ---- When a shared answer was computed -------------------------------------------------------------

  predicate LeadingAt(s: State, r: nat) {
    r in s.requests && s.requests[r].phase.Leading?
  }

  /** A request leads from its arrival on, without a break: what has stopped leading never does again. */
  lemma {:induction false} LeadingBefore(states: seq<State>, steps: seq<Step>, i: nat, k: nat, r: nat)
    requires Run(states, steps) && i <= k < |states| && r in states[i].requests && LeadingAt(states[k], r)
    ensures LeadingAt(states[i], r)
    decreases k - i
  {
    hide Apply, Enabled;
    if i < k {
      StillThere(states, steps, i, k - 1, r);
      LeadingStep(states, steps, k - 1, r);
      LeadingBefore(states, steps, i, k - 1, r);
    }
  }

  lemma {:induction false} StillThere(states: seq<State>, steps: seq<Step>, i: nat, k: nat, r: nat)
    requires Run(states, steps) && i <= k < |states| && r in states[i].requests
    ensures r in states[k].requests
    decreases k - i
  {
    if i < k {
      StillThere(states, steps, i, k - 1, r);
    }
  }

  lemma LeadingStep(states: seq<State>, steps: seq<Step>, i: nat, r: nat)
    requires Run(states, steps) && i < |steps| && r in states[i].requests && LeadingAt(states[i + 1], r)
    ensures LeadingAt(states[i], r)
  {
  }

  lemma {:induction false} LeaderFixed(states: seq<State>, steps: seq<Step>, i: nat, n: nat, f: nat)
    requires Run(states, steps) && i <= n < |states| && f < |states[i].flights|
    ensures f < |states[n].flights| && states[n].flights[f].leader == states[i].flights[f].leader
    decreases n - i
  {
    if i < n {
      LeaderFixed(states, steps, i, n - 1, f);
    }
  }

  /** An answer about to be shared was recorded when its leader's handler returned. */
  lemma {:induction false} RecordedWhenServed(states: seq<State>, steps: seq<Step>, n: nat, r: nat) returns (k: nat)
    requires Run(states, steps) && n < |states| && r in states[n].requests
    requires states[n].requests[r].phase.Recorded? || states[n].requests[r].phase.Written?
    ensures k < n && steps[k] == Serve(r, states[n].requests[r].phase.answer) && LeadingAt(states[k], r)
  {
    assert n > 0;
    if steps[n - 1].Serve? && steps[n - 1].r == r {
      k := n - 1;
    } else {
      k := RecordedWhenServed(states, steps, n - 1, r);
    }
  }

  lemma ServedOnce(states: seq<State>, steps: seq<Step>, k: nat, k': nat, r: nat)
    requires Run(states, steps) && k < |steps| && k' < |steps|
    requires steps[k].Serve? && steps[k'].Serve? && steps[k].r == r == steps[k'].r
    ensures k == k'
  {
    if k < k' {
      LeadingBefore(states, steps, k + 1, k', r);
    } else if k' < k {
      LeadingBefore(states, steps, k' + 1, k, r);
    }
  }

  /**
   When the answer a request copies was computed: by the one Serve of its flight's leader, and
   before the request arrived exactly when that leader's handler had already returned then.
   */
  lemma SharedAnswerIsOlderExactly(states: seq<State>, steps: seq<Step>, n: nat, r: nat) returns (i: nat, k: nat)
    requires Run(states, steps) && n < |states| && r in states[n].requests && states[n].requests[r].phase.Copied?
    ensures i < n && k < n && steps[i] == Arrive(r, states[n].requests[r].key)
    ensures var q := states[n].requests[r];
            && q.phase.flight < |states[n].flights| && |q.wrote| == 1
            && var leader := states[n].flights[q.phase.flight].leader;
               && leader in states[i].requests
               && steps[k] == Serve(leader, q.wrote[0])
               && (forall k' :: 0 <= k' < |steps| && steps[k'].Serve? && steps[k'].r == leader ==> k' == k)
               && (k < i <==> !states[i].requests[leader].phase.Leading?)
  {
    hide Inv, Apply, Enabled;
    var j: nat;
    i, j := SharedOnlyFromGoodFlights(states, steps, n, r);
    var f := states[n].requests[r].phase.flight;
    var leader := states[n].flights[f].leader;
    k := RecordedWhenServed(states, steps, j, leader);
    forall k' | 0 <= k' < |steps| && steps[k'].Serve? && steps[k'].r == leader
      ensures k' == k
    {
      ServedOnce(states, steps, k, k', leader);
    }
    LeaderThere(states, steps, i, n, states[n].requests[r].key, f);
    if k < i {
      StillThere(states, steps, k, i, leader);
      if LeadingAt(states[i], leader) {
        LeadingBefore(states, steps, k + 1, i, leader) by { ServedStays(states, steps, k, leader); }
        ServedStays(states, steps, k, leader);
      }
    } else {
      LeadingBefore(states, steps, i, k, leader);
    }
  }

  lemma ServedStays(states: seq<State>, steps: seq<Step>, k: nat, r: nat)
    requires Run(states, steps) && k < |steps| && steps[k].Serve? && steps[k].r == r
    ensures r in states[k + 1].requests && !LeadingAt(states[k + 1], r)
  {
  }

  /** A flight found in the map has its leader, and it is the one it ends with. */
  lemma LeaderThere(states: seq<State>, steps: seq<Step>, i: nat, n: nat, key: string, f: nat)
    requires Run(states, steps) && i <= n < |states| && key in states[i].calls && states[i].calls[key] == f
    ensures f < |states[n].flights| && states[n].flights[f].leader in states[i].requests
  {
    EveryStateKeeps(states, steps, i);
    assert EntryOk(states[i], key, f);
    LeaderFixed(states, steps, i, n, f);
  }

  /** One more step of a run. */
  lemma Longer(states: seq<State>, steps: seq<Step>, a: Step, s: State) returns (states': seq<State>, steps': seq<Step>)
    requires Run(states, steps) && Enabled(states[|states| - 1], a)
    requires var next := Apply(states[|states| - 1], a);
             s.calls == next.calls && s.flights == next.flights && s.requests == next.requests
    ensures Run(states', steps') && states' == states + [s] && steps' == steps + [a]
  {
    hide Apply, Enabled;
    states', steps' := states + [s], steps + [a];
  }

  function Shared(answer: Response, p: Phase, f: Flight, follower: Request): State {
    State(if Registered(p) then map["k" := 0] else map[], [f],
          map[0 := Request("k", p, false, [answer]), 1 := follower])
  }

  const JOINED := Request("k", Waiting(0), false, [])
  const OPEN := Flight("k", 0, false, None, 0)

  function Good(answer: Response): Flight { Flight("k", 0, true, Some(answer), 0) }

  lemma LeaderSettles(answer: Response) returns (states: seq<State>, steps: seq<Step>)
    ensures Run(states, steps)
    ensures steps == [Arrive(0, "k"), Serve(0, answer), Arrive(1, "k"), WriteOwn(0), Settle(0)]
    ensures |states| == 6 && states[5] == Shared(answer, Settled(0), Good(answer), JOINED)
  {
    hide Run;
    states, steps := JoinedLate(answer);
    assert [] + [answer] == [answer];
    states, steps := Longer(states, steps, WriteOwn(0), Shared(answer, Written(0, answer), OPEN, JOINED));
    states, steps := Longer(states, steps, Settle(0), Shared(answer, Settled(0), Good(answer), JOINED));
  }

  lemma LeaderCloses(answer: Response) returns (states: seq<State>, steps: seq<Step>)
    ensures Run(states, steps)
    ensures steps == [Arrive(0, "k"), Serve(0, answer), Arrive(1, "k"), WriteOwn(0), Settle(0), Remove(0), Close(0)]
    ensures |states| == 8 && states[7] == Shared(answer, Led(0), Good(answer).(closed := 1), JOINED)
  {
    hide Run;
    states, steps := LeaderSettles(answer);
    states, steps := Longer(states, steps, Remove(0), Shared(answer, Removed(0), Good(answer), JOINED));
    states, steps := Longer(states, steps, Close(0), Shared(answer, Led(0), Good(answer).(closed := 1), JOINED));
  }

  /** And it can be older: this request is given an answer recorded before it arrived. */
  lemma AnswerMayPredateArrival(answer: Response) returns (states: seq<State>, steps: seq<Step>)
    ensures Run(states, steps)
    ensures steps == [Arrive(0, "k"), Serve(0, answer), Arrive(1, "k"), WriteOwn(0), Settle(0), Remove(0), Close(0),
                      Wake(1), Copy(1)]
    ensures states[9].requests
            == map[0 := Request("k", Led(0), false, [answer]), 1 := Request("k", Copied(0), false, [answer])]
  {
    hide Run;
    var closed := Good(answer).(closed := 1);
    states, steps := LeaderCloses(answer);
    states, steps := Longer(states, steps, Wake(1), Shared(answer, Led(0), closed, JOINED.(phase := Woken(0))));
    assert [] + [answer] == [answer];
    states, steps := Longer(states, steps, Copy(1),
                            Shared(answer, Led(0), closed, Request("k", Copied(0), false, [answer])));
  }

  lemma JoinedLate(answer: Response) returns (states: seq<State>, steps: seq<Step>)
    ensures Run(states, steps) && steps == [Arrive(0, "k"), Serve(0, answer), Arrive(1, "k")]
    ensures |states| == 4 && states[3] == State(map["k" := 0], [Flight("k", 0, false, None, 0)],
                               map[0 := Request("k", Recorded(0, answer), false, []),
                                   1 := Request("k", Waiting(0), false, [])])
  {
    steps := [Arrive(0, "k"), Serve(0, answer), Arrive(1, "k")];
    var s1 := Apply(START, steps[0]);
    assert s1.requests[0] == Request("k", Leading(0), false, []) && s1.calls == map["k" := 0];
    var s2 := Apply(s1, steps[1]);
    assert s2.calls == s1.calls;
    states := [START, s1, s2, Apply(s2, steps[2])];
  }
}
