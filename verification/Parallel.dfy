/**
 The parallel runner: one goroutine per step, a channel of tokens that bounds how many
 run, a shared context the first error cancels, and a result read after all have ended.
 */
module Parallel {
  import opened Wrappers

  /** A goroutine, from launch to the end of its deferred calls. */
  datatype Phase =
    | Unlaunched
    | Nil                       // the step given was nil: nothing is launched
    | Choosing                  // in the select: a token, or the cancelled context
    | Running
    | Returned(error: Option<string>)
    | Cancelling(first: string) // inside once.Do, the error stored, the context not yet cancelled
    | Releasing(outcome: Option<string>)
    | Ended(outcome: Option<string>)
    | Skipped

  datatype State = State(
    limit: nat,
    given: seq<bool>,           // which steps are not nil
    launched: nat,
    phases: seq<Phase>,
    tokens: nat,
    firstErr: Option<string>,
    cancelled: bool,
    parentCancelled: bool,
    result: Option<Result<()>>)

  datatype Step =
    | Launch
    | Take(i: nat)
    | Skip(i: nat)
    | Return(i: nat, error: Option<string>)
    | Record(i: nat)
    | Cancel(i: nat)
    | Release(i: nat)
    | CancelParent
    | Finish

  const CONTEXT_ERROR := "context canceled"

  /** RunParallel called with these steps; a limit below one counts as one. */
  function Start(limit: int, given: seq<bool>): State {
    State(if limit < 1 then 1 else limit, given, 0, seq(|given|, i => Unlaunched), 0, None, false, false, None)
  }

  predicate Over(p: Phase) {
    p.Nil? || p.Ended? || p.Skipped?
  }

  /** The goroutine holds a token. */
  predicate Holds(p: Phase) {
    p.Running? || p.Returned? || p.Cancelling? || p.Releasing?
  }

  predicate Enabled(s: State, a: Step) {
    && s.result.None?
    && match a
       case Launch => s.launched < |s.given| && s.launched < |s.phases|
       case Take(i) => i < |s.phases| && s.phases[i].Choosing? && s.tokens < s.limit
       case Skip(i) => i < |s.phases| && s.phases[i].Choosing? && (s.cancelled || s.parentCancelled)
       case Return(i, _) => i < |s.phases| && s.phases[i].Running?
       case Record(i) => i < |s.phases| && s.phases[i].Returned? && (s.phases[i].error.Some? ==> !OnceBusy(s))
       case Cancel(i) => i < |s.phases| && s.phases[i].Cancelling?
       case Release(i) => i < |s.phases| && s.phases[i].Releasing? && s.tokens > 0
       case CancelParent => !s.parentCancelled
       case Finish => s.launched == |s.given| && forall i :: 0 <= i < |s.phases| ==> Over(s.phases[i])
  }

  /** once.Do makes the others wait until the first call is over. */
  predicate OnceBusy(s: State) {
    exists i :: 0 <= i < |s.phases| && s.phases[i].Cancelling?
  }

  function Move(s: State, i: nat, p: Phase): State
    requires i < |s.phases|
  {
    s.(phases := s.phases[i := p])
  }

  function Apply(s: State, a: Step): State
    requires Enabled(s, a)
  {
    match a
    case Launch => Move(s.(launched := s.launched + 1), s.launched, if s.given[s.launched] then Choosing else Nil)
    case Take(i) => Move(s.(tokens := s.tokens + 1), i, Running)
    case Skip(i) => Move(s, i, Skipped)
    case Return(i, error) => Move(s, i, Returned(error))
    case Record(i) =>
      (match s.phases[i].error
       case None => Move(s, i, Releasing(None))
       case Some(e) =>
         if s.firstErr.None? then Move(s.(firstErr := Some(e)), i, Cancelling(e)) else Move(s, i, Releasing(Some(e))))
    case Cancel(i) => Move(s.(cancelled := true), i, Releasing(Some(s.phases[i].first)))
    case Release(i) => Move(s.(tokens := s.tokens - 1), i, Ended(s.phases[i].outcome))
    case CancelParent => s.(parentCancelled := true)
    case Finish =>
      s.(result := Some(if s.firstErr.Some? then Err(s.firstErr.value)
                        else if s.parentCancelled then Err(CONTEXT_ERROR) else Ok(())))
  }

  // ---- The invariant --------------------------------------------------------------------------

  function Holders(phases: seq<Phase>): set<nat> {
    set i: nat | i < |phases| && Holds(phases[i])
  }

  /** What one goroutine's phase says about the shared variables. */
  ghost predicate GoroutineOk(s: State, i: nat)
    requires i < |s.phases| == |s.given|
  {
    var p := s.phases[i];
    && (p.Unlaunched? <==> s.launched <= i)
    && (i < s.launched ==> (p.Nil? <==> !s.given[i]))
    && (p.Skipped? ==> s.cancelled || s.parentCancelled)
    && (p.Cancelling? ==> s.firstErr == Some(p.first) && !s.cancelled)
    && (p.Releasing? || p.Ended? ==> (p.outcome.Some? ==> s.firstErr.Some?))
  }

  ghost predicate Inv(s: State) {
    && s.limit >= 1 && |s.phases| == |s.given| && s.launched <= |s.given|
    && s.tokens == |Holders(s.phases)| <= s.limit
    && (s.cancelled ==> s.firstErr.Some?)
    && (s.firstErr.Some? && !s.cancelled ==> OnceBusy(s))
    && (forall i, j :: 0 <= i < j < |s.phases| ==> !(s.phases[i].Cancelling? && s.phases[j].Cancelling?))
    && (forall i :: 0 <= i < |s.phases| ==> GoroutineOk(s, i))
    && (s.result.Some? ==> s.launched == |s.given| && forall i :: 0 <= i < |s.phases| ==> Over(s.phases[i]))
    && (s.result.Some? ==> s.result.value == if s.firstErr.Some? then Err(s.firstErr.value)
                                             else if s.parentCancelled then Err(CONTEXT_ERROR) else Ok(()))
  }

  lemma HoldersMove(phases: seq<Phase>, i: nat, p: Phase)
    requires i < |phases|
    ensures |Holders(phases[i := p])|
            == |Holders(phases)| + (if Holds(p) then 1 else 0) - (if Holds(phases[i]) then 1 else 0)
  {
    var was, now := Holders(phases), Holders(phases[i := p]);
    var rest := was - {i};
    assert rest == now - {i};
    assert was == if Holds(phases[i]) then rest + {i} else rest;
    assert now == if Holds(p) then rest + {i} else rest;
  }

  lemma StartKeeps(limit: int, given: seq<bool>)
    ensures Inv(Start(limit, given))
  {
    assert Holders(Start(limit, given).phases) == {};
  }

  lemma MoveKeeps(s: State, a: Step)
    requires Inv(s) && Enabled(s, a) && (a.Take? || a.Skip? || a.Return? || a.Release?)
    ensures Inv(Apply(s, a))
  {
    var t := Apply(s, a);
    HoldersMove(s.phases, a.i, t.phases[a.i]);
    assert GoroutineOk(s, a.i);
    forall i | 0 <= i < |t.phases|
      ensures GoroutineOk(t, i)
    {
      assert GoroutineOk(s, i);
    }
    if i :| 0 <= i < |s.phases| && s.phases[i].Cancelling? {
      assert t.phases[i].Cancelling?;
    }
  }

  lemma LaunchKeeps(s: State)
    requires Inv(s) && Enabled(s, Launch)
    ensures Inv(Apply(s, Launch))
  {
    var t := Apply(s, Launch);
    assert GoroutineOk(s, s.launched);
    HoldersMove(s.phases, s.launched, t.phases[s.launched]);
    forall i | 0 <= i < |t.phases|
      ensures GoroutineOk(t, i)
    {
      assert GoroutineOk(s, i);
    }
    if i :| 0 <= i < |s.phases| && s.phases[i].Cancelling? {
      assert t.phases[i].Cancelling?;
    }
  }

  lemma RecordKeeps(s: State, a: Step)
    requires Inv(s) && Enabled(s, a) && (a.Record? || a.Cancel?)
    ensures Inv(Apply(s, a))
  {
    var t := Apply(s, a);
    HoldersMove(s.phases, a.i, t.phases[a.i]);
    assert GoroutineOk(s, a.i);
    forall i | 0 <= i < |t.phases|
      ensures GoroutineOk(t, i)
    {
      assert GoroutineOk(s, i);
    }
    if i :| 0 <= i < |s.phases| && i != a.i && s.phases[i].Cancelling? {
      assert t.phases[i].Cancelling?;
    }
    assert t.phases[a.i].Cancelling? ==> OnceBusy(t);
  }

  /** Every step keeps the invariant. */
  lemma StepKeeps(s: State, a: Step)
    requires Inv(s) && Enabled(s, a)
    ensures Inv(Apply(s, a))
  {
    match a
    case Launch => LaunchKeeps(s);
    case Record(_) => RecordKeeps(s, a);
    case Cancel(_) => RecordKeeps(s, a);
    case CancelParent =>
      forall i | 0 <= i < |s.phases|
        ensures GoroutineOk(Apply(s, a), i)
      {
        assert GoroutineOk(s, i);
      }
    case Finish =>
      forall i | 0 <= i < |s.phases|
        ensures GoroutineOk(Apply(s, a), i)
      {
        assert GoroutineOk(s, i);
      }
    case _ => MoveKeeps(s, a);
  }

  // ---- Runs ---------------------------------------------------------------------------------------

  ghost predicate Run(limit: int, given: seq<bool>, states: seq<State>, steps: seq<Step>) {
    && |states| == |steps| + 1 && states[0] == Start(limit, given)
    && forall i :: 0 <= i < |steps| ==> Enabled(states[i], steps[i]) && states[i + 1] == Apply(states[i], steps[i])
  }

  lemma {:induction false} EveryStateKeeps(limit: int, given: seq<bool>, states: seq<State>, steps: seq<Step>, i: nat)
    requires Run(limit, given, states, steps) && i < |states|
    ensures Inv(states[i]) && states[i].given == given && states[i].limit == (if limit < 1 then 1 else limit)
  {
    hide Inv;
    if i == 0 {
      StartKeeps(limit, given);
    } else {
      EveryStateKeeps(limit, given, states, steps, i - 1);
      StepKeeps(states[i - 1], steps[i - 1]);
    }
  }

  function RunningSteps(s: State): set<nat> {
    set i: nat | i < |s.phases| && s.phases[i].Running?
  }

  lemma SubsetSize<T>(a: set<T>, b: set<T>)
    requires a <= b
    ensures |a| <= |b|
  {
    assert b == a + (b - a);
  }

  /** In every state of every run at most the limit is running. */
  lemma NeverMoreThanLimit(limit: int, given: seq<bool>, states: seq<State>, steps: seq<Step>, i: nat)
    requires Run(limit, given, states, steps) && i < |states|
    ensures |RunningSteps(states[i])| <= if limit < 1 then 1 else limit
  {
    EveryStateKeeps(limit, given, states, steps, i);
    SubsetSize(RunningSteps(states[i]), Holders(states[i].phases));
  }

  /**
   When the runner has returned nothing is running any more; and it returned nil exactly when
   every step that is not nil ran to its end without an error and the caller's context lives.
   */
  lemma ResultMeaning(limit: int, given: seq<bool>, states: seq<State>, steps: seq<Step>, n: nat)
    requires Run(limit, given, states, steps) && n < |states| && states[n].result.Some?
    ensures RunningSteps(states[n]) == {}
    ensures |states[n].phases| == |given|
    ensures states[n].result.value.Ok? <==>
              && !states[n].parentCancelled
              && forall i :: 0 <= i < |given| && given[i] ==> states[n].phases[i] == Ended(None)
  {
    EveryStateKeeps(limit, given, states, steps, n);
    var s := states[n];
    forall i | 0 <= i < |given| && given[i] && s.result.value.Ok?
      ensures s.phases[i] == Ended(None)
    {
      assert GoroutineOk(s, i);
    }
    if s.firstErr.Some? {
      var i := ErrorIsSomeones(limit, given, states, steps, n);
      assert GoroutineOk(s, i);
      assert given[i] && s.phases[i] != Ended(None);
    }
  }

  predicate Carries(p: Phase, e: string) {
    p == Cancelling(e) || p == Releasing(Some(e)) || p == Ended(Some(e))
  }

  lemma UnlaunchedNext(s: State)
    requires Inv(s) && Enabled(s, Launch)
    ensures s.phases[s.launched] == Unlaunched
  {
    assert GoroutineOk(s, s.launched);
  }

  lemma CarriedOn(s: State, a: Step, i: nat, e: string)
    requires Inv(s) && Enabled(s, a) && i < |s.phases| && Carries(s.phases[i], e)
    ensures i < |Apply(s, a).phases| && Carries(Apply(s, a).phases[i], e)
  {
    hide Inv;
    if a.Launch? {
      UnlaunchedNext(s);
    }
  }

  lemma NothingAtStart(limit: int, given: seq<bool>)
    ensures Start(limit, given).firstErr.None?
  {
  }

  lemma FirstErrStays(s: State, a: Step)
    requires Enabled(s, a) && s.firstErr.Some?
    ensures Apply(s, a).firstErr == s.firstErr
  {
  }

  lemma RecordedByOne(s: State, a: Step) returns (i: nat)
    requires Inv(s) && Enabled(s, a) && s.firstErr.None? && Apply(s, a).firstErr.Some?
    ensures i < |Apply(s, a).phases| && Carries(Apply(s, a).phases[i], Apply(s, a).firstErr.value)
  {
    hide Inv;
    i := a.i;
  }

  /** The stored error is some step's own error. */
  lemma {:induction false} ErrorIsSomeones(limit: int, given: seq<bool>, states: seq<State>, steps: seq<Step>, n: nat)
    returns (i: nat)
    requires Run(limit, given, states, steps) && n < |states| && states[n].firstErr.Some?
    ensures i < |states[n].phases| && Carries(states[n].phases[i], states[n].firstErr.value)
  {
    hide Inv, Carries, Apply, Enabled;
    NothingAtStart(limit, given);
    EveryStateKeeps(limit, given, states, steps, n - 1);
    var s, a := states[n - 1], steps[n - 1];
    if s.firstErr.None? {
      i := RecordedByOne(s, a);
    } else {
      i := ErrorIsSomeones(limit, given, states, steps, n - 1);
      FirstErrStays(s, a);
      CarriedOn(s, a, i, s.firstErr.value);
    }
  }

  /** An error returned is the first one recorded: no error was recorded before it, and none replaces it. */
  lemma {:induction false} FirstErrorWins(limit: int, given: seq<bool>, states: seq<State>, steps: seq<Step>, n: nat)
    returns (j: nat)
    requires Run(limit, given, states, steps) && n < |states| && states[n].firstErr.Some?
    ensures j < n && steps[j].Record? && steps[j].i < |states[j].phases|
            && states[j].phases[steps[j].i] == Returned(states[n].firstErr)
    ensures forall k :: 0 <= k < j && steps[k].Record? ==>
              steps[k].i < |states[k].phases| && states[k].phases[steps[k].i] == Returned(None)
  {
    assert n > 0;
    var s, a := states[n - 1], steps[n - 1];
    if s.firstErr.None? {
      j := n - 1;
      NoErrorYet(limit, given, states, steps, j);
    } else {
      j := FirstErrorWins(limit, given, states, steps, n - 1);
    }
  }

  lemma {:induction false} NoErrorYet(limit: int, given: seq<bool>, states: seq<State>, steps: seq<Step>, n: nat)
    requires Run(limit, given, states, steps) && n < |states| && states[n].firstErr.None?
    ensures forall k :: 0 <= k < n && steps[k].Record? ==>
              steps[k].i < |states[k].phases| && states[k].phases[steps[k].i] == Returned(None)
  {
    if n > 0 {
      var s, a := states[n - 1], steps[n - 1];
      assert s.firstErr.None?;
      NoErrorYet(limit, given, states, steps, n - 1);
    }
  }

  /** The error the runner returns is the first recorded, and without one it is the caller's cancelled context. */
  lemma ReturnedErrorIsFirst(limit: int, given: seq<bool>, states: seq<State>, steps: seq<Step>, n: nat)
    returns (j: nat)
    requires Run(limit, given, states, steps) && n < |states|
    requires states[n].result.Some? && states[n].result.value.Err?
    ensures states[n].firstErr.None? ==> states[n].parentCancelled && states[n].result.value.error == CONTEXT_ERROR
    ensures states[n].firstErr.Some? ==>
              && j < n && steps[j].Record? && steps[j].i < |states[j].phases|
              && states[j].phases[steps[j].i] == Returned(Some(states[n].result.value.error))
              && forall k :: 0 <= k < j && steps[k].Record? ==>
                   steps[k].i < |states[k].phases| && states[k].phases[steps[k].i] == Returned(None)
  {
    EveryStateKeeps(limit, given, states, steps, n);
    j := 0;
    if states[n].firstErr.Some? {
      j := FirstErrorWins(limit, given, states, steps, n);
    }
  }

  // ---- The result and the steps of the run -----------------------------------------------------------

  /** What a step's function returned, once it has: nothing, or its error. */
  function Returns(p: Phase): Option<Option<string>> {
    match p
    case Returned(error) => Some(error)
    case Cancelling(first) => Some(Some(first))
    case Releasing(outcome) => Some(outcome)
    case Ended(outcome) => Some(outcome)
    case _ => None
  }

  lemma ReturnsNext(s: State, a: Step, i: nat)
    requires Inv(s) && Enabled(s, a) && i < |s.phases|
    ensures i < |Apply(s, a).phases|
    ensures var before, after := Returns(s.phases[i]), Returns(Apply(s, a).phases[i]);
            if a.Return? && a.i == i then before == None && after == Some(a.error) else after == before
  {
    hide Inv;
    if a.Launch? {
      UnlaunchedNext(s);
    }
  }

  /** What a goroutine carries is what its step returned in this run. */
  lemma {:induction false} ReturnsTold(limit: int, given: seq<bool>, states: seq<State>, steps: seq<Step>, n: nat,
                                       i: nat, outcome: Option<string>)
    requires Run(limit, given, states, steps) && n < |states| && i < |given|
    ensures |states[n].phases| == |given|
    ensures Returns(states[n].phases[i]) == Some(outcome) <==> exists j :: 0 <= j < n && steps[j] == Return(i, outcome)
  {
    hide Inv, Apply, Enabled, Returns;
    PhasesGiven(limit, given, states, steps, n);
    if n == 0 {
      NothingReturned(limit, given, i);
    } else {
      ReturnsTold(limit, given, states, steps, n - 1, i, outcome);
      EveryStateKeeps(limit, given, states, steps, n - 1);
      ReturnsNext(states[n - 1], steps[n - 1], i);
      if j :| 0 <= j < n - 1 && steps[j] == Return(i, outcome) {
        assert j < n;
      }
    }
  }

  lemma NothingReturned(limit: int, given: seq<bool>, i: nat)
    requires i < |given|
    ensures Returns(Start(limit, given).phases[i]) == None
  {
  }

  lemma PhasesGiven(limit: int, given: seq<bool>, states: seq<State>, steps: seq<Step>, n: nat)
    requires Run(limit, given, states, steps) && n < |states|
    ensures |states[n].phases| == |given|
  {
    EveryStateKeeps(limit, given, states, steps, n);
  }

  lemma {:induction false} ParentToldExactly(limit: int, given: seq<bool>, states: seq<State>, steps: seq<Step>, n: nat)
    requires Run(limit, given, states, steps) && n < |states|
    ensures states[n].parentCancelled <==> exists j :: 0 <= j < n && steps[j] == CancelParent
  {
    if n > 0 {
      ParentToldExactly(limit, given, states, steps, n - 1);
    }
  }

  /**
   The result against the steps of the run: nil exactly when the caller's context was never cancelled and every
   step that is not nil returned without an error; otherwise an error some step returned or, if none did,
   the cancelled context.
   */
  lemma ResultToldBySteps(limit: int, given: seq<bool>, states: seq<State>, steps: seq<Step>, n: nat)
    requires Run(limit, given, states, steps) && n < |states| && states[n].result.Some?
    ensures states[n].result.value.Ok? <==>
              && (forall j :: 0 <= j < n ==> steps[j] != CancelParent)
              && forall i: nat :: i < |given| && given[i] ==> exists j :: 0 <= j < n && steps[j] == Return(i, None)
    ensures states[n].result.value.Err? ==>
              var e := states[n].result.value.error;
              || (exists i: nat, j :: 0 <= j < n && steps[j] == Return(i, Some(e)))
              || (e == "context canceled" && exists j :: 0 <= j < n && steps[j] == CancelParent)
  {
    hide Inv, Apply, Enabled;
    ResultMeaning(limit, given, states, steps, n);
    ParentToldExactly(limit, given, states, steps, n);
    AllOver(limit, given, states, steps, n);
    var s := states[n];
    forall i: nat | i < |given|
      ensures Returns(s.phases[i]) == Some(None) <==> exists j :: 0 <= j < n && steps[j] == Return(i, None)
      ensures Returns(s.phases[i]) == Some(None) <==> s.phases[i] == Ended(None)
    {
      ReturnsTold(limit, given, states, steps, n, i, None);
    }
    if s.firstErr.Some? {
      var i := ErrorIsSomeones(limit, given, states, steps, n);
      ReturnsTold(limit, given, states, steps, n, i, s.firstErr);
    }
  }

  lemma AllOver(limit: int, given: seq<bool>, states: seq<State>, steps: seq<Step>, n: nat)
    requires Run(limit, given, states, steps) && n < |states| && states[n].result.Some?
    ensures var s := states[n];
            && (forall i :: 0 <= i < |s.phases| ==> Over(s.phases[i]))
            && s.result.value == (if s.firstErr.Some? then Err(s.firstErr.value)
                                  else if s.parentCancelled then Err(CONTEXT_ERROR) else Ok(()))
  {
    EveryStateKeeps(limit, given, states, steps, n);
  }

  // ---- It always returns -------------------------------------------------------------------------------

  /** Until the result is there some step of the runner itself is possible. */
  lemma NeverStuck(s: State) returns (a: Step)
    requires Inv(s) && s.result.None?
    ensures Enabled(s, a) && !a.CancelParent?
  {
    if s.launched < |s.given| {
      a := Launch;
    } else if forall i :: 0 <= i < |s.phases| ==> Over(s.phases[i]) {
      a := Finish;
    } else if OnceBusy(s) {
      var i :| 0 <= i < |s.phases| && s.phases[i].Cancelling?;
      a := Cancel(i);
    } else if h :| 0 <= h < |s.phases| && Holds(s.phases[h]) {
      assert h in Holders(s.phases);
      match s.phases[h] {
        case Running => a := Return(h, None);
        case Returned(_) => a := Record(h);
        case Releasing(_) => a := Release(h);
        case _ => assert false;
      }
    } else {
      var i :| 0 <= i < |s.phases| && !Over(s.phases[i]);
      assert GoroutineOk(s, i);
      assert Holders(s.phases) == {};
      a := Take(i);
    }
  }

  function Left(p: Phase): nat {
    match p
    case Unlaunched => 6
    case Choosing => 5
    case Running => 4
    case Returned(_) => 3
    case Cancelling(_) => 2
    case Releasing(_) => 1
    case _ => 0
  }

  function TotalLeft(phases: seq<Phase>): nat {
    if phases == [] then 0 else Left(phases[0]) + TotalLeft(phases[1..])
  }

  lemma {:induction false} TotalLeftMove(phases: seq<Phase>, i: nat, p: Phase)
    requires i < |phases|
    ensures TotalLeft(phases[i := p]) == TotalLeft(phases) - Left(phases[i]) + Left(p)
  {
    if i == 0 {
      assert phases[i := p][1..] == phases[1..];
    } else {
      assert phases[i := p][1..] == phases[1..][i - 1 := p];
      TotalLeftMove(phases[1..], i - 1, p);
    }
  }

  /** How many steps of its own the runner has left at most. */
  function Remaining(s: State): nat {
    TotalLeft(s.phases) + if s.result.None? then 1 else 0
  }

  lemma LeftShrinks(s: State, a: Step)
    requires Enabled(s, a) && !a.Launch? && !a.CancelParent? && !a.Finish?
    ensures a.i < |s.phases| == |Apply(s, a).phases| && Left(Apply(s, a).phases[a.i]) < Left(s.phases[a.i])
    ensures Apply(s, a).phases == s.phases[a.i := Apply(s, a).phases[a.i]] && Apply(s, a).result == s.result
  {
  }

  /** Every step of the runner brings it closer to its result, so a run cannot go on for ever. */
  lemma AlwaysReturns(s: State, a: Step)
    requires Inv(s) && Enabled(s, a)
    ensures if a.CancelParent? then Remaining(Apply(s, a)) == Remaining(s) else Remaining(Apply(s, a)) < Remaining(s)
  {
    if a.Launch? {
      hide Inv;
      UnlaunchedNext(s);
      TotalLeftMove(s.phases, s.launched, Apply(s, a).phases[s.launched]);
    } else if !a.Finish? && !a.CancelParent? {
      hide Inv, Apply, Enabled;
      LeftShrinks(s, a);
      TotalLeftMove(s.phases, a.i, Apply(s, a).phases[a.i]);
    }
  }
}
