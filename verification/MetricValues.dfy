/**
 Evaluating a metric: filters are pushed down through ratios and references to the
 one query each leaf runs.
 */
module MetricValues {
  import opened Wrappers
  import opened Metrics

  // ---- Events and filters ------------------------------------------------------------------

  /** An event of the queried site, environment and period. A property may be there with a JSON null. */
  datatype Event = Event(
    entity: string, session: string, name: string, conversion: bool, clientClass: string,
    properties: map<string, Option<string>>,
    userProperties: Option<map<string, Option<string>>>,
    sessionProperties: Option<map<string, Option<string>>>)

  /** The object a filter looks into; None is SQL's NULL. */
  function SourceOf(e: Event, scope: string): Option<map<string, Option<string>>> {
    match scope
    case "user" => e.userProperties
    case "session" => e.sessionProperties
    case _ => Some(e.properties)
  }

  /** source ->> key. */
  function TextAt(source: Option<map<string, Option<string>>>, key: string): Option<string> {
    match source case None => None case Some(m) => if key in m then m[key] else None
  }

  /** Whether a filter selects an event: a comparison with NULL selects nothing, not even "neq" or "not_exists". */
  predicate Passes(f: Filter, e: Event) {
    var source := SourceOf(e, f.scope);
    var text := TextAt(source, f.property);
    match f.operator
    case "exists" => source.Some? && f.property in source.value
    case "not_exists" => source.Some? && f.property !in source.value
    case "eq" => text == Some(f.value.text)
    case "neq" => text.Some? && text.value != f.value.text
    case "in" => text.Some? && f.value.items.Some? && text.value in f.value.items.value
    case _ => true
  }

  predicate PassesAll(fs: seq<Filter>, e: Event) {
    forall i :: 0 <= i < |fs| ==> Passes(fs[i], e)
  }

  function Restrict(events: seq<Event>, fs: seq<Filter>): seq<Event> {
    if events == [] then []
    else (if PassesAll(fs, events[0]) then [events[0]] else []) + Restrict(events[1..], fs)
  }

  /** The conditions of a leaf other than its filters. */
  predicate Fits(d: Definition, e: Event) {
    && (d.eventName == "" || e.name == d.eventName)
    && (d.conversion.None? || e.conversion == d.conversion.value)
    && (d.trafficClass == "" || e.clientClass == d.trafficClass)
  }

  function Matching(d: Definition, events: seq<Event>): seq<Event> {
    if events == [] then []
    else (if Fits(d, events[0]) && PassesAll(d.filters, events[0]) then [events[0]] else []) + Matching(d, events[1..])
  }

  // ---- The aggregates ----------------------------------------------------------------------------

  function GroupOf(d: Definition, e: Event): string {
    if d.kind == "unique_sessions" then e.session else e.entity
  }

  function GroupSize(d: Definition, events: seq<Event>, g: string): nat {
    if events == [] then 0 else (if GroupOf(d, events[0]) == g then 1 else 0) + GroupSize(d, events[1..], g)
  }

  function Groups(d: Definition, events: seq<Event>): set<string> {
    set e | e in events :: GroupOf(d, e)
  }

  /** The groups; with a minimum above one, only those that reach it. */
  function Often(d: Definition, events: seq<Event>): set<string> {
    set g | g in Groups(d, events) && (d.minOccurrences > 1 ==> GroupSize(d, events, g) >= d.minOccurrences)
  }

  /** The number a leaf's property, or else its fallback, holds; decimal reads a text the pattern accepts. */
  function NumberOf(d: Definition, e: Event, decimal: string -> Option<real>): Option<real> {
    var first := TextAt(Some(e.properties), d.property);
    var text := if first.None? && d.fallback != "" then TextAt(Some(e.properties), d.fallback) else first;
    match text case None => None case Some(t) => decimal(t)
  }

  function Sum(d: Definition, events: seq<Event>, decimal: string -> Option<real>): real {
    if events == [] then 0.0
    else (match NumberOf(d, events[0], decimal) case None => 0.0 case Some(x) => x) + Sum(d, events[1..], decimal)
  }

  function Numbers(d: Definition, events: seq<Event>, decimal: string -> Option<real>): nat {
    if events == [] then 0
    else (if NumberOf(d, events[0], decimal).Some? then 1 else 0) + Numbers(d, events[1..], decimal)
  }

  function Aggregate(d: Definition, events: seq<Event>, decimal: string -> Option<real>): real {
    match d.kind
    case "sum" => Sum(d, events, decimal)
    case "average" =>
      if Numbers(d, events, decimal) == 0 then 0.0
      else Sum(d, events, decimal) / Numbers(d, events, decimal) as real
    case "count" => |events| as real
    case _ =>
      // unique_users and unique_sessions
      |Often(d, events)| as real
  }

  // ---- The evaluator -------------------------------------------------------------------------------

  function Divided(n: real, d: real): real {
    if d == 0.0 then 0.0 else n / d * 100.0
  }

  function With(d: Definition, fs: seq<Filter>): Definition {
    d.(filters := d.filters + fs)
  }

  /** evaluateSemanticMetric: None stands for any refusal, of nesting, of a definition or of a missing reference. */
  function Evaluate(reg: Registry, d: Definition, events: seq<Event>, decimal: string -> Option<real>, depth: nat)
    : Option<real>
    decreases Rest(depth)
  {
    if !ValidDefinition(d, depth) then None
    else if d.kind == "ratio" then
      match Evaluate(reg, With(d.numerator.value, d.filters), events, decimal, depth + 1)
      case None => None
      case Some(n) =>
        match Evaluate(reg, With(d.denominator.value, d.filters), events, decimal, depth + 1)
        case None => None
        case Some(m) => Some(Divided(n, m))
    else if d.kind == "metric_ref" then
      if !Found(reg, d.metric) then None
      else Evaluate(reg, With(reg[d.metric].definition, d.filters), events, decimal, depth + 1)
    else Some(Aggregate(d, Matching(d, events), decimal))
  }

  // ---- Pushing filters down -------------------------------------------------------------------

  lemma PassesBoth(fs: seq<Filter>, gs: seq<Filter>, e: Event)
    ensures PassesAll(fs + gs, e) <==> PassesAll(fs, e) && PassesAll(gs, e)
  {
    hide Passes;
    if PassesAll(fs + gs, e) {
      forall i | 0 <= i < |fs|
        ensures Passes(fs[i], e)
      {
        assert (fs + gs)[i] == fs[i];
      }
      forall i | 0 <= i < |gs|
        ensures Passes(gs[i], e)
      {
        assert (fs + gs)[|fs| + i] == gs[i];
      }
    }
  }

  lemma {:induction false} MatchingRestricted(d: Definition, fs: seq<Filter>, events: seq<Event>)
    ensures Matching(With(d, fs), events) == Matching(d, Restrict(events, fs))
  {
    hide PassesAll, Fits;
    if events != [] {
      MatchingRestricted(d, fs, events[1..]);
      PassesBoth(d.filters, fs, events[0]);
      var rest := Restrict(events[1..], fs);
      assert Restrict(events, fs) == if PassesAll(fs, events[0]) then [events[0]] + rest else rest;
      assert ([events[0]] + rest)[1..] == rest;
      assert Fits(With(d, fs), events[0]) <==> Fits(d, events[0]) by { FitsIgnoresFilters(d, fs, events[0]); }
    }
  }

  lemma FitsIgnoresFilters(d: Definition, fs: seq<Filter>, e: Event)
    ensures Fits(With(d, fs), e) <==> Fits(d, e)
  {
  }

  lemma ValidWith(d: Definition, fs: seq<Filter>, depth: nat)
    requires ValidFilters(fs)
    ensures ValidDefinition(With(d, fs), depth) <==> ValidDefinition(d, depth)
  {
    hide ValidFilter;
    assert ValidFilters(d.filters + fs) <==> ValidFilters(d.filters) by { FiltersTogether(d.filters, fs); }
  }

  lemma FiltersTogether(fs: seq<Filter>, gs: seq<Filter>)
    ensures ValidFilters(fs + gs) <==> ValidFilters(fs) && ValidFilters(gs)
  {
    hide ValidFilter;
    if ValidFilters(fs + gs) {
      forall i | 0 <= i < |fs|
        ensures ValidFilter(fs[i])
      {
        assert (fs + gs)[i] == fs[i];
      }
      forall i | 0 <= i < |gs|
        ensures ValidFilter(gs[i])
      {
        assert (fs + gs)[|fs| + i] == gs[i];
      }
    }
  }

  lemma WithTwice(d: Definition, fs: seq<Filter>, gs: seq<Filter>)
    ensures With(With(d, fs), gs) == With(d, fs + gs)
  {
    assert (d.filters + fs) + gs == d.filters + (fs + gs);
  }

  /** Aggregates look at a definition's kind and property, not at its filters. */
  lemma {:induction false} AggregateIgnoresFilters(d: Definition, fs: seq<Filter>, events: seq<Event>,
                                                   decimal: string -> Option<real>)
    ensures Aggregate(d.(filters := fs), events, decimal) == Aggregate(d, events, decimal)
  {
    var d' := d.(filters := fs);
    SumIgnoresFilters(d, fs, events, decimal);
    assert Groups(d', events) == Groups(d, events);
    forall g
      ensures GroupSize(d', events, g) == GroupSize(d, events, g)
    {
      SizeIgnoresFilters(d, fs, events, g);
    }
    assert Often(d', events) == Often(d, events);
  }

  lemma {:induction false} SumIgnoresFilters(d: Definition, fs: seq<Filter>, events: seq<Event>,
                                             decimal: string -> Option<real>)
    ensures Sum(d.(filters := fs), events, decimal) == Sum(d, events, decimal)
    ensures Numbers(d.(filters := fs), events, decimal) == Numbers(d, events, decimal)
  {
    if events != [] {
      SumIgnoresFilters(d, fs, events[1..], decimal);
    }
  }

  lemma {:induction false} SizeIgnoresFilters(d: Definition, fs: seq<Filter>, events: seq<Event>, g: string)
    ensures GroupSize(d.(filters := fs), events, g) == GroupSize(d, events, g)
  {
    if events != [] {
      SizeIgnoresFilters(d, fs, events[1..], g);
    }
  }

  /** A filter added to a definition is the same as filtering the events first. */
  lemma {:induction false} PushDown(reg: Registry, d: Definition, fs: seq<Filter>, events: seq<Event>,
                                    decimal: string -> Option<real>, depth: nat)
    requires ValidFilters(fs)
    ensures Evaluate(reg, With(d, fs), events, decimal, depth) == Evaluate(reg, d, Restrict(events, fs), decimal, depth)
    decreases Rest(depth)
  {
    hide Aggregate, Matching, Restrict, ValidFilters, ValidFields;
    ValidWith(d, fs, depth);
    if ValidDefinition(d, depth) {
      if d.kind == "ratio" {
        WithTwice(d.numerator.value, d.filters, fs);
        WithTwice(d.denominator.value, d.filters, fs);
        PushDown(reg, With(d.numerator.value, d.filters), fs, events, decimal, depth + 1);
        PushDown(reg, With(d.denominator.value, d.filters), fs, events, decimal, depth + 1);
      } else if d.kind == "metric_ref" {
        if Found(reg, d.metric) {
          WithTwice(reg[d.metric].definition, d.filters, fs);
          PushDown(reg, With(reg[d.metric].definition, d.filters), fs, events, decimal, depth + 1);
        }
      } else {
        MatchingRestricted(d, fs, events);
        AggregateIgnoresFilters(d, d.filters + fs, Matching(d, Restrict(events, fs)), decimal);
      }
    }
  }

  lemma OwnFiltersValid(d: Definition, depth: nat)
    requires ValidDefinition(d, depth)
    ensures ValidFilters(d.filters) && depth <= 5
  {
  }

  // ---- A metric just saved ------------------------------------------------------------------------------

  /** Both registries agree on every metric but the one being saved. */
  ghost predicate SameElsewhere(reg: Registry, reg': Registry, name: string) {
    forall m :: m in reg && m != name ==> m in reg' && reg'[m] == reg[m]
  }

  ghost predicate AllValid(reg: Registry) {
    forall m :: m in reg ==> ValidDefinition(reg[m].definition, 1)
  }

  /** A definition valid at one depth whose nested parts pass the check at another is valid there too. */
  lemma {:induction false} NestingFits(reg: Registry, name: string, d: Definition, seen: set<string>, k: nat,
                                       depth: nat)
    requires ValidDefinition(d, k) && ValidRefs(reg, name, d, seen, depth)
    ensures ValidDefinition(d, depth)
    decreases d
  {
    if d.kind == "ratio" {
      NestingFits(reg, name, d.numerator.value, seen, k + 1, depth + 1);
      NestingFits(reg, name, d.denominator.value, seen, k + 1, depth + 1);
    }
  }

  /**
   Whatever passes the reference check evaluates, with any further filters and against any later
   version of the saved metric.
   */
  lemma {:induction false} CheckedEvaluates(reg: Registry, reg': Registry, name: string, d: Definition,
                                            seen: set<string>, k: nat, fs: seq<Filter>, events: seq<Event>,
                                            decimal: string -> Option<real>, depth: nat)
    requires AllValid(reg) && SameElsewhere(reg, reg', name) && ValidFilters(fs)
    requires ValidDefinition(d, k) && ValidRefs(reg, name, d, seen, depth)
    ensures Evaluate(reg', With(d, fs), events, decimal, depth).Some?
    decreases Rest(depth)
  {
    hide Aggregate, Matching, ValidFilters, ValidFields;
    NestingFits(reg, name, d, seen, k, depth);
    OwnFiltersValid(d, depth);
    FiltersTogether(d.filters, fs);
    ValidWith(d, fs, depth);
    if d.kind == "ratio" {
      CheckedEvaluates(reg, reg', name, d.numerator.value, seen, k + 1, d.filters + fs, events, decimal, depth + 1);
      CheckedEvaluates(reg, reg', name, d.denominator.value, seen, k + 1, d.filters + fs, events, decimal, depth + 1);
    } else if d.kind == "metric_ref" {
      CheckedEvaluates(reg, reg', name, reg[d.metric].definition, seen + {d.metric}, 1, d.filters + fs, events, decimal,
                       depth + 1);
    }
  }

  /**
   A metric just saved evaluates against the registry it was saved into: no nesting, cycle or
   missing-reference error.
   */
  lemma SavedMetricEvaluates(reg: Registry, q: Request, events: seq<Event>, decimal: string -> Option<real>)
    requires Sound(reg) && Accepted(reg, q)
    ensures Evaluate(Saved(reg, q), q.definition, events, decimal, 1).Some?
  {
    CheckedEvaluates(reg, Saved(reg, q), q.name, q.definition, {q.name}, 1, [], events, decimal, 1);
    assert q.definition.filters + [] == q.definition.filters;
    assert With(q.definition, []) == q.definition;
  }

  /** What evaluates at a depth passes the check there, if it passes the check anywhere. */
  lemma {:induction false} EvaluatedWasChecked(reg: Registry, reg': Registry, name: string, d: Definition,
                                               seen: set<string>, at: nat, fs: seq<Filter>, events: seq<Event>,
                                               decimal: string -> Option<real>, depth: nat)
    requires SameElsewhere(reg, reg', name)
    requires ValidRefs(reg, name, d, seen, at)
    requires Evaluate(reg', With(d, fs), events, decimal, depth).Some?
    ensures ValidRefs(reg, name, d, seen, depth)
    decreases Rest(depth)
  {
    hide Aggregate, Matching, ValidFilters, ValidFields;
    if d.kind == "ratio" {
      EvaluatedWasChecked(reg, reg', name, d.numerator.value, seen, at + 1, d.filters + fs, events, decimal, depth + 1);
      EvaluatedWasChecked(reg, reg', name, d.denominator.value, seen, at + 1, d.filters + fs, events, decimal,
                          depth + 1);
    } else if d.kind == "metric_ref" {
      EvaluatedWasChecked(reg, reg', name, reg[d.metric].definition, seen + {d.metric}, at + 1, d.filters + fs, events,
                          decimal, depth + 1);
    }
  }

  // ---- Which stored metrics evaluate -------------------------------------------------------------------------

  /** p is the way the evaluator came from the metric p[0] to the definition of p's last metric. */
  ghost predicate Trail(reg: Registry, p: seq<string>) {
    && |p| >= 1 && (|p| == 1 || Walk(reg, p))
  }

  /** A reference never leads back to a metric on the way to it. */
  lemma NeverBack(reg: Registry, p: seq<string>, m: string)
    requires Acyclic(reg) && Trail(reg, p) && p[|p| - 1] in reg && m in Refs(reg[p[|p| - 1]].definition)
    ensures m !in p && Trail(reg, p + [m])
  {
    hide Refs;
    var q := p + [m];
    assert forall i :: 0 <= i < |p| ==> q[i] == p[i];
    forall i | 0 <= i < |q| - 1
      ensures q[i] in reg && q[i + 1] in Refs(reg[q[i]].definition)
    {
      if i < |p| - 1 {
        assert p[i + 1] in Refs(reg[p[i]].definition);
      }
    }
    forall i | 0 <= i < |p|
      ensures p[i] != m
    {
      var c := q[i..];
      forall k | 0 <= k < |c| - 1
        ensures c[k] in reg && c[k + 1] in Refs(reg[c[k]].definition)
      {
        assert c[k] == q[i + k] && c[k + 1] == q[(i + k) + 1];
      }
      assert Walk(reg, c);
    }
  }

  function Elements(p: seq<string>): set<string> {
    set i | 0 <= i < |p| :: p[i]
  }

  /** What the evaluator got through on the way from a metric passes the reference check there. */
  lemma {:induction false} EvaluatedResolves(reg: Registry, p: seq<string>, d: Definition, fs: seq<Filter>,
                                             events: seq<Event>, decimal: string -> Option<real>, depth: nat)
    requires Acyclic(reg) && |p| >= 1 && Trail(reg, p) && p[|p| - 1] in reg
             && Refs(d) <= Refs(reg[p[|p| - 1]].definition)
    requires Evaluate(reg, With(d, fs), events, decimal, depth).Some?
    ensures ValidRefs(reg, p[0], d, Elements(p), depth)
    decreases Rest(depth)
  {
    hide Aggregate, Matching, ValidFilters, ValidFields, Acyclic, Trail;
    OwnFiltersValid(With(d, fs), depth);
    if d.kind == "ratio" {
      EvaluatedResolves(reg, p, d.numerator.value, d.filters + fs, events, decimal, depth + 1);
      EvaluatedResolves(reg, p, d.denominator.value, d.filters + fs, events, decimal, depth + 1);
    } else if d.kind == "metric_ref" {
      var m := d.metric;
      assert m in Refs(d);
      NeverBack(reg, p, m);
      assert p[0] in p;
      ElementsAppend(p, m);
      EvaluatedResolves(reg, p + [m], reg[m].definition, d.filters + fs, events, decimal, depth + 1);
    }
  }

  lemma ElementsAppend(p: seq<string>, m: string)
    ensures Elements(p + [m]) == Elements(p) + {m}
    ensures m in Elements(p) <==> m in p
  {
    assert forall i :: 0 <= i < |p| ==> (p + [m])[i] == p[i];
    assert (p + [m])[|p|] == m;
  }

  /**
   In every registry saves can reach, a stored definition evaluates, with no nesting, cycle or
   missing-reference error, exactly when saving it again would be accepted.
   */
  lemma StoredEvaluatesExactly(reg: Registry, name: string, events: seq<Event>, decimal: string -> Option<real>)
    requires Sound(reg) && name in reg && ValidMetricName(name)
    ensures Evaluate(reg, reg[name].definition, events, decimal, 1).Some?
            <==> Accepted(reg, Request(name, reg[name].definition, reg[name].active))
  {
    hide Evaluate, ValidDefinition, ValidRefs, Acyclic, ValidMetricName;
    var d := reg[name].definition;
    assert With(d, []) == d by { assert d.filters + [] == d.filters; }
    ElementsAppend([], name);
    assert [] + [name] == [name] && Elements([]) == {};
    assert Elements([name]) == {name} && [name][0] == name && [name][|[name]| - 1] == name;
    if Evaluate(reg, d, events, decimal, 1).Some? {
      EvaluatedResolves(reg, [name], d, [], events, decimal, 1);
    }
    if ValidRefs(reg, name, d, {name}, 1) {
      CheckedEvaluates(reg, reg, name, d, {name}, 1, [], events, decimal, 1);
    }
  }

  /**
   Saving a metric does not look at the metrics that refer to it. One that refers to it
   directly still evaluates exactly when the new version is active and nests one level less
   than the save allowed.
   */
  lemma ReferrerEvaluatesExactly(reg: Registry, q: Request, a: Definition, events: seq<Event>,
                                 decimal: string -> Option<real>)
    requires Sound(reg) && Accepted(reg, q)
    requires a.kind == "metric_ref" && a.metric == q.name && ValidDefinition(a, 1)
    ensures Evaluate(Saved(reg, q), a, events, decimal, 1).Some?
            <==> q.active && ValidRefs(reg, q.name, q.definition, {q.name}, 2)
  {
    hide Aggregate, Matching, ValidFields;
    var now := Saved(reg, q);
    OwnFiltersValid(a, 1);
    if q.active {
      if Evaluate(now, a, events, decimal, 1).Some? {
        EvaluatedWasChecked(reg, now, q.name, q.definition, {q.name}, 1, a.filters, events, decimal, 2);
      }
      if ValidRefs(reg, q.name, q.definition, {q.name}, 2) {
        CheckedEvaluates(reg, now, q.name, q.definition, {q.name}, 1, a.filters, events, decimal, 2);
      }
    }
  }

  const COUNT := Definition("count", "", "", None, "", "", "", 0, [], None, None)

  /** k ratios around a count. */
  function Nested(k: nat): Definition {
    if k == 0 then COUNT else COUNT.(kind := "ratio", numerator := Some(Nested(k - 1)),
                                     denominator := Some(Nested(k - 1)))
  }

  lemma {:induction false} NestedFits(k: nat, depth: nat, reg: Registry, name: string, seen: set<string>)
    ensures ValidDefinition(Nested(k), depth) <==> depth + k <= 5
    ensures ValidRefs(reg, name, Nested(k), seen, depth) <==> depth + k <= 5
    decreases k
  {
    if k > 0 {
      NestedFits(k - 1, depth + 1, reg, name, seen);
    }
  }

  /** Such a save exists: three accepted saves after which the middle one no longer evaluates. */
  lemma RedefinitionCanBreakReferrers(events: seq<Event>, decimal: string -> Option<real>)
    ensures var base, deep := Request("b", COUNT, true), Request("b", Nested(4), true);
            var top := Request("a", COUNT.(kind := "metric_ref", metric := "b"), true);
            var one := Saved(map[], base); var two := Saved(one, top);
            && Accepted(map[], base) && Accepted(one, top) && Accepted(two, deep)
            && Evaluate(two, top.definition, events, decimal, 1).Some?
            && Evaluate(Saved(two, deep), top.definition, events, decimal, 1).None?
  {
    hide Aggregate, Matching, Evaluate;
    var base, top, deep := Request("b", COUNT, true), Request("a", COUNT.(kind := "metric_ref", metric := "b"), true),
                           Request("b", Nested(4), true);
    EmptySound();
    NestedFits(0, 1, map[], "b", {"b"});
    assert Nested(0) == COUNT;
    assert Accepted(map[], base);
    var one := Saved(map[], base);
    SaveKeepsSound(map[], base);
    NestedFits(0, 2, one, "a", {"a"} + {"b"});
    assert Accepted(one, top);
    SavedMetricEvaluates(one, top, events, decimal);
    var two := Saved(one, top);
    SaveKeepsSound(one, top);
    NestedFits(4, 1, two, "b", {"b"});
    NestedFits(4, 2, two, "b", {"b"});
    assert Accepted(two, deep);
    ReferrerEvaluatesExactly(two, deep, top.definition, events, decimal);
  }

  // ---- The query a leaf runs ------------------------------------------------------------------------------

  datatype Arg = TextArg(text: string) | TextsArg(texts: seq<string>) | FlagArg(flag: bool) | TimeArg(at: int)

  /** One AND-ed condition of the WHERE clause; every number is the position of a bound argument. */
  datatype Condition =
    | NameIs(at: nat)
    | ConversionIs(at: nat)
    | ClassIs(at: nat)
    | HasKey(scope: string, at: nat, negated: bool)
    | TextIs(scope: string, key: nat, equal: bool, value: nat)
    | TextIn(scope: string, key: nat, values: nat)

  function Bound(args: seq<Arg>, n: nat): Option<Arg> {
    if 1 <= n <= |args| then Some(args[n - 1]) else None
  }

  /** Whether a condition is true of an event; NULL and anything unbound is not true. */
  predicate Holds(c: Condition, args: seq<Arg>, e: Event) {
    match c
    case NameIs(at) => Bound(args, at) == Some(TextArg(e.name))
    case ConversionIs(at) => Bound(args, at) == Some(FlagArg(e.conversion))
    case ClassIs(at) => Bound(args, at) == Some(TextArg(e.clientClass))
    case HasKey(scope, at, negated) =>
      (match (SourceOf(e, scope), Bound(args, at))
       case (Some(m), Some(TextArg(key))) => (key in m) != negated
       case _ => false)
    case TextIs(scope, at, equal, value) =>
      (match (Bound(args, at), Bound(args, value))
       case (Some(TextArg(key)), Some(TextArg(text))) =>
         TextAt(SourceOf(e, scope), key).Some? && (TextAt(SourceOf(e, scope), key).value == text) == equal
       case _ => false)
    case TextIn(scope, at, values) =>
      (match (Bound(args, at), Bound(args, values))
       case (Some(TextArg(key)), Some(TextsArg(texts))) =>
         TextAt(SourceOf(e, scope), key).Some? && TextAt(SourceOf(e, scope), key).value in texts
       case _ => false)
  }

  predicate AllHold(cs: seq<Condition>, args: seq<Arg>, e: Event) {
    forall i :: 0 <= i < |cs| ==> Holds(cs[i], args, e)
  }

  predicate Begins(a: seq<Arg>, b: seq<Arg>) {
    |a| <= |b| && a == b[..|a|]
  }

  /** The conditions, under any longer argument list, select exactly the events with property p. */
  ghost predicate Selects(cs: seq<Condition>, args: seq<Arg>, p: Event -> bool) {
    forall all: seq<Arg>, e: Event :: Begins(args, all) ==> (AllHold(cs, all, e) <==> p(e))
  }

  lemma AllHoldAppend(cs: seq<Condition>, c: Condition, args: seq<Arg>, e: Event)
    ensures AllHold(cs + [c], args, e) <==> AllHold(cs, args, e) && Holds(c, args, e)
  {
    hide Holds;
    if AllHold(cs + [c], args, e) {
      forall i | 0 <= i < |cs|
        ensures Holds(cs[i], args, e)
      {
        assert (cs + [c])[i] == cs[i];
      }
      assert (cs + [c])[|cs|] == c;
    }
  }

  /** One more condition, with the arguments it mentions, narrows the selection by what the condition says. */
  lemma Narrowed(cs: seq<Condition>, args: seq<Arg>, p: Event -> bool, c: Condition, more: seq<Arg>, q: Event -> bool)
    requires Selects(cs, args, p)
    requires forall all: seq<Arg>, e: Event :: Begins(args + more, all) ==> (q(e) <==> p(e) && Holds(c, all, e))
    ensures Selects(cs + [c], args + more, q)
  {
    hide Holds, AllHold;
    forall all: seq<Arg>, e: Event | Begins(args + more, all)
      ensures AllHold(cs + [c], all, e) <==> q(e)
    {
      assert (args + more)[..|args|] == args;
      assert all[..|args|] == args;
      assert Begins(args, all);
      AllHoldAppend(cs, c, all, e);
    }
  }

  /** What one filter adds to the query. */
  function ConditionOf(f: Filter, at: nat): Condition {
    match f.operator
    case "exists" => HasKey(f.scope, at, false)
    case "not_exists" => HasKey(f.scope, at, true)
    case "in" => TextIn(f.scope, at, at + 1)
    case _ => TextIs(f.scope, at, f.operator == "eq", at + 1)
  }

  function ArgsOf(f: Filter): seq<Arg> {
    if f.operator in {"exists", "not_exists"} then [TextArg(f.property)]
    else if f.operator == "in" && f.value.items.Some? then [TextArg(f.property), TextsArg(f.value.items.value)]
    else [TextArg(f.property), TextArg(f.value.text)]
  }

  lemma ConditionSound(f: Filter, args: seq<Arg>, all: seq<Arg>, e: Event)
    requires ValidFilter(f) && Begins(args + ArgsOf(f), all)
    ensures Holds(ConditionOf(f, |args| + 1), all, e) <==> Passes(f, e)
  {
    hide SourceOf, TextAt, ValidKey;
    var mine := args + ArgsOf(f);
    assert all[|args|] == mine[|args|];
    assert |ArgsOf(f)| == 2 ==> all[|args| + 1] == mine[|args| + 1];
  }

  lemma PassesOneMore(fs: seq<Filter>, i: nat, e: Event)
    requires i < |fs|
    ensures PassesAll(fs[..i + 1], e) <==> PassesAll(fs[..i], e) && Passes(fs[i], e)
  {
    hide Passes;
    assert fs[..i + 1] == fs[..i] + [fs[i]];
    PassesBoth(fs[..i], [fs[i]], e);
    assert PassesAll([fs[i]], e) <==> Passes([fs[i]][0], e);
  }

  lemma FilterNarrows(d: Definition, i: nat, cs: seq<Condition>, args: seq<Arg>)
    requires ValidFilters(d.filters) && i < |d.filters|
    requires Selects(cs, args, e => Fits(d, e) && PassesAll(d.filters[..i], e))
    ensures Selects(cs + [ConditionOf(d.filters[i], |args| + 1)], args + ArgsOf(d.filters[i]),
                    e => Fits(d, e) && PassesAll(d.filters[..i + 1], e))
  {
    hide Holds, Passes, PassesAll, Fits, ValidFilter, ConditionOf, ArgsOf, Selects;
    var f := d.filters[i];
    assert ValidFilter(f);
    forall all: seq<Arg>, e: Event | Begins(args + ArgsOf(f), all)
      ensures Fits(d, e) && PassesAll(d.filters[..i + 1], e)
              <==> (Fits(d, e) && PassesAll(d.filters[..i], e)) && Holds(ConditionOf(f, |args| + 1), all, e)
    {
      ConditionSound(f, args, all, e);
      PassesOneMore(d.filters, i, e);
    }
    Narrowed(cs, args, e => Fits(d, e) && PassesAll(d.filters[..i], e), ConditionOf(f, |args| + 1), ArgsOf(f),
             e => Fits(d, e) && PassesAll(d.filters[..i + 1], e));
  }

  lemma SelectsAll(base: seq<Arg>)
    ensures Selects([], base, (e: Event) => true)
  {
  }

  /** The name, conversion and class conditions come first. */
  method FixedConditions(d: Definition, base: seq<Arg>) returns (cs: seq<Condition>, args: seq<Arg>)
    ensures Begins(base, args)
    ensures Selects(cs, args, e => Fits(d, e))
  {
    hide AllHold;
    ghost var none := (e: Event) => true;
    ghost var named := (e: Event) => d.eventName == "" || e.name == d.eventName;
    ghost var converted := (e: Event) => named(e) && (d.conversion.None? || e.conversion == d.conversion.value);
    ghost var fits := (e: Event) => converted(e) && (d.trafficClass == "" || e.clientClass == d.trafficClass);
    cs, args := [], base;
    SelectsAll(base);
    if d.eventName != "" {
      Narrowed(cs, args, none, NameIs(|args| + 1), [TextArg(d.eventName)], named);
      args := args + [TextArg(d.eventName)];
      cs := cs + [NameIs(|args|)];
    }
    assert Selects(cs, args, named);
    if d.conversion.Some? {
      Narrowed(cs, args, named, ConversionIs(|args| + 1), [FlagArg(d.conversion.value)], converted);
      args := args + [FlagArg(d.conversion.value)];
      cs := cs + [ConversionIs(|args|)];
    }
    assert Selects(cs, args, converted);
    if d.trafficClass != "" {
      Narrowed(cs, args, converted, ClassIs(|args| + 1), [TextArg(d.trafficClass)], fits);
      args := args + [TextArg(d.trafficClass)];
      cs := cs + [ClassIs(|args|)];
    }
    assert Selects(cs, args, fits);
  }

  /** The WHERE clause of a leaf: its conditions and arguments select exactly the matching events. */
  method Where(d: Definition, base: seq<Arg>) returns (cs: seq<Condition>, args: seq<Arg>)
    requires ValidFilters(d.filters)
    ensures Begins(base, args)
    ensures Selects(cs, args, e => Fits(d, e) && PassesAll(d.filters, e))
  {
    hide Selects, ConditionOf, ArgsOf, Fits;
    cs, args := FixedConditions(d, base);
    NoFiltersYet(d, cs, args);
    for i := 0 to |d.filters|
      invariant Begins(base, args)
      invariant Selects(cs, args, e => Fits(d, e) && PassesAll(d.filters[..i], e))
    {
      FilterNarrows(d, i, cs, args);
      cs := cs + [ConditionOf(d.filters[i], |args| + 1)];
      args := args + ArgsOf(d.filters[i]);
    }
    assert d.filters[..|d.filters|] == d.filters;
    AllFiltersDone(d, cs, args);
  }

  lemma NoFiltersYet(d: Definition, cs: seq<Condition>, args: seq<Arg>)
    requires Selects(cs, args, e => Fits(d, e))
    ensures Selects(cs, args, e => Fits(d, e) && PassesAll(d.filters[..0], e))
  {
    hide Fits, AllHold;
  }

  lemma AllFiltersDone(d: Definition, cs: seq<Condition>, args: seq<Arg>)
    requires Selects(cs, args, e => Fits(d, e) && PassesAll(d.filters[..|d.filters|], e))
    ensures Selects(cs, args, e => Fits(d, e) && PassesAll(d.filters, e))
  {
    hide Fits, AllHold;
    assert d.filters[..|d.filters|] == d.filters;
  }
}
