/**
 Compiling a segment preserves its meaning, wherever its arguments land in the
 surrounding query and however its aggregates are written.
 */
module SegmentMeaning {
  import opened Wrappers
  import opened Sql
  import opened Segment
  import opened SegmentReading
  import Like

  /** The first list begins the second one. */
  predicate Begins<T(==)>(a: seq<T>, b: seq<T>) {
    |a| <= |b| && a == b[..|a|]
  }

  lemma BeginsTransitive<T>(a: seq<T>, b: seq<T>, c: seq<T>)
    requires Begins(a, b) && Begins(b, c)
    ensures Begins(a, c)
  {
    assert b[..|a|] == c[..|a|];
  }

  /** No two names are the same to the database, which refuses a WITH list where they are. */
  ghost predicate DistinctNames(ctes: seq<Cte>) {
    forall i, j :: 0 <= i < j < |ctes| ==> Identifier(ctes[i].name) != Identifier(ctes[j].name)
  }

  /** The surrounding WITH list is accepted, and gives every hoisted name its own query. */
  ghost predicate Binds(list: seq<Cte>, ctes: seq<Cte>) {
    DistinctNames(list) && forall i :: 0 <= i < |ctes| ==> Lookup(list, ctes[i].name) == Some(ctes[i].query)
  }

  // ---- The lists only grow -----------------------------------------------------------------

  predicate Grows(was: State, now: State) {
    Begins(was.args, now.args) && Begins(was.ctes, now.ctes)
  }

  lemma RuleGrows(n: Node, s: Setting, st: State)
    ensures Grows(st, CompiledRule(n, s, st).state)
  {
    hide RelationOf, NumericValue, Itoa, Expression, TextPredicate, AllValid, EventNames;
  }

  /** Whether it succeeds or fails, a compilation leaves what was bound before it untouched. */
  lemma {:induction false} Grown(n: Node, s: Setting, depth: nat, st: State)
    ensures Grows(st, Compiled(n, s, depth, st).state)
    decreases n, |n.rules| + 1
  {
    hide CompiledRule;
    RuleGrows(n, s, st);
    RulesGrown(n, |n.rules|, s, depth, st);
  }

  lemma {:induction false} RulesGrown(n: Node, k: nat, s: Setting, depth: nat, st: State)
    requires k <= |n.rules|
    ensures Grows(st, CompiledRules(n, k, s, depth, st).state)
    decreases n, k
  {
    if k > 0 {
      RulesGrown(n, k - 1, s, depth, st);
      var was := CompiledRules(n, k - 1, s, depth, st).state;
      Grown(n.rules[k - 1], s, depth + 1, was);
      var now := Compiled(n.rules[k - 1], s, depth + 1, was).state;
      BeginsTransitive(st.args, was.args, now.args);
      BeginsTransitive(st.ctes, was.ctes, now.ctes);
    }
  }

  // ---- The compiler's terms and the reading's ---------------------------------------------------

  lemma SameNames(x: string)
    ensures ValidName(x) <==> Named(x)
  {
  }

  lemma SameNumber(s: Setting, v: Value)
    ensures NumericValue(s.library, v) == NumberIn(s, v)
  {
  }

  lemma SameComparison(op: string, x: real, y: real)
    ensures RelationOf(op).Some? <==> op == "=" || op == "!=" || Ordering(op)
    ensures RelationOf(op).Some? ==> (Compare(RelationOf(op).value, x, y) <==> Related(op, x, y))
  {
  }

  lemma SameBinding(w: World, field: string, x: real)
    ensures AsBound(w, field, x) == BoundNumber(w, field, x) && (IsBigint(x) <==> Whole(x))
  {
  }

  lemma {:induction false} SameRows(rows: seq<Row>, site: string, environment: string, entity: string)
    ensures EntityRows(rows, site, environment, entity) == PersonRows(rows, site, environment, entity)
  {
    if rows != [] {
      SameRows(rows[1..], site, environment, entity);
    }
  }

  lemma SameListedNames(n: Node, s: Setting)
    requires n.value.Array? && n.operator in {"in", "not in"}
    ensures AllValid(EventNames(s.library, n)) <==>
            forall i :: 0 <= i < |n.value.items| ==> Named(Asked(s, n.value.items[i]))
  {
    hide ValidName, Named;
    var names := EventNames(s.library, n);
    forall i | 0 <= i < |names|
      ensures ValidName(names[i]) <==> Named(Asked(s, n.value.items[i]))
    {
      SameNames(names[i]);
    }
  }

  lemma SameColumn(s: Setting, field: string, row: Row)
    ensures Expression(s.resolver, field).Ok? <==> KnownDimension(s, field)
    ensures Expression(s.resolver, field).Ok? ==>
              row.text(Expression(s.resolver, field).value) == TextOf(s, row, field)
    ensures Expression(s.resolver, field) == Ok(INTERNAL) <==> field == "traffic.internal"
  {
    hide ValidName, Named;
    if field in s.resolver.custom {
      SameNames(s.resolver.custom[field].propertyKey);
    }
  }

  /** A list of printed values read as booleans. */
  lemma {:induction false} SameFlags(texts: seq<string>, b: bool)
    ensures Booleans(texts).Some? <==> forall i :: 0 <= i < |texts| ==> Boolean(texts[i]).Some?
    ensures Booleans(texts).Some? ==>
              (b in Booleans(texts).value <==> exists i :: 0 <= i < |texts| && Boolean(texts[i]) == Some(b))
  {
    hide Boolean;
    if texts != [] {
      SameFlags(texts[1..], b);
      assert forall i :: 0 <= i < |texts| - 1 ==> texts[1..][i] == texts[i + 1];
    }
  }

  // ---- What is accepted -----------------------------------------------------------------------

  lemma EventsAccepted(n: Node, s: Setting, st: State)
    requires n.field == "event.has"
    ensures CompiledEvents(n, s, st).result.Ok? <==> ValidRule(n, s)
  {
    hide AllValid, EventNames, Named, ValidName;
    if n.operator !in {"in", "not in"} {
      SameName(n, s);
    } else if n.value.Array? {
      SameListedNames(n, s);
    }
  }

  lemma AggregateAccepted(n: Node, s: Setting, st: State)
    requires n.field != "event.has" && n.field in AGGREGATES
    ensures CompiledAggregate(n, s, st).result.Ok? <==> ValidRule(n, s)
  {
    hide Itoa, NumericValue, NumberIn, RelationOf;
    SameNumber(s, n.value);
    SameComparison(n.operator, 0.0, 0.0);
  }

  lemma DimensionAccepted(n: Node, s: Setting, c: Column, st: State)
    requires n.field != "event.has" && n.field !in AGGREGATES && KnownDimension(s, n.field)
    ensures CompiledDimension(n, s, c, st).result.Ok? <==> ValidRule(n, s)
  {
    hide TextPredicate, NumericValue, NumberIn, RelationOf, KnownDimension;
    SameNumber(s, n.value);
    SameComparison(n.operator, 0.0, 0.0);
  }

  lemma RuleAccepted(n: Node, s: Setting, st: State)
    ensures CompiledRule(n, s, st).result.Ok? <==> ValidRule(n, s)
  {
    hide Expression, KnownDimension, CompiledEvents, CompiledAggregate, CompiledDimension;
    SameColumn(s, n.field, Row("", "", "", "", false, _ => None));
    if n.field == "event.has" {
      EventsAccepted(n, s, st);
    } else if n.field in AGGREGATES {
      AggregateAccepted(n, s, st);
    } else if KnownDimension(s, n.field) {
      DimensionAccepted(n, s, Expression(s.resolver, n.field).value, st);
    }
  }

  lemma SameName(n: Node, s: Setting)
    requires n.operator !in {"in", "not in"}
    ensures EventNames(s.library, n) == [Asked(s, n.value)]
    ensures AllValid(EventNames(s.library, n)) <==> Named(Asked(s, n.value))
  {
    hide ValidName, Named;
    SameNames(Asked(s, n.value));
    assert AllValid([Asked(s, n.value)]) <==> ValidName([Asked(s, n.value)][0]);
  }

  /** A segment compiles exactly when its tree is well formed, whatever was bound before it. */
  lemma {:induction false} AcceptsExactlyValid(n: Node, s: Setting, depth: nat, st: State)
    ensures Compiled(n, s, depth, st).result.Ok? <==> Valid(n, s, depth)
    decreases n, |n.rules| + 1
  {
    hide CompiledRule, ValidRule;
    RuleAccepted(n, s, st);
    RulesAccepted(n, |n.rules|, s, depth, st);
  }

  lemma {:induction false} RulesAccepted(n: Node, k: nat, s: Setting, depth: nat, st: State)
    requires k <= |n.rules|
    ensures CompiledRules(n, k, s, depth, st).result.Ok? <==> forall i :: 0 <= i < k ==> Valid(n.rules[i], s, depth + 1)
    ensures CompiledRules(n, k, s, depth, st).result.Ok? ==> |CompiledRules(n, k, s, depth, st).result.value| == k
    decreases n, k
  {
    hide CompiledRule, ValidRule;
    if k > 0 {
      RulesAccepted(n, k - 1, s, depth, st);
      AcceptsExactlyValid(n.rules[k - 1], s, depth + 1, CompiledRules(n, k - 1, s, depth, st).state);
    }
  }

  // ---- What a rule means ------------------------------------------------------------------------

  lemma BoundInside(args: seq<Arg>, all: seq<Arg>, n: nat)
    requires Begins(args, all) && 1 <= n <= |args|
    ensures Bound(all, n) == Some(args[n - 1])
  {
  }

  lemma SameDeed(n: Node, s: Setting, w: World, row: Row)
    requires n.field == "event.has" && ValidRule(n, s)
    ensures HasEvent(w, row, EventNames(s.library, n)) <==> Did(n, s, w, row)
  {
    hide Named, Asked;
    forall x
      ensures x in EventNames(s.library, n) <==> NamedBy(n, s, x)
    {
      SameDeedName(n, s, x);
    }
  }

  lemma SameDeedName(n: Node, s: Setting, x: string)
    requires n.operator in {"in", "not in"} ==> n.value.Array?
    ensures x in EventNames(s.library, n) <==> NamedBy(n, s, x)
  {
    var names := EventNames(s.library, n);
    if ManyWanted(n) {
      assert forall i :: 0 <= i < |names| ==> names[i] == Asked(s, n.value.items[i]);
      if j :| 0 <= j < |n.value.items| && Asked(s, n.value.items[j]) == x {
        assert names[j] == x;
      }
    }
  }

  lemma EventsSound(n: Node, s: Setting, st: State, args: seq<Arg>, ctes: seq<Cte>, w: World, row: Row)
    requires n.field == "event.has" && ValidRule(n, s)
    requires Begins(CompiledEvents(n, s, st).state.args, args)
    ensures Eval(CompiledEvents(n, s, st).result.value, args, ctes, w, row) == Some(RuleMeaning(n, s, w, row))
  {
    hide HasEvent, AllValid, Did, Named;
    var at := |st.args| + 1;
    if n.operator in {"in", "not in"} {
      SameListedNames(n, s);
    } else {
      SameName(n, s);
    }
    BoundInside(CompiledEvents(n, s, st).state.args, args, at);
    SameDeed(n, s, w, row);
  }

  lemma MembershipSound(n: Node, s: Setting, m: Membership, args: seq<Arg>, w: World, row: Row)
    requires n.field in AGGREGATES && n.field != "event.has" && ValidRule(n, s)
    requires m.measure == n.field && RelationOf(n.operator) == Some(m.relation)
    requires Bound(args, m.site) == Some(TextArg(s.resolver.site.value))
    requires Bound(args, m.environment) == Some(TextArg(s.resolver.environment))
    requires Bound(args, m.value) == Some(NumberArg(NumberIn(s, n.value).value))
    ensures EvalMembership(m, args, w, row) == AggregateVerdict(n, s, w, row)
  {
    hide Selected, EntityRows, PersonRows, Compare, Related, AsBound, BoundNumber, NumberIn, RelationOf;
    var number := NumberIn(s, n.value).value;
    var site, environment := s.resolver.site.value, s.resolver.environment;
    SameBinding(w, n.field, number);
    if AsBound(w, n.field, number).Some? {
      var x := AsBound(w, n.field, number).value;
      SelectedIsOwnAggregate(w, n.field, site, environment, m.relation, x, row.entity);
      SameRows(w.rows, site, environment, row.entity);
      SameComparison(n.operator, Measured(w, n.field, EntityRows(w.rows, site, environment, row.entity)), x);
    }
  }

  lemma AggregateSound(n: Node, s: Setting, st: State, args: seq<Arg>, ctes: seq<Cte>, w: World, row: Row)
    requires n.field != "event.has" && n.field in AGGREGATES && ValidRule(n, s)
    requires Begins(CompiledAggregate(n, s, st).state.args, args)
    requires Binds(ctes, CompiledAggregate(n, s, st).state.ctes)
    ensures Eval(CompiledAggregate(n, s, st).result.value, args, ctes, w, row) == AggregateVerdict(n, s, w, row)
  {
    hide EvalMembership, AggregateVerdict, EvalSame, EvalAny, EvalLike, EvalNumber, HasEvent, Fold, Itoa, NumericValue,
         NumberIn, RelationOf;
    SameNumber(s, n.value);
    SameComparison(n.operator, 0.0, 0.0);
    var out := CompiledAggregate(n, s, st);
    var k := |out.state.args|;
    BoundInside(out.state.args, args, k - 2);
    BoundInside(out.state.args, args, k - 1);
    BoundInside(out.state.args, args, k);
    var query := Membership(n.field, k - 2, k - 1, RelationOf(n.operator).value, k);
    MembershipSound(n, s, query, args, w, row);
    if s.prefix != "" {
      var i := |st.ctes|;
      assert out.state.ctes[i] == Cte(out.result.value.name, query);
    }
  }

  /** The aggregate compared with the number as it is bound, or an error where it cannot be. */
  ghost function AggregateVerdict(n: Node, s: Setting, w: World, row: Row): Option<Truth>
    requires NumberIn(s, n.value).Some?
  {
    match BoundNumber(w, n.field, NumberIn(s, n.value).value)
    case None => None
    case Some(x) => Some(AggregateMeaning(n, s, w, row, x))
  }

  /** The ILIKE and equality forms against the relation they stand for. */
  lemma TextSound(op: string, c: Column, at: nat, value: string, args: seq<Arg>, ctes: seq<Cte>, w: World, row: Row)
    requires op in {"=", "!=", "contains", "not contains", "startsWith", "endsWith"}
    requires Like.KeepsSyntax(w.lower)
    requires Bound(args, at) == Some(TextArg(if op in {"=", "!="} then value else Like.LikeLiteral(value)))
             && c != INTERNAL
    ensures Eval(TextPredicate(op, c, at), args, ctes, w, row)
            == Some(match row.text(c) case None => Unknown case Some(t) => Bool(TextRelation(op, w.lower, t, value)))
  {
    hide Like.LikeLiteral, Like.Matches, Like.MatchesAnyCase, Like.Lower, Like.Contains, Like.HasPrefix, Like.HasSuffix,
         Like.KeepsSyntax, Fold;
    match row.text(c)
    case None =>
    case Some(t) =>
      Like.AnyCaseForms(w.lower, value, t);
      var v := Like.LikeLiteral(value);
      assert Percent(false) + v + Percent(true) == v + "%";
      assert Percent(true) + v + Percent(false) == "%" + v;
  }

  lemma EmptinessSound(n: Node, s: Setting, c: Column, st: State, args: seq<Arg>, ctes: seq<Cte>, w: World, row: Row)
    requires n.operator in {"exists", "not exists"} && c != INTERNAL
    ensures Eval(CompiledDimension(n, s, c, st).result.value, args, ctes, w, row)
            == Some(DimensionMeaning(n, s, w, row.text(c)))
  {
    hide TextRelation, NumericValue, RelationOf, TextPredicate;
    var q := CompiledDimension(n, s, c, st).result.value;
    assert Eval(q.parts[0], args, ctes, w, row).Some? && Eval(q.parts[1], args, ctes, w, row).Some?;
    assert Fold(q, 1, args, ctes, w, row) == Eval(q.parts[0], args, ctes, w, row);
  }

  lemma SameAmong(n: Node, s: Setting, text: string)
    requires n.value.Array?
    ensures text in Printed(s.library, n.value.items) <==> Among(n, s, text)
  {
    var printed := Printed(s.library, n.value.items);
    if i :| 0 <= i < |n.value.items| && s.library.sprint(n.value.items[i]) == text {
      assert printed[i] == text;
    }
  }

  lemma ListSound(n: Node, s: Setting, c: Column, st: State, args: seq<Arg>, ctes: seq<Cte>, w: World, row: Row)
    requires n.operator in {"in", "not in"} && ListValue(n.value) && c != INTERNAL
    requires Begins(CompiledDimension(n, s, c, st).state.args, args)
    ensures Eval(CompiledDimension(n, s, c, st).result.value, args, ctes, w, row)
            == Some(DimensionMeaning(n, s, w, row.text(c)))
  {
    hide TextRelation, NumericValue, NumberIn, RelationOf, TextPredicate, Fold;
    BoundInside(CompiledDimension(n, s, c, st).state.args, args, |st.args| + 1);
    if row.text(c).Some? {
      SameAmong(n, s, row.text(c).value);
    }
  }

  lemma NumberSound(n: Node, s: Setting, c: Column, st: State, args: seq<Arg>, ctes: seq<Cte>, w: World, row: Row)
    requires n.operator in {">", ">=", "<", "<="} && NumberIn(s, n.value).Some? && c != INTERNAL
    requires Begins(CompiledDimension(n, s, c, st).state.args, args)
    ensures Eval(CompiledDimension(n, s, c, st).result.value, args, ctes, w, row)
            == Some(DimensionMeaning(n, s, w, row.text(c)))
  {
    hide TextRelation, NumericValue, NumberIn, TextPredicate, Compare, Related, RelationOf, Fold;
    SameNumber(s, n.value);
    SameComparison(n.operator, 0.0, 0.0);
    BoundInside(CompiledDimension(n, s, c, st).state.args, args, |st.args| + 1);
    if row.text(c).Some? && w.decimal(row.text(c).value).Some? {
      SameComparison(n.operator, w.decimal(row.text(c).value).value, NumberIn(s, n.value).value);
    }
  }

  lemma DimensionSound(n: Node, s: Setting, c: Column, st: State, args: seq<Arg>, ctes: seq<Cte>, w: World, row: Row)
    requires n.field != "event.has" && n.field !in AGGREGATES && ValidRule(n, s) && c != INTERNAL
    requires Begins(CompiledDimension(n, s, c, st).state.args, args)
    requires Like.KeepsSyntax(w.lower)
    ensures Eval(CompiledDimension(n, s, c, st).result.value, args, ctes, w, row)
            == Some(DimensionMeaning(n, s, w, row.text(c)))
  {
    hide Like.LikeLiteral, Like.KeepsSyntax, TextRelation, TextPredicate, Eval, Expression, NumericValue, NumberIn,
         RelationOf, KnownDimension;
    if n.operator in {"exists", "not exists"} {
      EmptinessSound(n, s, c, st, args, ctes, w, row);
    } else if n.operator in {"in", "not in"} {
      ListSound(n, s, c, st, args, ctes, w, row);
    } else if n.operator in {">", ">=", "<", "<="} {
      NumberSound(n, s, c, st, args, ctes, w, row);
    } else {
      BoundInside(CompiledDimension(n, s, c, st).state.args, args, |st.args| + 1);
      TextSound(n.operator, c, |st.args| + 1, s.library.sprint(n.value), args, ctes, w, row);
    }
  }

  /** The rule's verdict where the database can answer it, and an error where it cannot. */
  ghost function RuleVerdict(n: Node, s: Setting, w: World, row: Row): Option<Truth> {
    if AnswerableRule(n, s, w) then Some(RuleMeaning(n, s, w, row)) else None
  }

  lemma EmptyIsNoBoolean()
    ensures Boolean("").None?
  {
  }

  /** The internal flag can be tested for being present or empty no more than matched as a text. */
  lemma InternalEmptinessRefused(n: Node, s: Setting, st: State, args: seq<Arg>, ctes: seq<Cte>, w: World, row: Row)
    requires n.operator in {"exists", "not exists"}
    ensures Eval(CompiledDimension(n, s, INTERNAL, st).result.value, args, ctes, w, row).None?
  {
    hide TextRelation, NumericValue, RelationOf, TextPredicate, Boolean;
    EmptyIsNoBoolean();
    var q := CompiledDimension(n, s, INTERNAL, st).result.value;
    assert q.parts[1].TextIs? && Eval(q.parts[1], args, ctes, w, row) == EvalSame(row, INTERNAL, q.parts[1].equal, "");
    FoldRefused(q, 2, args, ctes, w, row, 1);
  }

  lemma InternalTextVerdict(op: string, at: nat, text: string, args: seq<Arg>, ctes: seq<Cte>, w: World, row: Row)
    requires Bound(args, at) == Some(TextArg(text))
    ensures Eval(TextPredicate(op, INTERNAL, at), args, ctes, w, row)
            == if op in {"=", "!="} then EvalSame(row, INTERNAL, op == "=", text) else None
  {
    hide Boolean, Fold;
  }

  lemma InternalListSound(n: Node, s: Setting, st: State, args: seq<Arg>, ctes: seq<Cte>, w: World, row: Row)
    requires n.field == "traffic.internal" && n.operator in {"in", "not in"} && ListValue(n.value)
    requires Begins(CompiledDimension(n, s, INTERNAL, st).state.args, args)
    ensures Eval(CompiledDimension(n, s, INTERNAL, st).result.value, args, ctes, w, row)
            == if FlagReadable(n, s) then Some(InternalMeaning(n, s, row.internal)) else None
  {
    hide Fold, Boolean, Booleans, NumericValue, TextPredicate;
    BoundInside(CompiledDimension(n, s, INTERNAL, st).state.args, args, |st.args| + 1);
    SameFlags(Printed(s.library, n.value.items), row.internal);
  }

  lemma InternalRelationSound(n: Node, s: Setting, st: State, args: seq<Arg>, ctes: seq<Cte>, w: World, row: Row)
    requires n.field == "traffic.internal" && ValidRule(n, s)
    requires n.operator !in {"exists", "not exists", "in", "not in"}
    requires Begins(CompiledDimension(n, s, INTERNAL, st).state.args, args)
    ensures Eval(CompiledDimension(n, s, INTERNAL, st).result.value, args, ctes, w, row)
            == if FlagReadable(n, s) then Some(InternalMeaning(n, s, row.internal)) else None
  {
    hide NumericValue, NumberIn, TextPredicate, Like.LikeLiteral, Fold, Boolean, KnownDimension, FlagValues, RelationOf;
    SameNumber(s, n.value);
    var at := |st.args| + 1;
    var out := CompiledDimension(n, s, INTERNAL, st);
    BoundInside(out.state.args, args, at);
    if !Ordering(n.operator) {
      InternalTextVerdict(n.operator, at, out.state.args[at - 1].text, args, ctes, w, row);
    }
  }

  lemma InternalSound(n: Node, s: Setting, st: State, args: seq<Arg>, ctes: seq<Cte>, w: World, row: Row)
    requires n.field == "traffic.internal" && ValidRule(n, s)
    requires Begins(CompiledDimension(n, s, INTERNAL, st).state.args, args)
    ensures Eval(CompiledDimension(n, s, INTERNAL, st).result.value, args, ctes, w, row) == RuleVerdict(n, s, w, row)
  {
    hide Eval, CompiledDimension, InternalMeaning, Boolean, NumberIn, KnownDimension, FlagValues;
    if n.operator in {"exists", "not exists"} {
      InternalEmptinessRefused(n, s, st, args, ctes, w, row);
    } else if n.operator in {"in", "not in"} {
      InternalListSound(n, s, st, args, ctes, w, row);
    } else {
      InternalRelationSound(n, s, st, args, ctes, w, row);
    }
  }

  lemma RuleSound(n: Node, s: Setting, st: State, args: seq<Arg>, ctes: seq<Cte>, w: World, row: Row)
    requires ValidRule(n, s)
    requires CompiledRule(n, s, st).result.Ok?
    requires Begins(CompiledRule(n, s, st).state.args, args) && Binds(ctes, CompiledRule(n, s, st).state.ctes)
    requires Like.KeepsSyntax(w.lower)
    ensures Eval(CompiledRule(n, s, st).result.value, args, ctes, w, row) == RuleVerdict(n, s, w, row)
  {
    hide CompiledEvents, CompiledAggregate, CompiledDimension, DimensionMeaning, Eval, HasEvent, InternalMeaning,
         Booleans, Boolean;
    if n.field == "event.has" {
      EventsSound(n, s, st, args, ctes, w, row);
    } else if n.field in AGGREGATES {
      AggregateSound(n, s, st, args, ctes, w, row);
    } else if n.field == "traffic.internal" {
      InternalSound(n, s, st, args, ctes, w, row);
    } else {
      SameColumn(s, n.field, row);
      DimensionSound(n, s, Expression(s.resolver, n.field).value, st, args, ctes, w, row);
    }
  }

  // ---- What a segment means -----------------------------------------------------------------------

  /** The verdict the segment gives a row, or an error where one of its rules cannot be answered. */
  ghost function Verdict(n: Node, s: Setting, w: World, row: Row): Option<Truth> {
    if Answerable(n, s, w) then Some(Meaning(n, s, w, row)) else None
  }

  /**
   The compiled predicate, evaluated under any longer argument list and any WITH list that
   binds its names, gives every row the verdict the segment gives it. It never refers to an
   argument or a name that is not there; and it fails, on every row, exactly when some rule
   pairs the internal flag with a text operator or with a value that is no boolean, or a count
   with a number the driver refuses to bind.
   */
  lemma {:induction false} CompilePreservesMeaning(n: Node, s: Setting, depth: nat, st: State,
                                                   args: seq<Arg>, ctes: seq<Cte>, w: World, row: Row)
    requires Compiled(n, s, depth, st).result.Ok?
    requires Begins(Compiled(n, s, depth, st).state.args, args)
    requires Binds(ctes, Compiled(n, s, depth, st).state.ctes)
    requires Like.KeepsSyntax(w.lower)
    ensures Eval(Compiled(n, s, depth, st).result.value, args, ctes, w, row) == Verdict(n, s, w, row)
    decreases n, |n.rules| + 1
  {
    hide CompiledRule, ValidRule, RuleMeaning, Every, Some3, Like.KeepsSyntax, AnswerableRule;
    var out := Compiled(n, s, depth, st);
    if IsGroup(n) {
      RulesPreserveMeaning(n, |n.rules|, s, depth, st, args, ctes, w, row);
      if Answerable(n, s, w) {
        FoldIsEvery(out.result.value, |n.rules|, args, ctes, w, row, Verdicts(n, s, w, row));
      } else {
        var i :| 0 <= i < |n.rules| && !Answerable(n.rules[i], s, w);
        FoldRefused(out.result.value, |n.rules|, args, ctes, w, row, i);
      }
    } else {
      AcceptsExactlyValid(n, s, depth, st);
      RuleSound(n, s, st, args, ctes, w, row);
    }
  }

  lemma {:induction false} RulesPreserveMeaning(n: Node, k: nat, s: Setting, depth: nat, st: State,
                                                args: seq<Arg>, ctes: seq<Cte>, w: World, row: Row)
    requires k <= |n.rules|
    requires CompiledRules(n, k, s, depth, st).result.Ok?
    requires Begins(CompiledRules(n, k, s, depth, st).state.args, args)
    requires Binds(ctes, CompiledRules(n, k, s, depth, st).state.ctes)
    requires Like.KeepsSyntax(w.lower)
    ensures |CompiledRules(n, k, s, depth, st).result.value| == k
    ensures forall i :: 0 <= i < k ==>
              Eval(CompiledRules(n, k, s, depth, st).result.value[i], args, ctes, w, row)
                == Verdict(n.rules[i], s, w, row)
    decreases n, k
  {
    hide CompiledRule, ValidRule, RuleMeaning, Verdict, Eval, Like.KeepsSyntax;
    if k > 0 {
      var was := CompiledRules(n, k - 1, s, depth, st);
      var out := Compiled(n.rules[k - 1], s, depth + 1, was.state);
      Grown(n.rules[k - 1], s, depth + 1, was.state);
      BeginsTransitive(was.state.args, out.state.args, args);
      RulesPreserveMeaning(n, k - 1, s, depth, st, args, ctes, w, row);
      CompilePreservesMeaning(n.rules[k - 1], s, depth + 1, was.state, args, ctes, w, row);
    }
  }

  /**
   A compiled group joined by "and", in any letter case, is true of a row exactly when every rule of
   it is; one joined by "or" exactly when every rule has a verdict and some rule is true; and
   neither has a verdict where one of its rules has none.
   */
  lemma GroupsInWords(n: Node, s: Setting, depth: nat, st: State, args: seq<Arg>, ctes: seq<Cte>, w: World, row: Row)
    requires Compiled(n, s, depth, st).result.Ok? && n.rules != []
    requires Begins(Compiled(n, s, depth, st).state.args, args)
    requires Binds(ctes, Compiled(n, s, depth, st).state.ctes)
    requires Like.KeepsSyntax(w.lower)
    ensures var verdict := Eval(Compiled(n, s, depth, st).result.value, args, ctes, w, row);
            && (verdict.None? <==> exists i :: 0 <= i < |n.rules| && Verdict(n.rules[i], s, w, row).None?)
            && (ToLower(n.combinator) == "and" ==>
                  (verdict == Some(True) <==>
                   forall i :: 0 <= i < |n.rules| ==> Verdict(n.rules[i], s, w, row) == Some(True)))
            && (ToLower(n.combinator) == "or" ==>
                  (verdict == Some(True) <==>
                   && (forall i :: 0 <= i < |n.rules| ==> Verdict(n.rules[i], s, w, row).Some?)
                   && exists i :: 0 <= i < |n.rules| && Verdict(n.rules[i], s, w, row) == Some(True)))
  {
    hide Compiled, Eval, RuleMeaning, AnswerableRule, Like.KeepsSyntax, Binds;
    CompilePreservesMeaning(n, s, depth, st, args, ctes, w, row);
    forall i | 0 <= i < |n.rules|
      ensures Verdict(n.rules[i], s, w, row)
              == if Answerable(n.rules[i], s, w) then Some(Verdicts(n, s, w, row)[i]) else None
    {
    }
  }

  /**
   A compiled aggregate rule is true of a row exactly when its person has rows at the resolver's site
   and environment and the measure over them, zero if it is null, is as the operator says.
   */
  lemma AggregatesInWords(n: Node, s: Setting, depth: nat, st: State, args: seq<Arg>, ctes: seq<Cte>, w: World,
                          row: Row)
    requires !Joins(n) && n.field in AGGREGATES
    requires Compiled(n, s, depth, st).result.Ok?
    requires Begins(Compiled(n, s, depth, st).state.args, args)
    requires Binds(ctes, Compiled(n, s, depth, st).state.ctes)
    requires Like.KeepsSyntax(w.lower)
    ensures s.resolver.site.Some? && NumberIn(s, n.value).Some?
    ensures var history := PersonRows(w.rows, s.resolver.site.value, s.resolver.environment, row.entity);
            var measured := w.measure(n.field, history);
            var m := if measured.Some? then measured.value else 0.0;
            var x := BoundNumber(w, n.field, NumberIn(s, n.value).value);
            var verdict := Eval(Compiled(n, s, depth, st).result.value, args, ctes, w, row);
            && (x.None? ==> verdict.None?)
            && (x.Some? && n.operator == "=" ==> (verdict == Some(True) <==> history != [] && m == x.value))
            && (x.Some? && n.operator == "!=" ==> (verdict == Some(True) <==> history != [] && m != x.value))
            && (x.Some? && n.operator == "<" ==> (verdict == Some(True) <==> history != [] && m < x.value))
            && (x.Some? && n.operator == "<=" ==> (verdict == Some(True) <==> history != [] && m <= x.value))
            && (x.Some? && n.operator == ">" ==> (verdict == Some(True) <==> history != [] && m > x.value))
            && (x.Some? && n.operator == ">=" ==> (verdict == Some(True) <==> history != [] && m >= x.value))
  {
    hide Compiled, Eval, Like.KeepsSyntax, Binds, NumberIn, BoundNumber, PersonRows;
    AcceptsExactlyValid(n, s, depth, st);
    CompilePreservesMeaning(n, s, depth, st, args, ctes, w, row);
  }

  /** A compiled ordering on a dimension that reads as a number is true or false as the operator says. */
  lemma NumbersInWords(n: Node, s: Setting, depth: nat, st: State, args: seq<Arg>, ctes: seq<Cte>, w: World, row: Row,
                       x: real)
    requires !Joins(n) && n.field !in AGGREGATES && n.field !in {"event.has", "traffic.internal"}
    requires Ordering(n.operator) && TextOf(s, row, n.field).Some?
    requires w.decimal(TextOf(s, row, n.field).value) == Some(x)
    requires Compiled(n, s, depth, st).result.Ok?
    requires Begins(Compiled(n, s, depth, st).state.args, args)
    requires Binds(ctes, Compiled(n, s, depth, st).state.ctes)
    requires Like.KeepsSyntax(w.lower)
    ensures NumberIn(s, n.value).Some?
    ensures var y := NumberIn(s, n.value).value;
            var verdict := Eval(Compiled(n, s, depth, st).result.value, args, ctes, w, row);
            && (n.operator == "<" ==> verdict == Some(if x < y then True else False))
            && (n.operator == "<=" ==> verdict == Some(if x <= y then True else False))
            && (n.operator == ">" ==> verdict == Some(if x > y then True else False))
            && (n.operator == ">=" ==> verdict == Some(if x >= y then True else False))
  {
    hide Compiled, Eval, Like.KeepsSyntax, Binds, NumberIn, KnownDimension, TextOf;
    AcceptsExactlyValid(n, s, depth, st);
    CompilePreservesMeaning(n, s, depth, st, args, ctes, w, row);
  }

  /** The failing input: "traffic.internal exists" is accepted, and then no row gets a verdict. */
  lemma InternalFlagRefused(s: Setting, value: Value, args: seq<Arg>, ctes: seq<Cte>, w: World, row: Row)
    requires Like.KeepsSyntax(w.lower) && DistinctNames(ctes)
    ensures var n, st := Node("", [], "traffic.internal", "exists", value), State([], []);
            && Valid(n, s, 0) && Compiled(n, s, 0, st).result.Ok?
            && Eval(Compiled(n, s, 0, st).result.value, args, ctes, w, row).None?
  {
    hide Like.KeepsSyntax, Eval, Lookup, CompiledDimension;
    var n, st := Node("", [], "traffic.internal", "exists", value), State([], []);
    AcceptsExactlyValid(n, s, 0, st);
    InternalEmptinessRefused(n, s, st, args, ctes, w, row);
  }

  // ---- Hoisted and inline ----------------------------------------------------------------------------

  /** Every hoisted name replaced by the query it stands for. */
  function Inlined(q: Sql, ctes: seq<Cte>): Sql
    decreases q
  {
    match q
    case And(parts) => And(seq(|parts|, i requires 0 <= i < |parts| => Inlined(parts[i], ctes)))
    case Or(parts) => Or(seq(|parts|, i requires 0 <= i < |parts| => Inlined(parts[i], ctes)))
    case Not(inner) => Not(Inlined(inner, ctes))
    case MemberOfCte(name) => (match Lookup(ctes, name) case None => q case Some(m) => MemberOf(m))
    case _ => q
  }

  /** The two outcomes bind the same arguments, and give the same predicate or the same error. */
  ghost predicate SameCompilation(hoisted: Outcome<Sql>, inline: Outcome<Sql>, ctes: seq<Cte>) {
    && hoisted.state.args == inline.state.args
    && (match (hoisted.result, inline.result)
        case (Ok(a), Ok(b)) => Binds(ctes, hoisted.state.ctes) ==> Inlined(a, ctes) == b
        case (Err(a), Err(b)) => a == b
        case _ => false)
  }

  lemma DimensionHoists(n: Node, s: Setting, c: Column, st: State, st': State, ctes: seq<Cte>)
    requires st.args == st'.args
    ensures SameCompilation(CompiledDimension(n, s, c, st), CompiledDimension(n, s.(prefix := ""), c, st'), ctes)
  {
    hide NumericValue, RelationOf, Binds, Lookup;
    var q := CompiledDimension(n, s, c, st).result;
    if q.Ok? && (q.value.And? || q.value.Or?) {
      assert Inlined(q.value.parts[0], ctes) == q.value.parts[0] && Inlined(q.value.parts[1], ctes) == q.value.parts[1];
      assert Inlined(q.value, ctes).parts == q.value.parts;
    }
  }

  lemma EventsHoist(n: Node, s: Setting, st: State, st': State, ctes: seq<Cte>)
    requires st.args == st'.args
    ensures SameCompilation(CompiledEvents(n, s, st), CompiledEvents(n, s.(prefix := ""), st'), ctes)
  {
    hide Binds, Lookup, AllValid;
    var q := CompiledEvents(n, s, st).result;
    if q.Ok? && q.value.Not? {
      assert Inlined(q.value.inner, ctes) == q.value.inner;
    }
  }

  lemma AggregateHoists(n: Node, s: Setting, st: State, st': State, ctes: seq<Cte>)
    requires st.args == st'.args && s.prefix != ""
    ensures SameCompilation(CompiledAggregate(n, s, st), CompiledAggregate(n, s.(prefix := ""), st'), ctes)
  {
    hide NumericValue, RelationOf, Lookup, Itoa;
    var hoisted := CompiledAggregate(n, s, st);
    if hoisted.result.Ok? {
      assert hoisted.state.ctes[|st.ctes|].name == hoisted.result.value.name;
    }
  }

  lemma RuleHoistsFaithfully(n: Node, s: Setting, st: State, st': State, ctes: seq<Cte>)
    requires st.args == st'.args && s.prefix != ""
    ensures SameCompilation(CompiledRule(n, s, st), CompiledRule(n, s.(prefix := ""), st'), ctes)
  {
    if n.field == "event.has" {
      EventsHoist(n, s, st, st', ctes);
    } else if n.field in AGGREGATES {
      hide SameCompilation, CompiledAggregate;
      AggregateHoists(n, s, st, st', ctes);
    } else if Expression(s.resolver, n.field).Ok? {
      hide SameCompilation, CompiledDimension, Expression;
      DimensionHoists(n, s, Expression(s.resolver, n.field).value, st, st', ctes);
    }
  }

  /** Hoisting changes neither the arguments nor, once the names are bound, the predicate. */
  lemma {:induction false} HoistsFaithfully(n: Node, s: Setting, depth: nat, st: State, st': State, ctes: seq<Cte>)
    requires st.args == st'.args && s.prefix != ""
    ensures SameCompilation(Compiled(n, s, depth, st), Compiled(n, s.(prefix := ""), depth, st'), ctes)
    decreases n, |n.rules| + 1
  {
    hide CompiledRule;
    RuleHoistsFaithfully(n, s, st, st', ctes);
    RulesHoistFaithfully(n, |n.rules|, s, depth, st, st', ctes);
  }

  lemma {:induction false} RulesHoistFaithfully(n: Node, k: nat, s: Setting, depth: nat, st: State, st': State,
                                                ctes: seq<Cte>)
    requires k <= |n.rules| && st.args == st'.args && s.prefix != ""
    ensures var a, b := CompiledRules(n, k, s, depth, st), CompiledRules(n, k, s.(prefix := ""), depth, st');
            && a.state.args == b.state.args
            && (match (a.result, b.result)
                case (Ok(x), Ok(y)) =>
                  && |x| == |y| == k
                  && (Binds(ctes, a.state.ctes) ==> forall i :: 0 <= i < k ==> Inlined(x[i], ctes) == y[i])
                case (Err(x), Err(y)) => x == y
                case _ => false)
    decreases n, k
  {
    hide CompiledRule, Inlined;
    if k > 0 {
      RulesHoistFaithfully(n, k - 1, s, depth, st, st', ctes);
      var a, b := CompiledRules(n, k - 1, s, depth, st), CompiledRules(n, k - 1, s.(prefix := ""), depth, st');
      if a.result.Ok? {
        HoistsFaithfully(n.rules[k - 1], s, depth + 1, a.state, b.state, ctes);
        Grown(n.rules[k - 1], s, depth + 1, a.state);
      }
    }
  }

  // ---- The hoisted names -----------------------------------------------------------------------------

  predicate Digits(t: string) {
    forall i :: 0 <= i < |t| ==> '0' <= t[i] <= '9'
  }

  lemma {:induction false} ItoaShape(n: nat)
    ensures Digits(Itoa(n)) && Itoa(n) != "" && (n > 0 ==> Itoa(n)[0] != '0')
  {
    if n >= 10 {
      ItoaShape(n / 10);
    }
  }

  lemma {:induction false} ItoaInjective(a: nat, b: nat)
    requires Itoa(a) == Itoa(b)
    ensures a == b
  {
    var x, y := Itoa(a), Itoa(b);
    ItoaShape(a / 10);
    ItoaShape(b / 10);
    assert x[|x| - 1] == y[|y| - 1] && a % 10 == b % 10;
    if a >= 10 && b >= 10 {
      assert Itoa(a / 10) == x[..|x| - 1] == y[..|y| - 1] == Itoa(b / 10);
      ItoaInjective(a / 10, b / 10);
    }
  }

  /** The names of one compilation are its prefix and consecutive numbers. */
  ghost predicate Numbered(ctes: seq<Cte>, prefix: string) {
    forall i :: 0 <= i < |ctes| ==> ctes[i].name == prefix + Itoa(i + 1)
  }

  lemma {:induction false} NamesNumbered(n: Node, s: Setting, depth: nat, st: State)
    requires Numbered(st.ctes, s.prefix)
    ensures Numbered(Compiled(n, s, depth, st).state.ctes, s.prefix)
    decreases n, |n.rules| + 1
  {
    hide RelationOf, NumericValue, Itoa, Expression, TextPredicate, AllValid, EventNames;
    RulesNumbered(n, |n.rules|, s, depth, st);
  }

  lemma {:induction false} RulesNumbered(n: Node, k: nat, s: Setting, depth: nat, st: State)
    requires k <= |n.rules| && Numbered(st.ctes, s.prefix)
    ensures Numbered(CompiledRules(n, k, s, depth, st).state.ctes, s.prefix)
    decreases n, k
  {
    if k > 0 {
      RulesNumbered(n, k - 1, s, depth, st);
      NamesNumbered(n.rules[k - 1], s, depth + 1, CompiledRules(n, k - 1, s, depth, st).state);
    }
  }

  lemma {:induction false} DigitsStay(t: string)
    requires Digits(t)
    ensures ToLower(t) == t
  {
    if t != "" {
      DigitsStay(t[1..]);
    }
  }

  lemma {:induction false} LowerOfBoth(p: string, t: string)
    ensures ToLower(p + t) == ToLower(p) + ToLower(t)
  {
    if p == "" {
      assert p + t == t;
    } else {
      LowerOfBoth(p[1..], t);
      assert (p + t)[1..] == p[1..] + t;
    }
  }

  lemma LowerOfNumber(p: string, t: string)
    requires Digits(t)
    ensures ToLower(p + t) == ToLower(p) + t
  {
    hide ToLower, Digits;
    DigitsStay(t);
    LowerOfBoth(p, t);
  }

  /** The database's name for a prefix with a number: what is left of the number after the prefix. */
  lemma NumberedIdentifier(p: string, n: nat)
    ensures Identifier(p + Itoa(n)) == Cut(ToLower(p) + Itoa(n)) == Cut(Identifier(p) + Itoa(n))
  {
    ItoaShape(n);
    LowerOfNumber(p, Itoa(n));
  }

  /** The first r digits of a longer number are a smaller number. */
  lemma {:induction false} LeadingNumber(n: nat, r: nat) returns (i: nat)
    requires 1 <= r < |Itoa(n)|
    ensures 1 <= i < n && Itoa(i) == Itoa(n)[..r]
  {
    assert Itoa(n)[..|Itoa(n)| - 1] == Itoa(n / 10);
    if r == |Itoa(n)| - 1 {
      i := n / 10;
    } else {
      i := LeadingNumber(n / 10, r);
      assert Itoa(n)[..r] == Itoa(n / 10)[..r];
    }
  }

  lemma {:induction false} LongerNumbers(i: nat, n: nat)
    requires i <= n
    ensures |Itoa(i)| <= |Itoa(n)|
  {
    if i >= 10 {
      LongerNumbers(i / 10, n / 10);
    }
  }

  lemma ShortNamesDiffer(ctes: seq<Cte>, prefix: string)
    requires Numbered(ctes, prefix) && |prefix + Itoa(|ctes|)| <= IDENTIFIER_BYTES
    ensures DistinctNames(ctes)
  {
    forall i, j | 0 <= i < j < |ctes|
      ensures Identifier(ctes[i].name) != Identifier(ctes[j].name)
    {
      NumberedIdentifier(prefix, i + 1);
      NumberedIdentifier(prefix, j + 1);
      LongerNumbers(i + 1, |ctes|);
      LongerNumbers(j + 1, |ctes|);
      if Identifier(ctes[i].name) == Identifier(ctes[j].name) {
        var p := ToLower(prefix);
        assert (p + Itoa(i + 1))[|p|..] == Itoa(i + 1);
        assert (p + Itoa(j + 1))[|p|..] == Itoa(j + 1);
        ItoaInjective(i + 1, j + 1);
      }
    }
  }

  lemma LongNamesMeet(ctes: seq<Cte>, prefix: string)
    requires Numbered(ctes, prefix) && |ctes| >= 2 && |prefix + Itoa(|ctes|)| > IDENTIFIER_BYTES
    ensures !DistinctNames(ctes)
  {
    var p, n := ToLower(prefix), |ctes|;
    NumberedIdentifier(prefix, n);
    var i := 1;
    if |p| < IDENTIFIER_BYTES {
      i := LeadingNumber(n, IDENTIFIER_BYTES - |p|);
      assert (p + Itoa(n))[..IDENTIFIER_BYTES] == p + Itoa(n)[..IDENTIFIER_BYTES - |p|];
    } else {
      assert (p + Itoa(n))[..IDENTIFIER_BYTES] == p[..IDENTIFIER_BYTES] == (p + Itoa(i))[..IDENTIFIER_BYTES];
    }
    NumberedIdentifier(prefix, i);
    assert Identifier(ctes[i - 1].name) == Identifier(ctes[n - 1].name);
  }

  lemma {:induction false} DistinctNamesBind(list: seq<Cte>, i: nat)
    requires i < |list| && DistinctNames(list)
    ensures Lookup(list, list[i].name) == Some(list[i].query)
  {
    hide Identifier;
    if i > 0 {
      forall a, b | 0 <= a < b < |list[1..]|
        ensures Identifier(list[1..][a].name) != Identifier(list[1..][b].name)
      {
        assert list[1..][a] == list[a + 1] && list[1..][b] == list[b + 1];
      }
      DistinctNamesBind(list[1..], i - 1);
    }
  }

  lemma AllBind(ctes: seq<Cte>)
    requires DistinctNames(ctes)
    ensures Binds(ctes, ctes)
  {
    hide Identifier;
    forall i | 0 <= i < |ctes|
      ensures Lookup(ctes, ctes[i].name) == Some(ctes[i].query)
    {
      DistinctNamesBind(ctes, i);
    }
  }

  /** The names a compilation with n aggregates makes from the prefix are all kept whole, or there is only one. */
  predicate NamesFit(prefix: string, n: nat) {
    n <= 1 || |prefix + Itoa(n)| <= IDENTIFIER_BYTES
  }

  /** A compilation that starts its own list binds every name it uses, each to one query, exactly when its names fit. */
  lemma OwnNamesBind(n: Node, s: Setting, depth: nat, bound: seq<Arg>)
    ensures var ctes := Compiled(n, s, depth, State(bound, [])).state.ctes;
            && (DistinctNames(ctes) <==> NamesFit(s.prefix, |ctes|))
            && (Binds(ctes, ctes) <==> NamesFit(s.prefix, |ctes|))
  {
    hide Compiled, DistinctNames, Itoa;
    var ctes := Compiled(n, s, depth, State(bound, [])).state.ctes;
    NumberedFromNothing(n, s, depth, bound);
    if |ctes| <= 1 {
      OneNameIsDistinct(ctes);
      AllBind(ctes);
    } else if NamesFit(s.prefix, |ctes|) {
      ShortNamesDiffer(ctes, s.prefix);
      AllBind(ctes);
    } else {
      LongNamesMeet(ctes, s.prefix);
    }
  }

  lemma NumberedFromNothing(n: Node, s: Setting, depth: nat, bound: seq<Arg>)
    ensures Numbered(Compiled(n, s, depth, State(bound, [])).state.ctes, s.prefix)
  {
    hide Compiled;
    NamesNumbered(n, s, depth, State(bound, []));
  }

  lemma OneNameIsDistinct(ctes: seq<Cte>)
    requires |ctes| <= 1
    ensures DistinctNames(ctes)
  {
  }

  /** One prefix is the other followed by the start of a number. */
  predicate Extends(longer: string, prefix: string) {
    |longer| > |prefix| && longer[..|prefix|] == prefix && Digits(longer[|prefix|..]) && longer[|prefix|] != '0'
  }

  function Atoi(t: string): nat
    requires Digits(t)
  {
    if t == "" then 0 else Atoi(t[..|t| - 1]) * 10 + (t[|t| - 1] - '0') as nat
  }

  lemma {:induction false} ItoaOfAtoi(t: string)
    requires Digits(t) && t != "" && t[0] != '0'
    ensures Atoi(t) > 0 && Itoa(Atoi(t)) == t
  {
    var init, d := t[..|t| - 1], (t[|t| - 1] - '0') as nat;
    assert t == init + [t[|t| - 1]];
    if init != "" {
      ItoaOfAtoi(init);
      assert Atoi(t) / 10 == Atoi(init) && Atoi(t) % 10 == d;
    }
  }

  /** The two compilations can give the database one name twice. */
  ghost predicate Collide(p: string, q: string) {
    exists i: nat, j: nat :: i > 0 && j > 0 && Identifier(p + Itoa(i)) == Identifier(q + Itoa(j))
  }

  /**
   Two compilations in one statement can produce the same name exactly when their prefixes, as
   the database reads them, are equal or one extends the other by the start of a number.
   */
  lemma PrefixesCollideExactly(p: string, q: string)
    ensures Collide(p, q)
            <==> var a, b := Identifier(p), Identifier(q); a == b || Extends(a, b) || Extends(b, a)
  {
    hide Identifier, Itoa, Extends;
    var a, b := Identifier(p), Identifier(q);
    if a == b {
      CollideAt(p, q, 1, 1);
    } else if Extends(b, a) {
      var i, j := NamesCanMeet(a, b);
      CollideAt(p, q, i, j);
    } else if Extends(a, b) {
      var j, i := NamesCanMeet(b, a);
      CollideAt(p, q, i, j);
    } else if Collide(p, q) {
      var i: nat, j: nat :| i > 0 && j > 0 && Identifier(p + Itoa(i)) == Identifier(q + Itoa(j));
      NumberedIdentifier(p, i);
      NumberedIdentifier(q, j);
      IdentifiersFit(p);
      IdentifiersFit(q);
      if |a| <= |b| {
        NamesMeet(a, b, i, j);
      } else {
        NamesMeet(b, a, j, i);
      }
    }
  }

  lemma IdentifiersFit(p: string)
    ensures |Identifier(p)| <= IDENTIFIER_BYTES
  {
  }

  lemma CollideAt(p: string, q: string, i: nat, j: nat)
    requires i > 0 && j > 0 && Identifier(p) + Itoa(i) == Identifier(q) + Itoa(j)
    ensures Collide(p, q)
  {
    hide Identifier, Itoa;
    NumberedIdentifier(p, i);
    NumberedIdentifier(q, j);
    assert Identifier(p + Itoa(i)) == Identifier(q + Itoa(j));
  }

  lemma NamesMeet(p: string, q: string, i: nat, j: nat)
    requires p != q && |p| <= |q| <= IDENTIFIER_BYTES && i > 0 && Cut(p + Itoa(i)) == Cut(q + Itoa(j))
    ensures Extends(q, p)
  {
    hide Itoa;
    var name, rest := Cut(p + Itoa(i)), p + Itoa(i);
    ItoaShape(i);
    assert name <= rest && name == rest[..|name|];
    assert |q| <= |name| && |p| <= |name|;
    assert q == name[..|q|] && p == name[..|p|];
    assert q[..|p|] == p && q[..|q|] == q;
    forall k | 0 <= k < |q| - |p|
      ensures q[|p| + k] == Itoa(i)[k]
    {
      assert q[|p| + k] == name[|p| + k] == rest[|p| + k];
    }
  }

  lemma NamesCanMeet(p: string, q: string) returns (i: nat, j: nat)
    requires Extends(q, p)
    ensures i > 0 && j > 0 && p + Itoa(i) == q + Itoa(j)
  {
    j := 1;
    var tail := q[|p|..] + Itoa(j);
    ItoaShape(j);
    ItoaOfAtoi(tail);
    i := Atoi(tail);
    assert q == p + q[|p|..];
  }

  lemma ExtensionEndsInDigit(longer: string, prefix: string)
    requires Extends(longer, prefix)
    ensures '0' <= longer[|longer| - 1] <= '9'
  {
    assert longer[|prefix|..][|longer| - |prefix| - 1] == longer[|longer| - 1];
  }

  /**
   Prefixes that differ to the database and end in no digit there, like the one the cohort report
   uses, never collide.
   */
  lemma PrefixesWithoutDigitsNeverCollide(p: string, q: string)
    requires Identifier(p) != Identifier(q)
    requires Identifier(p) == "" || !('0' <= Identifier(p)[|Identifier(p)| - 1] <= '9')
    requires Identifier(q) == "" || !('0' <= Identifier(q)[|Identifier(q)| - 1] <= '9')
    ensures !Collide(p, q)
  {
    hide Identifier, Collide;
    PrefixesCollideExactly(p, q);
    if Extends(Identifier(p), Identifier(q)) {
      ExtensionEndsInDigit(Identifier(p), Identifier(q));
    } else if Extends(Identifier(q), Identifier(p)) {
      ExtensionEndsInDigit(Identifier(q), Identifier(p));
    }
  }

  /** Letter case alone does not keep two compilations apart. */
  lemma CaseDoesNotSeparate()
    ensures "Seg" != "seg" && Collide("Seg", "seg")
  {
    hide Itoa;
    assert "Seg"[1..] == "eg" && "eg"[1..] == "g" && "g"[1..] == "";
    assert "seg"[1..] == "eg";
    PrefixesCollideExactly("Seg", "seg");
  }

  // ---- Every argument is used ---------------------------------------------------------------------------

  function UsedBy(m: Membership): set<nat> {
    {m.site, m.environment, m.value}
  }

  /** The placeholders a predicate mentions. */
  function Uses(q: Sql): set<nat>
    decreases q
  {
    match q
    case And(parts) => set i, n | 0 <= i < |parts| && n in Uses(parts[i]) :: n
    case Or(parts) => set i, n | 0 <= i < |parts| && n in Uses(parts[i]) :: n
    case Not(inner) => Uses(inner)
    case IsNull(_) => {}
    case IsNotNull(_) => {}
    case TextIs(_, _, Quoted(_)) => {}
    case TextIs(_, _, Param(n)) => {n}
    case EqualsAny(_, n) => {n}
    case DiffersFromAll(_, n) => {n}
    case AnyCaseLike(_, _, n, _, _) => {n}
    case NumberIs(_, _, n) => {n}
    case MemberOf(m) => UsedBy(m)
    case MemberOfCte(_) => {}
    case EventExists(n, _) => {n}
  }

  ghost predicate SomeUses(parts: seq<Sql>, m: nat) {
    exists i :: 0 <= i < |parts| && m in Uses(parts[i])
  }

  /** Some query named after the first k mentions the placeholder. */
  ghost predicate NamedUses(ctes: seq<Cte>, k: nat, m: nat) {
    exists i :: k <= i < |ctes| && m in UsedBy(ctes[i].query)
  }

  /**
   The predicate, with the queries its compilation named, mentions every argument the compilation
   appended, and no other.
   */
  ghost predicate UsesOwn(q: Sql, was: State, now: State) {
    forall n: nat :: n in Uses(q) || NamedUses(now.ctes, |was.ctes|, n) <==> |was.args| < n <= |now.args|
  }

  lemma AggregateUsesOwn(n: Node, s: Setting, st: State)
    requires CompiledAggregate(n, s, st).result.Ok?
    ensures UsesOwn(CompiledAggregate(n, s, st).result.value, st, CompiledAggregate(n, s, st).state)
  {
    hide NumericValue, RelationOf, Itoa;
    var out := CompiledAggregate(n, s, st);
    if s.prefix != "" {
      var i := |st.ctes|;
      forall m: nat
        ensures NamedUses(out.state.ctes, i, m) <==> |st.args| < m <= |out.state.args|
      {
        assert out.state.ctes[i].query.site == |st.args| + 1 && out.state.ctes[i].query.environment == |st.args| + 2;
        assert m in UsedBy(out.state.ctes[i].query) ==> NamedUses(out.state.ctes, i, m);
      }
    }
  }

  lemma NothingNamed(ctes: seq<Cte>)
    ensures forall m: nat :: !NamedUses(ctes, |ctes|, m)
  {
  }

  lemma EventsUseOwn(n: Node, s: Setting, st: State)
    requires CompiledEvents(n, s, st).result.Ok?
    ensures UsesOwn(CompiledEvents(n, s, st).result.value, st, CompiledEvents(n, s, st).state)
  {
    hide AllValid, EventNames, NamedUses;
    NothingNamed(st.ctes);
    var q := CompiledEvents(n, s, st).result.value;
    if q.Not? {
      assert Uses(q.inner) == {q.inner.param};
    }
  }

  lemma DimensionUsesOwn(n: Node, s: Setting, c: Column, st: State)
    requires CompiledDimension(n, s, c, st).result.Ok?
    ensures UsesOwn(CompiledDimension(n, s, c, st).result.value, st, CompiledDimension(n, s, c, st).state)
  {
    hide NumericValue, RelationOf, NamedUses;
    NothingNamed(st.ctes);
    var q := CompiledDimension(n, s, c, st).result.value;
    if q.And? || q.Or? {
      assert Uses(q.parts[0]) == {} && Uses(q.parts[1]) == {};
    }
  }

  /** Inline or hoisted, what a compilation emits mentions exactly the arguments it appended. */
  lemma {:induction false} UsesExactlyItsOwn(n: Node, s: Setting, depth: nat, st: State)
    requires Compiled(n, s, depth, st).result.Ok?
    ensures UsesOwn(Compiled(n, s, depth, st).result.value, st, Compiled(n, s, depth, st).state)
    decreases n, |n.rules| + 1
  {
    hide Expression, CompiledEvents, CompiledAggregate, CompiledDimension, NamedUses;
    if IsGroup(n) {
      RulesUseTheirOwn(n, |n.rules|, s, depth, st);
      assert forall m: nat :: m in Uses(Compiled(n, s, depth, st).result.value)
                              <==> SomeUses(CompiledRules(n, |n.rules|, s, depth, st).result.value, m);
    } else if n.field == "event.has" {
      EventsUseOwn(n, s, st);
    } else if n.field in AGGREGATES {
      AggregateUsesOwn(n, s, st);
    } else {
      DimensionUsesOwn(n, s, Expression(s.resolver, n.field).value, st);
    }
  }

  /** An inline predicate mentions them all itself. */
  lemma InlineUsesExactlyItsOwn(n: Node, s: Setting, depth: nat, st: State)
    requires s.prefix == "" && Compiled(n, s, depth, st).result.Ok?
    ensures var out := Compiled(n, s, depth, st);
            forall m: nat :: m in Uses(out.result.value) <==> |st.args| < m <= |out.state.args|
  {
    hide Compiled, Uses, NamedUses;
    UsesExactlyItsOwn(n, s, depth, st);
    InlineNamesNothing(n, s, depth, st);
    NothingNamed(st.ctes);
  }

  lemma {:induction false} RulesUseTheirOwn(n: Node, k: nat, s: Setting, depth: nat, st: State)
    requires k <= |n.rules| && CompiledRules(n, k, s, depth, st).result.Ok?
    ensures var out := CompiledRules(n, k, s, depth, st);
            forall m: nat :: SomeUses(out.result.value, m) || NamedUses(out.state.ctes, |st.ctes|, m)
                             <==> |st.args| < m <= |out.state.args|
    decreases n, k
  {
    hide CompiledRule, Uses, NamedUses;
    NothingNamed(st.ctes);
    if k > 0 {
      var was := CompiledRules(n, k - 1, s, depth, st);
      var part := Compiled(n.rules[k - 1], s, depth + 1, was.state);
      RulesUseTheirOwn(n, k - 1, s, depth, st);
      RulesGrown(n, k - 1, s, depth, st);
      UsesExactlyItsOwn(n.rules[k - 1], s, depth + 1, was.state);
      Grown(n.rules[k - 1], s, depth + 1, was.state);
      UsedByMore(was.result.value, part.result.value, st, was.state, part.state);
    }
  }

  lemma NamedMore(a: seq<Cte>, b: seq<Cte>, k: nat, m: nat)
    requires k <= |a| && Begins(a, b)
    ensures NamedUses(b, k, m) <==> NamedUses(a, k, m) || NamedUses(b, |a|, m)
  {
    hide UsedBy;
    assert forall i :: 0 <= i < |a| ==> a[i] == b[i];
    if NamedUses(a, k, m) {
      var i :| k <= i < |a| && m in UsedBy(a[i].query);
      assert m in UsedBy(b[i].query);
    }
    if NamedUses(b, k, m) {
      var i :| k <= i < |b| && m in UsedBy(b[i].query);
      assert i < |a| ==> m in UsedBy(a[i].query);
    }
  }

  lemma SomeMore(parts: seq<Sql>, q: Sql, m: nat)
    ensures SomeUses(parts + [q], m) <==> SomeUses(parts, m) || m in Uses(q)
  {
    hide Uses;
    var more := parts + [q];
    assert more[|parts|] == q && forall i :: 0 <= i < |parts| ==> more[i] == parts[i];
  }

  lemma UsedByMore(parts: seq<Sql>, q: Sql, st: State, mid: State, end: State)
    requires |st.args| <= |mid.args| <= |end.args| && |st.ctes| <= |mid.ctes| && Begins(mid.ctes, end.ctes)
    requires forall m: nat :: SomeUses(parts, m) || NamedUses(mid.ctes, |st.ctes|, m) <==> |st.args| < m <= |mid.args|
    requires UsesOwn(q, mid, end)
    ensures forall m: nat ::
              SomeUses(parts + [q], m) || NamedUses(end.ctes, |st.ctes|, m) <==> |st.args| < m <= |end.args|
  {
    hide Uses, SomeUses, NamedUses;
    forall m: nat
      ensures SomeUses(parts + [q], m) || NamedUses(end.ctes, |st.ctes|, m) <==> |st.args| < m <= |end.args|
    {
      SomeMore(parts, q, m);
      NamedMore(mid.ctes, end.ctes, |st.ctes|, m);
    }
  }

  // ---- The entry point ----------------------------------------------------------------------------------

  lemma {:induction false} InlineNamesNothing(n: Node, s: Setting, depth: nat, st: State)
    requires s.prefix == ""
    ensures Compiled(n, s, depth, st).state.ctes == st.ctes
    decreases n, |n.rules| + 1
  {
    hide RelationOf, NumericValue, Itoa, Expression, TextPredicate, AllValid, EventNames;
    RulesNameNothing(n, |n.rules|, s, depth, st);
  }

  lemma {:induction false} RulesNameNothing(n: Node, k: nat, s: Setting, depth: nat, st: State)
    requires s.prefix == "" && k <= |n.rules|
    ensures CompiledRules(n, k, s, depth, st).state.ctes == st.ctes
    decreases n, k
  {
    if k > 0 {
      RulesNameNothing(n, k - 1, s, depth, st);
      InlineNamesNothing(n.rules[k - 1], s, depth + 1, CompiledRules(n, k - 1, s, depth, st).state);
    }
  }

  /** The predicate q, placed in any statement that binds these arguments and names, answers for the segment n. */
  ghost predicate Means(q: Sql, n: Node, s: Setting, args: seq<Arg>, ctes: seq<Cte>) {
    forall all: seq<Arg>, list: seq<Cte>, w: World, row: Row ::
      Begins(args, all) && Binds(list, ctes) && Like.KeepsSyntax(w.lower) ==>
        Eval(q, all, list, w, row) == Verdict(n, s, w, row)
  }

  /**
   CompileHoisted, and Compile when the prefix is empty: one compilation inside a query that has
   already bound arguments.
   */
  method CompileHoisted(n: Node, s: Setting, depth: nat, bound: seq<Arg>)
    returns (r: Result<Sql>, args: seq<Arg>, ctes: seq<Cte>)
    ensures r.Ok? <==> Valid(n, s, depth)
    ensures Begins(bound, args)
    ensures Binds(ctes, ctes) <==> NamesFit(s.prefix, |ctes|)
    ensures s.prefix == "" ==> ctes == []
    ensures r.Ok? ==> Means(r.value, n, s, args, ctes)
  {
    hide Valid, Verdict, Eval, Like.KeepsSyntax, Compiled, NamesFit;
    var compiler := new Compiler(s, bound);
    var was := State(bound, []);
    r := compiler.Compile(n, depth);
    args, ctes := compiler.args, compiler.ctes;
    Grown(n, s, depth, was);
    AcceptsExactlyValid(n, s, depth, was);
    OwnNamesBind(n, s, depth, bound);
    if s.prefix == "" {
      InlineNamesNothing(n, s, depth, was);
    }
    if r.Ok? {
      forall all: seq<Arg>, list: seq<Cte>, w: World, row: Row | Begins(args, all) && Binds(list, ctes)
        && Like.KeepsSyntax(w.lower)
        ensures Eval(r.value, all, list, w, row) == Verdict(n, s, w, row)
      {
        CompilePreservesMeaning(n, s, depth, was, all, list, w, row);
      }
    }
  }

  /** Hoisted or inline, the same segment binds the same arguments and gives the same verdict on every row. */
  lemma HoistedAndInlineAgree(n: Node, s: Setting, depth: nat, bound: seq<Arg>, all: seq<Arg>, list: seq<Cte>, w: World,
                              row: Row)
    requires s.prefix != "" && Valid(n, s, depth) && Like.KeepsSyntax(w.lower)
    requires var h := Compiled(n, s, depth, State(bound, [])).state; Begins(h.args, all) && Binds(list, h.ctes)
    ensures var h, i := Compiled(n, s, depth, State(bound, [])), Compiled(n, s.(prefix := ""), depth, State(bound, []));
            && h.result.Ok? && i.result.Ok? && h.state.args == i.state.args && i.state.ctes == []
            && Eval(h.result.value, all, list, w, row) == Eval(i.result.value, all, [], w, row)
            && (Eval(h.result.value, all, list, w, row).Some? <==> Answerable(n, s, w))
  {
    hide Valid, Meaning, Eval, Like.KeepsSyntax, Compiled, Inlined;
    var was, inline := State(bound, []), s.(prefix := "");
    AcceptsExactlyValid(n, s, depth, was);
    HoistsFaithfully(n, s, depth, was, was, list);
    InlineNamesNothing(n, inline, depth, was);
    CompilePreservesMeaning(n, s, depth, was, all, list, w, row);
    CompilePreservesMeaning(n, inline, depth, was, all, [], w, row);
    MeaningIgnoresPrefix(n, s, "", w, row);
    AnswerIgnoresPrefix(n, s, "", w);
  }

  /** A segment means the same whatever its aggregates are called. */
  lemma {:induction false} MeaningIgnoresPrefix(n: Node, s: Setting, prefix: string, w: World, row: Row)
    ensures Meaning(n, s.(prefix := prefix), w, row) == Meaning(n, s, w, row)
    decreases n
  {
    hide RuleMeaning, Every, Some3;
    var s' := s.(prefix := prefix);
    if Joins(n) {
      forall i | 0 <= i < |n.rules|
        ensures Meaning(n.rules[i], s', w, row) == Meaning(n.rules[i], s, w, row)
      {
        MeaningIgnoresPrefix(n.rules[i], s, prefix, w, row);
      }
      assert Verdicts(n, s', w, row) == Verdicts(n, s, w, row);
    } else {
      RuleMeaningIgnoresPrefix(n, s, prefix, w, row);
    }
  }

  lemma RuleMeaningIgnoresPrefix(n: Node, s: Setting, prefix: string, w: World, row: Row)
    ensures RuleMeaning(n, s.(prefix := prefix), w, row) == RuleMeaning(n, s, w, row)
  {
    hide TextRelation, Related, PersonRows, BoundNumber, Boolean;
  }

  lemma {:induction false} AnswerIgnoresPrefix(n: Node, s: Setting, prefix: string, w: World)
    ensures Answerable(n, s.(prefix := prefix), w) == Answerable(n, s, w)
    decreases n
  {
    hide AnswerableRule;
    if Joins(n) {
      forall i | 0 <= i < |n.rules|
        ensures Answerable(n.rules[i], s.(prefix := prefix), w) == Answerable(n.rules[i], s, w)
      {
        AnswerIgnoresPrefix(n.rules[i], s, prefix, w);
      }
    } else {
      RuleAnswerIgnoresPrefix(n, s, prefix, w);
    }
  }

  lemma RuleAnswerIgnoresPrefix(n: Node, s: Setting, prefix: string, w: World)
    ensures AnswerableRule(n, s.(prefix := prefix), w) == AnswerableRule(n, s, w)
  {
  }

  // ---- Numbers compared with counts ------------------------------------------------------------------

  /**
   Where every number compared with a count is a bigint, the driver has no say: the verdict
   compares the numbers as they are written, and there is one exactly when the flags are readable.
   */
  lemma {:induction false} WholeNumbersAsWritten(n: Node, s: Setting, w: World, bigint: real -> Option<Bigint>,
                                                 row: Row)
    requires CountsAreWhole(n, s)
    ensures Answerable(n, s, w) <==> FlagsReadable(n, s)
    ensures Verdict(n, s, w, row) == Verdict(n, s, w.(bigint := bigint), row)
    decreases n
  {
    hide RuleMeaning, Every, Some3, FlagReadable, AnswerableRule;
    var w' := w.(bigint := bigint);
    if Joins(n) {
      forall i | 0 <= i < |n.rules|
        ensures Answerable(n.rules[i], s, w) <==> FlagsReadable(n.rules[i], s)
        ensures Answerable(n.rules[i], s, w') <==> FlagsReadable(n.rules[i], s)
        ensures Verdict(n.rules[i], s, w, row) == Verdict(n.rules[i], s, w', row)
      {
        WholeNumbersAsWritten(n.rules[i], s, w, bigint, row);
        WholeNumbersAsWritten(n.rules[i], s, w', bigint, row);
      }
      if Answerable(n, s, w) {
        assert forall i :: 0 <= i < |n.rules| ==> Meaning(n.rules[i], s, w, row) == Meaning(n.rules[i], s, w', row);
        assert Verdicts(n, s, w, row) == Verdicts(n, s, w', row);
      }
    } else {
      WholeRule(n, s, w);
      WholeRule(n, s, w');
      RuleWithoutDriver(n, s, w, bigint, row);
    }
  }

  lemma WholeRule(n: Node, s: Setting, w: World)
    requires !Joins(n) && CountsAreWhole(n, s)
    ensures AnswerableRule(n, s, w) <==> FlagReadable(n, s)
    ensures n.field in AGGREGATES && NumberIn(s, n.value).Some? ==>
              BoundNumber(w, n.field, NumberIn(s, n.value).value) == NumberIn(s, n.value)
  {
    hide NumberIn, FlagReadable;
  }

  lemma RuleWithoutDriver(n: Node, s: Setting, w: World, bigint: real -> Option<Bigint>, row: Row)
    requires !Joins(n) && CountsAreWhole(n, s)
    ensures RuleMeaning(n, s, w, row) == RuleMeaning(n, s, w.(bigint := bigint), row)
  {
    hide NumberIn, BoundNumber, Whole, Related, InternalMeaning, TextRelation;
    WholeRule(n, s, w);
    WholeRule(n, s, w.(bigint := bigint));
  }

  /**
   A count compared with any other number, a fraction say: no verdict where the driver refuses
   it, and otherwise that of the rule with the number the driver makes of it.
   */
  lemma FractionAgainstCount(n: Node, s: Setting, w: World, row: Row)
    requires n.field in COUNTS && !Joins(n) && ValidRule(n, s)
    requires NumberIn(s, n.value).Some? && !Whole(NumberIn(s, n.value).value)
    ensures Verdict(n, s, w, row)
            == match w.bigint(NumberIn(s, n.value).value)
               case None => None
               case Some(i) => Verdict(n.(value := Number(i as real)), s, w, row)
  {
    hide PersonRows, Related;
    match w.bigint(NumberIn(s, n.value).value)
    case None =>
    case Some(i) =>
      assert (i as real).Floor == i;
      assert NumberIn(s, Number(i as real)) == Some(i as real);
  }
}
