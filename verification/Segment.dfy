/**
 The segment compiler: a tree of rules becomes a predicate, a list of arguments that
 only grows and, on request, a list of named aggregates the predicate refers to.
 */
module Segment {
  import opened Wrappers
  import opened Sql
  import Like

  // ---- Definitions ---------------------------------------------------------------------

  /** A rule's value as JSON decoding leaves it: a number, an array, or anything else. */
  datatype Value = Number(number: real) | Array(items: seq<Value>) | Plain(text: string)

  datatype Node = Node(combinator: string, rules: seq<Node>, field: string, operator: string, value: Value)

  datatype Dimension = Dimension(propertyKey: string, scope: string)

  datatype Resolver = Resolver(custom: map<string, Dimension>, site: Option<string>, environment: string)

  /** Library functions the compiler calls: printing a value, reading a number, trimming white space. */
  datatype Library = Library(sprint: Value -> string, parse: string -> Option<real>, trim: string -> string)

  /** What one compilation is given. An empty prefix writes aggregates inline; any other names the hoisted ones. */
  datatype Setting = Setting(resolver: Resolver, library: Library, prefix: string)

  const BUILTIN: set<string> := {
    "event.name", "page.url", "device.type", "browser", "os", "country", "traffic.source", "traffic.medium",
    "traffic.campaign", "traffic.class", "network", "traffic.internal", "user.id", "visitor.id", "session.id",
    "user.department", "user.organization", "feature", "button", "is_conversion", "environment", "contract.version",
    "release.version", "app.version"
  }

  /** The measures of a person's whole history: the counts, and two numbers of days. */
  const AGGREGATES: set<string> := COUNTS + {"entity.days_since_last_seen", "entity.days_since_first_seen"}

  predicate NameStart(c: char) {
    'A' <= c <= 'Z' || 'a' <= c <= 'z' || c == '_'
  }

  /** The shape of a stored event name and of a property key. */
  predicate ValidName(s: string) {
    && 1 <= |s| <= 128 && NameStart(s[0])
    && forall i :: 1 <= i < |s| ==> NameStart(s[i]) || '0' <= s[i] <= '9' || s[i] == '.' || s[i] == '-'
  }

  /** The column of a field, built in or custom. */
  function Expression(r: Resolver, field: string): Result<Column> {
    if field in BUILTIN then Ok(Builtin(field))
    else if field !in r.custom then Err("unsupported dimension: " + field)
    else if !ValidName(r.custom[field].propertyKey) then Err("custom dimension has an invalid property key")
    else match r.custom[field].scope
      case "user" => Ok(UserProperty(r.custom[field].propertyKey))
      case "event" => Ok(EventProperty(r.custom[field].propertyKey))
      case "session" => Ok(EventProperty(r.custom[field].propertyKey))
      case _ => Err("item-scoped dimensions are available in Ecommerce reports")
  }

  function NumericValue(lib: Library, v: Value): Option<real> {
    match v case Number(x) => Some(x) case _ => lib.parse(lib.sprint(v))
  }

  predicate IsGroup(n: Node) {
    |n.rules| > 0 || n.combinator != ""
  }

  /** Whether the group is an AND; None for a word that is neither. */
  function Combinator(n: Node): Option<bool> {
    if ToLower(n.combinator) == "and" then Some(true)
    else if ToLower(n.combinator) == "or" then Some(false)
    else None
  }

  function RelationOf(op: string): Option<Relation> {
    match op
    case "=" => Some(Eq)
    case "!=" => Some(Ne)
    case "<" => Some(Lt)
    case "<=" => Some(Le)
    case ">" => Some(Gt)
    case ">=" => Some(Ge)
    case _ => None
  }

  function Printed(lib: Library, items: seq<Value>): (r: seq<string>)
    ensures |r| == |items| && forall i :: 0 <= i < |items| ==> r[i] == lib.sprint(items[i])
  {
    seq(|items|, i requires 0 <= i < |items| => lib.sprint(items[i]))
  }

  function Trimmed(lib: Library, items: seq<Value>): (r: seq<string>)
    ensures |r| == |items| && forall i :: 0 <= i < |items| ==> r[i] == lib.trim(lib.sprint(items[i]))
  {
    seq(|items|, i requires 0 <= i < |items| => lib.trim(lib.sprint(items[i])))
  }

  /** An array of 1 to 100 values. */
  predicate ListValue(v: Value) {
    v.Array? && 1 <= |v.items| <= 100
  }

  predicate AllValid(names: seq<string>) {
    forall i :: 0 <= i < |names| ==> ValidName(names[i])
  }

  /** The event names an event.has rule lists. */
  function EventNames(lib: Library, n: Node): seq<string> {
    if n.value.Array? && n.operator in {"in", "not in"} then Trimmed(lib, n.value.items)
    else [lib.trim(lib.sprint(n.value))]
  }

  // ---- Compilation -----------------------------------------------------------------------

  datatype State = State(args: seq<Arg>, ctes: seq<Cte>)

  datatype Outcome<T> = Outcome(state: State, result: Result<T>)

  function Itoa(n: nat): string {
    if n < 10 then ['0' + n as char] else Itoa(n / 10) + ['0' + (n % 10) as char]
  }

  function Append(st: State, a: Arg): State {
    st.(args := st.args + [a])
  }

  function CompiledEvents(n: Node, s: Setting, st: State): Outcome<Sql> {
    var names := EventNames(s.library, n);
    var at := |st.args| + 1;
    if n.operator in {"=", "!="} then
      if !AllValid(names) then Outcome(st, Err("event.has requires a valid event name"))
      else
        Outcome(Append(st, TextArg(names[0])),
                Ok(if n.operator == "=" then EventExists(at, false) else Not(EventExists(at, false))))
    else if n.operator in {"in", "not in"} then
      if !ListValue(n.value) then Outcome(st, Err("event.has " + n.operator + " requires 1 to 100 event names"))
      else if !AllValid(names) then Outcome(st, Err("event.has requires valid event names"))
      else
        Outcome(Append(st, TextsArg(names)),
                Ok(if n.operator == "in" then EventExists(at, true) else Not(EventExists(at, true))))
    else Outcome(st, Err("event.has supports =, !=, in, and not in"))
  }

  function CompiledAggregate(n: Node, s: Setting, st: State): Outcome<Sql> {
    var value := NumericValue(s.library, n.value);
    if RelationOf(n.operator).None? then Outcome(st, Err(n.field + " requires a numeric comparison operator"))
    else if value.None? then Outcome(st, Err(n.field + " requires a numeric value"))
    else if s.resolver.site.None? || s.resolver.environment == "" then
      Outcome(st, Err(n.field + " cannot be evaluated without a site and environment"))
    else
      var args := st.args + [TextArg(s.resolver.site.value), TextArg(s.resolver.environment), NumberArg(value.value)];
      var query := Membership(n.field, |args| - 2, |args| - 1, RelationOf(n.operator).value, |args|);
      if s.prefix == "" then Outcome(State(args, st.ctes), Ok(MemberOf(query)))
      else
        var name := s.prefix + Itoa(|st.ctes| + 1);
        Outcome(State(args, st.ctes + [Cte(name, query)]), Ok(MemberOfCte(name)))
  }

  function TextPredicate(op: string, c: Column, at: nat): Sql {
    match op
    case "=" => TextIs(c, true, Param(at))
    case "!=" => TextIs(c, false, Param(at))
    case "contains" => AnyCaseLike(c, true, at, true, false)
    case "not contains" => AnyCaseLike(c, true, at, true, true)
    case "startsWith" => AnyCaseLike(c, false, at, true, false)
    case _ => AnyCaseLike(c, true, at, false, false)
  }

  function CompiledDimension(n: Node, s: Setting, c: Column, st: State): Outcome<Sql> {
    var at := |st.args| + 1;
    match n.operator
    case "exists" => Outcome(st, Ok(And([IsNotNull(c), TextIs(c, false, Quoted(""))])))
    case "not exists" => Outcome(st, Ok(Or([IsNull(c), TextIs(c, true, Quoted(""))])))
    case _ =>
      if n.operator in {"in", "not in"} then
        if !ListValue(n.value) then Outcome(st, Err(n.operator + " requires an array with 1 to 100 values"))
        else
          Outcome(Append(st, TextsArg(Printed(s.library, n.value.items))),
                  Ok(if n.operator == "in" then EqualsAny(c, at) else DiffersFromAll(c, at)))
      else if n.operator in {"=", "!=", "contains", "not contains", "startsWith", "endsWith"} then
        var printed := s.library.sprint(n.value);
        var text := if n.operator in {"=", "!="} then printed else Like.LikeLiteral(printed);
        Outcome(Append(st, TextArg(text)), Ok(TextPredicate(n.operator, c, at)))
      else if n.operator in {">", ">=", "<", "<="} then
        match NumericValue(s.library, n.value)
        case None => Outcome(st, Err(n.operator + " requires a numeric value"))
        case Some(value) => Outcome(Append(st, NumberArg(value)), Ok(NumberIs(c, RelationOf(n.operator).value, at)))
      else Outcome(st, Err("unsupported operator: " + n.operator))
  }

  function CompiledRule(n: Node, s: Setting, st: State): Outcome<Sql> {
    if n.field == "event.has" then CompiledEvents(n, s, st)
    else if n.field in AGGREGATES then CompiledAggregate(n, s, st)
    else match Expression(s.resolver, n.field)
      case Err(e) => Outcome(st, Err(e))
      case Ok(c) => CompiledDimension(n, s, c, st)
  }

  function Compiled(n: Node, s: Setting, depth: nat, st: State): Outcome<Sql>
    decreases n, |n.rules| + 1
  {
    if depth > 5 then Outcome(st, Err("segment nesting is limited to 5 levels"))
    else if IsGroup(n) then
      if Combinator(n).None? then Outcome(st, Err("segment combinator must be and or or"))
      else if |n.rules| == 0 then Outcome(st, Err("segment group must contain at least one rule"))
      else if |n.rules| > 50 then Outcome(st, Err("segment group is limited to 50 rules"))
      else
        var out := CompiledRules(n, |n.rules|, s, depth, st);
        match out.result
        case Err(e) => Outcome(out.state, Err(e))
        case Ok(parts) => Outcome(out.state, Ok(if Combinator(n).value then And(parts) else Or(parts)))
    else CompiledRule(n, s, st)
  }

  /** The first k rules of a group, in order, stopping at the first that fails. */
  function CompiledRules(n: Node, k: nat, s: Setting, depth: nat, st: State): Outcome<seq<Sql>>
    requires k <= |n.rules|
    decreases n, k
  {
    if k == 0 then Outcome(st, Ok([]))
    else
      var was := CompiledRules(n, k - 1, s, depth, st);
      match was.result
      case Err(e) => Outcome(was.state, Err(e))
      case Ok(parts) =>
        var out := Compiled(n.rules[k - 1], s, depth + 1, was.state);
        match out.result
        case Err(e) => Outcome(out.state, Err(e))
        case Ok(q) => Outcome(out.state, Ok(parts + [q]))
  }

  /** One compilation of a segment, as the source runs it: rule by rule, appending to the shared lists. */
  class Compiler {
    const setting: Setting
    var args: seq<Arg>
    var ctes: seq<Cte>

    constructor (s: Setting, bound: seq<Arg>)
      ensures setting == s && args == bound && ctes == []
    {
      setting, args, ctes := s, bound, [];
    }

    function Contents(): State
      reads this
    {
      State(args, ctes)
    }

    method CompileEvents(n: Node) returns (r: Result<Sql>)
      modifies this
      ensures Outcome(Contents(), r) == CompiledEvents(n, setting, old(Contents()))
    {
      if n.operator == "=" || n.operator == "!=" {
        var name := setting.library.trim(setting.library.sprint(n.value));
        if !ValidName(name) {
          assert !AllValid([name]) by { assert [name][0] == name; }
          return Err("event.has requires a valid event name");
        }
        args := args + [TextArg(name)];
        var exists_ := EventExists(|args|, false);
        r := Ok(if n.operator == "!=" then Not(exists_) else exists_);
      } else if n.operator == "in" || n.operator == "not in" {
        if !ListValue(n.value) {
          return Err("event.has " + n.operator + " requires 1 to 100 event names");
        }
        var values: seq<string> := [];
        for i := 0 to |n.value.items|
          invariant values == EventNames(setting.library, n)[..i] && AllValid(values)
          invariant Contents() == old(Contents())
        {
          var name := setting.library.trim(setting.library.sprint(n.value.items[i]));
          if !ValidName(name) {
            assert EventNames(setting.library, n)[i] == name;
            return Err("event.has requires valid event names");
          }
          values := values + [name];
        }
        assert values == EventNames(setting.library, n);
        args := args + [TextsArg(values)];
        var exists_ := EventExists(|args|, true);
        r := Ok(if n.operator == "not in" then Not(exists_) else exists_);
      } else {
        r := Err("event.has supports =, !=, in, and not in");
      }
    }

    method CompileAggregate(n: Node) returns (r: Result<Sql>)
      modifies this
      ensures Outcome(Contents(), r) == CompiledAggregate(n, setting, old(Contents()))
    {
      var relation := RelationOf(n.operator);
      if relation.None? {
        return Err(n.field + " requires a numeric comparison operator");
      }
      var value := NumericValue(setting.library, n.value);
      if value.None? {
        return Err(n.field + " requires a numeric value");
      }
      if setting.resolver.site.None? || setting.resolver.environment == "" {
        return Err(n.field + " cannot be evaluated without a site and environment");
      }
      args := args + [TextArg(setting.resolver.site.value), TextArg(setting.resolver.environment),
                      NumberArg(value.value)];
      var query := Membership(n.field, |args| - 2, |args| - 1, relation.value, |args|);
      if setting.prefix == "" {
        return Ok(MemberOf(query));
      }
      var name := setting.prefix + Itoa(|ctes| + 1);
      ctes := ctes + [Cte(name, query)];
      r := Ok(MemberOfCte(name));
    }

    method CompileDimension(n: Node, c: Column) returns (r: Result<Sql>)
      modifies this
      ensures Outcome(Contents(), r) == CompiledDimension(n, setting, c, old(Contents()))
    {
      match n.operator {
        case "exists" => r := Ok(And([IsNotNull(c), TextIs(c, false, Quoted(""))]));
        case "not exists" => r := Ok(Or([IsNull(c), TextIs(c, true, Quoted(""))]));
        case _ =>
          if n.operator == "in" || n.operator == "not in" {
            if !ListValue(n.value) {
              return Err(n.operator + " requires an array with 1 to 100 values");
            }
            var values: seq<string> := [];
            for i := 0 to |n.value.items|
              invariant values == Printed(setting.library, n.value.items)[..i]
              invariant Contents() == old(Contents())
            {
              values := values + [setting.library.sprint(n.value.items[i])];
            }
            assert values == Printed(setting.library, n.value.items);
            args := args + [TextsArg(values)];
            r := Ok(if n.operator == "in" then EqualsAny(c, |args|) else DiffersFromAll(c, |args|));
          } else if n.operator in {"=", "!=", "contains", "not contains", "startsWith", "endsWith"} {
            var value := setting.library.sprint(n.value);
            if n.operator != "=" && n.operator != "!=" {
              value := Like.LikeLiteral(value);
            }
            args := args + [TextArg(value)];
            r := Ok(TextPredicate(n.operator, c, |args|));
          } else if n.operator in {">", ">=", "<", "<="} {
            var value := NumericValue(setting.library, n.value);
            if value.None? {
              return Err(n.operator + " requires a numeric value");
            }
            args := args + [NumberArg(value.value)];
            r := Ok(NumberIs(c, RelationOf(n.operator).value, |args|));
          } else {
            r := Err("unsupported operator: " + n.operator);
          }
      }
    }

    method Compile(n: Node, depth: nat) returns (r: Result<Sql>)
      modifies this
      ensures Outcome(Contents(), r) == Compiled(n, setting, depth, old(Contents()))
      decreases n
    {
      hide CompiledEvents, CompiledAggregate, CompiledDimension, Expression, Combinator;
      if depth > 5 {
        return Err("segment nesting is limited to 5 levels");
      }
      if |n.rules| > 0 || n.combinator != "" {
        var combinator := Combinator(n);
        if combinator.None? {
          return Err("segment combinator must be and or or");
        }
        if |n.rules| == 0 {
          return Err("segment group must contain at least one rule");
        }
        if |n.rules| > 50 {
          return Err("segment group is limited to 50 rules");
        }
        var parts: seq<Sql> := [];
        ghost var was := Contents();
        for i := 0 to |n.rules|
          invariant Outcome(Contents(), Ok(parts)) == CompiledRules(n, i, setting, depth, was)
        {
          var part := Compile(n.rules[i], depth + 1);
          if part.Err? {
            FailureStops(n, i + 1, |n.rules|, setting, depth, was);
            return Err(part.error);
          }
          parts := parts + [part.value];
        }
        return Ok(if combinator.value then And(parts) else Or(parts));
      }
      if n.field == "event.has" {
        r := CompileEvents(n);
      } else if n.field in AGGREGATES {
        r := CompileAggregate(n);
      } else {
        var c := Expression(setting.resolver, n.field);
        if c.Err? {
          return Err(c.error);
        }
        r := CompileDimension(n, c.value);
      }
    }
  }

  /** After a rule fails nothing further is compiled. */
  lemma {:induction false} FailureStops(n: Node, i: nat, k: nat, s: Setting, depth: nat, st: State)
    requires i <= k <= |n.rules|
    requires CompiledRules(n, i, s, depth, st).result.Err?
    ensures CompiledRules(n, k, s, depth, st) == CompiledRules(n, i, s, depth, st)
  {
    if i < k {
      FailureStops(n, i, k - 1, s, depth, st);
    }
  }
}
