/**
 The predicates a segment compiles to, and what they mean: three-valued logic over
 one row, positional arguments, and named common table expressions.
 */
module Sql {
  import opened Wrappers
  import Like

  // ---- Three-valued logic -----------------------------------------------------------

  datatype Truth = True | False | Unknown

  function Bool(b: bool): Truth {
    if b then True else False
  }

  function Not3(a: Truth): Truth {
    match a case True => False case False => True case Unknown => Unknown
  }

  function And3(a: Truth, b: Truth): Truth {
    if a == False || b == False then False else if a == True && b == True then True else Unknown
  }

  function Or3(a: Truth, b: Truth): Truth {
    if a == True || b == True then True else if a == False && b == False then False else Unknown
  }

  // ---- Data ---------------------------------------------------------------------------

  /** A dimension of a row: a column of the event view, or one property of the event or of its user. */
  datatype Column = Builtin(name: string) | EventProperty(key: string) | UserProperty(key: string)

  /** The one dimension that is not a text: whether the event came from an internal network. */
  const INTERNAL := Builtin("traffic.internal")

  /**
   A row of the event view. The internal flag is a boolean, never NULL; every other dimension a
   text, None for NULL.
   */
  datatype Row = Row(site: string, environment: string, entity: string, name: string, internal: bool,
                     text: Column -> Option<string>)

  type Bigint = i: int | -0x8000_0000_0000_0000 <= i < 0x8000_0000_0000_0000

  /**
   The stored rows, the operators of the database the model does not look into, and what the
   driver binds where a bigint is expected and the number is none: another number, or nothing.
   */
  datatype World = World(
    rows: seq<Row>,
    measure: (string, seq<Row>) -> Option<real>,
    lower: char -> char,
    decimal: string -> Option<real>,
    bigint: real -> Option<Bigint>)

  /** The measures that count, and so are bigints. */
  const COUNTS: set<string> := {
    "entity.sessions", "entity.events", "entity.conversions", "entity.frustration_signals",
      "entity.frustration_sessions",
    "entity.searches", "entity.zero_result_searches", "entity.search_clicks"
  }

  predicate IsBigint(x: real) {
    x == x.Floor as real && -0x8000_0000_0000_0000 <= x.Floor < 0x8000_0000_0000_0000
  }

  /** The number a measure is really compared with; None is the driver refusing it. */
  function AsBound(w: World, measure: string, x: real): Option<real> {
    if measure in COUNTS && !IsBigint(x) then match w.bigint(x) case None => None case Some(i) => Some(i as real)
    else Some(x)
  }

  datatype Arg = TextArg(text: string) | TextsArg(texts: seq<string>) | NumberArg(number: real)

  datatype Relation = Eq | Ne | Lt | Le | Gt | Ge

  /**
   SELECT entity_id WHERE site = $site AND environment = $environment GROUP BY entity_id HAVING
   measure relation $value.
   */
  datatype Membership = Membership(measure: string, site: nat, environment: nat, relation: Relation, value: nat)

  datatype Cte = Cte(name: string, query: Membership)

  datatype Operand = Param(n: nat) | Quoted(text: string)

  datatype Sql =
    | And(parts: seq<Sql>)
    | Or(parts: seq<Sql>)
    | Not(inner: Sql)
    | IsNull(column: Column)
    | IsNotNull(column: Column)
    | TextIs(column: Column, equal: bool, operand: Operand)
    | EqualsAny(column: Column, param: nat)
    | DiffersFromAll(column: Column, param: nat)
    | AnyCaseLike(column: Column, percentBefore: bool, param: nat, percentAfter: bool, negated: bool)
    | NumberIs(column: Column, relation: Relation, param: nat)
    | MemberOf(query: Membership)
    | MemberOfCte(name: string)
    | EventExists(param: nat, many: bool)

  // ---- Evaluation -----------------------------------------------------------------------

  function Compare(r: Relation, a: real, b: real): bool {
    match r
    case Eq => a == b
    case Ne => a != b
    case Lt => a < b
    case Le => a <= b
    case Gt => a > b
    case Ge => a >= b
  }

  /** The argument $n, counted from one; None when nothing is bound there. */
  function Bound(args: seq<Arg>, n: nat): Option<Arg> {
    if 1 <= n <= |args| then Some(args[n - 1]) else None
  }

  function ToLower(s: string): (r: string)
    ensures |r| == |s|
  {
    if s == "" then "" else [if 'A' <= s[0] <= 'Z' then s[0] - 'A' + 'a' else s[0]] + ToLower(s[1..])
  }

  /** How much of a name the database keeps: 63 bytes. */
  const IDENTIFIER_BYTES := 63

  function Cut(name: string): string {
    if |name| <= IDENTIFIER_BYTES then name else name[..IDENTIFIER_BYTES]
  }

  /** What the database makes of a name written without quotes: lower case, and cut off. */
  function Identifier(name: string): string {
    Cut(ToLower(name))
  }

  function Lookup(ctes: seq<Cte>, name: string): Option<Membership> {
    if ctes == [] then None
    else if Identifier(ctes[0].name) == Identifier(name) then Some(ctes[0].query)
    else Lookup(ctes[1..], name)
  }

  predicate IsBlank(c: char) {
    c == ' ' || '\t' <= c <= '\r'
  }

  function Unpadded(s: string): string {
    if s != "" && IsBlank(s[0]) then Unpadded(s[1..])
    else if s != "" && IsBlank(s[|s| - 1]) then Unpadded(s[..|s| - 1])
    else s
  }

  /** A text read as a boolean; None is the database refusing it. */
  function Boolean(text: string): Option<bool> {
    var t := ToLower(Unpadded(text));
    if t in {"t", "tr", "tru", "true", "y", "ye", "yes", "on", "1"} then Some(true)
    else if t in {"f", "fa", "fal", "fals", "false", "n", "no", "of", "off", "0"} then Some(false)
    else None
  }

  function Booleans(texts: seq<string>): Option<seq<bool>> {
    if texts == [] then Some([])
    else
      match (Boolean(texts[0]), Booleans(texts[1..]))
      case (Some(b), Some(rest)) => Some([b] + rest)
      case _ => None
  }

  predicate Belongs(row: Row, site: string, environment: string, entity: string) {
    row.site == site && row.environment == environment && row.entity == entity
  }

  /** The stored rows of one entity at one site and environment. */
  function EntityRows(rows: seq<Row>, site: string, environment: string, entity: string): seq<Row> {
    if rows == [] then []
    else
      (if Belongs(rows[0], site, environment, entity) then [rows[0]] else [])
      + EntityRows(rows[1..], site, environment, entity)
  }

  /** coalesce(measure, 0) over one group. */
  function Measured(w: World, measure: string, group: seq<Row>): real {
    match w.measure(measure, group) case None => 0.0 case Some(x) => x
  }

  /** The entities the grouped subquery selects: one group per entity found, kept by the HAVING clause. */
  function Selected(w: World, measure: string, site: string, environment: string, r: Relation, value: real)
    : set<string>
  {
    var found := set i | 0 <= i < |w.rows| && w.rows[i].site == site
      && w.rows[i].environment == environment :: w.rows[i].entity;
    set entity | entity in found
      && Compare(r, Measured(w, measure, EntityRows(w.rows, site, environment, entity)), value)
  }

  function EvalMembership(m: Membership, args: seq<Arg>, w: World, row: Row): Option<Truth> {
    match (Bound(args, m.site), Bound(args, m.environment), Bound(args, m.value))
    case (Some(TextArg(site)), Some(TextArg(environment)), Some(NumberArg(value))) =>
      (match AsBound(w, m.measure, value)
       case None => None
       case Some(x) => Some(Bool(row.entity in Selected(w, m.measure, site, environment, m.relation, x))))
    case _ => None
  }

  /** Some stored row of the same site, environment and entity carries one of the names. */
  predicate HasEvent(w: World, row: Row, names: seq<string>) {
    exists i :: 0 <= i < |w.rows| && w.rows[i].site == row.site && w.rows[i].environment == row.environment
                && w.rows[i].entity == row.entity && w.rows[i].name in names
  }

  function EvalText(t: Option<string>, equal: bool, value: string): Truth {
    match t case None => Unknown case Some(x) => Bool((x == value) == equal)
  }

  function EvalLike(w: World, t: Option<string>, pattern: string, negated: bool): Truth {
    match t case None => Unknown case Some(x) => Bool(Like.MatchesAnyCase(w.lower, pattern, x) != negated)
  }

  function EvalNumber(w: World, t: Option<string>, r: Relation, value: real): Truth {
    match t
    case None => Unknown
    case Some(x) => match w.decimal(x) case None => Unknown case Some(n) => Bool(Compare(r, n, value))
  }

  function Percent(present: bool): string {
    if present then "%" else ""
  }

  /** Equality takes the type of its column: against the internal flag the text is read as a boolean. */
  function EvalSame(row: Row, c: Column, equal: bool, value: string): Option<Truth> {
    if c == INTERNAL then match Boolean(value) case None => None
      case Some(b) => Some(Bool((row.internal == b) == equal))
    else Some(EvalText(row.text(c), equal, value))
  }

  /** = ANY(texts), or <> ALL(texts). */
  function EvalAny(row: Row, c: Column, among: bool, texts: seq<string>): Option<Truth> {
    if c == INTERNAL then
      match Booleans(texts) case None => None case Some(bs) => Some(Bool((row.internal in bs) == among))
    else
      Some(match row.text(c) case None => Unknown case Some(x) => Bool((x in texts) == among))
  }

  /**
   The verdict on one row; None is an error: an argument out of range or of the wrong type, one
   the driver cannot convert, an unbound name, "()", or an operator the column's type does not have.
   */
  function Eval(q: Sql, args: seq<Arg>, ctes: seq<Cte>, w: World, row: Row): Option<Truth>
    decreases q, 0
  {
    match q
    case And(parts) => Fold(q, |parts|, args, ctes, w, row)
    case Or(parts) => Fold(q, |parts|, args, ctes, w, row)
    case Not(inner) => (match Eval(inner, args, ctes, w, row) case None => None case Some(t) => Some(Not3(t)))
    case IsNull(c) => Some(Bool(c != INTERNAL && row.text(c).None?))
    case IsNotNull(c) => Some(Bool(c == INTERNAL || row.text(c).Some?))
    case TextIs(c, equal, Quoted(text)) => EvalSame(row, c, equal, text)
    case TextIs(c, equal, Param(n)) =>
      (match Bound(args, n) case Some(TextArg(text)) => EvalSame(row, c, equal, text) case _ => None)
    case EqualsAny(c, n) =>
      (match Bound(args, n) case Some(TextsArg(texts)) => EvalAny(row, c, true, texts) case _ => None)
    case DiffersFromAll(c, n) =>
      (match Bound(args, n) case Some(TextsArg(texts)) => EvalAny(row, c, false, texts) case _ => None)
    case AnyCaseLike(c, before, n, after, negated) =>
      (match Bound(args, n)
       case Some(TextArg(text)) =>
         if c == INTERNAL then None
         else Some(EvalLike(w, row.text(c), Percent(before) + text + Percent(after), negated))
       case _ => None)
    case NumberIs(c, r, n) =>
      (match Bound(args, n)
       case Some(NumberArg(value)) => if c == INTERNAL then None else Some(EvalNumber(w, row.text(c), r, value))
       case _ => None)
    case MemberOf(m) => EvalMembership(m, args, w, row)
    case MemberOfCte(name) =>
      (match Lookup(ctes, name) case None => None case Some(m) => EvalMembership(m, args, w, row))
    case EventExists(n, many) =>
      (match Bound(args, n)
       case Some(TextArg(text)) => if many then None else Some(Bool(HasEvent(w, row, [text])))
       case Some(TextsArg(texts)) => if many then Some(Bool(HasEvent(w, row, texts))) else None
       case _ => None)
  }

  /** The first k parts joined by AND or OR, from the left. */
  function Fold(q: Sql, k: nat, args: seq<Arg>, ctes: seq<Cte>, w: World, row: Row): Option<Truth>
    requires q.And? || q.Or?
    requires k <= |q.parts|
    decreases q, 0, k
  {
    if k == 0 then None
    else
      var last := Eval(q.parts[k - 1], args, ctes, w, row);
      if k == 1 then last
      else
        match (Fold(q, k - 1, args, ctes, w, row), last)
        case (Some(a), Some(b)) => Some(if q.And? then And3(a, b) else Or3(a, b))
        case _ => None
  }

  // ---- What a joined list means -----------------------------------------------------------

  /** AND over a list: false beats unknown, unknown beats true. */
  function Every(ts: seq<Truth>): Truth {
    if False in ts then False else if Unknown in ts then Unknown else True
  }

  /** OR over a list: true beats unknown, unknown beats false. */
  function Some3(ts: seq<Truth>): Truth {
    if True in ts then True else if Unknown in ts then Unknown else False
  }

  lemma EveryAppend(ts: seq<Truth>, t: Truth)
    ensures Every(ts + [t]) == And3(Every(ts), t) && Some3(ts + [t]) == Or3(Some3(ts), t)
  {
    forall x
      ensures x in ts + [t] <==> x in ts || x == t
    {
    }
  }

  lemma {:induction false} FoldIsEvery(q: Sql, k: nat, args: seq<Arg>, ctes: seq<Cte>, w: World, row: Row,
                                       ts: seq<Truth>)
    requires q.And? || q.Or?
    requires 1 <= k <= |q.parts| && |ts| == k
    requires forall i :: 0 <= i < k ==> Eval(q.parts[i], args, ctes, w, row) == Some(ts[i])
    ensures Fold(q, k, args, ctes, w, row) == Some(if q.And? then Every(ts) else Some3(ts))
  {
    hide Eval;
    assert ts == ts[..k - 1] + [ts[k - 1]];
    if k == 1 {
      EveryAppend([], ts[0]);
    } else {
      EveryAppend(ts[..k - 1], ts[k - 1]);
      FoldIsEvery(q, k - 1, args, ctes, w, row, ts[..k - 1]);
    }
  }

  /** One part that cannot be evaluated spoils the whole list. */
  lemma {:induction false} FoldRefused(q: Sql, k: nat, args: seq<Arg>, ctes: seq<Cte>, w: World, row: Row, i: nat)
    requires q.And? || q.Or?
    requires i < k <= |q.parts| && Eval(q.parts[i], args, ctes, w, row).None?
    ensures Fold(q, k, args, ctes, w, row).None?
  {
    hide Eval;
    if i < k - 1 {
      FoldRefused(q, k - 1, args, ctes, w, row, i);
    }
  }

  /** A stored group is found exactly when the entity has a row there. */
  lemma {:induction false} EntityRowsFound(rows: seq<Row>, site: string, environment: string, entity: string)
    ensures EntityRows(rows, site, environment, entity) != []
            <==> exists i :: 0 <= i < |rows| && Belongs(rows[i], site, environment, entity)
  {
    if rows != [] {
      EntityRowsFound(rows[1..], site, environment, entity);
      if i :| 0 <= i < |rows| && Belongs(rows[i], site, environment, entity) {
        if i > 0 {
          assert rows[1..][i - 1] == rows[i];
        }
      }
    }
  }

  /** The semi-join against the grouped subquery is the aggregate of the row's own entity. */
  lemma SelectedIsOwnAggregate(w: World, measure: string, site: string, environment: string, r: Relation, value: real,
                               entity: string)
    ensures entity in Selected(w, measure, site, environment, r, value)
            <==> var group := EntityRows(w.rows, site, environment, entity);
                 group != [] && Compare(r, Measured(w, measure, group), value)
  {
    EntityRowsFound(w.rows, site, environment, entity);
  }
}
