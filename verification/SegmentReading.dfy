/**
 What a segment means, read off its tree and the stored rows alone. Nothing here is shared with
 the compiler but the shape of a definition and the names of the fields.
 */
module SegmentReading {
  import opened Wrappers
  import opened Sql
  import opened Segment
  import Like

  // ---- What is acceptable ------------------------------------------------------------------

  /** A node with rules or with a word for joining them. */
  predicate Joins(n: Node) {
    !(n.rules == [] && n.combinator == "")
  }

  predicate Letter(c: char) {
    c == '_' || ('a' <= c && c <= 'z') || ('A' <= c && c <= 'Z')
  }

  /** A letter or underscore, then up to 127 letters, digits, underscores, dots and dashes. */
  predicate Named(s: string) {
    && s != "" && |s| < 129 && Letter(s[0])
    && forall i :: 0 <= i < |s| ==> Letter(s[i]) || s[i] in "0123456789.-"
  }

  /** The name an event.has rule asks for: a printed value without the white space around it. */
  function Asked(s: Setting, v: Value): string {
    s.library.trim(s.library.sprint(v))
  }

  function NumberIn(s: Setting, v: Value): Option<real> {
    if v.Number? then Some(v.number) else s.library.parse(s.library.sprint(v))
  }

  /** 1 to 100 values. */
  predicate Listed(v: Value) {
    v.Array? && v.items != [] && |v.items| < 101
  }

  predicate ManyWanted(n: Node) {
    n.operator == "in" || n.operator == "not in"
  }

  predicate Ordering(op: string) {
    op == ">" || op == ">=" || op == "<" || op == "<="
  }

  /** Built in, or a custom property of the event, its session or its user. */
  predicate KnownDimension(s: Setting, field: string) {
    field in BUILTIN
    || (field in s.resolver.custom && Named(s.resolver.custom[field].propertyKey)
        && s.resolver.custom[field].scope in {"user", "event", "session"})
  }

  /** What makes a rule acceptable. */
  predicate ValidRule(n: Node, s: Setting) {
    if n.field == "event.has" then
      if ManyWanted(n) then
        Listed(n.value) && forall i :: 0 <= i < |n.value.items| ==> Named(Asked(s, n.value.items[i]))
      else (n.operator == "=" || n.operator == "!=") && Named(Asked(s, n.value))
    else if n.field in AGGREGATES then
      && (n.operator == "=" || n.operator == "!=" || Ordering(n.operator))
      && NumberIn(s, n.value).Some? && s.resolver.site.Some? && s.resolver.environment != ""
    else
      && KnownDimension(s, n.field)
      && if ManyWanted(n) then Listed(n.value)
         else if Ordering(n.operator) then NumberIn(s, n.value).Some?
         else n.operator in {"exists", "not exists", "=", "!=", "contains", "not contains", "startsWith", "endsWith"}
  }

  predicate Valid(n: Node, s: Setting, depth: nat) {
    && depth < 6
    && if Joins(n) then
         && (ToLower(n.combinator) == "and" || ToLower(n.combinator) == "or")
         && n.rules != [] && |n.rules| < 51
         && forall i :: 0 <= i < |n.rules| ==> Valid(n.rules[i], s, depth + 1)
       else ValidRule(n, s)
  }

  // ---- What a rule says about a row ------------------------------------------------------------

  /** The comparison an operator names. */
  predicate Related(op: string, x: real, y: real) {
    || (op == "=" && x == y) || (op == "!=" && (x < y || y < x))
    || (op == "<" && x < y) || (op == "<=" && !(y < x))
    || (op == ">" && y < x) || (op == ">=" && !(x < y))
  }

  /** The relation of a value to the text of a dimension, letter case aside where the source ignores it. */
  ghost predicate TextRelation(op: string, lower: char -> char, text: string, value: string) {
    var t, v := Like.Lower(lower, text), Like.Lower(lower, value);
    match op
    case "=" => text == value
    case "!=" => text != value
    case "contains" => Like.Contains(t, v)
    case "not contains" => !Like.Contains(t, v)
    case "startsWith" => Like.HasPrefix(t, v)
    case _ => Like.HasSuffix(t, v)
  }

  /** One of the rule's values prints as the text. */
  predicate Among(n: Node, s: Setting, text: string) {
    n.value.Array? && exists i :: 0 <= i < |n.value.items| && s.library.sprint(n.value.items[i]) == text
  }

  ghost function DimensionMeaning(n: Node, s: Setting, w: World, t: Option<string>): Truth {
    if n.operator == "exists" then (if t == None || t == Some("") then False else True)
    else if n.operator == "not exists" then (if t == None || t == Some("") then True else False)
    else if t.None? then Unknown
    else if n.operator == "in" then (if Among(n, s, t.value) then True else False)
    else if n.operator == "not in" then (if Among(n, s, t.value) then False else True)
    else if Ordering(n.operator) then
      var x, y := w.decimal(t.value), NumberIn(s, n.value);
      if x.None? || y.None? then Unknown else if Related(n.operator, x.value, y.value) then True else False
    else if TextRelation(n.operator, w.lower, t.value, s.library.sprint(n.value)) then True
    else False
  }

  /** The text of a dimension on a row; a property of the session is read like one of the event. */
  function TextOf(s: Setting, row: Row, field: string): Option<string> {
    if field in BUILTIN then row.text(Builtin(field))
    else if field !in s.resolver.custom then None
    else if s.resolver.custom[field].scope == "user" then row.text(UserProperty(s.resolver.custom[field].propertyKey))
    else row.text(EventProperty(s.resolver.custom[field].propertyKey))
  }

  /** The values of the rule read as booleans, where they can be. */
  predicate FlagValues(n: Node, s: Setting) {
    n.value.Array? && forall i :: 0 <= i < |n.value.items| ==> Boolean(s.library.sprint(n.value.items[i])).Some?
  }

  /** The internal flag against the rule's value, or against its values. */
  ghost function InternalMeaning(n: Node, s: Setting, internal: bool): Truth {
    if ManyWanted(n) then
      if !FlagValues(n, s) then Unknown
      else
        var among := exists i :: 0 <= i < |n.value.items|
                                 && Boolean(s.library.sprint(n.value.items[i])) == Some(internal);
        if among == (n.operator == "in") then True else False
    else
      var b := Boolean(s.library.sprint(n.value));
      if b.None? then Unknown else if (b.value == internal) == (n.operator == "=") then True else False
  }

  /** A rule on the internal flag has no text operator, and what it compares the flag with reads as a boolean. */
  predicate FlagReadable(n: Node, s: Setting) {
    n.field == "traffic.internal" ==>
      if ManyWanted(n) then FlagValues(n, s)
      else (n.operator == "=" || n.operator == "!=") && Boolean(s.library.sprint(n.value)).Some?
  }

  /** A whole number of 64 bits. */
  predicate Whole(x: real) {
    x.Floor as real == x && -9223372036854775808 <= x.Floor <= 9223372036854775807
  }

  /** The number a measure is compared with: a count takes whole numbers, and what the driver makes of others. */
  function BoundNumber(w: World, field: string, x: real): Option<real> {
    if field !in COUNTS || Whole(x) then Some(x)
    else if w.bigint(x).None? then None
    else Some(w.bigint(x).value as real)
  }

  /** The stored rows of one person, in order. */
  function PersonRows(rows: seq<Row>, site: string, environment: string, entity: string): seq<Row> {
    if rows == [] then []
    else
      var rest := PersonRows(rows[1..], site, environment, entity);
      if rows[0].entity == entity && rows[0].site == site && rows[0].environment == environment then [rows[0]] + rest
      else rest
  }

  /** The person's own measure, over the whole history of the resolver's site and environment, against a number. */
  ghost function AggregateMeaning(n: Node, s: Setting, w: World, row: Row, x: real): Truth {
    if s.resolver.site.None? then Unknown
    else
      var history := PersonRows(w.rows, s.resolver.site.value, s.resolver.environment, row.entity);
      var measured := w.measure(n.field, history);
      if history != [] && Related(n.operator, if measured.None? then 0.0 else measured.value, x) then True else False
  }

  /** The person did, at the row's own site and environment, one of the things the rule names. */
  predicate Did(n: Node, s: Setting, w: World, row: Row) {
    exists i :: 0 <= i < |w.rows| && w.rows[i].entity == row.entity && w.rows[i].site == row.site
                && w.rows[i].environment == row.environment && NamedBy(n, s, w.rows[i].name)
  }

  predicate NamedBy(n: Node, s: Setting, name: string) {
    if ManyWanted(n) then
      n.value.Array? && exists j :: 0 <= j < |n.value.items| && Asked(s, n.value.items[j]) == name
    else Asked(s, n.value) == name
  }

  ghost function RuleMeaning(n: Node, s: Setting, w: World, row: Row): Truth {
    if n.field == "event.has" then
      if Did(n, s, w, row) == (n.operator == "=" || n.operator == "in") then True else False
    else if n.field in AGGREGATES then
      if NumberIn(s, n.value).None? then Unknown
      else
        var x := BoundNumber(w, n.field, NumberIn(s, n.value).value);
        if x.None? then Unknown else AggregateMeaning(n, s, w, row, x.value)
    else if n.field == "traffic.internal" then InternalMeaning(n, s, row.internal)
    else DimensionMeaning(n, s, w, TextOf(s, row, n.field))
  }

  /** The database can answer the rule: the flag is readable, and a number compared with a count can be bound. */
  predicate AnswerableRule(n: Node, s: Setting, w: World) {
    && FlagReadable(n, s)
    && (n.field in AGGREGATES && NumberIn(s, n.value).Some? ==>
          BoundNumber(w, n.field, NumberIn(s, n.value).value).Some?)
  }

  // ---- What a segment says about a row ---------------------------------------------------------

  predicate Answerable(n: Node, s: Setting, w: World) {
    if Joins(n) then forall i :: 0 <= i < |n.rules| ==> Answerable(n.rules[i], s, w) else AnswerableRule(n, s, w)
  }

  /** No rule compares a count with a number that is no bigint. */
  predicate CountsAreWhole(n: Node, s: Setting) {
    if Joins(n) then forall i :: 0 <= i < |n.rules| ==> CountsAreWhole(n.rules[i], s)
    else n.field in COUNTS && NumberIn(s, n.value).Some? ==> Whole(NumberIn(s, n.value).value)
  }

  /** Every rule on the internal flag is readable. */
  predicate FlagsReadable(n: Node, s: Setting) {
    if Joins(n) then forall i :: 0 <= i < |n.rules| ==> FlagsReadable(n.rules[i], s) else FlagReadable(n, s)
  }

  /**
   A group joined by "and", in any letter case, holds when every rule does, one joined by "or"
   when some rule does.
   */
  ghost function Meaning(n: Node, s: Setting, w: World, row: Row): Truth
    decreases n, 1
  {
    if !Joins(n) then RuleMeaning(n, s, w, row)
    else if ToLower(n.combinator) == "and" then Every(Verdicts(n, s, w, row))
    else if ToLower(n.combinator) == "or" then Some3(Verdicts(n, s, w, row))
    else Unknown
  }

  ghost function Verdicts(n: Node, s: Setting, w: World, row: Row): (ts: seq<Truth>)
    ensures |ts| == |n.rules|
    ensures forall i :: 0 <= i < |n.rules| ==> ts[i] == Meaning(n.rules[i], s, w, row)
    decreases n, 0
  {
    seq(|n.rules|, i requires 0 <= i < |n.rules| => Meaning(n.rules[i], s, w, row))
  }
}
