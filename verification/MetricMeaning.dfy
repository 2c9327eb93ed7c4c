/**
 What a metric's number is, read off the events themselves: which events a leaf counts, what
 each kind of leaf computes from them, and what filters, ratios and references mean above it.
 */
module MetricMeaning {
  import opened Wrappers
  import opened Metrics
  import opened MetricValues

  // ---- What is a metric --------------------------------------------------------------------

  predicate Alphabetic(c: char) {
    c == '_' || ('a' <= c && c <= 'z') || ('A' <= c && c <= 'Z')
  }

  /** A letter or underscore, then up to 127 letters, digits, underscores, dots and dashes. */
  predicate KeyShaped(s: string) {
    && s != "" && |s| < 129 && Alphabetic(s[0])
    && forall i :: 0 <= i < |s| ==> Alphabetic(s[i]) || s[i] in "0123456789.-"
  }

  /** A small letter, then up to 63 small letters, digits and underscores. */
  predicate NameShaped(s: string) {
    && s != "" && |s| < 65 && 'a' <= s[0] && s[0] <= 'z'
    && forall i :: 0 <= i < |s| ==> ('a' <= s[i] && s[i] <= 'z') || s[i] in "0123456789_"
  }

  predicate FilterShaped(f: Filter) {
    && KeyShaped(f.property)
    && (f.scope == "" || f.scope == "event" || f.scope == "user" || f.scope == "session")
    && (f.operator == "eq" || f.operator == "neq" || f.operator == "exists" || f.operator == "not_exists"
        || (f.operator == "in" && f.value.items.Some? && 0 < |f.value.items.value| < 101))
  }

  predicate FieldsShaped(d: Definition) {
    && (d.eventName != "" ==> KeyShaped(d.eventName) && |d.eventName| < 65)
    && (d.property != "" ==> KeyShaped(d.property)) && (d.fallback != "" ==> KeyShaped(d.fallback))
    && (d.trafficClass == "" || d.trafficClass == "normal" || d.trafficClass == "internal_traffic"
        || d.trafficClass == "known_bot" || d.trafficClass == "monitoring" || d.trafficClass == "suspicious")
    && 0 <= d.minOccurrences && d.minOccurrences < 1_000_001
    && forall i :: 0 <= i < |d.filters| ==> FilterShaped(d.filters[i])
  }

  /**
   A definition found at a depth: well-shaped fields, one of the seven kinds, and ratios no
   deeper than five levels.
   */
  predicate WellFormed(d: Definition, depth: nat)
    decreases d
  {
    && depth < 6 && FieldsShaped(d)
    && (d.kind == "count" || d.kind == "unique_users" || d.kind == "unique_sessions"
        || ((d.kind == "sum" || d.kind == "average") && d.property != "")
        || (d.kind == "metric_ref" && NameShaped(d.metric))
        || (d.kind == "ratio" && d.numerator.Some? && d.denominator.Some?
            && WellFormed(d.numerator.value, depth + 1) && WellFormed(d.denominator.value, depth + 1)))
  }

  lemma SameShape(s: string)
    ensures (ValidKey(s) <==> KeyShaped(s)) && (ValidMetricName(s) <==> NameShaped(s))
  {
  }

  lemma SameFilter(f: Filter)
    ensures ValidFilter(f) <==> FilterShaped(f)
  {
    hide ValidKey, KeyShaped;
    SameShape(f.property);
  }

  lemma SameFields(d: Definition)
    ensures ValidFields(d) <==> FieldsShaped(d)
  {
    hide ValidKey, KeyShaped, ValidFilter, FilterShaped;
    SameShape(d.eventName);
    SameShape(d.property);
    SameShape(d.fallback);
    forall i | 0 <= i < |d.filters|
      ensures ValidFilter(d.filters[i]) <==> FilterShaped(d.filters[i])
    {
      SameFilter(d.filters[i]);
    }
  }

  /** The validation accepts exactly the well-formed definitions. */
  lemma {:induction false} ValidExactly(d: Definition, depth: nat)
    ensures ValidDefinition(d, depth) <==> WellFormed(d, depth)
    decreases d
  {
    hide ValidFields, FieldsShaped, ValidMetricName, NameShaped;
    SameFields(d);
    SameShape(d.metric);
    if d.kind == "ratio" && d.numerator.Some? && d.denominator.Some? {
      ValidExactly(d.numerator.value, depth + 1);
      ValidExactly(d.denominator.value, depth + 1);
    }
  }

  /**
   A save is accepted exactly when the name and the definition are well-formed and no reference fails:
   none is unknown or inactive, none leads back, and none nests too deep.
   */
  lemma AcceptedExactly(reg: Registry, q: Request)
    ensures Accepted(reg, q) <==>
            && NameShaped(q.name) && WellFormed(q.definition, 1)
            && ValidRefs(reg, q.name, q.definition, {q.name}, 1)
  {
    hide ValidDefinition, ValidRefs, WellFormed, NameShaped, ValidMetricName;
    SameShape(q.name);
    ValidExactly(q.definition, 1);
  }

  // ---- The direct reading --------------------------------------------------------------------

  /**
   Whether a filter chooses an event. Its scope names the object it looks into; where that object
   is missing nothing is chosen, and a text comparison needs a text that is there and not null.
   */
  predicate Chosen(f: Filter, e: Event) {
    var where := if f.scope == "user" then e.userProperties
                 else if f.scope == "session" then e.sessionProperties
                 else Some(e.properties);
    var has := where.Some? && f.property in where.value;
    var text := if has then where.value[f.property] else None;
    if f.operator == "exists" then has
    else if f.operator == "not_exists" then where.Some? && f.property !in where.value
    else if f.operator == "eq" then text == Some(f.value.text)
    else if f.operator == "neq" then text.Some? && text != Some(f.value.text)
    else f.operator == "in" ==> text.Some? && f.value.items.Some? && text.value in f.value.items.value
  }

  function Kept(events: seq<Event>, fs: seq<Filter>): seq<Event> {
    if events == [] then []
    else if forall i :: 0 <= i < |fs| ==> Chosen(fs[i], events[0]) then [events[0]] + Kept(events[1..], fs)
    else Kept(events[1..], fs)
  }

  /** Whether a leaf counts an event. */
  predicate Counted(d: Definition, e: Event) {
    && (d.eventName != "" ==> e.name == d.eventName)
    && (d.conversion == Some(true) ==> e.conversion)
    && (d.conversion == Some(false) ==> !e.conversion)
    && (d.trafficClass != "" ==> e.clientClass == d.trafficClass)
    && forall i :: 0 <= i < |d.filters| ==> Chosen(d.filters[i], e)
  }

  /** The number an event contributes: from the property or, where that is missing or null, from the fallback. */
  function Reading(d: Definition, e: Event, decimal: string -> Option<real>): Option<real> {
    if d.property in e.properties && e.properties[d.property].Some? then decimal(e.properties[d.property].value)
    else if d.fallback != "" && d.fallback in e.properties && e.properties[d.fallback].Some? then
      decimal(e.properties[d.fallback].value)
    else None
  }

  /** The positions of the counted events, and of those with a number. */
  ghost function CountedAt(d: Definition, events: seq<Event>): set<nat> {
    set i: nat | i < |events| && Counted(d, events[i])
  }

  ghost function ReadAt(d: Definition, events: seq<Event>, decimal: string -> Option<real>): (r: set<nat>)
    ensures forall i :: i in r ==> i < |events| && Reading(d, events[i], decimal).Some?
  {
    set i: nat | i < |events| && Counted(d, events[i]) && Reading(d, events[i], decimal).Some?
  }

  function Summed(d: Definition, events: seq<Event>, decimal: string -> Option<real>): real {
    if events == [] then 0.0
    else
      var reading := Reading(d, events[0], decimal);
      (if Counted(d, events[0]) && reading.Some? then reading.value else 0.0) + Summed(d, events[1..], decimal)
  }

  /** The positions of the counted events of one user, or of one session. */
  ghost function OfUser(d: Definition, events: seq<Event>, user: string): set<nat> {
    set i: nat | i < |events| && Counted(d, events[i]) && events[i].entity == user
  }

  ghost function OfSession(d: Definition, events: seq<Event>, session: string): set<nat> {
    set i: nat | i < |events| && Counted(d, events[i]) && events[i].session == session
  }

  /** The users, or sessions, with a counted event and with as many as the definition asks for. */
  ghost function UsersOften(d: Definition, events: seq<Event>): set<string> {
    set i: nat | i < |events| && Counted(d, events[i]) && |OfUser(d, events, events[i].entity)| >= d.minOccurrences
      :: events[i].entity
  }

  ghost function SessionsOften(d: Definition, events: seq<Event>): set<string> {
    set i: nat | i < |events| && Counted(d, events[i])
                 && |OfSession(d, events, events[i].session)| >= d.minOccurrences :: events[i].session
  }

  ghost function Leaf(d: Definition, events: seq<Event>, decimal: string -> Option<real>): real {
    if d.kind == "count" then |CountedAt(d, events)| as real
    else if d.kind == "sum" then Summed(d, events, decimal)
    else if d.kind == "average" then
      var n := |ReadAt(d, events, decimal)|;
      if n == 0 then 0.0 else Summed(d, events, decimal) / n as real
    else if d.kind == "unique_users" then |UsersOften(d, events)| as real
    else |SessionsOften(d, events)| as real
  }

  /** n as a percentage of m. */
  function Share(n: real, m: real): real {
    if m == 0.0 then 0.0 else 100.0 * n / m
  }

  /** The direct reading: a definition's filters restrict the events everything below it sees. */
  ghost function Meaning(reg: Registry, d: Definition, events: seq<Event>, decimal: string -> Option<real>, depth: nat)
    : Option<real>
    decreases Rest(depth)
  {
    if !WellFormed(d, depth) then None
    else if d.kind == "ratio" then
      var seen := Kept(events, d.filters);
      var n := Meaning(reg, d.numerator.value, seen, decimal, depth + 1);
      var m := Meaning(reg, d.denominator.value, seen, decimal, depth + 1);
      if n.None? || m.None? then None else Some(Share(n.value, m.value))
    else if d.kind == "metric_ref" then
      if d.metric in reg && reg[d.metric].active then
        Meaning(reg, reg[d.metric].definition, Kept(events, d.filters), decimal, depth + 1)
      else None
    else Some(Leaf(d, events, decimal))
  }

  // ---- Filters and conditions ------------------------------------------------------------------

  lemma ChosenPasses(f: Filter, e: Event)
    ensures Chosen(f, e) <==> Passes(f, e)
  {
  }

  lemma {:induction false} KeptIsRestrict(events: seq<Event>, fs: seq<Filter>)
    ensures Kept(events, fs) == Restrict(events, fs)
  {
    hide Chosen, Passes;
    if events != [] {
      KeptIsRestrict(events[1..], fs);
      forall i | 0 <= i < |fs|
        ensures Chosen(fs[i], events[0]) <==> Passes(fs[i], events[0])
      {
        ChosenPasses(fs[i], events[0]);
      }
    }
  }

  lemma CountedMatches(d: Definition, e: Event)
    ensures Counted(d, e) <==> Fits(d, e) && PassesAll(d.filters, e)
  {
    hide Chosen, Passes;
    forall i | 0 <= i < |d.filters|
      ensures Chosen(d.filters[i], e) <==> Passes(d.filters[i], e)
    {
      ChosenPasses(d.filters[i], e);
    }
  }

  lemma ReadingIsNumber(d: Definition, e: Event, decimal: string -> Option<real>)
    ensures Reading(d, e, decimal) == NumberOf(d, e, decimal)
  {
  }

  // ---- Counting -----------------------------------------------------------------------------------

  /** Positions of the rest, moved up by one. */
  lemma Shifted(a: set<nat>, b: set<nat>, first: bool)
    requires forall i: nat :: i + 1 in a <==> i in b
    requires 0 in a <==> first
    ensures |a| == (if first then 1 else 0) + |b|
  {
    ShiftedOnly(a - {0}, b);
    assert first ==> a == (a - {0}) + {0};
    assert !first ==> a == a - {0};
  }

  lemma {:induction false} ShiftedOnly(a: set<nat>, b: set<nat>)
    requires forall i: nat :: i + 1 in a <==> i in b
    requires 0 !in a
    ensures |a| == |b|
  {
    assert forall i: nat :: i in a ==> i > 0 && i - 1 in b;
    if b != {} {
      var i: nat :| i in b;
      assert i + 1 in a;
      ShiftedOnly(a - {i + 1}, b - {i});
    }
  }

  lemma MatchingFirst(d: Definition, events: seq<Event>)
    requires events != []
    ensures var rest := Matching(d, events[1..]);
            if Counted(d, events[0]) then
              Matching(d, events) == [events[0]] + rest && Matching(d, events)[0] == events[0]
              && Matching(d, events)[1..] == rest
            else Matching(d, events) == rest
  {
    hide Counted, Fits, PassesAll;
    CountedMatches(d, events[0]);
  }

  lemma {:induction false} CountIsMatching(d: Definition, events: seq<Event>)
    ensures |CountedAt(d, events)| == |Matching(d, events)|
  {
    hide Counted, Fits, PassesAll;
    if events == [] {
      assert CountedAt(d, events) == {};
    } else {
      CountIsMatching(d, events[1..]);
      CountedMatches(d, events[0]);
      Shifted(CountedAt(d, events), CountedAt(d, events[1..]), Counted(d, events[0]));
    }
  }

  lemma {:induction false} ReadIsNumbers(d: Definition, events: seq<Event>, decimal: string -> Option<real>)
    ensures |ReadAt(d, events, decimal)| == Numbers(d, Matching(d, events), decimal)
    ensures Summed(d, events, decimal) == Sum(d, Matching(d, events), decimal)
  {
    hide Counted, Fits, PassesAll, Reading, NumberOf;
    if events == [] {
      assert ReadAt(d, events, decimal) == {};
    } else {
      ReadIsNumbers(d, events[1..], decimal);
      CountedMatches(d, events[0]);
      ReadingIsNumber(d, events[0], decimal);
      MatchingFirst(d, events);
      Shifted(ReadAt(d, events, decimal), ReadAt(d, events[1..], decimal),
              Counted(d, events[0]) && Reading(d, events[0], decimal).Some?);
    }
  }

  lemma {:induction false} MatchingHas(d: Definition, events: seq<Event>, e: Event)
    ensures e in Matching(d, events) <==> e in events && Counted(d, e)
  {
    hide Counted, Fits, PassesAll;
    if events != [] {
      MatchingHas(d, events[1..], e);
      CountedMatches(d, events[0]);
    }
  }

  lemma {:induction false} UserSize(d: Definition, events: seq<Event>, user: string)
    requires d.kind != "unique_sessions"
    ensures |OfUser(d, events, user)| == GroupSize(d, Matching(d, events), user)
  {
    hide Counted, Fits, PassesAll;
    if events == [] {
      assert OfUser(d, events, user) == {};
    } else {
      UserSize(d, events[1..], user);
      CountedMatches(d, events[0]);
      MatchingFirst(d, events);
      Shifted(OfUser(d, events, user), OfUser(d, events[1..], user),
              Counted(d, events[0]) && events[0].entity == user);
    }
  }

  lemma {:induction false} SessionSize(d: Definition, events: seq<Event>, session: string)
    requires d.kind == "unique_sessions"
    ensures |OfSession(d, events, session)| == GroupSize(d, Matching(d, events), session)
  {
    hide Counted, Fits, PassesAll;
    if events == [] {
      assert OfSession(d, events, session) == {};
    } else {
      SessionSize(d, events[1..], session);
      CountedMatches(d, events[0]);
      MatchingFirst(d, events);
      Shifted(OfSession(d, events, session), OfSession(d, events[1..], session),
              Counted(d, events[0]) && events[0].session == session);
    }
  }

  /** An event's own position makes its group at least one strong. */
  lemma AtLeastOne(positions: set<nat>, i: nat)
    requires i in positions
    ensures |positions| >= 1
  {
  }

  lemma GroupsOfUsers(d: Definition, events: seq<Event>)
    requires d.kind != "unique_sessions"
    ensures UsersOften(d, events) == Often(d, Matching(d, events))
  {
    hide Counted, Matching, GroupSize, OfUser;
    var m := Matching(d, events);
    forall i: nat | i < |events| && Counted(d, events[i])
      ensures events[i].entity in Groups(d, m)
      ensures |OfUser(d, events, events[i].entity)| == GroupSize(d, m, events[i].entity) >= 1
    {
      MatchingHas(d, events, events[i]);
      assert GroupOf(d, events[i]) == events[i].entity;
      UserSize(d, events, events[i].entity);
      MemberOfUser(d, events, i);
    }
    forall g | g in Groups(d, m)
      ensures exists i: nat :: i < |events| && Counted(d, events[i]) && events[i].entity == g
    {
      var e :| e in m && GroupOf(d, e) == g;
      MatchingHas(d, events, e);
      var i: nat :| i < |events| && events[i] == e;
    }
  }

  lemma MemberOfUser(d: Definition, events: seq<Event>, i: nat)
    requires i < |events| && Counted(d, events[i])
    ensures |OfUser(d, events, events[i].entity)| >= 1
  {
    AtLeastOne(OfUser(d, events, events[i].entity), i);
  }

  lemma GroupsOfSessions(d: Definition, events: seq<Event>)
    requires d.kind == "unique_sessions"
    ensures SessionsOften(d, events) == Often(d, Matching(d, events))
  {
    hide Counted, Matching, GroupSize, OfSession;
    var m := Matching(d, events);
    forall i: nat | i < |events| && Counted(d, events[i])
      ensures events[i].session in Groups(d, m)
      ensures |OfSession(d, events, events[i].session)| == GroupSize(d, m, events[i].session) >= 1
    {
      MatchingHas(d, events, events[i]);
      assert GroupOf(d, events[i]) == events[i].session;
      SessionSize(d, events, events[i].session);
      MemberOfSession(d, events, i);
    }
    forall g | g in Groups(d, m)
      ensures exists i: nat :: i < |events| && Counted(d, events[i]) && events[i].session == g
    {
      var e :| e in m && GroupOf(d, e) == g;
      MatchingHas(d, events, e);
      var i: nat :| i < |events| && events[i] == e;
    }
  }

  lemma MemberOfSession(d: Definition, events: seq<Event>, i: nat)
    requires i < |events| && Counted(d, events[i])
    ensures |OfSession(d, events, events[i].session)| >= 1
  {
    AtLeastOne(OfSession(d, events, events[i].session), i);
  }

  lemma AggregateIsLeaf(d: Definition, events: seq<Event>, decimal: string -> Option<real>)
    requires d.kind in {"count", "sum", "average", "unique_users", "unique_sessions"}
    ensures Aggregate(d, Matching(d, events), decimal) == Leaf(d, events, decimal)
  {
    hide Counted, Matching, CountedAt, ReadAt, UsersOften, SessionsOften, Often, Sum, Summed, Numbers;
    CountIsMatching(d, events);
    ReadIsNumbers(d, events, decimal);
    if d.kind == "unique_users" {
      GroupsOfUsers(d, events);
    } else if d.kind == "unique_sessions" {
      GroupsOfSessions(d, events);
    }
  }

  lemma ShareIsDivided(n: real, m: real)
    ensures Share(n, m) == Divided(n, m)
  {
  }

  /** Pushing the filters down to the leaves preserves the direct reading of a definition, refusals included. */
  lemma {:induction false} EvaluateIsMeaning(reg: Registry, d: Definition, events: seq<Event>,
                                             decimal: string -> Option<real>, depth: nat)
    ensures Evaluate(reg, d, events, decimal, depth) == Meaning(reg, d, events, decimal, depth)
    decreases Rest(depth)
  {
    hide Aggregate, Matching, Leaf, Kept, Restrict, ValidFilters, ValidFields, FieldsShaped, NameShaped,
         Share, Divided;
    ValidExactly(d, depth);
    if ValidDefinition(d, depth) {
      OwnFiltersValid(d, depth);
      KeptIsRestrict(events, d.filters);
      var seen := Kept(events, d.filters);
      if d.kind == "ratio" {
        PushDown(reg, d.numerator.value, d.filters, events, decimal, depth + 1);
        PushDown(reg, d.denominator.value, d.filters, events, decimal, depth + 1);
        EvaluateIsMeaning(reg, d.numerator.value, seen, decimal, depth + 1);
        EvaluateIsMeaning(reg, d.denominator.value, seen, decimal, depth + 1);
        var n := Meaning(reg, d.numerator.value, seen, decimal, depth + 1);
        var m := Meaning(reg, d.denominator.value, seen, decimal, depth + 1);
        if n.Some? && m.Some? {
          ShareIsDivided(n.value, m.value);
        }
      } else if d.kind == "metric_ref" {
        if Found(reg, d.metric) {
          PushDown(reg, reg[d.metric].definition, d.filters, events, decimal, depth + 1);
          EvaluateIsMeaning(reg, reg[d.metric].definition, seen, decimal, depth + 1);
        }
      } else {
        AggregateIsLeaf(d, events, decimal);
      }
    }
  }

  // ---- What each kind of leaf computes --------------------------------------------------------------

  lemma LeafValue(reg: Registry, d: Definition, events: seq<Event>, decimal: string -> Option<real>, depth: nat)
    requires WellFormed(d, depth) && d.kind !in {"ratio", "metric_ref"}
    ensures Evaluate(reg, d, events, decimal, depth) == Some(Leaf(d, events, decimal))
  {
    hide Aggregate, Matching, Leaf, ValidFields, FieldsShaped;
    ValidExactly(d, depth);
    AggregateIsLeaf(d, events, decimal);
  }

  lemma {:induction false} SummedConcat(d: Definition, a: seq<Event>, b: seq<Event>, decimal: string -> Option<real>)
    ensures Summed(d, a + b, decimal) == Summed(d, a, decimal) + Summed(d, b, decimal)
  {
    hide Counted, Reading;
    if a == [] {
      assert a + b == b;
    } else {
      assert (a + b)[1..] == a[1..] + b;
      SummedConcat(d, a[1..], b, decimal);
    }
  }

  lemma {:induction false} CountConcat(d: Definition, a: seq<Event>, b: seq<Event>)
    ensures |CountedAt(d, a + b)| == |CountedAt(d, a)| + |CountedAt(d, b)|
  {
    hide Counted;
    if a == [] {
      assert a + b == b;
      assert CountedAt(d, a) == {};
    } else {
      assert (a + b)[1..] == a[1..] + b && (a + b)[0] == a[0];
      CountConcat(d, a[1..], b);
      Shifted(CountedAt(d, a), CountedAt(d, a[1..]), Counted(d, a[0]));
      Shifted(CountedAt(d, a + b), CountedAt(d, (a + b)[1..]), Counted(d, a[0]));
    }
  }

  /** Counts and sums of two stretches of events add up. */
  lemma CountsAndSumsAdd(reg: Registry, d: Definition, a: seq<Event>, b: seq<Event>, decimal: string -> Option<real>,
                         depth: nat)
    requires WellFormed(d, depth) && d.kind in {"count", "sum"}
    ensures var both, first, second := Evaluate(reg, d, a + b, decimal, depth), Evaluate(reg, d, a, decimal, depth),
                                       Evaluate(reg, d, b, decimal, depth);
            both.Some? && first.Some? && second.Some? && both.value == first.value + second.value
  {
    hide Evaluate, ValidFields, CountedAt, Summed;
    LeafValue(reg, d, a + b, decimal, depth);
    LeafValue(reg, d, a, decimal, depth);
    LeafValue(reg, d, b, decimal, depth);
    CountConcat(d, a, b);
    SummedConcat(d, a, b, decimal);
  }

  /** One event counts one if it is chosen, and sums to its number, if it has one. */
  lemma OneEvent(reg: Registry, d: Definition, e: Event, decimal: string -> Option<real>, depth: nat)
    requires WellFormed(d, depth) && d.kind in {"count", "sum"}
    ensures Evaluate(reg, d, [e], decimal, depth) ==
            if !Counted(d, e) then Some(0.0)
            else if d.kind == "count" then Some(1.0)
            else if Reading(d, e, decimal).Some? then Reading(d, e, decimal)
            else Some(0.0)
  {
    hide Evaluate, ValidFields, Counted, Reading;
    LeafValue(reg, d, [e], decimal, depth);
    assert CountedAt(d, [e]) == if Counted(d, e) then {0} else {};
    assert [e][1..] == [] && Summed(d, [], decimal) == 0.0;
    assert d.kind == "count" ==> Leaf(d, [e], decimal) == if Counted(d, e) then 1.0 else 0.0;
  }

  /**
   An average times the number of events it reads is their sum, lies between any bounds on the numbers
   read, and is zero when there are none.
   */
  lemma AverageBalances(reg: Registry, d: Definition, events: seq<Event>, decimal: string -> Option<real>, depth: nat,
                        low: real, high: real)
    requires WellFormed(d, depth) && d.kind == "average"
    requires forall i :: i in ReadAt(d, events, decimal) ==> low <= Reading(d, events[i], decimal).value <= high
    ensures var average := Evaluate(reg, d, events, decimal, depth);
            var sum := Evaluate(reg, d.(kind := "sum"), events, decimal, depth);
            var n := |ReadAt(d, events, decimal)|;
            && average.Some? && sum.Some?
            && average.value * n as real == sum.value
            && (if n == 0 then average.value == 0.0 else low <= average.value <= high)
  {
    hide Evaluate, ValidFields, ReadAt, Summed;
    var d' := d.(kind := "sum");
    assert WellFormed(d', depth) by { KindsAlike(d, depth); }
    LeafValue(reg, d, events, decimal, depth);
    LeafValue(reg, d', events, decimal, depth);
    KindBlind(d, events, decimal);
    SummedBetween(d, events, decimal, low, high);
    var n := |ReadAt(d, events, decimal)|;
    if n > 0 {
      Quotients(Summed(d, events, decimal), n as real, low, high);
    }
  }

  lemma KindsAlike(d: Definition, depth: nat)
    requires WellFormed(d, depth) && d.kind == "average"
    ensures WellFormed(d.(kind := "sum"), depth)
  {
    hide KeyShaped, FilterShaped, NameShaped;
  }

  lemma {:induction false} KindBlind(d: Definition, events: seq<Event>, decimal: string -> Option<real>)
    ensures Summed(d.(kind := "sum"), events, decimal) == Summed(d, events, decimal)
  {
    if events != [] {
      KindBlind(d, events[1..], decimal);
    }
  }

  lemma Quotients(sum: real, n: real, low: real, high: real)
    requires n > 0.0 && low * n <= sum <= high * n
    ensures sum / n * n == sum && low <= sum / n <= high
  {
    var q := sum / n;
    assert q * n == sum;
    assert (q - low) * n >= 0.0 && (high - q) * n >= 0.0;
  }

  /** A sum of n numbers, each between low and high. */
  ghost predicate Between(low: real, high: real, n: nat, sum: real) {
    low * n as real <= sum <= high * n as real
  }

  lemma BetweenNone(low: real, high: real)
    ensures Between(low, high, 0, 0.0)
  {
  }

  lemma OneMore(low: real, high: real, n: nat, sum: real, x: real)
    requires Between(low, high, n, sum) && low <= x <= high
    ensures Between(low, high, n + 1, x + sum)
  {
    assert low * (n + 1) as real == low * n as real + low && high * (n + 1) as real == high * n as real + high;
  }

  lemma {:induction false} SummedBetween(d: Definition, events: seq<Event>, decimal: string -> Option<real>, low: real,
                                         high: real)
    requires forall i :: i in ReadAt(d, events, decimal) ==> low <= Reading(d, events[i], decimal).value <= high
    ensures Between(low, high, |ReadAt(d, events, decimal)|, Summed(d, events, decimal))
  {
    hide Counted, Reading, ReadAt, Between;
    BetweenNone(low, high);
    if events == [] {
      NothingRead(d, decimal);
    } else {
      var rest := events[1..];
      FirstRead(d, events, decimal);
      forall i | i in ReadAt(d, rest, decimal)
        ensures low <= Reading(d, rest[i], decimal).value <= high
      {
        assert i + 1 in ReadAt(d, events, decimal);
      }
      SummedBetween(d, rest, decimal, low, high);
      if 0 in ReadAt(d, events, decimal) {
        OneMore(low, high, |ReadAt(d, rest, decimal)|, Summed(d, rest, decimal),
                Reading(d, events[0], decimal).value);
      }
    }
  }

  lemma NothingRead(d: Definition, decimal: string -> Option<real>)
    ensures ReadAt(d, [], decimal) == {}
  {
  }

  lemma FirstRead(d: Definition, events: seq<Event>, decimal: string -> Option<real>)
    requires events != []
    ensures var read := Counted(d, events[0]) && Reading(d, events[0], decimal).Some?;
            && (0 in ReadAt(d, events, decimal) <==> read)
            && (forall i: nat :: i + 1 in ReadAt(d, events, decimal) <==> i in ReadAt(d, events[1..], decimal))
            && |ReadAt(d, events, decimal)| == (if read then 1 else 0) + |ReadAt(d, events[1..], decimal)|
  {
    hide Counted, Reading;
    Shifted(ReadAt(d, events, decimal), ReadAt(d, events[1..], decimal),
            Counted(d, events[0]) && Reading(d, events[0], decimal).Some?);
  }

  /** A user counts once: one more event of a user already counted changes nothing, one of a new user adds one. */
  lemma UsersCountOnce(reg: Registry, d: Definition, events: seq<Event>, e: Event, decimal: string -> Option<real>,
                       depth: nat)
    requires WellFormed(d, depth) && d.kind == "unique_users" && d.minOccurrences <= 1
    ensures var before, after := Evaluate(reg, d, events, decimal, depth),
                                 Evaluate(reg, d, events + [e], decimal, depth);
            && before.Some? && after.Some?
            && after.value == before.value +
               (if Counted(d, e) && forall x :: x in events && Counted(d, x) ==> x.entity != e.entity then 1.0 else 0.0)
  {
    hide Evaluate, ValidFields, Counted, OfUser;
    LeafValue(reg, d, events, decimal, depth);
    LeafValue(reg, d, events + [e], decimal, depth);
    PlainUsers(d, events);
    PlainUsers(d, events + [e]);
    var before, after := UsersOften(d, events), UsersOften(d, events + [e]);
    forall u
      ensures u in after <==> u in before || (Counted(d, e) && u == e.entity)
    {
      if x :| x in events && Counted(d, x) && x.entity == u {
        assert x in events + [e];
      }
      assert e in events + [e];
    }
    if Counted(d, e) {
      assert after == before + {e.entity};
      assert e.entity in before ==> after == before;
    } else {
      assert after == before;
    }
  }

  lemma PlainUsers(d: Definition, events: seq<Event>)
    requires d.minOccurrences <= 1
    ensures forall u :: u in UsersOften(d, events) <==> exists x :: x in events && Counted(d, x) && x.entity == u
  {
    hide Counted, OfUser;
    forall i: nat | i < |events| && Counted(d, events[i])
      ensures events[i].entity in UsersOften(d, events)
    {
      MemberOfUser(d, events, i);
    }
  }

  /** A session counts once, too. */
  lemma SessionsCountOnce(reg: Registry, d: Definition, events: seq<Event>, e: Event, decimal: string -> Option<real>,
                          depth: nat)
    requires WellFormed(d, depth) && d.kind == "unique_sessions" && d.minOccurrences <= 1
    ensures var before, after := Evaluate(reg, d, events, decimal, depth),
                                 Evaluate(reg, d, events + [e], decimal, depth);
            && before.Some? && after.Some?
            && after.value == before.value +
               (if Counted(d, e) && forall x :: x in events && Counted(d, x) ==> x.session != e.session then 1.0
                else 0.0)
  {
    hide Evaluate, ValidFields, Counted, OfSession;
    LeafValue(reg, d, events, decimal, depth);
    LeafValue(reg, d, events + [e], decimal, depth);
    PlainSessions(d, events);
    PlainSessions(d, events + [e]);
    var before, after := SessionsOften(d, events), SessionsOften(d, events + [e]);
    forall u
      ensures u in after <==> u in before || (Counted(d, e) && u == e.session)
    {
      if x :| x in events && Counted(d, x) && x.session == u {
        assert x in events + [e];
      }
      assert e in events + [e];
    }
    if Counted(d, e) {
      assert after == before + {e.session};
      assert e.session in before ==> after == before;
    } else {
      assert after == before;
    }
  }

  lemma PlainSessions(d: Definition, events: seq<Event>)
    requires d.minOccurrences <= 1
    ensures forall u :: u in SessionsOften(d, events) <==> exists x :: x in events && Counted(d, x) && x.session == u
  {
    hide Counted, OfSession;
    forall i: nat | i < |events| && Counted(d, events[i])
      ensures events[i].session in SessionsOften(d, events)
    {
      MemberOfSession(d, events, i);
    }
  }

  /** With a minimum, exactly the users with that many counted events count, and so for sessions. */
  lemma OftenEnough(reg: Registry, d: Definition, events: seq<Event>, decimal: string -> Option<real>, depth: nat)
    requires WellFormed(d, depth) && d.kind in {"unique_users", "unique_sessions"}
    ensures d.kind == "unique_users" ==>
              Evaluate(reg, d, events, decimal, depth) == Some(|UsersOften(d, events)| as real)
    ensures d.kind == "unique_sessions" ==>
              Evaluate(reg, d, events, decimal, depth) == Some(|SessionsOften(d, events)| as real)
  {
    hide Evaluate, ValidFields, UsersOften, SessionsOften;
    LeafValue(reg, d, events, decimal, depth);
  }

  /**
   A ratio times its denominator is a hundred times its numerator, each evaluated on the events the
   ratio's own filters keep; over a zero denominator it is zero, and it fails exactly when a part does.
   */
  lemma RatioBalances(reg: Registry, d: Definition, events: seq<Event>, decimal: string -> Option<real>, depth: nat)
    requires WellFormed(d, depth) && d.kind == "ratio"
    ensures var seen := Kept(events, d.filters);
            var n := Evaluate(reg, d.numerator.value, seen, decimal, depth + 1);
            var m := Evaluate(reg, d.denominator.value, seen, decimal, depth + 1);
            var r := Evaluate(reg, d, events, decimal, depth);
            && (r.None? <==> n.None? || m.None?)
            && (r.Some? ==> if m.value == 0.0 then r.value == 0.0 else r.value * m.value == 100.0 * n.value)
  {
    hide Evaluate, Meaning, Leaf, Kept, ValidFields;
    var seen := Kept(events, d.filters);
    EvaluateIsMeaning(reg, d.numerator.value, seen, decimal, depth + 1);
    EvaluateIsMeaning(reg, d.denominator.value, seen, decimal, depth + 1);
    EvaluateIsMeaning(reg, d, events, decimal, depth);
    RatioMeans(reg, d, events, decimal, depth);
  }

  lemma RatioMeans(reg: Registry, d: Definition, events: seq<Event>, decimal: string -> Option<real>, depth: nat)
    requires WellFormed(d, depth) && d.kind == "ratio"
    ensures var seen := Kept(events, d.filters);
            var n := Meaning(reg, d.numerator.value, seen, decimal, depth + 1);
            var m := Meaning(reg, d.denominator.value, seen, decimal, depth + 1);
            var r := Meaning(reg, d, events, decimal, depth);
            && (r.None? <==> n.None? || m.None?)
            && (r.Some? ==> if m.value == 0.0 then r.value == 0.0 else r.value * m.value == 100.0 * n.value)
  {
    hide Leaf, Kept, ValidFields, Share;
    var seen := Kept(events, d.filters);
    var n := Meaning(reg, d.numerator.value, seen, decimal, depth + 1);
    var m := Meaning(reg, d.denominator.value, seen, decimal, depth + 1);
    if n.Some? && m.Some? {
      ShareBalances(n.value, m.value);
    }
  }

  lemma ShareBalances(n: real, m: real)
    ensures if m == 0.0 then Share(n, m) == 0.0 else Share(n, m) * m == 100.0 * n
  {
  }
}
