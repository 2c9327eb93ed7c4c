/**
 The semantic metric registry: named definitions that may refer to each other, the
 check a save makes, and the evaluator that pushes filters down to the events.
 */
module Metrics {
  import opened Wrappers

  // ---- Definitions -----------------------------------------------------------------------

  /** A filter's JSON value: the text it prints as and, when it is an array, the texts of its items. */
  datatype Operand = Operand(text: string, items: Option<seq<string>>)

  datatype Filter = Filter(property: string, operator: string, value: Operand, scope: string)

  datatype Definition = Definition(
    kind: string,
    metric: string,
    eventName: string,
    conversion: Option<bool>,
    property: string,
    fallback: string,
    trafficClass: string,
    minOccurrences: int,
    filters: seq<Filter>,
    numerator: Option<Definition>,
    denominator: Option<Definition>)

  predicate Letter(c: char) {
    'a' <= c <= 'z' || 'A' <= c <= 'Z' || c == '_'
  }

  /** The shape of an event name and of a property key. */
  predicate ValidKey(s: string) {
    && 1 <= |s| <= 128 && Letter(s[0])
    && forall i :: 1 <= i < |s| ==> Letter(s[i]) || '0' <= s[i] <= '9' || s[i] == '.' || s[i] == '-'
  }

  /** The shape of a metric's name. */
  predicate ValidMetricName(s: string) {
    && 1 <= |s| <= 64 && 'a' <= s[0] <= 'z'
    && forall i :: 1 <= i < |s| ==> 'a' <= s[i] <= 'z' || '0' <= s[i] <= '9' || s[i] == '_'
  }

  predicate ValidFilter(f: Filter) {
    && ValidKey(f.property)
    && f.operator in {"eq", "neq", "exists", "not_exists", "in"}
    && f.scope in {"", "event", "user", "session"}
    && (f.operator == "in" ==> f.value.items.Some? && 1 <= |f.value.items.value| <= 100)
  }

  predicate ValidFilters(fs: seq<Filter>) {
    forall i :: 0 <= i < |fs| ==> ValidFilter(fs[i])
  }

  predicate ValidFields(d: Definition) {
    && (d.eventName == "" || (ValidKey(d.eventName) && |d.eventName| <= 64))
    && (d.property == "" || ValidKey(d.property))
    && (d.fallback == "" || ValidKey(d.fallback))
    && d.trafficClass in {"", "normal", "internal_traffic", "known_bot", "monitoring", "suspicious"}
    && 0 <= d.minOccurrences <= 1000000
    && ValidFilters(d.filters)
  }

  /** validateSemanticDefinition: accepts or refuses a definition found at this depth. */
  predicate ValidDefinition(d: Definition, depth: nat)
    decreases d
  {
    && depth <= 5 && ValidFields(d)
    && match d.kind
       case "count" => true
       case "unique_users" => true
       case "unique_sessions" => true
       case "sum" => d.property != ""
       case "average" => d.property != ""
       case "ratio" =>
         && d.numerator.Some? && d.denominator.Some?
         && ValidDefinition(d.numerator.value, depth + 1) && ValidDefinition(d.denominator.value, depth + 1)
       case "metric_ref" => ValidMetricName(d.metric)
       case _ => false
  }

  // ---- The registry ------------------------------------------------------------------------

  datatype Metric = Metric(definition: Definition, active: bool, version: nat)

  type Registry = map<string, Metric>

  /** The metrics a definition names, through nested ratios. */
  function Refs(d: Definition): set<string>
    decreases d
  {
    if d.kind == "ratio" then
      (if d.numerator.Some? then Refs(d.numerator.value) else {})
      + (if d.denominator.Some? then Refs(d.denominator.value) else {})
    else if d.kind == "metric_ref" then {d.metric}
    else {}
  }

  predicate Found(reg: Registry, m: string) {
    m in reg && reg[m].active
  }

  function Rest(depth: nat): nat {
    if depth > 5 then 0 else 6 - depth
  }

  /** validateMetricReferences: every metric reached is active, not the one being saved, and not above itself. */
  predicate ValidRefs(reg: Registry, name: string, d: Definition, seen: set<string>, depth: nat)
    decreases Rest(depth)
  {
    && depth <= 5
    && if d.kind == "ratio" then
         && d.numerator.Some? && d.denominator.Some?
         && ValidRefs(reg, name, d.numerator.value, seen, depth + 1)
         && ValidRefs(reg, name, d.denominator.value, seen, depth + 1)
       else if d.kind == "metric_ref" then
         && d.metric != name && d.metric !in seen
         && Found(reg, d.metric)
         && ValidRefs(reg, name, reg[d.metric].definition, seen + {d.metric}, depth + 1)
       else true
  }

  /** A save request, as far as the registry goes. */
  datatype Request = Request(name: string, definition: Definition, active: bool)

  predicate Accepted(reg: Registry, q: Request) {
    && ValidMetricName(q.name) && ValidDefinition(q.definition, 1)
    && ValidRefs(reg, q.name, q.definition, {q.name}, 1)
  }

  /** The registry after an accepted save; a refused one changes nothing. */
  function Saved(reg: Registry, q: Request): Registry {
    if !Accepted(reg, q) then reg
    else reg[q.name := Metric(q.definition, q.active, if q.name in reg then reg[q.name].version + 1 else 1)]
  }

  function SavedAll(reg: Registry, qs: seq<Request>): Registry {
    if qs == [] then reg else Saved(SavedAll(reg, qs[..|qs| - 1]), qs[|qs| - 1])
  }

  // ---- Acyclicity ----------------------------------------------------------------------------

  /** A walk along references over all stored definitions, active or not. */
  ghost predicate Walk(reg: Registry, p: seq<string>) {
    && |p| >= 2
    && forall i :: 0 <= i < |p| - 1 ==> p[i] in reg && p[i + 1] in Refs(reg[p[i]].definition)
  }

  ghost predicate Acyclic(reg: Registry) {
    forall p :: Walk(reg, p) ==> p[0] != p[|p| - 1]
  }

  /** What every stored definition satisfies by itself, and where its references lead. */
  ghost predicate Sound(reg: Registry) {
    && Acyclic(reg)
    && (forall m :: m in reg ==> ValidDefinition(reg[m].definition, 1))
    && (forall m :: m in reg ==> Refs(reg[m].definition) <= reg.Keys)
  }

  /** A checked definition's references are found, are not the name being saved, and are checked themselves. */
  lemma {:induction false} RefsChecked(reg: Registry, name: string, d: Definition, seen: set<string>, depth: nat,
                                       m: string)
    returns (seen': set<string>, depth': nat)
    requires ValidRefs(reg, name, d, seen, depth) && m in Refs(d)
    ensures m != name && Found(reg, m) && ValidRefs(reg, name, reg[m].definition, seen', depth')
    decreases Rest(depth)
  {
    if d.kind == "ratio" {
      if m in Refs(d.numerator.value) {
        seen', depth' := RefsChecked(reg, name, d.numerator.value, seen, depth + 1, m);
      } else {
        seen', depth' := RefsChecked(reg, name, d.denominator.value, seen, depth + 1, m);
      }
    } else {
      seen', depth' := seen + {m}, depth + 1;
    }
  }

  /** A walk that starts at a metric just saved never comes back to it. */
  lemma {:induction false} NeverReturns(reg: Registry, q: Request, p: seq<string>, k: nat)
    returns (seen: set<string>, depth: nat)
    requires Accepted(reg, q) && Walk(Saved(reg, q), p) && p[0] == q.name && 1 <= k < |p|
    ensures p[k] != q.name && p[k] in reg && ValidRefs(reg, q.name, reg[p[k]].definition, seen, depth)
  {
    if k == 1 {
      assert p[0 + 1] in Refs(q.definition);
      seen, depth := RefsChecked(reg, q.name, q.definition, {q.name}, 1, p[1]);
    } else {
      seen, depth := NeverReturns(reg, q, p, k - 1);
      assert p[(k - 1) + 1] in Refs(reg[p[k - 1]].definition);
      seen, depth := RefsChecked(reg, q.name, reg[p[k - 1]].definition, seen, depth, p[k]);
    }
  }

  /** A closed walk through a metric can be started at that metric. */
  lemma Rotated(reg: Registry, p: seq<string>, i: nat) returns (c: seq<string>)
    requires Walk(reg, p) && p[0] == p[|p| - 1] && i < |p|
    ensures Walk(reg, c) && c[0] == c[|c| - 1] == p[i]
  {
    if i == |p| - 1 {
      c := p;
    } else {
      c := p[i..] + p[1..i + 1];
      forall k | 0 <= k < |c| - 1
        ensures c[k] in reg && c[k + 1] in Refs(reg[c[k]].definition)
      {
        var at := if k < |p| - 1 - i then i + k else i + k - (|p| - 1);
        assert p[at] == c[k] && p[at + 1] == c[k + 1];
      }
    }
  }

  /** A walk that avoids the saved metric was there before. */
  lemma WalkElsewhere(reg: Registry, q: Request, p: seq<string>)
    requires Walk(Saved(reg, q), p) && q.name !in p
    ensures Walk(reg, p)
  {
    hide ValidRefs, ValidDefinition, Refs;
    var now := Saved(reg, q);
    forall i | 0 <= i < |p| - 1
      ensures p[i] in reg && p[i + 1] in Refs(reg[p[i]].definition)
    {
      assert p[i] in now && now[p[i]] == reg[p[i]];
    }
  }

  /** Every save keeps the whole graph of stored references without a cycle, though it looks only at active metrics. */
  lemma SaveKeepsAcyclic(reg: Registry, q: Request)
    requires Acyclic(reg)
    ensures Acyclic(Saved(reg, q))
  {
    hide ValidRefs, ValidDefinition, Refs, Saved;
    if Accepted(reg, q) {
      forall p | Walk(Saved(reg, q), p)
        ensures p[0] != p[|p| - 1]
      {
        if q.name !in p {
          WalkElsewhere(reg, q, p);
        } else if p[0] == p[|p| - 1] {
          var i :| 0 <= i < |p| && p[i] == q.name;
          var c := Rotated(Saved(reg, q), p, i);
          var _, _ := NeverReturns(reg, q, c, |c| - 1);
        }
      }
    } else {
      assert Saved(reg, q) == reg by { Refused(reg, q); }
    }
  }

  lemma Refused(reg: Registry, q: Request)
    requires !Accepted(reg, q)
    ensures Saved(reg, q) == reg
  {
  }

  lemma SaveKeepsSound(reg: Registry, q: Request)
    requires Sound(reg)
    ensures Sound(Saved(reg, q))
  {
    hide ValidRefs, ValidDefinition, Refs, Acyclic;
    SaveKeepsAcyclic(reg, q);
    if Accepted(reg, q) {
      forall m | m in Refs(q.definition)
        ensures m in reg
      {
        var seen, depth := RefsChecked(reg, q.name, q.definition, {q.name}, 1, m);
      }
    }
  }

  /** After any sequence of saves, redefinitions and deprecations included, no stored metric refers to itself. */
  lemma {:induction false} SavesKeepSound(reg: Registry, qs: seq<Request>)
    requires Sound(reg)
    ensures Sound(SavedAll(reg, qs))
  {
    hide Sound, Saved;
    if qs != [] {
      SavesKeepSound(reg, qs[..|qs| - 1]);
      SaveKeepsSound(SavedAll(reg, qs[..|qs| - 1]), qs[|qs| - 1]);
    }
  }

  lemma EmptySound()
    ensures Sound(map[])
  {
  }

  /** The registry the source updates in place. */
  class Catalogue {
    var metrics: Registry

    ghost predicate Valid()
      reads this
    {
      Sound(metrics)
    }

    constructor ()
      ensures Valid() && metrics == map[]
    {
      metrics := map[];
      new;
      EmptySound();
    }

    /** INSERT .. ON CONFLICT(site_id, name) DO UPDATE, once the definition and its references are accepted. */
    method Save(q: Request) returns (version: Result<nat>)
      requires Valid()
      modifies this
      ensures Valid() && metrics == Saved(old(metrics), q)
      ensures version.Ok? <==> Accepted(old(metrics), q)
      ensures version.Err? ==>
                version.error == if !ValidMetricName(q.name) then "INVALID_METRIC"
                                 else if !ValidDefinition(q.definition, 1) then "INVALID_METRIC_DEFINITION"
                                 else "INVALID_METRIC_REFERENCE"
      ensures version.Ok? ==> q.name in metrics && metrics[q.name].version == version.value
      ensures version.Ok? && q.name in old(metrics) ==> version.value == old(metrics[q.name].version) + 1
    {
      hide Sound, ValidRefs, ValidDefinition;
      SaveKeepsSound(metrics, q);
      if !ValidMetricName(q.name) {
        return Err("INVALID_METRIC");
      }
      if !ValidDefinition(q.definition, 1) {
        return Err("INVALID_METRIC_DEFINITION");
      }
      if !ValidRefs(metrics, q.name, q.definition, {q.name}, 1) {
        return Err("INVALID_METRIC_REFERENCE");
      }
      var next: nat := 1;
      if q.name in metrics {
        next := metrics[q.name].version + 1;
      }
      metrics := metrics[q.name := Metric(q.definition, q.active, next)];
      version := Ok(next);
    }
  }
}
