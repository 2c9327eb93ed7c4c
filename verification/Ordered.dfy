/**
 The columns that do depend on arrival order: they equal the rebuild's for every
 group whose rows arrived in non-decreasing timestamp order, ties included, because
 ties are broken by insertion id on both sides.
 */
module Ordered {
  import opened Wrappers
  import opened Events
  import opened Derived
  import opened Folds
  import opened Agreement

  // ---- Latest user properties --------------------------------------------------------

  ghost predicate VisitsProps(s: Site, raw: seq<Event>, m: map<Key, VisitorRow>) {
    forall k :: k in m && InOrder(Group(s, raw, k)) ==> m[k].props == LatestUserProps(Group(s, raw, k))
  }

  lemma UserPropsAppend(g: seq<Event>, e: Event, was: Option<VisitorRow>, user: Option<string>)
    requires InOrder(g + [e])
    requires was.None? <==> g == []
    requires was.Some? ==> was.value.tally.span.last == LastSeen(g) && was.value.props == LatestUserProps(g)
    ensures Visit(was, e, user).props == LatestUserProps(g + [e])
  {
    InOrderAppend(g, e);
    LatestAppend(g, e, UserPropsOf);
    if g != [] {
      assert e.ts >= LastSeen(g);
    }
  }

  lemma VisitsPropsStep(s: Site, raw: seq<Event>, m: map<Key, VisitorRow>, e: Event, daily: bool,
                        link: Option<string>, user: Option<string>)
    requires VisitsTally(s, raw, m, daily) && VisitsProps(s, raw, m)
    ensures VisitsProps(s, raw + [e], FoldVisits(m, if daily then DayVisitorOf(s, e) else VisitorOf(e), e, link, user))
  {
    var key := if daily then DayVisitorOf(s, e) else VisitorOf(e);
    var m' := FoldVisits(m, key, e, link, user);
    forall k | k in m' && InOrder(Group(s, raw + [e], k))
      ensures m'[k].props == LatestUserProps(Group(s, raw + [e], k))
    {
      GroupStep(s, raw, e, k);
      if k == key {
        InOrderAppend(Group(s, raw, k), e);
        UserPropsAppend(Group(s, raw, k), e, At(RelinkVisits(m, e, link), k), user);
      }
    }
  }

  // ---- The session's journey ------------------------------------------------------------

  ghost predicate SessionsJourney(s: Site, raw: seq<Event>, m: map<Key, SessionRow>) {
    forall k :: k in m && InOrder(Group(s, raw, k)) ==> m[k].journey == JourneyOf(Group(s, raw, k))
  }

  lemma LatestPropAppend(g: seq<Event>, e: Event, key: string)
    requires NoneAfter(g, e.ts)
    ensures key in LatestProps(g + [e]) <==> key in LatestProps(g) || key in e.sessionProps
    ensures key in LatestProps(g + [e]) ==>
              LatestProps(g + [e])[key] == if key in e.sessionProps then e.sessionProps[key] else LatestProps(g)[key]
  {
    LatestAppend(g, e, PropOf(key));
    assert PropOf(key)(e) == if key in e.sessionProps then Some(e.sessionProps[key]) else None;
    assert key in LatestProps(g + [e]) ==> Latest(g + [e], PropOf(key)) == Some(LatestProps(g + [e])[key]);
    assert key in LatestProps(g) ==> Latest(g, PropOf(key)) == Some(LatestProps(g)[key]);
    assert e in g + [e] && forall x :: x in g ==> x in g + [e];
  }

  lemma LatestPropsAppend(g: seq<Event>, e: Event)
    requires NoneAfter(g, e.ts)
    ensures LatestProps(g + [e]) == LatestProps(g) + e.sessionProps
  {
    hide Latest, PropKeys, PropOf, LatestProps;
    forall key
      ensures key in LatestProps(g + [e]) <==> key in LatestProps(g) + e.sessionProps
      ensures key in LatestProps(g + [e]) ==> LatestProps(g + [e])[key] == (LatestProps(g) + e.sessionProps)[key]
    {
      LatestPropAppend(g, e, key);
    }
  }

  lemma JourneyAppend(g: seq<Event>, e: Event)
    requires InOrder(g + [e])
    ensures g == [] ==> JourneyOf([e]) == FirstJourney(e)
    ensures g != [] ==> JourneyOf(g + [e]) == NextJourney(JourneyOf(g), SpanOf(g), e)
  {
    hide EarliestAt, LatestAt, Earliest, Latest, LatestProps, FirstSeen, LastSeen;
    InOrderAppend(g, e);
    EarliestAppend(g, e, LandingOf);
    LatestAppend(g, e, LandingOf);
    EarliestAppend(g, e, SourceOf);
    EarliestAppend(g, e, MediumOf);
    EarliestAppend(g, e, CampaignOf);
    EarliestAppend(g, e, DeviceOf);
    LatestPropsAppend(g, e);
    if g == [] {
      assert g + [e] == [e];
      NothingLatest(LandingOf);
      NothingEarliest();
    } else {
      assert FirstSeen(g) <= LastSeen(g) <= e.ts;
    }
  }

  lemma NothingLatest(f: Event -> Option<string>)
    ensures Latest([], f) == None
    ensures LatestProps([]) == map[] && forall m: map<string, string> :: map[] + m == m
  {
  }

  lemma NothingEarliest()
    ensures Earliest([], LandingOf) == Earliest([], SourceOf) == Earliest([], MediumOf) == None
    ensures Earliest([], CampaignOf) == Earliest([], DeviceOf) == None
  {
  }

  lemma JourneyStep(s: Site, raw: seq<Event>, m: map<Key, SessionRow>, e: Event, user: Option<string>)
    requires SessionsTally(s, raw, m) && SessionsJourney(s, raw, m)
    ensures SessionsJourney(s, raw + [e], FoldSessions(m, e, user, s.threshold(e.site)))
  {
    var m' := FoldSessions(m, e, user, s.threshold(e.site));
    forall k | k in m' && InOrder(Group(s, raw + [e], k))
      ensures m'[k].journey == JourneyOf(Group(s, raw + [e], k))
    {
      GroupStep(s, raw, e, k);
      if k == SessionOf(e) {
        InOrderAppend(Group(s, raw, k), e);
        JourneyAppend(Group(s, raw, k), e);
      }
    }
  }

  // ---- Identities ------------------------------------------------------------------------

  /** An identity exists exactly when the visitor was ever identified, whatever the order. */
  ghost predicate IdentityKeys(s: Site, raw: seq<Event>, ids: map<Key, Identity>) {
    forall k :: k in ids <==> k.VisitorKey? && Latest(Group(s, raw, k), UserOf).Some?
  }

  /** Row i opens the final user's last uninterrupted run of identified rows. */
  ghost predicate IsRunStart(g: seq<Event>, i: int) {
    && 0 <= i < |g| && g[i].user.Some? && g[i].user == Latest(g, UserOf)
    && (forall j :: i <= j < |g| && g[j].user.Some? ==> g[j].user == g[i].user)
    && (forall j :: 0 <= j < i && g[j].user == g[i].user ==>
          exists m :: j < m < i && g[m].user.Some? && g[m].user != g[i].user)
  }

  /** What the identity row holds for a group that arrived in order. */
  ghost predicate IdentityMatches(g: seq<Event>, i: Identity) {
    && g != []
    && Latest(g, UserOf) == Some(i.user)
    && i.first == FirstSeen(g) && i.last == LastSeen(g)
    && (exists r :: IsRunStart(g, r) && i.linked == g[r].ts)
  }

  ghost predicate IdentitiesMatch(s: Site, raw: seq<Event>, ids: map<Key, Identity>) {
    && IdentityKeys(s, raw, ids)
    && (forall k :: k in ids && InOrder(Group(s, raw, k)) ==> IdentityMatches(Group(s, raw, k), ids[k]))
  }

  lemma LatestNoneAppend(g: seq<Event>, e: Event)
    ensures Latest(g + [e], UserOf).Some? <==> Latest(g, UserOf).Some? || e.user.Some?
  {
    var h := g + [e];
    assert h[|g|] == e && forall j :: 0 <= j < |g| ==> h[j] == g[j];
    if LatestAt(g, UserOf).Some? { assert UserOf(h[LatestAt(g, UserOf).value]).Some?; }
    if e.user.Some? { assert UserOf(h[|g|]).Some?; }
  }

  /** A run start survives an anonymous row and another row of the same user. */
  lemma RunContinues(g: seq<Event>, e: Event, r: int)
    requires IsRunStart(g, r) && NoneAfter(g, e.ts)
    requires e.user.None? || e.user == g[r].user
    ensures IsRunStart(g + [e], r) && (g + [e])[r] == g[r]
  {
    var h := g + [e];
    assert h[|g|] == e && forall j :: 0 <= j < |g| ==> h[j] == g[j];
    LatestAppend(g, e, UserOf);
    forall j | 0 <= j < r && h[j].user == h[r].user
      ensures exists m :: j < m < r && h[m].user.Some? && h[m].user != h[r].user
    {
      var m :| j < m < r && g[m].user.Some? && g[m].user != g[r].user;
      assert h[m] == g[m];
    }
  }

  /** A row of a different user opens a run of its own. */
  lemma RunBegins(g: seq<Event>, e: Event)
    requires NoneAfter(g, e.ts) && e.user.Some?
    requires Latest(g, UserOf).None? || (exists r :: IsRunStart(g, r) && g[r].user != e.user)
    ensures IsRunStart(g + [e], |g|) && (g + [e])[|g|] == e
  {
    var h := g + [e];
    assert h[|g|] == e && forall j :: 0 <= j < |g| ==> h[j] == g[j];
    LatestAppend(g, e, UserOf);
    forall j | 0 <= j < |g| && h[j].user == e.user
      ensures exists m :: j < m < |g| && h[m].user.Some? && h[m].user != e.user
    {
      assert UserOf(g[j]).Some?;
      var r :| IsRunStart(g, r) && g[r].user != e.user;
      assert h[r] == g[r] && j < r;
    }
  }

  lemma IdentityAppend(g: seq<Event>, e: Event, was: Option<Identity>, visitor: Option<VisitorRow>)
    requires InOrder(g + [e])
    requires was.None? <==> Latest(g, UserOf).None?
    requires was.Some? ==> IdentityMatches(g, was.value)
    requires visitor.None? <==> g == []
    requires visitor.Some? ==> visitor.value.tally.span == SpanOf(g)
    ensures var i := Touched(Identified(was, visitor, e), e.ts);
            i.Some? ==> IdentityMatches(g + [e], i.value)
  {
    InOrderAppend(g, e);
    LatestAppend(g, e, UserOf);
    if g == [] {
      assert g + [e] == [e];
    } else {
      SpanAppend(g, e);
      assert FirstSeen(g) <= LastSeen(g) <= e.ts;
    }
    if was.Some? {
      var r :| IsRunStart(g, r) && was.value.linked == g[r].ts;
      if e.user.None? || e.user == g[r].user {
        RunContinues(g, e, r);
      } else {
        RunBegins(g, e);
      }
    } else if e.user.Some? {
      RunBegins(g, e);
    }
  }

  lemma IdentitiesStep(s: Site, raw: seq<Event>, t: Tables, e: Event)
    requires IdentitiesMatch(s, raw, t.identities)
    requires VisitsTally(s, raw, t.visitors, false) && VisitsLinked(t.visitors, t.identities)
    ensures IdentitiesMatch(s, raw + [e], FoldIdentities(t, e))
  {
    IdentityAfter(t, e);
    var ids' := FoldIdentities(t, e);
    forall k
      ensures k in ids' <==> k.VisitorKey? && Latest(Group(s, raw + [e], k), UserOf).Some?
      ensures k in ids' && InOrder(Group(s, raw + [e], k)) ==> IdentityMatches(Group(s, raw + [e], k), ids'[k])
    {
      GroupStep(s, raw, e, k);
      var g := Group(s, raw, k);
      if k == VisitorOf(e) {
        LatestNoneAppend(g, e);
        if InOrder(g + [e]) {
          InOrderAppend(g, e);
          IdentityAppend(g, e, At(t.identities, k), At(t.visitors, k));
        }
      }
    }
  }

  // ---- linked_at ------------------------------------------------------------------------------

  /**
   The final user was linked, another user was linked after that, and every later row of
   the final user is strictly later than the first link.
   */
  ghost predicate Reassigned(g: seq<Event>, u: string) {
    exists i, j :: 0 <= i < j < |g| && g[i].user == Some(u) && g[j].user.Some? && g[j].user != Some(u)
      && (forall m :: j < m < |g| && g[m].user == Some(u) ==> g[i].ts < g[m].ts)
  }

  /** The rebuilt linked_at is at most every link to the user, and is one of them. */
  lemma RebuiltLink(g: seq<Event>, u: string)
    requires Latest(g, UserOf) == Some(u)
    ensures exists a :: 0 <= a < |g| && g[a].user == Some(u) && g[a].ts == IdentityOf(g).linked
    ensures forall a :: 0 <= a < |g| && g[a].user == Some(u) ==> IdentityOf(g).linked <= g[a].ts
  {
    var w := WithUser(g, u);
    LatestUserHasRows(g);
    var p :| 0 <= p < |w| && w[p].ts == FirstSeen(w);
    assert w[p] in g;
    var a :| 0 <= a < |g| && g[a] == w[p];
    forall b | 0 <= b < |g| && g[b].user == Some(u)
      ensures FirstSeen(w) <= g[b].ts
    {
      assert g[b] in w;
      var x :| 0 <= x < |w| && w[x] == g[b];
    }
  }

  /** No row of the final user lies between the last row of another user and the run it precedes. */
  lemma RunFollows(g: seq<Event>, r: int, m: int) returns (n: int)
    requires IsRunStart(g, r) && 0 <= m < r && g[m].user.Some? && g[m].user != g[r].user
    ensures m <= n < r && g[n].user.Some? && g[n].user != g[r].user
    ensures forall x :: n < x < r ==> g[x].user != g[r].user
  {
    n := r - 1;
    while n > m && (g[n].user.None? || g[n].user == g[r].user)
      invariant m <= n < r
      invariant forall x :: n < x < r ==> g[x].user.None? || g[x].user == g[r].user
    {
      n := n - 1;
    }
  }

  lemma EarlierLink(g: seq<Event>, u: string, r: int, a: int)
    requires InOrder(g) && IsRunStart(g, r) && g[r].user == Some(u)
    requires 0 <= a < |g| && g[a].user == Some(u) && g[a].ts < g[r].ts
    ensures Reassigned(g, u)
  {
    var m :| a < m < r && g[m].user.Some? && g[m].user != g[r].user;
    var j := RunFollows(g, r, m);
    forall x | j < x < |g| && g[x].user == Some(u)
      ensures g[a].ts < g[x].ts
    {
      assert r <= x;
    }
  }

  lemma FirstRowsVisitor(g: seq<Event>)
    requires g != [] && InOrder(g)
    ensures EarliestVisitor(g) == g[0].visitor
  {
    var f := (e: Event) => Some(e.visitor);
    assert f(g[0]).Some?;
  }

  lemma LastRowsValue<T>(g: seq<Event>, f: Event -> Option<T>)
    requires g != [] && InOrder(g) && f(g[|g| - 1]).Some?
    ensures Latest(g, f) == f(g[|g| - 1])
  {
    assert IsLatest(g, f, |g| - 1);
  }

  /** The incremental linked_at equals the rebuilt one unless the visitor came back to an earlier user. */
  lemma LinkedAtAgreesExactly(g: seq<Event>, i: Identity)
    requires InOrder(g) && IdentityMatches(g, i)
    ensures i.linked == IdentityOf(g).linked <==> !Reassigned(g, i.user)
  {
    var r :| IsRunStart(g, r) && i.linked == g[r].ts;
    RebuiltLink(g, i.user);
    if i.linked != IdentityOf(g).linked {
      var a :| 0 <= a < |g| && g[a].user == Some(i.user) && g[a].ts == IdentityOf(g).linked;
      EarlierLink(g, i.user, r, a);
    }
    if Reassigned(g, i.user) {
      var a, j :| 0 <= a < j < |g| && g[a].user == Some(i.user) && g[j].user.Some? && g[j].user != Some(i.user)
        && (forall m :: j < m < |g| && g[m].user == Some(i.user) ==> g[a].ts < g[m].ts);
      assert j < r;
    }
  }
}
