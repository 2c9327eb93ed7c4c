/**
 The order-sensitive columns after any arrival order, late events included. A group is in
 arrival order, so what a column holds is decided by which rows were the earliest, or the
 latest, so far when they arrived.
 */
module Late {
  import opened Wrappers
  import opened Events
  import opened Derived
  import opened Folds
  import opened Agreement
  import opened Ordered
  import opened Ingestion

  // ---- Rows that were extreme when they arrived ---------------------------------------------

  /** Row i was earlier than every row before it. */
  ghost predicate Lowest(g: seq<Event>, i: int) {
    0 <= i < |g| && forall j :: 0 <= j < i ==> g[i].ts < g[j].ts
  }

  /** Row i was no earlier than any row before it. */
  ghost predicate Highest(g: seq<Event>, i: int) {
    0 <= i < |g| && forall j :: 0 <= j < i ==> g[j].ts <= g[i].ts
  }

  ghost predicate Extreme(g: seq<Event>, i: int, low: bool) {
    if low then Lowest(g, i) else Highest(g, i)
  }

  /** v is the value of the last extreme row that has one; None when no extreme row does. */
  ghost predicate LastExtreme<T(!new)>(g: seq<Event>, f: Event -> Option<T>, low: bool, v: Option<T>) {
    if v.None? then forall i :: Extreme(g, i, low) ==> f(g[i]).None?
    else exists i :: Extreme(g, i, low) && f(g[i]) == v && forall j :: i < j && Extreme(g, j, low) ==> f(g[j]).None?
  }

  /** v is the value of the row that came first among those with one; None when no row has one. */
  ghost predicate FirstCome<T(!new)>(g: seq<Event>, f: Event -> Option<T>, v: Option<T>) {
    if v.None? then forall i :: 0 <= i < |g| ==> f(g[i]).None?
    else exists i :: 0 <= i < |g| && f(g[i]) == v && forall j :: 0 <= j < i ==> f(g[j]).None?
  }

  /** The last extreme row with a value has the say, and where there is none the row that came first. */
  ghost predicate Settled<T(!new)>(g: seq<Event>, f: Event -> Option<T>, low: bool, v: Option<T>) {
    (v.Some? && LastExtreme(g, f, low, v)) || (LastExtreme<T>(g, f, low, None) && FirstCome(g, f, v))
  }

  lemma ExtremeKept(g: seq<Event>, e: Event, i: int, low: bool)
    requires i < |g|
    ensures Extreme(g + [e], i, low) <==> Extreme(g, i, low)
  {
    assert forall j :: 0 <= j < |g| ==> (g + [e])[j] == g[j];
  }

  lemma NewExtreme(g: seq<Event>, e: Event, low: bool)
    ensures Extreme(g + [e], |g|, low) <==>
            g == [] || (if low then e.ts < FirstSeen(g) else e.ts >= LastSeen(g))
  {
    var h := g + [e];
    assert h[|g|] == e && forall j :: 0 <= j < |g| ==> h[j] == g[j];
    if g != [] {
      var a :| 0 <= a < |g| && g[a].ts == FirstSeen(g);
      var b :| 0 <= b < |g| && g[b].ts == LastSeen(g);
      assert h[a].ts == FirstSeen(g) && h[b].ts == LastSeen(g);
    }
  }

  /** One more row: it has the say if it is extreme and has a value. */
  lemma LastExtremeStep<T(!new)>(g: seq<Event>, e: Event, f: Event -> Option<T>, low: bool, v: Option<T>)
    requires LastExtreme(g, f, low, v)
    ensures LastExtreme(g + [e], f, low, if Extreme(g + [e], |g|, low) && f(e).Some? then f(e) else v)
  {
    hide Extreme;
    var h := g + [e];
    assert h[|g|] == e && forall j :: 0 <= j < |g| ==> h[j] == g[j];
    forall j | j < |g|
      ensures Extreme(h, j, low) <==> Extreme(g, j, low)
    {
      ExtremeKept(g, e, j, low);
    }
    InsideOnly(g, low);
    InsideOnly(h, low);
    if !(Extreme(h, |g|, low) && f(e).Some?) && v.Some? {
      var i :| Extreme(g, i, low) && f(g[i]) == v && forall j :: i < j && Extreme(g, j, low) ==> f(g[j]).None?;
      assert Extreme(h, i, low) && f(h[i]) == v;
    }
  }

  lemma InsideOnly(g: seq<Event>, low: bool)
    ensures forall i :: Extreme(g, i, low) ==> 0 <= i < |g|
  {
  }

  lemma FirstComeStep<T(!new)>(g: seq<Event>, e: Event, f: Event -> Option<T>, v: Option<T>)
    requires FirstCome(g, f, v)
    ensures FirstCome(g + [e], f, Coalesce(v, f(e)))
  {
    var h := g + [e];
    assert h[|g|] == e && forall j :: 0 <= j < |g| ==> h[j] == g[j];
    if v.Some? {
      var i :| 0 <= i < |g| && f(g[i]) == v && forall j :: 0 <= j < i ==> f(g[j]).None?;
      assert f(h[i]) == v;
    } else if f(e).Some? {
      assert f(h[|g|]) == f(e);
    }
  }

  lemma SettledStep<T(!new)>(g: seq<Event>, e: Event, f: Event -> Option<T>, low: bool, v: Option<T>)
    requires Settled(g, f, low, v)
    ensures Settled(g + [e], f, low,
                    if Extreme(g + [e], |g|, low) && f(e).Some? then f(e) else Coalesce(v, f(e)))
  {
    hide LastExtreme, FirstCome, Extreme;
    if v.Some? && LastExtreme(g, f, low, v) {
      LastExtremeStep(g, e, f, low, v);
    } else {
      LastExtremeStep(g, e, f, low, None);
      FirstComeStep(g, e, f, v);
    }
  }

  lemma NothingYet<T(!new)>(f: Event -> Option<T>, low: bool)
    ensures LastExtreme([], f, low, None) && FirstCome([], f, None)
  {
  }

  // ---- A session's journey ---------------------------------------------------------------------

  function PropIn(props: map<string, string>, key: string): Option<string> {
    if key in props then Some(props[key]) else None
  }

  /** What a session row remembers of its rows. */
  ghost predicate Remembers(g: seq<Event>, j: Journey) {
    && Settled(g, LandingOf, true, j.landing)
    && LastExtreme(g, LandingOf, false, j.exit)
    && FirstCome(g, SourceOf, j.source) && FirstCome(g, MediumOf, j.medium)
    && FirstCome(g, CampaignOf, j.campaign) && FirstCome(g, DeviceOf, j.device)
  }

  ghost predicate RemembersProps(g: seq<Event>, props: map<string, string>) {
    forall key :: Settled(g, PropOf(key), false, PropIn(props, key))
  }

  lemma RemembersFirst(e: Event)
    ensures Remembers([e], FirstJourney(e))
  {
    hide Settled, LastExtreme, FirstCome;
    assert [] + [e] == [e];
    NewExtreme([], e, true);
    NewExtreme([], e, false);
    NothingSettled(LandingOf, true);
    SettledStep([], e, LandingOf, true, None);
    NothingYet(LandingOf, false);
    LastExtremeStep([], e, LandingOf, false, None);
    NothingYet(SourceOf, false);
    FirstComeStep([], e, SourceOf, None);
    NothingYet(MediumOf, false);
    FirstComeStep([], e, MediumOf, None);
    NothingYet(CampaignOf, false);
    FirstComeStep([], e, CampaignOf, None);
    NothingYet(DeviceOf, false);
    FirstComeStep([], e, DeviceOf, None);
  }

  lemma NothingSettled<T(!new)>(f: Event -> Option<T>, low: bool)
    ensures Settled([], f, low, None)
  {
    hide LastExtreme, FirstCome;
    NothingYet(f, low);
  }

  lemma RemembersNext(g: seq<Event>, j: Journey, e: Event)
    requires g != [] && Remembers(g, j)
    ensures Remembers(g + [e], NextJourney(j, SpanOf(g), e))
  {
    hide Settled, LastExtreme, FirstCome;
    NewExtreme(g, e, true);
    NewExtreme(g, e, false);
    SettledStep(g, e, LandingOf, true, j.landing);
    LastExtremeStep(g, e, LandingOf, false, j.exit);
    FirstComeStep(g, e, SourceOf, j.source);
    FirstComeStep(g, e, MediumOf, j.medium);
    FirstComeStep(g, e, CampaignOf, j.campaign);
    FirstComeStep(g, e, DeviceOf, j.device);
  }

  lemma PropsFirst(e: Event)
    ensures RemembersProps([e], FirstJourney(e).props)
  {
    hide Settled;
    assert [] + [e] == [e];
    NewExtreme([], e, false);
    forall key
      ensures Settled([e], PropOf(key), false, PropIn(FirstJourney(e).props, key))
    {
      NothingSettled(PropOf(key), false);
      SettledStep([], e, PropOf(key), false, None);
    }
  }

  lemma PropsNext(g: seq<Event>, j: Journey, e: Event)
    requires g != [] && RemembersProps(g, j.props)
    ensures RemembersProps(g + [e], NextJourney(j, SpanOf(g), e).props)
  {
    hide Settled;
    NewExtreme(g, e, false);
    forall key
      ensures Settled(g + [e], PropOf(key), false, PropIn(NextJourney(j, SpanOf(g), e).props, key))
    {
      SettledStep(g, e, PropOf(key), false, PropIn(j.props, key));
    }
  }

  ghost predicate SessionsRemember(s: Site, raw: seq<Event>, m: map<Key, SessionRow>) {
    forall k :: k in m ==>
      Remembers(Group(s, raw, k), m[k].journey) && RemembersProps(Group(s, raw, k), m[k].journey.props)
  }

  lemma SessionsRememberStep(s: Site, raw: seq<Event>, m: map<Key, SessionRow>, e: Event, user: Option<string>)
    requires SessionsTally(s, raw, m) && SessionsRemember(s, raw, m)
    ensures SessionsRemember(s, raw + [e], FoldSessions(m, e, user, s.threshold(e.site)))
  {
    hide Remembers, RemembersProps, NextJourney, FirstJourney;
    var m' := FoldSessions(m, e, user, s.threshold(e.site));
    forall k | k in m'
      ensures Remembers(Group(s, raw + [e], k), m'[k].journey)
      ensures RemembersProps(Group(s, raw + [e], k), m'[k].journey.props)
    {
      GroupStep(s, raw, e, k);
      if k == SessionOf(e) {
        if k in m {
          RemembersNext(Group(s, raw, k), m[k].journey, e);
          PropsNext(Group(s, raw, k), m[k].journey, e);
        } else {
          RemembersFirst(e);
          PropsFirst(e);
        }
      }
    }
  }

  // ---- A visitor's properties ----------------------------------------------------------------------

  function NonEmpty(props: map<string, string>): Option<map<string, string>> {
    if props == map[] then None else Some(props)
  }

  /** The properties of a visitor row: those of the last row that was the latest so far and had any. */
  ghost predicate VisitsRemember(s: Site, raw: seq<Event>, m: map<Key, VisitorRow>) {
    forall k :: k in m ==> LastExtreme(Group(s, raw, k), UserPropsOf, false, NonEmpty(m[k].props))
  }

  lemma VisitRemembers(g: seq<Event>, e: Event, was: Option<VisitorRow>, user: Option<string>)
    requires was.None? <==> g == []
    requires was.Some? ==> was.value.tally.span.last == LastSeen(g)
    requires was.Some? ==> LastExtreme(g, UserPropsOf, false, NonEmpty(was.value.props))
    ensures LastExtreme(g + [e], UserPropsOf, false, NonEmpty(Visit(was, e, user).props))
  {
    hide LastExtreme;
    NewExtreme(g, e, false);
    if g == [] {
      NothingYet(UserPropsOf, false);
      LastExtremeStep([], e, UserPropsOf, false, None);
    } else {
      LastExtremeStep(g, e, UserPropsOf, false, NonEmpty(was.value.props));
    }
  }

  lemma VisitsRememberStep(s: Site, raw: seq<Event>, m: map<Key, VisitorRow>, e: Event, daily: bool,
                           link: Option<string>, user: Option<string>)
    requires VisitsTally(s, raw, m, daily) && VisitsRemember(s, raw, m)
    ensures VisitsRemember(s, raw + [e],
                           FoldVisits(m, if daily then DayVisitorOf(s, e) else VisitorOf(e), e, link, user))
  {
    hide LastExtreme, Visit;
    var key := if daily then DayVisitorOf(s, e) else VisitorOf(e);
    var m' := FoldVisits(m, key, e, link, user);
    forall k | k in m'
      ensures LastExtreme(Group(s, raw + [e], k), UserPropsOf, false, NonEmpty(m'[k].props))
    {
      GroupStep(s, raw, e, k);
      if k == key {
        VisitRemembers(Group(s, raw, k), e, At(RelinkVisits(m, e, link), k), user);
      }
    }
  }

  // ---- Identities ----------------------------------------------------------------------------------

  /** Row i is the visitor's first identified row, or came after it. */
  ghost predicate Since(g: seq<Event>, i: int) {
    0 <= i < |g| && exists a :: 0 <= a <= i && g[a].user.Some?
  }

  /** An identified row that was, when it came, no earlier than any row since the first identified one. */
  ghost predicate Accepted(g: seq<Event>, i: int) {
    0 <= i < |g| && g[i].user.Some? && forall j :: 0 <= j < i && Since(g, j) ==> g[j].ts <= g[i].ts
  }

  /** The user of the last accepted row. */
  ghost predicate LinkedUser(g: seq<Event>, u: string) {
    exists r :: Accepted(g, r) && g[r].user == Some(u) && forall j :: r < j ==> !Accepted(g, j)
  }

  /** t is when the last run of accepted rows of one user began. */
  ghost predicate LinkedSince(g: seq<Event>, u: string, t: int) {
    exists b :: Accepted(g, b) && g[b].ts == t
                && (forall j :: b <= j && Accepted(g, j) ==> g[j].user == Some(u))
                && (forall j :: j < b && Accepted(g, j) && g[j].user == Some(u) ==>
                      exists m :: j < m < b && Accepted(g, m) && g[m].user != Some(u))
  }

  /** t is the latest timestamp since the first identified row. */
  ghost predicate SeenLast(g: seq<Event>, t: int) {
    && (exists i :: Since(g, i) && g[i].ts == t)
    && (forall i :: Since(g, i) ==> g[i].ts <= t)
  }

  /** The rows an identity's first_seen looks at when row p is the last identified one. */
  function Before(g: seq<Event>, p: nat): (r: seq<Event>)
    requires p < |g|
    ensures r != []
  {
    if p == 0 then g[..1] else g[..p]
  }

  /** t is the earliest timestamp of the rows before the last identified one, or its own if it was the first row. */
  ghost predicate SeenFirst(g: seq<Event>, t: int) {
    exists p :: 0 <= p < |g| && g[p].user.Some? && (forall j :: p < j < |g| ==> g[j].user.None?)
                && t == FirstSeen(Before(g, p))
  }

  ghost predicate Linked(g: seq<Event>, i: Identity) {
    LinkedUser(g, i.user) && LinkedSince(g, i.user, i.linked) && SeenLast(g, i.last) && SeenFirst(g, i.first)
  }

  ghost predicate Unidentified(g: seq<Event>) {
    forall i :: 0 <= i < |g| ==> g[i].user.None?
  }

  lemma SinceKept(g: seq<Event>, e: Event)
    ensures forall i :: i < |g| ==> (Since(g + [e], i) <==> Since(g, i))
    ensures Since(g + [e], |g|) <==> !Unidentified(g) || e.user.Some?
  {
    var h := g + [e];
    assert h[|g|] == e && forall j :: 0 <= j < |g| ==> h[j] == g[j];
  }

  lemma AcceptedKept(g: seq<Event>, e: Event)
    ensures forall i :: i < |g| ==> (Accepted(g + [e], i) <==> Accepted(g, i))
    ensures Accepted(g + [e], |g|) <==> e.user.Some? && forall j :: Since(g, j) ==> g[j].ts <= e.ts
    ensures forall i :: Accepted(g, i) ==> 0 <= i < |g| && (g + [e])[i] == g[i]
    ensures (g + [e])[|g|] == e
  {
    hide Since;
    var h := g + [e];
    SinceKept(g, e);
    SinceInside(g);
    assert h[|g|] == e && forall j :: 0 <= j < |g| ==> h[j] == g[j];
  }

  lemma SinceInside(g: seq<Event>)
    ensures forall i :: Since(g, i) ==> 0 <= i < |g|
    ensures Unidentified(g) <==> forall i :: !Since(g, i)
    ensures forall i :: 0 <= i < |g| && g[i].user.Some? ==> Since(g, i)
  {
    forall i | 0 <= i < |g| && g[i].user.Some?
      ensures Since(g, i)
    {
    }
  }

  lemma UserStep(g: seq<Event>, e: Event, was: Option<string>)
    requires match was case None => Unidentified(g) case Some(u) => LinkedUser(g, u)
    ensures var now := if Accepted(g + [e], |g|) then e.user else was;
            now.Some? ==> LinkedUser(g + [e], now.value)
  {
    hide Accepted;
    AcceptedKept(g, e);
    AcceptedInside(g + [e]);
    if !Accepted(g + [e], |g|) && was.Some? {
      var r :| Accepted(g, r) && g[r].user == was && forall j :: r < j ==> !Accepted(g, j);
      assert Accepted(g + [e], r);
    }
  }

  lemma AcceptedInside(g: seq<Event>)
    ensures forall i :: Accepted(g, i) ==> 0 <= i < |g| && g[i].user.Some?
  {
  }

  /** A new accepted row of another user begins a run. */
  lemma LinkBegins(g: seq<Event>, e: Event, u: string)
    requires LinkedUser(g, u) && Accepted(g + [e], |g|) && e.user != Some(u)
    ensures LinkedSince(g + [e], e.user.value, e.ts)
  {
    hide Accepted;
    var h := g + [e];
    AcceptedKept(g, e);
    AcceptedInside(h);
    var r :| Accepted(g, r) && g[r].user == Some(u) && forall j :: r < j ==> !Accepted(g, j);
    forall j | j < |g| && Accepted(h, j) && h[j].user == e.user
      ensures exists m :: j < m < |g| && Accepted(h, m) && h[m].user != e.user
    {
      assert j <= r && j != r && Accepted(h, r) && h[r].user != e.user;
    }
  }

  /** One of the same user continues the last run, and so does a row that is not accepted. */
  lemma LinkGoesOn(g: seq<Event>, e: Event, u: string, t: int)
    requires LinkedSince(g, u, t) && (Accepted(g + [e], |g|) ==> e.user == Some(u))
    ensures LinkedSince(g + [e], u, t)
  {
    hide Accepted;
    var h := g + [e];
    AcceptedKept(g, e);
    AcceptedInside(h);
    var b :| Accepted(g, b) && g[b].ts == t
             && (forall j :: b <= j && Accepted(g, j) ==> g[j].user == Some(u))
             && (forall j :: j < b && Accepted(g, j) && g[j].user == Some(u) ==>
                   exists m :: j < m < b && Accepted(g, m) && g[m].user != Some(u));
    forall j | j < b && Accepted(h, j) && h[j].user == Some(u)
      ensures exists m :: j < m < b && Accepted(h, m) && h[m].user != Some(u)
    {
      var m :| j < m < b && Accepted(g, m) && g[m].user != Some(u);
      assert Accepted(h, m) && h[m].user != Some(u);
    }
    assert Accepted(h, b) && h[b].ts == t;
  }

  lemma LinkOpens(g: seq<Event>, e: Event)
    requires Unidentified(g) && e.user.Some?
    ensures LinkedSince(g + [e], e.user.value, e.ts) && Accepted(g + [e], |g|)
  {
    hide Since;
    AcceptedKept(g, e);
    SinceInside(g);
    AcceptedInside(g);
  }

  lemma LastStep(g: seq<Event>, e: Event, was: Option<int>)
    requires match was case None => Unidentified(g) case Some(t) => SeenLast(g, t)
    requires was.Some? || e.user.Some?
    ensures SeenLast(g + [e], match was case None => e.ts case Some(t) => Max(t, e.ts))
    ensures Accepted(g + [e], |g|) <==> e.user.Some? && (was.Some? ==> e.ts >= was.value)
  {
    hide Since, Accepted;
    var h := g + [e];
    assert h[|g|] == e && forall j :: 0 <= j < |g| ==> h[j] == g[j];
    SinceKept(g, e);
    SinceInside(g);
    SinceInside(h);
    AcceptedKept(g, e);
    if was.Some? {
      var i :| Since(g, i) && g[i].ts == was.value;
      assert Since(h, i) && Since(h, |g|);
    } else {
      assert Since(h, |g|);
    }
  }

  lemma FirstStays(g: seq<Event>, e: Event, t: int)
    requires SeenFirst(g, t) && e.user.None?
    ensures SeenFirst(g + [e], t)
  {
    hide FirstSeen;
    var h := g + [e];
    var p :| 0 <= p < |g| && g[p].user.Some? && (forall j :: p < j < |g| ==> g[j].user.None?)
             && t == FirstSeen(Before(g, p));
    assert h[p] == g[p] && Before(h, p) == Before(g, p);
    forall j | p < j < |h|
      ensures h[j].user.None?
    {
      assert h[j] == if j < |g| then g[j] else e;
    }
  }

  lemma FirstMoves(g: seq<Event>, e: Event)
    requires e.user.Some?
    ensures SeenFirst(g + [e], if g == [] then e.ts else FirstSeen(g))
  {
    var h := g + [e];
    assert h[|g|] == e && Before(h, |g|) == if g == [] then [e] else g;
  }

  lemma FirstStep(g: seq<Event>, e: Event, was: Option<int>)
    requires match was case None => Unidentified(g) case Some(t) => SeenFirst(g, t)
    requires was.Some? || e.user.Some?
    ensures var seen := if g == [] then e.ts else FirstSeen(g);
            SeenFirst(g + [e], if e.user.None? then was.value else if was.None? then seen else Min(was.value, seen))
  {
    hide SeenFirst, FirstSeen;
    if e.user.None? {
      FirstStays(g, e, was.value);
    } else {
      FirstMoves(g, e);
      if was.Some? {
        FirstBounded(g, was.value);
      }
    }
  }

  lemma FirstBounded(g: seq<Event>, t: int)
    requires SeenFirst(g, t)
    ensures g != [] && FirstSeen(g) <= t
  {
    hide FirstSeen;
    var p :| 0 <= p < |g| && g[p].user.Some? && t == FirstSeen(Before(g, p));
    PrefixFirst(g, if p == 0 then 1 else p);
  }

  lemma PrefixFirst(g: seq<Event>, n: nat)
    requires 0 < n <= |g|
    ensures FirstSeen(g) <= FirstSeen(g[..n])
  {
    var i :| 0 <= i < n && g[..n][i].ts == FirstSeen(g[..n]);
    assert g[i].ts == FirstSeen(g[..n]);
  }

  lemma IdentityStays(g: seq<Event>, e: Event, was: Option<Identity>, visitor: Option<VisitorRow>)
    requires match was case None => Unidentified(g) case Some(i) => Linked(g, i)
    requires visitor.None? <==> g == []
    requires visitor.Some? ==> visitor.value.tally.span.first == FirstSeen(g)
    ensures match Touched(Identified(was, visitor, e), e.ts)
            case None => Unidentified(g + [e])
            case Some(i) => Linked(g + [e], i)
  {
    hide LinkedUser, LinkedSince, SeenLast, SeenFirst, Accepted;
    if was.None? && e.user.None? {
      StillUnidentified(g, e);
    } else {
      LastStep(g, e, if was.Some? then Some(was.value.last) else None);
      FirstStep(g, e, if was.Some? then Some(was.value.first) else None);
      UserStep(g, e, UserIn(was));
      if was.Some? {
        if Accepted(g + [e], |g|) && e.user != Some(was.value.user) {
          LinkBegins(g, e, was.value.user);
        } else {
          LinkGoesOn(g, e, was.value.user, was.value.linked);
        }
        LinkNotAfter(g, was.value);
      } else {
        LinkOpens(g, e);
      }
    }
  }

  lemma StillUnidentified(g: seq<Event>, e: Event)
    requires Unidentified(g) && e.user.None?
    ensures Unidentified(g + [e])
  {
  }

  lemma LinkNotAfter(g: seq<Event>, i: Identity)
    requires Linked(g, i)
    ensures i.linked <= i.last
  {
    hide Since, LinkedUser, SeenFirst;
    SinceInside(g);
  }

  ghost predicate IdentitiesRemember(s: Site, raw: seq<Event>, ids: map<Key, Identity>) {
    forall k :: if k in ids then k.VisitorKey? && Linked(Group(s, raw, k), ids[k])
                else k.VisitorKey? ==> Unidentified(Group(s, raw, k))
  }

  lemma IdentitiesRememberStep(s: Site, raw: seq<Event>, t: Tables, e: Event)
    requires VisitsTally(s, raw, t.visitors, false) && VisitsLinked(t.visitors, t.identities)
    requires IdentitiesRemember(s, raw, t.identities)
    ensures IdentitiesRemember(s, raw + [e], FoldIdentities(t, e))
  {
    hide Linked, Unidentified;
    IdentityAfter(t, e);
    var ids' := FoldIdentities(t, e);
    forall k
      ensures if k in ids' then k.VisitorKey? && Linked(Group(s, raw + [e], k), ids'[k])
              else k.VisitorKey? ==> Unidentified(Group(s, raw + [e], k))
    {
      GroupStep(s, raw, e, k);
      if k == VisitorOf(e) {
        IdentityStays(Group(s, raw, k), e, At(t.identities, k), At(t.visitors, k));
      }
    }
  }

  // ---- Every arrival order -----------------------------------------------------------------------

  ghost predicate Remembered(s: Site, raw: seq<Event>, t: Tables) {
    && SessionsRemember(s, raw, t.sessions)
    && VisitsRemember(s, raw, t.visitors) && VisitsRemember(s, raw, t.dayVisitors)
    && IdentitiesRemember(s, raw, t.identities)
  }

  lemma RememberedStep(s: Site, raw: seq<Event>, t: Tables, e: Event)
    requires Kept(s, raw, t) && Remembered(s, raw, t)
    ensures Remembered(s, raw + [e], Fold(s, t, e))
  {
    hide VisitsTally, SessionsTally, VisitorSessionsTally, DaySessionsTally, DaysTally, SessionsNamed, DaySessionsNamed,
         SessionsNameLast, DaySessionsNameLast, VisitsProps, SessionsJourney, IdentitiesMatch, FoldVisits, FoldSessions,
         FoldVisitorSessions, FoldDaySessions, FoldDays, FoldIdentities, Link, Relinked, SessionsRemember,
         VisitsRemember, IdentitiesRemember, VisitsLinked, VisitorSessionsLinked;
    var link, user := Link(t, e), Canonical(t, e);
    SessionsRememberStep(s, raw, t.sessions, e, user);
    VisitsRememberStep(s, raw, t.visitors, e, false, link, Coalesce(link, e.user));
    VisitsRememberStep(s, raw, t.dayVisitors, e, true, link, user);
    IdentitiesRememberStep(s, raw, t, e);
  }

  lemma NothingRemembered(s: Site)
    ensures Remembered(s, [], NO_TABLES)
  {
  }

  /** However the events arrive, every session, visitor and identity row is decided by which rows were extreme when. */
  lemma {:induction false} RememberedAlways(s: Site, raw: seq<Event>)
    ensures Remembered(s, raw, FoldAll(s, raw))
  {
    hide Kept, Remembered, Fold;
    if raw == [] {
      NothingRemembered(s);
    } else {
      var prefix, e := raw[..|raw| - 1], raw[|raw| - 1];
      assert raw == prefix + [e];
      RememberedAlways(s, prefix);
      KeptAlways(s, prefix);
      RememberedStep(s, prefix, FoldAll(s, prefix), e);
    }
  }

  /** Row i is the last by timestamp and, among equal timestamps, by arrival. */
  ghost predicate Newest(g: seq<Event>, i: int) {
    && 0 <= i < |g|
    && forall j :: 0 <= j < |g| ==> g[j].ts < g[i].ts || (g[j].ts == g[i].ts && j <= i)
  }

  lemma NewestHasTheSay<T(!new)>(g: seq<Event>, f: Event -> Option<T>, i: int, v: Option<T>)
    requires Newest(g, i) && f(g[i]).Some?
    requires LastExtreme(g, f, false, v) || Settled(g, f, false, v)
    ensures v == f(g[i])
  {
    assert Extreme(g, i, false);
  }

  lemma OldestHasTheSay<T(!new)>(g: seq<Event>, f: Event -> Option<T>, i: int, v: Option<T>)
    requires 0 <= i < |g| && f(g[i]).Some? && forall j :: 0 <= j < |g| && j != i ==> g[i].ts < g[j].ts
    requires Settled(g, f, true, v)
    ensures v == f(g[i])
  {
    assert Extreme(g, i, true);
  }

  lemma SessionsRemembered(s: Site, raw: seq<Event>, k: Key)
    requires k in FoldAll(s, raw).sessions
    ensures var j := FoldAll(s, raw).sessions[k].journey;
            Remembers(Group(s, raw, k), j) && RemembersProps(Group(s, raw, k), j.props)
  {
    hide FoldAll, Remembers, RemembersProps, VisitsRemember, IdentitiesRemember, Group;
    RememberedAlways(s, raw);
  }

  /** If a session's strictly earliest row is a page view with an address, the landing page is that address. */
  lemma EarliestPageIsLanding(s: Site, raw: seq<Event>, k: Key, i: int)
    requires k in FoldAll(s, raw).sessions
    requires var g := Group(s, raw, k);
             && 0 <= i < |g| && g[i].name == "page_view" && g[i].page.Some?
             && forall j :: 0 <= j < |g| && j != i ==> g[i].ts < g[j].ts
    ensures FoldAll(s, raw).sessions[k].journey.landing == Group(s, raw, k)[i].page
  {
    hide FoldAll, Group, Settled, LastExtreme, FirstCome, RemembersProps;
    SessionsRemembered(s, raw, k);
    OldestHasTheSay(Group(s, raw, k), LandingOf, i, FoldAll(s, raw).sessions[k].journey.landing);
  }

  /**
   If a session's last row by timestamp and arrival is a page view with an address, the exit page is that
   address; and every property that row carries has its value.
   */
  lemma LatestRowIsExit(s: Site, raw: seq<Event>, k: Key, i: int)
    requires k in FoldAll(s, raw).sessions && Newest(Group(s, raw, k), i)
    ensures var last, j := Group(s, raw, k)[i], FoldAll(s, raw).sessions[k].journey;
            && (last.name == "page_view" && last.page.Some? ==> j.exit == last.page)
            && forall key :: key in last.sessionProps ==> key in j.props && j.props[key] == last.sessionProps[key]
  {
    hide FoldAll, Group, Settled, LastExtreme, FirstCome, Newest;
    SessionsRemembered(s, raw, k);
    var g, j := Group(s, raw, k), FoldAll(s, raw).sessions[k].journey;
    assert 0 <= i < |g| by { NewestInside(g, i); }
    if LandingOf(g[i]).Some? {
      NewestHasTheSay(g, LandingOf, i, j.exit);
    }
    forall key | key in g[i].sessionProps
      ensures key in j.props && j.props[key] == g[i].sessionProps[key]
    {
      NewestHasTheSay(g, PropOf(key), i, PropIn(j.props, key));
    }
  }

  lemma NewestInside(g: seq<Event>, i: int)
    requires Newest(g, i)
    ensures 0 <= i < |g|
  {
  }

  /** If a visitor's last row by timestamp and arrival carries properties, the visitor has exactly those. */
  lemma LatestPropsStay(s: Site, raw: seq<Event>, k: Key, i: int)
    requires Newest(Group(s, raw, k), i) && Group(s, raw, k)[i].userProps != map[]
    ensures k in FoldAll(s, raw).visitors ==> FoldAll(s, raw).visitors[k].props == Group(s, raw, k)[i].userProps
    ensures k in FoldAll(s, raw).dayVisitors ==> FoldAll(s, raw).dayVisitors[k].props == Group(s, raw, k)[i].userProps
  {
    hide FoldAll, Group, LastExtreme, Newest, SessionsRemember, IdentitiesRemember;
    RememberedAlways(s, raw);
    var t := FoldAll(s, raw);
    if k in t.visitors {
      NewestHasTheSay(Group(s, raw, k), UserPropsOf, i, NonEmpty(t.visitors[k].props));
    }
    if k in t.dayVisitors {
      NewestHasTheSay(Group(s, raw, k), UserPropsOf, i, NonEmpty(t.dayVisitors[k].props));
    }
  }

  lemma NewestIsLinked(g: seq<Event>, i: int)
    requires Newest(g, i) && g[i].user.Some?
    ensures !Unidentified(g)
    ensures forall u :: LinkedUser(g, u) ==> g[i].user == Some(u)
  {
    hide Since;
    SinceInside(g);
    assert Accepted(g, i);
  }

  /** If a visitor's last row by timestamp and arrival is identified, the visitor is linked to its user. */
  lemma LatestUserStays(s: Site, raw: seq<Event>, k: Key, i: int)
    requires k.VisitorKey? && Newest(Group(s, raw, k), i) && Group(s, raw, k)[i].user.Some?
    ensures k in FoldAll(s, raw).identities
    ensures Some(FoldAll(s, raw).identities[k].user) == Group(s, raw, k)[i].user
  {
    hide FoldAll, Group, SessionsRemember, VisitsRemember, LinkedUser, LinkedSince, SeenLast, SeenFirst, Newest,
         Unidentified;
    RememberedAlways(s, raw);
    NewestIsLinked(Group(s, raw, k), i);
  }
}
