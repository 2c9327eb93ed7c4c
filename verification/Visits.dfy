/**
 The grouping of one timeline page into visits.
 */
module Visits {

  datatype Event = Event(visitor: string, session: string, at: int, pageView: bool, url: string, conversion: bool)

  datatype Visit = Visit(
    visitor: string, session: string, startedAt: int, endedAt: int,
    pageViews: nat, conversions: nat, landing: string, exit: string, events: seq<Event>)

  function KeyOf(e: Event): string {
    e.visitor + "|" + e.session
  }

  /** The events of one key, in the order given. */
  function Under(es: seq<Event>, key: string): seq<Event> {
    if es == [] then []
    else Under(es[..|es| - 1], key) + if KeyOf(es[|es| - 1]) == key then [es[|es| - 1]] else []
  }

  function PageViews(es: seq<Event>): nat {
    if es == [] then 0 else PageViews(es[..|es| - 1]) + if es[|es| - 1].pageView then 1 else 0
  }

  function Conversions(es: seq<Event>): nat {
    if es == [] then 0 else Conversions(es[..|es| - 1]) + if es[|es| - 1].conversion then 1 else 0
  }

  /** The first page viewed that has an address. */
  function Landing(es: seq<Event>): string {
    if es == [] then ""
    else
      var first := Landing(es[..|es| - 1]);
      if first == "" && es[|es| - 1].pageView then es[|es| - 1].url else first
  }

  /** The last page viewed. */
  function Exit(es: seq<Event>): string {
    if es == [] then "" else if es[|es| - 1].pageView then es[|es| - 1].url else Exit(es[..|es| - 1])
  }

  /** What a visit says, from its events oldest first. */
  function VisitOf(es: seq<Event>): Visit
    requires es != []
  {
    Visit(es[0].visitor, es[0].session, es[0].at, es[|es| - 1].at, PageViews(es), Conversions(es), Landing(es),
          Exit(es), es)
  }

  function Reversed(es: seq<Event>): (r: seq<Event>)
    ensures |r| == |es| && forall i :: 0 <= i < |es| ==> r[i] == es[|es| - 1 - i]
  {
    seq(|es|, i requires 0 <= i < |es| => es[|es| - 1 - i])
  }

  /** The visits built from the oldest events es, in the order they began. */
  ghost predicate Grouped(es: seq<Event>, order: seq<string>, visits: map<string, Visit>) {
    && (forall key :: key in visits <==> Under(es, key) != [])
    && (forall key :: key in visits && Under(es, key) != [] ==> visits[key] == VisitOf(Under(es, key)))
    && (forall i, j :: 0 <= i < j < |order| ==> order[i] != order[j])
    && (forall key :: key in visits <==> key in order)
  }

  lemma UnderAppend(es: seq<Event>, e: Event, key: string)
    ensures Under(es + [e], key) == if KeyOf(e) == key then Under(es, key) + [e] else Under(es, key)
  {
    assert (es + [e])[..|es|] == es;
  }

  /** One more event of a visit already begun. */
  function Extended(v: Visit, e: Event): Visit {
    v.(pageViews := v.pageViews + if e.pageView then 1 else 0,
       conversions := v.conversions + if e.conversion then 1 else 0,
       landing := if e.pageView && v.landing == "" then e.url else v.landing,
       exit := if e.pageView then e.url else v.exit,
       endedAt := e.at,
       events := v.events + [e])
  }

  function Begun(e: Event): Visit {
    Visit(e.visitor, e.session, e.at, e.at, 0, 0, "", "", [])
  }

  lemma ExtendedIsVisit(es: seq<Event>, e: Event)
    ensures es != [] ==> Extended(VisitOf(es), e) == VisitOf(es + [e])
    ensures es == [] ==> Extended(Begun(e), e) == VisitOf([e])
  {
    if es == [] {
      assert [e][..|[e]| - 1] == [];
      assert PageViews([e]) == (if e.pageView then 1 else 0) && Conversions([e]) == (if e.conversion then 1 else 0);
      assert Landing([e]) == Exit([e]) == if e.pageView then e.url else "";
    } else {
      assert (es + [e])[..|es|] == es;
    }
  }

  /** One turn of the loop: the event is added to its visit. */
  method Put(e: Event, order: seq<string>, visits: map<string, Visit>)
    returns (order': seq<string>, visits': map<string, Visit>)
    ensures var key := KeyOf(e);
            && order' == (if key in visits then order else order + [key])
            && visits' == visits[key := Extended(if key in visits then visits[key] else Begun(e), e)]
  {
    order' := order;
    var key := KeyOf(e);
    var visit := Begun(e);
    if key in visits {
      visit := visits[key];
    } else {
      order' := order' + [key];
    }
    if e.pageView {
      visit := visit.(pageViews := visit.pageViews + 1);
      if visit.landing == "" {
        visit := visit.(landing := e.url);
      }
      visit := visit.(exit := e.url);
    }
    if e.conversion {
      visit := visit.(conversions := visit.conversions + 1);
    }
    visit := visit.(endedAt := e.at, events := visit.events + [e]);
    visits' := visits[key := visit];
  }

  /** The loop over the page, from its oldest event to its newest. */
  method Group(page: seq<Event>) returns (order: seq<string>, visits: map<string, Visit>)
    ensures Grouped(Reversed(page), order, visits)
  {
    order, visits := [], map[];
    ghost var es := Reversed(page);
    var index := |page|;
    while index > 0
      invariant 0 <= index <= |page|
      invariant Grouped(es[..|page| - index], order, visits)
    {
      hide Grouped, Extended, Begun, KeyOf;
      index := index - 1;
      ghost var done := es[..|page| - index - 1];
      assert es[..|page| - index] == done + [page[index]];
      GroupedStep(done, page[index], order, visits);
      order, visits := Put(page[index], order, visits);
    }
    assert es[..|page|] == es;
  }

  lemma GroupedStep(es: seq<Event>, e: Event, order: seq<string>, visits: map<string, Visit>)
    requires Grouped(es, order, visits)
    ensures var key := KeyOf(e);
            Grouped(es + [e], if key in visits then order else order + [key],
                    visits[key := Extended(if key in visits then visits[key] else Begun(e), e)])
  {
    hide Under, VisitOf, Extended, Begun;
    var key := KeyOf(e);
    var order' := if key in visits then order else order + [key];
    var visits' := visits[key := Extended(if key in visits then visits[key] else Begun(e), e)];
    ExtendedIsVisit(Under(es, key), e);
    assert [] + [e] == [e];
    forall k
      ensures k in visits' <==> Under(es + [e], k) != []
      ensures k in visits' && Under(es + [e], k) != [] ==> visits'[k] == VisitOf(Under(es + [e], k))
      ensures k in visits' <==> k in order'
    {
      UnderAppend(es, e, k);
    }
  }

  function EventsIn(order: seq<string>, es: seq<Event>): nat {
    if order == [] then 0 else |Under(es, order[|order| - 1])| + EventsIn(order[..|order| - 1], es)
  }

  lemma {:induction false} CountedOnce(es: seq<Event>, e: Event, order: seq<string>)
    requires forall i, j :: 0 <= i < j < |order| ==> order[i] != order[j]
    ensures EventsIn(order, es + [e]) == EventsIn(order, es) + if KeyOf(e) in order then 1 else 0
  {
    if order != [] {
      var init, last := order[..|order| - 1], order[|order| - 1];
      assert order == init + [last];
      assert forall i :: 0 <= i < |init| ==> init[i] == order[i];
      CountedOnce(es, e, init);
      UnderAppend(es, e, last);
    }
  }

  /** The visits share out the page: every event is in one of them, once. */
  lemma {:induction false} VisitsShareOutPage(es: seq<Event>, order: seq<string>)
    requires forall i, j :: 0 <= i < j < |order| ==> order[i] != order[j]
    requires forall i :: 0 <= i < |es| ==> KeyOf(es[i]) in order
    ensures EventsIn(order, es) == |es|
  {
    if es == [] {
      NothingIn(order);
    } else {
      var init, last := es[..|es| - 1], es[|es| - 1];
      assert es == init + [last];
      assert forall i :: 0 <= i < |init| ==> init[i] == es[i];
      VisitsShareOutPage(init, order);
      CountedOnce(init, last, order);
    }
  }

  lemma {:induction false} NothingIn(order: seq<string>)
    ensures EventsIn(order, []) == 0
  {
    if order != [] {
      NothingIn(order[..|order| - 1]);
    }
  }

  // ---- What a visit says, event by event ------------------------------------------------------------

  /** Row i is the first page view with an address. */
  ghost predicate FirstPage(es: seq<Event>, i: int) {
    && 0 <= i < |es| && es[i].pageView && es[i].url != ""
    && forall j :: 0 <= j < i && es[j].pageView ==> es[j].url == ""
  }

  /** Row i is the last page view. */
  ghost predicate LastPage(es: seq<Event>, i: int) {
    0 <= i < |es| && es[i].pageView && forall j :: i < j < |es| ==> !es[j].pageView
  }

  lemma {:induction false} LandingIsFirstPage(es: seq<Event>)
    ensures if Landing(es) == "" then forall i :: 0 <= i < |es| && es[i].pageView ==> es[i].url == ""
            else exists i :: FirstPage(es, i) && es[i].url == Landing(es)
  {
    if es != [] {
      var init, last := es[..|es| - 1], |es| - 1;
      LandingIsFirstPage(init);
      assert forall i :: 0 <= i < last ==> init[i] == es[i];
      if i :| FirstPage(init, i) && init[i].url == Landing(init) {
        assert FirstPage(es, i);
      }
      if Landing(init) == "" && es[last].pageView && es[last].url != "" {
        assert FirstPage(es, last);
      }
    }
  }

  lemma {:induction false} ExitIsLastPage(es: seq<Event>)
    ensures (exists i :: LastPage(es, i) && es[i].url == Exit(es))
            || (Exit(es) == "" && forall i :: 0 <= i < |es| ==> !es[i].pageView)
  {
    if es != [] {
      var init, last := es[..|es| - 1], |es| - 1;
      ExitIsLastPage(init);
      assert forall i :: 0 <= i < last ==> init[i] == es[i];
      if es[last].pageView {
        assert LastPage(es, last);
      } else if i :| LastPage(init, i) && init[i].url == Exit(init) {
        assert LastPage(es, i);
      }
    }
  }

  /** The positions of the page views, and of the conversions. */
  ghost function ViewedAt(es: seq<Event>): set<nat> {
    set i: nat | i < |es| && es[i].pageView
  }

  lemma {:induction false} ViewsAreCounted(es: seq<Event>)
    ensures PageViews(es) == |ViewedAt(es)|
  {
    if es == [] {
      assert ViewedAt(es) == {};
    } else {
      var init, last := es[..|es| - 1], |es| - 1;
      ViewsAreCounted(init);
      if es[last].pageView {
        assert ViewedAt(es) == ViewedAt(init) + {last};
      } else {
        assert ViewedAt(es) == ViewedAt(init);
      }
    }
  }

  ghost function ConvertedAt(es: seq<Event>): set<nat> {
    set i: nat | i < |es| && es[i].conversion
  }

  lemma {:induction false} ConversionsAreCounted(es: seq<Event>)
    ensures Conversions(es) == |ConvertedAt(es)|
  {
    if es == [] {
      assert ConvertedAt(es) == {};
    } else {
      var init, last := es[..|es| - 1], |es| - 1;
      ConversionsAreCounted(init);
      if es[last].conversion {
        assert ConvertedAt(es) == ConvertedAt(init) + {last};
      } else {
        assert ConvertedAt(es) == ConvertedAt(init);
      }
    }
  }

  /**
   A visit built from the oldest events es: the times of its first and last event, how many of its
   events view a page and convert, the address of its first page view that has one, and that of
   its last page view.
   */
  lemma VisitSays(es: seq<Event>, order: seq<string>, visits: map<string, Visit>, key: string)
    requires Grouped(es, order, visits) && key in visits
    ensures var v := visits[key];
            var mine := v.events;
            && mine != [] && mine == Under(es, key)
            && v.visitor == mine[0].visitor && v.session == mine[0].session
            && v.startedAt == mine[0].at && v.endedAt == mine[|mine| - 1].at
            && v.pageViews == |ViewedAt(mine)|
            && v.conversions == |ConvertedAt(mine)|
            && (if v.landing == "" then forall i :: 0 <= i < |mine| && mine[i].pageView ==> mine[i].url == ""
                else exists i :: FirstPage(mine, i) && mine[i].url == v.landing)
            && ((exists i :: LastPage(mine, i) && mine[i].url == v.exit)
                || (v.exit == "" && forall i :: 0 <= i < |mine| ==> !mine[i].pageView))
  {
    hide Under, Landing, Exit, PageViews, Conversions, FirstPage, LastPage;
    var mine := Under(es, key);
    LandingIsFirstPage(mine);
    ExitIsLastPage(mine);
    ViewsAreCounted(mine);
    ConversionsAreCounted(mine);
  }

  // ---- Keys ---------------------------------------------------------------------------------------------

  lemma SameLengthKeys(v: string, s: string, v': string, s': string)
    requires |v| == |v'| && v + "|" + s == v' + "|" + s'
    ensures v == v' && s == s'
  {
    var key := v + "|" + s;
    assert v == key[..|v|] && v' == key[..|v'|];
    assert s == key[|v| + 1..] && s' == key[|v'| + 1..];
  }

  lemma TextsMeetExactly(v: string, s: string, v': string, s': string)
    requires |v| <= |v'| && (v != v' || s != s')
    ensures v + "|" + s == v' + "|" + s' <==> exists x :: v' == v + "|" + x && s == x + "|" + s'
  {
    if v + "|" + s == v' + "|" + s' {
      if |v| == |v'| {
        SameLengthKeys(v, s, v', s');
      } else {
        var key := v' + "|" + s';
        assert v' == key[..|v'|] && v == key[..|v|];
        var x := v'[|v| + 1..];
        assert key[|v|] == '|';
        assert v' == v + "|" + x;
        assert s == key[|v| + 1..];
        assert s == x + "|" + s';
      }
    }
    if x :| v' == v + "|" + x && s == x + "|" + s' {
      assert v + "|" + (x + "|" + s') == (v + "|" + x) + "|" + s';
    }
  }

  /**
   Two events of different visits go under one key exactly when one's visitor id runs on through
   the separator into the other's session id.
   */
  lemma KeysMeetExactly(a: Event, b: Event)
    requires |a.visitor| <= |b.visitor| && (a.visitor != b.visitor || a.session != b.session)
    ensures KeyOf(a) == KeyOf(b) <==>
            exists x :: b.visitor == a.visitor + "|" + x && a.session == x + "|" + b.session
  {
    TextsMeetExactly(a.visitor, a.session, b.visitor, b.session);
  }

  lemma SeparatorInside(v: string, x: string)
    ensures '|' in v + "|" + x
  {
    assert (v + "|" + x)[|v|] == '|';
  }

  /** Events whose visitor ids are without the separator share a key exactly when visitor and session are the same. */
  lemma PlainVisitorsNeverMeet(a: Event, b: Event)
    requires '|' !in a.visitor && '|' !in b.visitor
    ensures KeyOf(a) == KeyOf(b) <==> a.visitor == b.visitor && a.session == b.session
  {
    if a.visitor != b.visitor || a.session != b.session {
      forall x
        ensures b.visitor != a.visitor + "|" + x && a.visitor != b.visitor + "|" + x
      {
        SeparatorInside(a.visitor, x);
        SeparatorInside(b.visitor, x);
      }
      if |a.visitor| <= |b.visitor| {
        KeysMeetExactly(a, b);
      } else {
        KeysMeetExactly(b, a);
      }
    }
  }

  lemma {:induction false} UnderMembers(es: seq<Event>, key: string)
    ensures forall e :: e in Under(es, key) <==> e in es && KeyOf(e) == key
  {
    if es != [] {
      var init, last := es[..|es| - 1], es[|es| - 1];
      UnderMembers(init, key);
      assert es == init + [last];
    }
  }

  /** With such visitor ids every visit holds exactly the page's events of one visitor's session. */
  lemma VisitsAreSessions(es: seq<Event>, order: seq<string>, visits: map<string, Visit>, e: Event)
    requires Grouped(es, order, visits) && e in es
    requires forall x :: x in es ==> '|' !in x.visitor
    ensures KeyOf(e) in visits
    ensures forall x :: x in visits[KeyOf(e)].events <==>
                        x in es && x.visitor == e.visitor && x.session == e.session
  {
    hide Under, KeyOf;
    UnderMembers(es, KeyOf(e));
    forall x | x in es
      ensures KeyOf(x) == KeyOf(e) <==> x.visitor == e.visitor && x.session == e.session
    {
      PlainVisitorsNeverMeet(x, e);
    }
  }
}
