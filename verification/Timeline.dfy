/**
 The visitor timeline: keyset paging backwards through events that may share a
 timestamp.
 */
module Timeline {
  import opened Wrappers

  // ---- Paging ---------------------------------------------------------------------------------

  /** A stored event: its time, and the row id, which is positive and unique. */
  datatype Row = Row(at: int, id: nat)

  /** ORDER BY event_timestamp DESC, id DESC. */
  predicate Before(a: Row, b: Row) {
    a.at > b.at || (a.at == b.at && a.id > b.id)
  }

  /** A table of events, listed in the order the query returns them. */
  ghost predicate Table(db: seq<Row>) {
    && (forall i :: 0 <= i < |db| ==> db[i].id > 0)
    && (forall i, j :: 0 <= i < j < |db| ==> Before(db[i], db[j]))
  }

  /** Where the next page begins: a timestamp and the last row id returned there, zero when there is none. */
  datatype Cursor = Cursor(before: int, beforeID: nat)

  /** The WHERE clause. */
  predicate Below(r: Row, from: int, c: Cursor) {
    r.at >= from && r.at <= c.before && (r.at < c.before || r.id < c.beforeID)
  }

  function Rest(db: seq<Row>, from: int, c: Cursor): seq<Row> {
    if db == [] then [] else (if Below(db[0], from, c) then [db[0]] else []) + Rest(db[1..], from, c)
  }

  datatype Page = Page(events: seq<Row>, hasMore: bool)

  /** traceEvents: the query asks for one row more than the limit to see whether there is another page. */
  function PageAt(db: seq<Row>, from: int, c: Cursor, limit: nat): Page {
    var rows := Rest(db, from, c);
    var read := if |rows| > limit + 1 then rows[..limit + 1] else rows;
    if |read| > limit then Page(read[..limit], true) else Page(read, false)
  }

  /** The cursor a request starts from: what the caller sends counts only when it lies before the end of the window. */
  function StartCursor(to: int, sent: Option<Cursor>): Cursor {
    match sent
    case None => Cursor(to, 0)
    case Some(c) => if c.before < to then c else Cursor(to, 0)
  }

  /** The cursor a page hands out when there is more. */
  function NextCursor(p: Page): Cursor
    requires p.events != []
  {
    Cursor(p.events[|p.events| - 1].at, p.events[|p.events| - 1].id)
  }

  lemma {:induction false} RestIs(db: seq<Row>, from: int, c: Cursor)
    requires Table(db)
    ensures Table(Rest(db, from, c))
    ensures forall r :: r in Rest(db, from, c) <==> r in db && Below(r, from, c)
  {
    if db != [] {
      var tail := db[1..];
      assert forall i :: 0 <= i < |tail| ==> tail[i] == db[i + 1];
      RestIs(tail, from, c);
      var rest := Rest(tail, from, c);
      forall i | 0 <= i < |rest|
        ensures Before(db[0], rest[i])
      {
        assert rest[i] in tail;
      }
      forall r
        ensures r in Rest(db, from, c) <==> r in db && Below(r, from, c)
      {
        assert r in db <==> r == db[0] || r in tail;
      }
    }
  }

  lemma FirstIn(s: seq<Row>)
    ensures s != [] ==> s[0] in s
  {
  }

  /** Two listings in order with the same rows are the same listing. */
  lemma {:induction false} SameListing(a: seq<Row>, b: seq<Row>)
    requires Table(a) && Table(b)
    requires forall r :: r in a <==> r in b
    ensures a == b
  {
    if a == [] {
      FirstIn(b);
    } else {
      assert a[0] in b && b != [];
      assert b[0] in a;
      assert a[0] == b[0];
      forall r
        ensures r in a[1..] <==> r in b[1..]
      {
        assert r in a <==> r == a[0] || r in a[1..];
        assert r in b <==> r == b[0] || r in b[1..];
      }
      SameListing(a[1..], b[1..]);
    }
  }

  /** The rows after the first n of a listing are those that come after its n-th. */
  lemma SplitsListing(rows: seq<Row>, n: nat)
    requires Table(rows) && 0 < n < |rows|
    ensures Table(rows[n..])
    ensures forall r :: r in rows[n..] <==> r in rows && Before(rows[n - 1], r)
  {
    forall r
      ensures r in rows[n..] <==> r in rows && Before(rows[n - 1], r)
    {
      if r in rows {
        var i :| 0 <= i < |rows| && rows[i] == r;
        if i < n {
          assert i < n - 1 ==> Before(r, rows[n - 1]);
        } else {
          assert rows[n..][i - n] == r;
        }
      }
    }
  }

  /** Below a row of the rest is what is in the rest and comes after that row. */
  lemma BelowLast(r: Row, last: Row, from: int, c: Cursor)
    requires Below(last, from, c)
    ensures Below(r, from, Cursor(last.at, last.id)) <==> Below(r, from, c) && Before(last, r)
  {
  }

  /** What lies beyond a page's last row is exactly what the page's query left unread. */
  lemma NextCursorResumes(db: seq<Row>, from: int, c: Cursor, limit: nat)
    requires Table(db) && 0 < limit < |Rest(db, from, c)|
    ensures var p := PageAt(db, from, c, limit);
            && p.hasMore && p.events == Rest(db, from, c)[..limit]
            && Rest(db, from, NextCursor(p)) == Rest(db, from, c)[limit..]
  {
    hide Rest, Table, Before;
    var rows := Rest(db, from, c);
    var p := PageAt(db, from, c, limit);
    assert rows[..limit + 1][..limit] == rows[..limit];
    RestIs(db, from, c);
    RestIs(db, from, NextCursor(p));
    var last := rows[limit - 1];
    assert last in rows && p.events[limit - 1] == last;
    SplitsListing(rows, limit);
    forall r
      ensures r in Rest(db, from, NextCursor(p)) <==> r in rows[limit..]
    {
      BelowLast(r, last, from, c);
    }
    SameListing(Rest(db, from, NextCursor(p)), rows[limit..]);
  }

  /** The pages a caller gets by following the cursor until there is no more. */
  function Follow(db: seq<Row>, from: int, c: Cursor, limit: nat, fuel: nat): seq<Row>
    decreases fuel
  {
    var p := PageAt(db, from, c, limit);
    if !p.hasMore || fuel == 0 || p.events == [] then p.events
    else p.events + Follow(db, from, NextCursor(p), limit, fuel - 1)
  }

  /**
   Followed to the end, the pages are the whole window, each event once, newest first, however
   many share a timestamp.
   */
  lemma {:induction false} FollowIsEverything(db: seq<Row>, from: int, c: Cursor, limit: nat, fuel: nat)
    requires Table(db) && limit > 0 && fuel >= |Rest(db, from, c)|
    ensures Follow(db, from, c, limit, fuel) == Rest(db, from, c)
    decreases fuel
  {
    hide Rest, Table, NextCursor;
    var rows := Rest(db, from, c);
    var p := PageAt(db, from, c, limit);
    if |rows| > limit {
      NextCursorResumes(db, from, c, limit);
      FollowIsEverything(db, from, NextCursor(p), limit, fuel - 1);
      assert rows == rows[..limit] + rows[limit..];
    }
  }

  /** The first page of a window that ends at to covers every event from its start to just before its end. */
  lemma FirstPageCoversWindow(db: seq<Row>, from: int, to: int)
    requires Table(db)
    ensures forall r :: r in Rest(db, from, StartCursor(to, None)) <==> r in db && from <= r.at < to
  {
    RestIs(db, from, StartCursor(to, None));
  }

  /**
   Whatever cursor a request sends, its page comes from the window; a cursor that lies before the end of the
   window leaves exactly the rows below it, and any other is ignored.
   */
  lemma RequestStaysInWindow(db: seq<Row>, from: int, to: int, sent: Cursor)
    requires Table(db)
    ensures forall r :: r in Rest(db, from, StartCursor(to, Some(sent))) <==>
                        && r in db && from <= r.at < to
                        && (sent.before < to ==>
                              r.at < sent.before || (r.at == sent.before && r.id < sent.beforeID))
  {
    RestIs(db, from, StartCursor(to, Some(sent)));
  }

  /** A row that a cursor points at. */
  function Mark(c: Cursor): Row {
    Row(c.before, c.beforeID)
  }

  /** A page handed out from a valid cursor moves it strictly down, and the next request accepts it. */
  lemma CursorFalls(db: seq<Row>, from: int, to: int, c: Cursor, limit: nat)
    requires Table(db) && limit > 0 && (c.before < to || c == Cursor(to, 0)) && PageAt(db, from, c, limit).hasMore
    ensures var next := NextCursor(PageAt(db, from, c, limit));
            && Before(Mark(c), Mark(next)) && next.before < to && StartCursor(to, Some(next)) == next
  {
    RestIs(db, from, c);
    var rows := Rest(db, from, c);
    var p := PageAt(db, from, c, limit);
    assert p.events[|p.events| - 1] == rows[limit - 1] && rows[limit - 1] in rows;
  }

  // ---- Rows inserted between pages -----------------------------------------------------------------

  ghost predicate Grew(was: seq<Row>, now: seq<Row>) {
    forall r :: r in was ==> r in now
  }

  /** Page i is read from dbs[i]; the table only gains rows from page to page. */
  ghost predicate Session(dbs: seq<seq<Row>>, cursors: seq<Cursor>, from: int, limit: nat) {
    && |dbs| == |cursors| > 0 && limit > 0
    && (forall i :: 0 <= i < |dbs| ==> Table(dbs[i]))
    && (forall i :: 0 < i < |dbs| ==> Grew(dbs[i - 1], dbs[i]))
    && (forall i :: 0 < i < |cursors| ==>
          var p := PageAt(dbs[i - 1], from, cursors[i - 1], limit);
          p.hasMore && cursors[i] == NextCursor(p))
  }

  function Pages(dbs: seq<seq<Row>>, cursors: seq<Cursor>, from: int, limit: nat, n: nat): seq<Row>
    requires n <= |dbs| == |cursors|
  {
    if n == 0 then []
    else Pages(dbs, cursors, from, limit, n - 1) + PageAt(dbs[n - 1], from, cursors[n - 1], limit).events
  }

  lemma PageInOrder(db: seq<Row>, from: int, c: Cursor, limit: nat)
    requires Table(db) && limit > 0
    ensures var p := PageAt(db, from, c, limit);
            && Table(p.events) && (p.hasMore ==> p.events != [])
            && (forall r :: r in p.events ==> r in db && Below(r, from, c))
            && (forall r :: r in db && Below(r, from, c) ==>
                r in p.events || (p.hasMore && Below(r, from, NextCursor(p))))
  {
    var rows := Rest(db, from, c);
    RestIs(db, from, c);
    var p := PageAt(db, from, c, limit);
    var n := if |rows| > limit then limit else |rows|;
    assert p.events == rows[..n];
    forall r | r in db && Below(r, from, c)
      ensures r in p.events || (p.hasMore && Below(r, from, NextCursor(p)))
    {
      var i :| 0 <= i < |rows| && rows[i] == r;
      if i < n {
        assert p.events[i] == r;
      } else {
        assert Before(rows[n - 1], rows[i]);
      }
    }
    forall r | r in p.events
      ensures r in db && Below(r, from, c)
    {
      assert r in rows;
    }
  }

  /**
   Whatever is inserted between the pages, everything read so far stands in strictly
   descending order, so nothing repeats; and every event that was there at the start has
   been read or lies beyond the current cursor.
   */
  lemma {:induction false} InsertsNeverRepeat(dbs: seq<seq<Row>>, cursors: seq<Cursor>, from: int, limit: nat, n: nat)
    requires Session(dbs, cursors, from, limit) && 0 < n <= |dbs|
    ensures var read := Pages(dbs, cursors, from, limit, n);
            && Table(read)
            && (forall i :: 0 <= i < |read| ==> Below(read[i], from, cursors[0]))
            && (forall r :: r in dbs[0] && Below(r, from, cursors[0]) ==>
                  r in read || (PageAt(dbs[n - 1], from, cursors[n - 1], limit).hasMore
                                && Below(r, from, NextCursor(PageAt(dbs[n - 1], from, cursors[n - 1], limit)))))
            && (PageAt(dbs[n - 1], from, cursors[n - 1], limit).hasMore ==>
                  read != [] && read[|read| - 1] == Mark(NextCursor(PageAt(dbs[n - 1], from, cursors[n - 1], limit))))
  {
    hide PageAt;
    var db, c := dbs[n - 1], cursors[n - 1];
    var p := PageAt(db, from, c, limit);
    PageInOrder(db, from, c, limit);
    var read := Pages(dbs, cursors, from, limit, n);
    if n == 1 {
      assert Pages(dbs, cursors, from, limit, 0) == [];
      assert read == p.events;
    } else {
      InsertsNeverRepeat(dbs, cursors, from, limit, n - 1);
      var earlier := Pages(dbs, cursors, from, limit, n - 1);
      OrderedTogether(earlier, p.events, from, c);
      KeptSince(dbs, cursors, from, limit, n - 1);
      LowerToo(p.events, earlier[|earlier| - 1], from, c, cursors[0]);
    }
  }

  /** A page below the last row read continues the order. */
  lemma OrderedTogether(a: seq<Row>, b: seq<Row>, from: int, c: Cursor)
    requires Table(a) && Table(b) && a != [] && a[|a| - 1] == Mark(c)
    requires forall r :: r in b ==> Below(r, from, c)
    ensures Table(a + b)
  {
    var all := a + b;
    forall i, j | 0 <= i < j < |all|
      ensures Before(all[i], all[j])
    {
      if i < |a| && j >= |a| {
        assert all[j] in b;
        assert i < |a| - 1 ==> Before(a[i], a[|a| - 1]);
      }
    }
    forall i | 0 <= i < |all|
      ensures all[i].id > 0
    {
    }
  }

  lemma LowerToo(b: seq<Row>, last: Row, from: int, c: Cursor, top: Cursor)
    requires last == Mark(c) && Below(last, from, top)
    requires forall r :: r in b ==> Below(r, from, c)
    ensures forall r :: r in b ==> Below(r, from, top)
  {
  }

  lemma {:induction false} KeptSince(dbs: seq<seq<Row>>, cursors: seq<Cursor>, from: int, limit: nat, n: nat)
    requires Session(dbs, cursors, from, limit) && n < |dbs|
    ensures forall r :: r in dbs[0] ==> r in dbs[n]
  {
    if n > 0 {
      KeptSince(dbs, cursors, from, limit, n - 1);
    }
  }

  /** A caller that follows the cursor to the last page has read every event that was there when it began. */
  lemma EverythingThereIsRead(dbs: seq<seq<Row>>, cursors: seq<Cursor>, from: int, limit: nat)
    requires Session(dbs, cursors, from, limit)
    requires !PageAt(dbs[|dbs| - 1], from, cursors[|dbs| - 1], limit).hasMore
    ensures Table(Pages(dbs, cursors, from, limit, |dbs|))
    ensures forall r :: r in dbs[0] && Below(r, from, cursors[0]) ==> r in Pages(dbs, cursors, from, limit, |dbs|)
  {
    InsertsNeverRepeat(dbs, cursors, from, limit, |dbs|);
  }

  // ---- The cursor without a row id -----------------------------------------------------------------------

  /** Resuming from the timestamp alone loses nothing exactly when no unread event shares it. */
  lemma TimestampAloneExactly(db: seq<Row>, from: int, c: Cursor, limit: nat)
    requires Table(db) && 0 < limit < |Rest(db, from, c)|
    ensures var rows, p := Rest(db, from, c), PageAt(db, from, c, limit);
            Rest(db, from, Cursor(NextCursor(p).before, 0)) == rows[limit..]
            <==> rows[limit].at < rows[limit - 1].at
  {
    hide Rest;
    var rows, p := Rest(db, from, c), PageAt(db, from, c, limit);
    NextCursorResumes(db, from, c, limit);
    var last := rows[limit - 1];
    var bare := Cursor(last.at, 0);
    RestIs(db, from, c);
    RestIs(db, from, bare);
    assert p.events[limit - 1] == last;
    if rows[limit].at < last.at {
      RestIs(db, from, NextCursor(p));
      forall r
        ensures r in Rest(db, from, bare) <==> r in rows[limit..]
      {
        if r in rows[limit..] {
          var i :| limit <= i < |rows| && rows[i] == r;
          assert i > limit ==> Before(rows[limit], r);
          assert r in rows;
        }
      }
      SameListing(Rest(db, from, bare), rows[limit..]);
    } else {
      assert rows[limit] in rows[limit..];
      assert !Below(rows[limit], from, bare);
    }
  }
}
