/** Keyset paging: rows in key order, a page after a cursor, and walks from page to page while the rows
    change. */
module Keyset {
  import opened Common
  import Strings

  datatype Key = Key(major: int, minor: string)

  predicate Before(a: Key, b: Key) { a.major < b.major || (a.major == b.major && Strings.Less(a.minor, b.minor)) }

  lemma BeforeTotal(a: Key, b: Key)
    ensures a == b || Before(a, b) || Before(b, a)
    ensures !(Before(a, b) && Before(b, a))
  {
    Strings.LessTotal(a.minor, b.minor);
  }

  lemma BeforeTransitive(a: Key, b: Key, c: Key)
    requires Before(a, b) && Before(b, c)
    ensures Before(a, c)
  {
    if a.major == b.major == c.major { Strings.LessTransitive(a.minor, b.minor, c.minor); }
  }

  predicate Sorted(q: seq<Key>) { forall i, j :: 0 <= i < j < |q| ==> Before(q[i], q[j]) }

  // ---- Rows in order --------------------------------------------------------------------------

  predicate IsLeast(rows: set<Key>, m: Key) { m in rows && forall k :: k in rows ==> k == m || Before(m, k) }

  lemma {:induction false} LeastExists(rows: set<Key>)
    requires rows != {}
    ensures exists m :: IsLeast(rows, m)
    decreases |rows|
  {
    var x :| x in rows;
    var rest := rows - {x};
    if rest == {} {
      assert rows == {x};
      assert IsLeast(rows, x);
    } else {
      LeastExists(rest);
      var m :| IsLeast(rest, m);
      BeforeTotal(x, m);
      if Before(x, m) {
        forall k | k in rows ensures k == x || Before(x, k) {
          if k != x && k != m { BeforeTransitive(x, m, k); }
        }
        assert IsLeast(rows, x);
      } else {
        assert IsLeast(rows, m);
      }
    }
  }

  ghost function Least(rows: set<Key>): (m: Key)
    requires rows != {}
    ensures IsLeast(rows, m)
  {
    LeastExists(rows);
    var m :| IsLeast(rows, m);
    m
  }

  lemma LeastUnique(rows: set<Key>, m: Key)
    requires IsLeast(rows, m)
    ensures Least(rows) == m
  {
    BeforeTotal(m, Least(rows));
  }

  ghost predicate Lists(q: seq<Key>, rows: set<Key>) { Sorted(q) && forall k :: k in q <==> k in rows }

  /** ORDER BY: the rows, each once, in key order. */
  ghost function Listing(rows: set<Key>): seq<Key>
    decreases |rows|
  {
    if rows == {} then [] else [Least(rows)] + Listing(rows - {Least(rows)})
  }

  lemma {:induction false} ListingLists(rows: set<Key>)
    ensures Lists(Listing(rows), rows)
    decreases |rows|
  {
    if rows != {} {
      var m := Least(rows);
      var rest := Listing(rows - {m});
      ListingLists(rows - {m});
      forall i | 0 <= i < |rest| ensures Before(m, rest[i]) { assert rest[i] in rest; }
    }
  }

  // ---- One page -------------------------------------------------------------------------------

  const TWO63: int := 0x8000_0000_0000_0000

  /** A page size is a 64-bit unsigned number. */
  predicate IsSize(limit: nat) { limit < TWO64 }

  /** The LIMIT bound to the query: limit + 1 in 64 bits, read as a signed number. */
  function SqlLimit(limit: nat): int {
    var n := (limit + 1) % TWO64;
    if n < TWO63 then n else n - TWO64
  }

  /** LIMIT n: the first n rows, all of them when n is negative. */
  function Limited(q: seq<Key>, n: int): seq<Key> { if 0 <= n < |q| then q[..n] else q }

  predicate Follows(cursor: Option<Key>, k: Key) { cursor.None? || Before(cursor.value, k) }

  function After(rows: set<Key>, cursor: Option<Key>): set<Key> { set k | k in rows && Follows(cursor, k) }

  datatype Page = Page(rows: seq<Key>, hasMore: bool)

  /** One row more than asked for is fetched; if it is there, it is dropped and there is more. */
  function Trim(fetched: seq<Key>, limit: nat): Page {
    if |fetched| > limit then Page(fetched[..|fetched| - 1], true) else Page(fetched, false)
  }

  ghost function PageAt(rows: set<Key>, cursor: Option<Key>, limit: nat): Page {
    Trim(Limited(Listing(After(rows, cursor)), SqlLimit(limit)), limit)
  }

  /** The cursor after a page: its last row, or none for an empty page. */
  function Next(p: Page): Option<Key> { if p.rows == [] then None else Some(p.rows[|p.rows| - 1]) }

  /** The page sizes for which limit + 1 does not wrap to zero and a page can hold a row. */
  predicate Usable(limit: nat) { 1 <= limit <= TWO64 - 2 }

  /** What a page of the rows `left` is: all of them in order, or the first few and the word that there
      is more; then it is not empty and what it leaves out follows its last row. */
  ghost predicate Fits(p: Page, left: set<Key>) {
    && Sorted(p.rows) && (forall k :: k in p.rows ==> k in left)
    && (p.hasMore ==> p.rows != [])
    && forall k :: k in left ==> (k in p.rows <==> !p.hasMore || !Before(p.rows[|p.rows| - 1], k))
  }

  lemma SortedSplit(all: seq<Key>, n: nat, k: Key)
    requires Sorted(all) && 1 <= n <= |all| && k in all
    ensures k in all[..n] <==> !Before(all[n - 1], k)
  {
    var i :| 0 <= i < |all| && all[i] == k;
    BeforeTotal(all[n - 1], k);
    if i < n {
      assert all[..n][i] == k;
      if i < n - 1 { assert Before(all[i], all[n - 1]); }
    } else {
      forall j | 0 <= j < n ensures all[..n][j] != k { BeforeTotal(all[j], all[i]); }
    }
  }

  /** A prefix fits, if it is everything exactly when there is no more. */
  lemma PrefixFits(p: Page, all: seq<Key>, left: set<Key>)
    requires Lists(all, left) && p.rows <= all && (p.hasMore <==> |p.rows| < |all|) && (p.hasMore ==> p.rows != [])
    ensures Fits(p, left)
  {
    var n := |p.rows|;
    assert p.rows == all[..n];
    forall k | k in left ensures k in p.rows <==> !p.hasMore || !Before(p.rows[n - 1], k) {
      if n >= 1 { SortedSplit(all, n, k); }
    }
  }

  lemma TrimShape(all: seq<Key>, limit: nat)
    requires Usable(limit)
    ensures var p := Trim(Limited(all, SqlLimit(limit)), limit);
            && p.rows <= all && (p.hasMore <==> |p.rows| < |all|) && (p.hasMore ==> p.rows != [])
            && (limit < TWO63 - 1 ==> |p.rows| <= limit)
  {}

  lemma {:induction false} ListingSize(rows: set<Key>)
    ensures |Listing(rows)| == |rows|
    decreases |rows|
  {
    if rows != {} { ListingSize(rows - {Least(rows)}); }
  }

  /** A page is as long as was asked for, unless fewer rows are left. */
  lemma PageSize(rows: set<Key>, cursor: Option<Key>, limit: nat)
    requires limit < TWO63 - 1
    ensures var left := |After(rows, cursor)|;
            |PageAt(rows, cursor, limit).rows| == (if limit < left then limit else left)
            && (PageAt(rows, cursor, limit).hasMore <==> limit < left)
  {
    ListingSize(After(rows, cursor));
  }

  lemma PageFits(rows: set<Key>, cursor: Option<Key>, limit: nat)
    requires Usable(limit)
    ensures Fits(PageAt(rows, cursor, limit), After(rows, cursor))
  {
    var left := After(rows, cursor);
    ListingLists(left);
    TrimShape(Listing(left), limit);
    PrefixFits(PageAt(rows, cursor, limit), Listing(left), left);
  }

  // ---- Walking --------------------------------------------------------------------------------

  /** Follow the cursor while there is more; the rows may be different at each page. */
  ghost function Walk(snaps: seq<set<Key>>, cursor: Option<Key>, limit: nat): seq<Page> {
    if snaps == [] then []
    else
      var p := PageAt(snaps[0], cursor, limit);
      if p.hasMore then [p] + Walk(snaps[1..], Next(p), limit) else [p]
  }

  /** Pages read one after the other, the first from snaps[0], each continuing after the one before. */
  ghost predicate IsWalk(snaps: seq<set<Key>>, cursor: Option<Key>, pages: seq<Page>)
    decreases |snaps|
  {
    if snaps == [] then pages == []
    else
      && pages != [] && Fits(pages[0], After(snaps[0], cursor))
      && if pages[0].hasMore then IsWalk(snaps[1..], Next(pages[0]), pages[1..]) else |pages| == 1
  }

  lemma {:induction false} WalkIsWalk(snaps: seq<set<Key>>, cursor: Option<Key>, limit: nat)
    requires Usable(limit)
    ensures IsWalk(snaps, cursor, Walk(snaps, cursor, limit))
    decreases |snaps|
  {
    if snaps != [] {
      var p := PageAt(snaps[0], cursor, limit);
      PageFits(snaps[0], cursor, limit);
      if p.hasMore {
        WalkIsWalk(snaps[1..], Next(p), limit);
        assert Walk(snaps, cursor, limit)[1..] == Walk(snaps[1..], Next(p), limit);
      }
    }
  }

  function Rows(pages: seq<Page>): seq<Key> { if pages == [] then [] else pages[0].rows + Rows(pages[1..]) }

  predicate Ended(pages: seq<Page>) { pages != [] && !pages[|pages| - 1].hasMore }

  /** Two sorted lists, the second after the last row of the first. */
  lemma JoinSorted(a: seq<Key>, b: seq<Key>)
    requires Sorted(a) && Sorted(b) && a != [] && forall k :: k in b ==> Before(a[|a| - 1], k)
    ensures Sorted(a + b)
  {
    forall i, j | 0 <= i < j < |a + b| ensures Before((a + b)[i], (a + b)[j]) {
      if i < |a| <= j {
        assert b[j - |a|] in b;
        if i < |a| - 1 { BeforeTransitive(a[i], a[|a| - 1], b[j - |a|]); }
      }
    }
  }

  /** In order, hence no row twice, and only rows after the cursor. */
  lemma {:induction false} WalkSorted(snaps: seq<set<Key>>, cursor: Option<Key>, pages: seq<Page>)
    requires IsWalk(snaps, cursor, pages)
    ensures Sorted(Rows(pages))
    ensures forall k :: k in Rows(pages) ==> Follows(cursor, k)
    decreases |snaps|
  {
    if snaps != [] {
      var p, rest := pages[0], pages[1..];
      if p.hasMore {
        WalkSorted(snaps[1..], Next(p), rest);
        JoinSorted(p.rows, Rows(rest));
        forall k | k in Rows(rest) ensures Follows(cursor, k) {
          assert Next(p).value in p.rows;
          if cursor.Some? { BeforeTransitive(cursor.value, Next(p).value, k); }
        }
      } else {
        assert Rows(pages) == p.rows;
      }
    }
  }

  /** `k` was there at each of the first `pages` pages. */
  ghost predicate Throughout(snaps: seq<set<Key>>, pages: nat, k: Key) {
    pages <= |snaps| && forall i :: 0 <= i < pages ==> k in snaps[i]
  }

  /** Complete under churn: a finished walk returns every row that was there at each page it read. */
  lemma {:induction false} WalkComplete(snaps: seq<set<Key>>, cursor: Option<Key>, pages: seq<Page>, k: Key)
    requires IsWalk(snaps, cursor, pages) && Ended(pages)
    requires Follows(cursor, k) && Throughout(snaps, |pages|, k)
    ensures k in Rows(pages)
    decreases |snaps|
  {
    assert k in snaps[0];
    var p := pages[0];
    if p.hasMore && k !in p.rows {
      WalkComplete(snaps[1..], Next(p), pages[1..], k);
    }
  }

  /** Nothing invented: a returned row was there when its page was read. */
  lemma {:induction false} WalkSound(snaps: seq<set<Key>>, cursor: Option<Key>, pages: seq<Page>, k: Key)
    requires IsWalk(snaps, cursor, pages) && k in Rows(pages)
    ensures exists i :: 0 <= i < |pages| && i < |snaps| && k in pages[i].rows && k in snaps[i]
    decreases |snaps|
  {
    var p, rest := pages[0], pages[1..];
    if k in p.rows {
      assert k in snaps[0];
    } else if p.hasMore {
      WalkSound(snaps[1..], Next(p), rest, k);
      var i :| 0 <= i < |rest| && i < |snaps[1..]| && k in rest[i].rows && k in snaps[1..][i];
      assert k in pages[i + 1].rows && k in snaps[i + 1];
    }
  }

  // ---- Stores that only grow at the end -------------------------------------------------------

  /** Rows are never removed and new ones come after all present. */
  ghost predicate Appends(a: set<Key>, b: set<Key>) {
    a <= b && forall k, m :: k in b - a && m in a ==> Before(m, k)
  }

  ghost predicate Growing(snaps: seq<set<Key>>) { forall i, j :: 0 <= i <= j < |snaps| ==> Appends(snaps[i], snaps[j]) }

  lemma {:induction false} WalkLength(snaps: seq<set<Key>>, cursor: Option<Key>, pages: seq<Page>)
    requires IsWalk(snaps, cursor, pages)
    ensures |pages| <= |snaps|
    decreases |snaps|
  {
    if snaps != [] && pages[0].hasMore { WalkLength(snaps[1..], Next(pages[0]), pages[1..]); }
  }

  lemma GrowingRest(snaps: seq<set<Key>>)
    requires snaps != [] && Growing(snaps)
    ensures Growing(snaps[1..])
  {}

  /** On such stores a finished walk lists exactly what is there when its last page is read. */
  lemma {:induction false} WalkGrowing(snaps: seq<set<Key>>, cursor: Option<Key>, pages: seq<Page>)
    requires Growing(snaps) && IsWalk(snaps, cursor, pages) && Ended(pages)
    ensures 1 <= |pages| <= |snaps| && Lists(Rows(pages), After(snaps[|pages| - 1], cursor))
    decreases |snaps|
  {
    WalkLength(snaps, cursor, pages);
    WalkSorted(snaps, cursor, pages);
    var p, rest := pages[0], pages[1..];
    if p.hasMore {
      GrowingRest(snaps);
      WalkGrowing(snaps[1..], Next(p), rest);
      var final := snaps[|pages| - 1];
      assert final == snaps[1..][|rest| - 1];
      assert Appends(snaps[0], final);
      forall k ensures k in Rows(pages) <==> k in After(final, cursor) {
        GrowingSplit(snaps[0], final, cursor, p, k);
      }
    } else {
      assert Rows(pages) == p.rows;
    }
  }

  lemma GrowingSplit(rows: set<Key>, final: set<Key>, cursor: Option<Key>, p: Page, k: Key)
    requires Appends(rows, final) && Fits(p, After(rows, cursor)) && p.hasMore
    ensures k in After(final, cursor) <==> k in p.rows || k in After(final, Next(p))
  {
    var last := p.rows[|p.rows| - 1];
    assert last in p.rows;
    if k in After(final, Next(p)) && cursor.Some? { BeforeTransitive(cursor.value, last, k); }
  }

  // ---- Stores that do not change --------------------------------------------------------------

  ghost predicate Fixed(snaps: seq<set<Key>>, rows: set<Key>) { forall i :: 0 <= i < |snaps| ==> snaps[i] == rows }

  lemma {:induction false} WalkEnds(rows: set<Key>, snaps: seq<set<Key>>, cursor: Option<Key>, pages: seq<Page>)
    requires Fixed(snaps, rows) && IsWalk(snaps, cursor, pages) && |After(rows, cursor)| < |snaps|
    ensures Ended(pages)
    decreases |snaps|
  {
    var p := pages[0];
    if p.hasMore {
      FewerLeft(rows, cursor, p);
      WalkEnds(rows, snaps[1..], Next(p), pages[1..]);
    }
  }

  /** A walk over unchanging rows ends, with the whole sorted list. */
  lemma WalkFixed(rows: set<Key>, snaps: seq<set<Key>>, cursor: Option<Key>, pages: seq<Page>)
    requires Fixed(snaps, rows) && IsWalk(snaps, cursor, pages) && |After(rows, cursor)| < |snaps|
    ensures Ended(pages) && Lists(Rows(pages), After(rows, cursor))
  {
    WalkEnds(rows, snaps, cursor, pages);
    assert Growing(snaps);
    WalkGrowing(snaps, cursor, pages);
  }

  lemma FewerLeft(rows: set<Key>, cursor: Option<Key>, p: Page)
    requires Fits(p, After(rows, cursor)) && p.hasMore
    ensures |After(rows, Next(p))| < |After(rows, cursor)|
  {
    var last := p.rows[|p.rows| - 1];
    assert last in p.rows;
    var left, all := After(rows, Next(p)), After(rows, cursor);
    forall k | k in left ensures k in all && k != last {
      BeforeTotal(last, k);
      if cursor.Some? { BeforeTransitive(cursor.value, last, k); }
    }
    assert all == (all - {last} - left) + left + {last};
  }

  // ---- Exactly the usable sizes ---------------------------------------------------------------

  /** Walking any fixed store, given enough pages, ends with all its rows. */
  ghost predicate Works(limit: nat) {
    forall rows: set<Key>, n: nat :: |rows| < n ==> WorksOn(rows, n, limit)
  }

  ghost predicate WorksOn(rows: set<Key>, n: nat, limit: nat) {
    var pages := Walk(seq(n, i => rows), None, limit);
    Ended(pages) && Lists(Rows(pages), rows)
  }

  /** With size 0 each page says there is more and leads nowhere. */
  lemma {:induction false} ZeroStalls(rows: set<Key>, snaps: seq<set<Key>>)
    requires rows != {} && Fixed(snaps, rows)
    ensures !Ended(Walk(snaps, None, 0))
    decreases |snaps|
  {
    if snaps != [] {
      assert After(rows, None) == rows;
      var p := PageAt(rows, None, 0);
      assert SqlLimit(0) == 1;
      assert p == Page([], true);
      ZeroStalls(rows, snaps[1..]);
    }
  }

  /** With the largest size limit + 1 is 0 and nothing is fetched. */
  lemma LargestLoses(rows: set<Key>)
    ensures PageAt(rows, None, TWO64 - 1) == Page([], false)
  {}

  lemma UsableWorks(limit: nat)
    requires Usable(limit)
    ensures Works(limit)
  {
    forall rows: set<Key>, n: nat | |rows| < n ensures WorksOn(rows, n, limit) {
      var snaps := seq(n, i => rows);
      assert After(rows, None) == rows;
      WalkIsWalk(snaps, None, limit);
      WalkFixed(rows, snaps, None, Walk(snaps, None, limit));
    }
  }

  /** Paging works exactly for the usable sizes. */
  lemma WorksExactly(limit: nat)
    requires IsSize(limit)
    ensures Works(limit) <==> Usable(limit)
  {
    if Usable(limit) {
      UsableWorks(limit);
    } else {
      var k := Key(0, "");
      var rows := {k};
      var snaps := seq(2, i => rows);
      if limit == 0 {
        ZeroStalls(rows, snaps);
      } else {
        LargestLoses(rows);
        assert snaps[0] == rows;
        assert Walk(snaps, None, limit) == [Page([], false)];
        assert k in rows && k !in Rows([Page([], false)]);
      }
      assert !WorksOn(rows, 2, limit);
    }
  }
}
