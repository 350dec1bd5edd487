/** The two cursored envelope listings: text cursors, the page loop, and walks over them. */
module EnvelopeListing {
  import opened Common
  import opened Keyset
  import Decimal
  import Relay = RelayModel

  const BAR: char := '|'

  function MakeEnvCursor(k: Key): string { Decimal.ToText(k.major) + [BAR] + k.minor }

  /** Where `c` first occurs, or the length. */
  function IndexOf(s: string, c: char): (n: nat)
    ensures n <= |s| && c !in s[..n] && (n < |s| ==> s[n] == c)
  {
    if s == "" || s[0] == c then 0
    else
      var n := IndexOf(s[1..], c);
      assert s[..n + 1] == [s[0]] + s[1..][..n];
      n + 1
  }

  function ParseEnvCursor(cursor: string): Option<Key> {
    if cursor == "" then Some(Key(0, ""))
    else
      var pos := IndexOf(cursor, BAR);
      if pos == |cursor| || pos == 0 then None
      else
        var ts := Decimal.Stoll(cursor[..pos]);
        if ts.None? || cursor[pos + 1..] == "" then None else Some(Key(ts.value, cursor[pos + 1..]))
  }

  /** A cursor other than the empty one reads as `k` exactly when it is a number's text, a bar and a non-empty id. */
  lemma ParseExactly(cursor: string, k: Key)
    requires cursor != ""
    ensures ParseEnvCursor(cursor) == Some(k)
       <==> exists text: string :: && cursor == text + [BAR] + k.minor && BAR !in text && text != ""
                                   && Decimal.Stoll(text) == Some(k.major) && k.minor != ""
  {
    var pos := IndexOf(cursor, BAR);
    if ParseEnvCursor(cursor) == Some(k) {
      assert cursor == cursor[..pos] + [BAR] + k.minor;
    }
    if text: string :| cursor == text + [BAR] + k.minor && BAR !in text && text != ""
                       && Decimal.Stoll(text) == Some(k.major) && k.minor != "" {
      assert cursor[..|text|] == text && cursor[|text| + 1..] == k.minor;
      FirstBar(cursor, |text|);
    }
  }

  lemma FirstBar(s: string, n: nat)
    requires n < |s| && s[n] == BAR && BAR !in s[..n]
    ensures IndexOf(s, BAR) == n
  {}

  /** Parsing undoes making for every 64-bit timestamp, exactly when the envelope id is not empty. */
  lemma CursorRoundTrip(k: Key)
    requires Decimal.IsInt64(k.major)
    ensures ParseEnvCursor(MakeEnvCursor(k)) == Some(k) <==> k.minor != ""
    ensures k.minor == "" ==> ParseEnvCursor(MakeEnvCursor(k)) == None
  {
    var text := Decimal.ToText(k.major);
    var c := MakeEnvCursor(k);
    Decimal.TextIsPlain(k.major, BAR);
    Decimal.StollUndoes(k.major);
    assert c[..|text|] == text && c[|text| + 1..] == k.minor;
    FirstBar(c, |text|);
  }

  // ---- A page ---------------------------------------------------------------------------------

  datatype EnvelopePage = EnvelopePage(envelopes: seq<Key>, hasMore: bool, nextCursor: string)

  function NextCursor(p: Page): string { if p.rows == [] then "" else MakeEnvCursor(p.rows[|p.rows| - 1]) }

  function CursorKey(cursor: string): Option<Key> { if cursor == "" then None else ParseEnvCursor(cursor) }

  /** The page a cursor asks for; a cursor that cannot be read gets an empty one. */
  ghost function ListAt(rows: set<Key>, cursor: string, limit: nat): EnvelopePage {
    if ParseEnvCursor(cursor).None? then EnvelopePage([], false, "")
    else
      var p := PageAt(rows, CursorKey(cursor), limit);
      EnvelopePage(p.rows, p.hasMore, NextCursor(p))
  }

  /** The next row of an ordered query. */
  method NextRow(rest: set<Key>, ghost fetched: seq<Key>) returns (k: Key)
    requires rest != {}
    ensures IsLeast(rest, k)
    ensures (fetched + [k]) + Listing(rest - {k}) == fetched + Listing(rest)
  {
    LeastExists(rest);
    k :| k in rest && IsLeast(rest, k);
    LeastUnique(rest, k);
  }

  /** What has been handed out, and what is still to come, of an ordered query. */
  ghost predicate Fetching(rows: set<Key>, fetched: seq<Key>, rest: set<Key>) {
    fetched + Listing(rest) == Listing(rows)
  }

  /** The rows a query hands out one by one, at most `n` of them unless `n` is negative. */
  method Fetch(rows: set<Key>, n: int) returns (fetched: seq<Key>)
    ensures fetched == Limited(Listing(rows), n)
  {
    fetched := [];
    var rest := rows;
    while rest != {} && (n < 0 || |fetched| < n)
      invariant Fetching(rows, fetched, rest)
      invariant n < 0 || |fetched| <= n
      decreases |rest|
    {
      var k := NextRow(rest, fetched);
      fetched := fetched + [k];
      rest := rest - {k};
    }
    FetchedAll(rows, fetched, rest, n);
  }

  lemma FetchedAll(rows: set<Key>, fetched: seq<Key>, rest: set<Key>, n: int)
    requires Fetching(rows, fetched, rest)
    requires (rest == {} && (n < 0 || |fetched| <= n)) || n == |fetched|
    ensures fetched == Limited(Listing(rows), n)
  {}

  /** Asks for one row more than the page holds, and drops it if it is there. */
  method FetchPage(left: set<Key>, limit: nat) returns (page: Page)
    requires IsSize(limit)
    ensures page == Trim(Limited(Listing(left), SqlLimit(limit)), limit)
  {
    var rows := Fetch(left, SqlLimit(limit));
    var hasMore := false;
    if |rows| > limit {
      hasMore := true;
      rows := rows[..|rows| - 1];
    }
    page := Page(rows, hasMore);
  }

  /** ListForConversationCursored and GetPendingForDeviceCursored over the rows their WHERE selects. */
  method ListCursored(rows: set<Key>, cursor: string, limit: nat) returns (page: EnvelopePage)
    requires IsSize(limit)
    ensures page == ListAt(rows, cursor, limit)
    ensures cursor != "" && ParseEnvCursor(cursor).None? ==> page == EnvelopePage([], false, "")
  {
    var last := None;
    if cursor != "" {
      last := ParseEnvCursor(cursor);
      if last.None? {
        return EnvelopePage([], false, "");
      }
    }
    var p := FetchPage(After(rows, last), limit);
    var next := "";
    if p.rows != [] {
      next := MakeEnvCursor(p.rows[|p.rows| - 1]);
    }
    page := EnvelopePage(p.rows, p.hasMore, next);
  }

  // ---- Walks ----------------------------------------------------------------------------------

  /** Follow next_cursor while has_more. */
  ghost function TextWalk(snaps: seq<set<Key>>, cursor: string, limit: nat): seq<EnvelopePage> {
    if snaps == [] then []
    else
      var p := ListAt(snaps[0], cursor, limit);
      if p.hasMore then [p] + TextWalk(snaps[1..], p.nextCursor, limit) else [p]
  }

  function Strip(pages: seq<EnvelopePage>): seq<Page> {
    seq(|pages|, i requires 0 <= i < |pages| => Page(pages[i].envelopes, pages[i].hasMore))
  }

  /** Timestamps are 64-bit numbers and no envelope id is empty. */
  ghost predicate Storable(rows: set<Key>) { forall k :: k in rows ==> Decimal.IsInt64(k.major) && k.minor != "" }

  ghost predicate AllStorable(snaps: seq<set<Key>>) { forall i :: 0 <= i < |snaps| ==> Storable(snaps[i]) }

  lemma NextReadsBack(p: Page, rows: set<Key>)
    requires p.rows != [] && Storable(rows) && forall k :: k in p.rows ==> k in rows
    ensures NextCursor(p) != "" && ParseEnvCursor(NextCursor(p)) == Next(p)
  {
    var last := p.rows[|p.rows| - 1];
    assert last in p.rows;
    CursorRoundTrip(last);
  }

  /** A page fits, and the cursor it hands out reads back as its last row. */
  lemma ListedPage(rows: set<Key>, cursor: string, limit: nat)
    requires Usable(limit) && Storable(rows) && ParseEnvCursor(cursor).Some?
    ensures var p := ListAt(rows, cursor, limit);
            && Fits(Page(p.envelopes, p.hasMore), After(rows, CursorKey(cursor)))
            && (if p.envelopes == [] then p.nextCursor == ""
                else && ParseEnvCursor(p.nextCursor).Some?
                     && CursorKey(p.nextCursor) == Next(Page(p.envelopes, p.hasMore)))
  {
    var p := PageAt(rows, CursorKey(cursor), limit);
    PageFits(rows, CursorKey(cursor), limit);
    if p.rows != [] { NextReadsBack(p, rows); }
  }

  lemma StripRest(p: EnvelopePage, rest: seq<EnvelopePage>)
    ensures Strip([p] + rest)[0] == Page(p.envelopes, p.hasMore) && Strip([p] + rest)[1..] == Strip(rest)
  {}

  /** So walking by text is walking by key. */
  lemma {:induction false} TextWalkIsWalk(snaps: seq<set<Key>>, cursor: string, limit: nat)
    requires Usable(limit) && AllStorable(snaps) && ParseEnvCursor(cursor).Some?
    ensures IsWalk(snaps, CursorKey(cursor), Strip(TextWalk(snaps, cursor, limit)))
    decreases |snaps|
  {
    if snaps != [] {
      var p := ListAt(snaps[0], cursor, limit);
      ListedPage(snaps[0], cursor, limit);
      if p.hasMore {
        TextWalkIsWalk(snaps[1..], p.nextCursor, limit);
        StripRest(p, TextWalk(snaps[1..], p.nextCursor, limit));
      }
    }
  }

  /** A listing followed to its end while rows come and go: the rows come in (timestamp, id) order, none
      twice, each was there when its page was read, and none that stayed throughout is missing. */
  lemma ListingWalk(snaps: seq<set<Key>>, limit: nat, k: Key)
    requires Usable(limit) && AllStorable(snaps)
    ensures var pages := Strip(TextWalk(snaps, "", limit));
            && Sorted(Rows(pages))
            && (k in Rows(pages) ==> exists i :: 0 <= i < |snaps| && k in snaps[i])
            && (Ended(pages) && Throughout(snaps, |pages|, k) ==> k in Rows(pages))
  {
    var pages := Strip(TextWalk(snaps, "", limit));
    TextWalkIsWalk(snaps, "", limit);
    WalkSorted(snaps, None, pages);
    if k in Rows(pages) {
      WalkSound(snaps, None, pages, k);
    }
    if Ended(pages) && Throughout(snaps, |pages|, k) {
      WalkComplete(snaps, None, pages, k);
    }
  }

  /** Over an unchanging store the walk ends and lists every row. */
  lemma ListingWalkFixed(rows: set<Key>, snaps: seq<set<Key>>, limit: nat)
    requires Usable(limit) && Storable(rows) && Fixed(snaps, rows) && |rows| < |snaps|
    ensures var pages := Strip(TextWalk(snaps, "", limit));
            Ended(pages) && Lists(Rows(pages), rows)
  {
    TextWalkIsWalk(snaps, "", limit);
    assert After(rows, None) == rows;
    WalkFixed(rows, snaps, None, Strip(TextWalk(snaps, "", limit)));
  }

  // ---- The rows of the two listings -----------------------------------------------------------

  function KeyOf(t: Relay.Tables, id: EnvelopeId): Key
    requires id in t.envelopes
  {
    Key(t.envelopes[id].timestamp, id)
  }

  /** Delivery rows of device `x` that have not been acknowledged. */
  function PendingRows(t: Relay.Tables, x: Relay.Dev): set<Key> {
    set r | r in t.delivery && r.user == x.user && r.device == x.device && !t.delivery[r].acked
            && r.envelope in t.envelopes :: KeyOf(t, r.envelope)
  }

  function ConversationRows(t: Relay.Tables, c: ConversationId): set<Key> {
    set id | id in t.envelopes && t.envelopes[id].conv == c :: KeyOf(t, id)
  }

  /** Acknowledging takes one envelope off one device's pending list, and nothing else off any. */
  lemma AckUnlists(s: Relay.State, x: Relay.Dev, id: EnvelopeId, y: Relay.Dev, k: Key)
    requires Relay.Acknowledge(s, x, id).1.Ok? && id in s.t.envelopes
    ensures k in PendingRows(Relay.Acknowledge(s, x, id).0.t, y)
       <==> k in PendingRows(s.t, y) && !(x == y && k == KeyOf(s.t, id))
  {}

  /** The store at each page of a walk over a device's pending envelopes. */
  function PendingSnaps(tables: seq<Relay.Tables>, x: Relay.Dev): seq<set<Key>> {
    seq(|tables|, i requires 0 <= i < |tables| => PendingRows(tables[i], x))
  }

  /** A device that follows its pending listing to the end gets every envelope that stayed pending. */
  lemma PendingWalk(tables: seq<Relay.Tables>, x: Relay.Dev, limit: nat, id: EnvelopeId, ts: Timestamp)
    requires Usable(limit) && AllStorable(PendingSnaps(tables, x))
    requires forall i :: 0 <= i < |tables| ==>
               var r := Relay.RowKey(id, x.user, x.device);
               && r in tables[i].delivery && !tables[i].delivery[r].acked
               && id in tables[i].envelopes && tables[i].envelopes[id].timestamp == ts
    ensures var pages := Strip(TextWalk(PendingSnaps(tables, x), "", limit));
            Ended(pages) ==> Key(ts, id) in Rows(pages) && Sorted(Rows(pages))
  {
    var snaps := PendingSnaps(tables, x);
    var pages := Strip(TextWalk(snaps, "", limit));
    forall i | 0 <= i < |snaps| ensures Key(ts, id) in snaps[i] {
      var r := Relay.RowKey(id, x.user, x.device);
      assert r in tables[i].delivery && KeyOf(tables[i], r.envelope) == Key(ts, id);
    }
    TextWalkIsWalk(snaps, "", limit);
    WalkLength(snaps, None, pages);
    ListingWalk(snaps, limit, Key(ts, id));
  }

  /** And nothing but envelopes that were pending for it when their page was read. */
  lemma PendingWalkOnly(tables: seq<Relay.Tables>, x: Relay.Dev, limit: nat, k: Key)
    requires Usable(limit) && AllStorable(PendingSnaps(tables, x))
    requires k in Rows(Strip(TextWalk(PendingSnaps(tables, x), "", limit)))
    ensures exists i :: 0 <= i < |tables| && PendsIn(tables[i], x, k)
  {
    ListingWalk(PendingSnaps(tables, x), limit, k);
    var i :| 0 <= i < |tables| && k in PendingSnaps(tables, x)[i];
    assert PendsIn(tables[i], x, k);
  }

  predicate PendsIn(t: Relay.Tables, x: Relay.Dev, k: Key) {
    var r := Relay.RowKey(k.minor, x.user, x.device);
    r in t.delivery && !t.delivery[r].acked && k.minor in t.envelopes && t.envelopes[k.minor].timestamp == k.major
  }

  /** The store at each page of a walk over a conversation's history. */
  function HistorySnaps(tables: seq<Relay.Tables>, c: ConversationId): seq<set<Key>> {
    seq(|tables|, i requires 0 <= i < |tables| => ConversationRows(tables[i], c))
  }

  /** Following a conversation's history to the end finds every envelope that was there throughout. */
  lemma HistoryWalk(tables: seq<Relay.Tables>, c: ConversationId, limit: nat, id: EnvelopeId, e: Relay.Envelope)
    requires Usable(limit) && AllStorable(HistorySnaps(tables, c)) && e.conv == c
    requires forall i :: 0 <= i < |tables| ==> id in tables[i].envelopes && tables[i].envelopes[id] == e
    ensures var pages := Strip(TextWalk(HistorySnaps(tables, c), "", limit));
            Ended(pages) ==> Key(e.timestamp, id) in Rows(pages) && Sorted(Rows(pages))
  {
    var snaps := HistorySnaps(tables, c);
    var pages := Strip(TextWalk(snaps, "", limit));
    forall i | 0 <= i < |snaps| ensures Key(e.timestamp, id) in snaps[i] {
      assert id in tables[i].envelopes && KeyOf(tables[i], id) == Key(e.timestamp, id);
    }
    TextWalkIsWalk(snaps, "", limit);
    WalkLength(snaps, None, pages);
    ListingWalk(snaps, limit, Key(e.timestamp, id));
  }

  /** And nothing but envelopes of that conversation that were there when their page was read. */
  lemma HistoryWalkOnly(tables: seq<Relay.Tables>, c: ConversationId, limit: nat, k: Key)
    requires Usable(limit) && AllStorable(HistorySnaps(tables, c))
    requires k in Rows(Strip(TextWalk(HistorySnaps(tables, c), "", limit)))
    ensures exists i :: 0 <= i < |tables| && WrittenIn(tables[i], c, k)
  {
    ListingWalk(HistorySnaps(tables, c), limit, k);
    var i :| 0 <= i < |tables| && k in HistorySnaps(tables, c)[i];
    assert WrittenIn(tables[i], c, k);
  }

  predicate WrittenIn(t: Relay.Tables, c: ConversationId, k: Key) {
    k.minor in t.envelopes && t.envelopes[k.minor].conv == c && t.envelopes[k.minor].timestamp == k.major
  }
}
