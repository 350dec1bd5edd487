/** Synchronised records with optimistic versions (lib/vox_store/sync_state_repository.cpp). */
module SyncState {
  import opened Common
  import opened Keyset
  import Decimal
  import EnvelopeListing

  datatype RecordKey = RecordKey(user: UserId, collection: string, record: string)
  datatype Record = Record(
    rowId: int, ciphertext: string, contentHash: string, version: int, deleted: bool, updatedAt: Timestamp)

  /** `nextId` is the AUTOINCREMENT counter. */
  datatype Table = Table(users: set<UserId>, rows: map<RecordKey, Record>, nextId: int)

  datatype PutResult = PutResult(version: int, updatedAt: Timestamp, deleted: bool)

  /** One write: an upsert or a tombstone, with the version the client believes is current. */
  datatype Write =
    | Upsert(key: RecordKey, ciphertext: string, contentHash: string, base: int, now: Timestamp)
    | Tombstone(key: RecordKey, base: int, now: Timestamp)

  function Refusal(t: Table, w: Write): Option<ErrorCode> {
    if w.key in t.rows then if t.rows[w.key].version != w.base then Some(Duplicate) else None
    else if w.Tombstone? then Some(NotFound)
    else if w.base != 0 then Some(Duplicate)
    else if w.key.user !in t.users then Some(Internal)
    else None
  }

  /** What an accepted write leaves in the row. */
  function Written(w: Write, rowId: int, version: int): Record {
    if w.Upsert? then Record(rowId, w.ciphertext, w.contentHash, version, false, w.now)
    else Record(rowId, "", "", version, true, w.now)
  }

  /** The row holds what the write brought: its texts, or nothing but the mark of a tombstone, and its time. */
  predicate Reflects(row: Record, w: Write) {
    && row.updatedAt == w.now && row.deleted == w.Tombstone?
    && row.ciphertext == (if w.Upsert? then w.ciphertext else "")
    && row.contentHash == (if w.Upsert? then w.contentHash else "")
  }

  function Apply(t: Table, w: Write): Table {
    if Refusal(t, w).Some? then t
    else if w.key in t.rows then
      t.(rows := t.rows[w.key := Written(w, t.rows[w.key].rowId, t.rows[w.key].version + 1)])
    else t.(rows := t.rows[w.key := Written(w, t.nextId, 1)], nextId := t.nextId + 1)
  }

  function Answer(t: Table, w: Write): Result<PutResult> {
    if Refusal(t, w).Some? then Err(Refusal(t, w).value)
    else Ok(PutResult(w.base + 1, w.now, w.Tombstone?))
  }

  // ---- Runs -----------------------------------------------------------------------------------

  function Empty(users: set<UserId>): Table { Table(users, map[], 1) }

  function Run(users: set<UserId>, ws: seq<Write>): Table {
    if ws == [] then Empty(users) else Apply(Run(users, ws[..|ws| - 1]), ws[|ws| - 1])
  }

  /** The accepted writes to one record, in order. */
  function Accepted(users: set<UserId>, ws: seq<Write>, key: RecordKey): seq<Write> {
    if ws == [] then []
    else
      var w := ws[|ws| - 1];
      var before := Accepted(users, ws[..|ws| - 1], key);
      if w.key == key && Refusal(Run(users, ws[..|ws| - 1]), w).None? then before + [w] else before
  }

  /** No lost update: the accepted writes to a record named the base versions 0, 1, 2, ... without gap or
      repetition, its version is their number, and its contents are those of the last of them. */
  lemma {:induction false} VersionsCount(users: set<UserId>, ws: seq<Write>, key: RecordKey)
    ensures var t := Run(users, ws);
            var done := Accepted(users, ws, key);
            && (forall i :: 0 <= i < |done| ==> done[i].key == key && done[i].base == i)
            && (key in t.rows <==> done != [])
            && (key in t.rows ==> t.rows[key].version == |done| && Reflects(t.rows[key], done[|done| - 1]))
  {
    if ws != [] {
      VersionsCount(users, ws[..|ws| - 1], key);
    }
  }

  lemma {:induction false} RunUsers(users: set<UserId>, ws: seq<Write>)
    ensures Run(users, ws).users == users
  {
    if ws != [] { RunUsers(users, ws[..|ws| - 1]); }
  }

  /** A write is accepted exactly when its base is the number of writes to the record so far, the first being an
      upsert by a registered user; the answer names the new version, the time and the kind. */
  lemma AcceptedExactly(users: set<UserId>, ws: seq<Write>, w: Write)
    ensures var done := |Accepted(users, ws, w.key)|;
            Answer(Run(users, ws), w)
            == if done == 0 && w.Tombstone? then Err(NotFound)
               else if w.base != done then Err(Duplicate)
               else if done == 0 && w.key.user !in users then Err(Internal)
               else Ok(PutResult(done + 1, w.now, w.Tombstone?))
  {
    VersionsCount(users, ws, w.key);
    RunUsers(users, ws);
  }

  const MAX32: int := 0x7fff_ffff

  /** The version is a 32-bit int in the original: its increment stays in range exactly until a record has
      been written 2^31 - 1 times. */
  lemma IncrementFits(users: set<UserId>, ws: seq<Write>, w: Write)
    requires Refusal(Run(users, ws), w).None?
    ensures w.base == |Accepted(users, ws, w.key)|
    ensures Answer(Run(users, ws), w).value.version <= MAX32 <==> |Accepted(users, ws, w.key)| < MAX32
  {
    VersionsCount(users, ws, w.key);
  }

  /** One client writing one record over and over, always on top of its own last write. */
  function Again(key: RecordKey, n: nat): Write { Upsert(key, "", "", n, 0) }
  function Rewrites(key: RecordKey, n: nat): seq<Write> { seq(n, i requires 0 <= i => Again(key, i)) }

  lemma {:induction false} RewritesAccepted(key: RecordKey, n: nat)
    ensures |Accepted({key.user}, Rewrites(key, n), key)| == n
    ensures var t := Run({key.user}, Rewrites(key, n)); t.users == {key.user} && Refusal(t, Again(key, n)).None?
  {
    var ws := Rewrites(key, n);
    if n > 0 {
      RewritesAccepted(key, n - 1);
      assert ws[..n - 1] == Rewrites(key, n - 1) && ws[n - 1] == Again(key, n - 1);
    }
    VersionsCount({key.user}, ws, key);
  }

  /** The limit is met: after 2^31 - 1 rewrites the next is accepted too, and its version does not fit. */
  lemma IncrementOverflows(key: RecordKey)
    ensures var t := Run({key.user}, Rewrites(key, MAX32));
            var w := Again(key, MAX32);
            Refusal(t, w).None? && Answer(t, w).value.version == MAX32 + 1
  {
    RewritesAccepted(key, MAX32);
  }

  /** An answer is an error exactly when the table stays the same, and names the version now stored. */
  lemma AnswerTells(t: Table, w: Write)
    ensures Answer(t, w).Err? ==> Apply(t, w) == t
    ensures Answer(t, w).Ok? ==> var r := Answer(t, w).value;
                                 && w.key in Apply(t, w).rows && Apply(t, w).rows[w.key].version == r.version
                                 && Apply(t, w).rows[w.key].deleted == r.deleted
                                 && Apply(t, w).rows[w.key].updatedAt == r.updatedAt
                                 && Apply(t, w).rows[w.key].rowId
                                    == (if w.key in t.rows then t.rows[w.key].rowId else t.nextId)
                                 && Apply(t, w).nextId == (if w.key in t.rows then t.nextId else t.nextId + 1)
                                 && Reflects(Apply(t, w).rows[w.key], w) && Apply(t, w) != t
    ensures forall k :: k != w.key ==> (k in Apply(t, w).rows <==> k in t.rows)
                                       && (k in t.rows ==> Apply(t, w).rows[k] == t.rows[k])
  {}

  // ---- Row ids --------------------------------------------------------------------------------

  ghost predicate Numbered(t: Table) {
    && (forall k :: k in t.rows ==> 1 <= t.rows[k].rowId < t.nextId)
    && (forall a, b :: a in t.rows && b in t.rows && a != b ==> t.rows[a].rowId != t.rows[b].rowId)
  }

  lemma {:induction false} RunNumbered(users: set<UserId>, ws: seq<Write>)
    ensures Numbered(Run(users, ws)) && Run(users, ws).nextId >= 1
  {
    if ws != [] { RunNumbered(users, ws[..|ws| - 1]); }
  }

  /** The rows of one user's collection, by row id. */
  function RowsOf(t: Table, user: UserId, collection: string): set<Key> {
    set k | k in t.rows && k.user == user && k.collection == collection :: Key(t.rows[k].rowId, "")
  }

  /** Row `k` is that of a record of this user and collection. */
  ghost predicate InCollection(t: Table, user: UserId, collection: string, k: Key) {
    k.minor == "" && exists key :: && key in t.rows && key.user == user && key.collection == collection
                                   && t.rows[key].rowId == k.major
  }

  lemma RowsOfExactly(t: Table, user: UserId, collection: string)
    ensures forall k :: k in RowsOf(t, user, collection) <==> InCollection(t, user, collection, k)
  {}

  /** Later in a run no row has gone, and new rows have larger ids. */
  ghost predicate Extends(a: Table, b: Table) {
    && a.nextId <= b.nextId
    && (forall k :: k in a.rows ==> k in b.rows && b.rows[k].rowId == a.rows[k].rowId)
    && (forall k :: k in b.rows && k !in a.rows ==> a.nextId <= b.rows[k].rowId)
  }

  lemma {:induction false} RunExtends(users: set<UserId>, ws: seq<Write>, i: nat)
    requires i <= |ws|
    ensures Extends(Run(users, ws[..i]), Run(users, ws))
    decreases |ws|
  {
    if i == |ws| {
      assert ws[..i] == ws;
      RunNumbered(users, ws);
    } else {
      var front := ws[..|ws| - 1];
      assert front[..i] == ws[..i];
      RunExtends(users, front, i);
    }
  }

  lemma ExtendsAppends(a: Table, b: Table, user: UserId, collection: string)
    requires Extends(a, b) && Numbered(a)
    ensures Appends(RowsOf(a, user, collection), RowsOf(b, user, collection))
  {}

  // ---- Cursors --------------------------------------------------------------------------------

  function ParseCursorId(cursor: string): Option<int> { if cursor == "" then Some(0) else Decimal.FromChars(cursor) }

  datatype ChangesPage = ChangesPage(changes: seq<Key>, hasMore: bool, nextCursor: string)

  /** An empty page hands the cursor back. */
  function NextCursor(p: Page, cursor: string): string {
    if p.rows == [] then cursor else Decimal.ToText(p.rows[|p.rows| - 1].major)
  }

  function CursorKey(cursor: string): Option<Key>
    requires ParseCursorId(cursor).Some?
  {
    Some(Key(ParseCursorId(cursor).value, ""))
  }

  ghost function ListAt(rows: set<Key>, cursor: string, limit: nat): ChangesPage {
    if ParseCursorId(cursor).None? then ChangesPage([], false, "")
    else
      var p := PageAt(rows, CursorKey(cursor), limit);
      ChangesPage(p.rows, p.hasMore, NextCursor(p, cursor))
  }

  ghost function ChangesWalk(snaps: seq<set<Key>>, cursor: string, limit: nat): seq<ChangesPage> {
    if snaps == [] then []
    else
      var p := ListAt(snaps[0], cursor, limit);
      if p.hasMore then [p] + ChangesWalk(snaps[1..], p.nextCursor, limit) else [p]
  }

  function Strip(pages: seq<ChangesPage>): seq<Page> {
    seq(|pages|, i requires 0 <= i < |pages| => Page(pages[i].changes, pages[i].hasMore))
  }

  ghost predicate RowIds(rows: set<Key>) {
    forall k :: k in rows ==> 1 <= k.major && Decimal.IsInt64(k.major) && k.minor == ""
  }

  lemma ListedPage(rows: set<Key>, cursor: string, limit: nat)
    requires Usable(limit) && RowIds(rows) && ParseCursorId(cursor).Some?
    ensures var p := ListAt(rows, cursor, limit);
            && Fits(Page(p.changes, p.hasMore), After(rows, CursorKey(cursor)))
            && (if p.changes == [] then p.nextCursor == cursor
                else && ParseCursorId(p.nextCursor).Some?
                     && CursorKey(p.nextCursor) == Next(Page(p.changes, p.hasMore)))
  {
    var p := PageAt(rows, CursorKey(cursor), limit);
    PageFits(rows, CursorKey(cursor), limit);
    if p.rows != [] {
      var last := p.rows[|p.rows| - 1];
      assert last in p.rows && last in rows;
      Decimal.FromCharsUndoes(last.major);
      Decimal.TextIsPlain(last.major, ' ');
    }
  }

  lemma StripRest(p: ChangesPage, rest: seq<ChangesPage>)
    ensures Strip([p] + rest)[0] == Page(p.changes, p.hasMore) && Strip([p] + rest)[1..] == Strip(rest)
  {}

  lemma {:induction false} ChangesWalkIsWalk(snaps: seq<set<Key>>, cursor: string, limit: nat)
    requires Usable(limit) && ParseCursorId(cursor).Some?
    requires forall i :: 0 <= i < |snaps| ==> RowIds(snaps[i])
    ensures IsWalk(snaps, CursorKey(cursor), Strip(ChangesWalk(snaps, cursor, limit)))
    decreases |snaps|
  {
    if snaps != [] {
      var p := ListAt(snaps[0], cursor, limit);
      ListedPage(snaps[0], cursor, limit);
      if p.hasMore {
        ChangesWalkIsWalk(snaps[1..], p.nextCursor, limit);
        StripRest(p, ChangesWalk(snaps[1..], p.nextCursor, limit));
      }
    }
  }

  // ---- The walk -------------------------------------------------------------------------------

  /** The rows when the walk gets to page i, after the first at[i] writes of the run. */
  function Snaps(users: set<UserId>, ws: seq<Write>, at: seq<nat>, user: UserId, collection: string): seq<set<Key>>
    requires forall i :: 0 <= i < |at| ==> at[i] <= |ws|
  {
    seq(|at|, i requires 0 <= i < |at| => RowsOf(Run(users, ws[..at[i]]), user, collection))
  }

  ghost predicate InOrder(at: seq<nat>, n: nat) {
    && (forall i :: 0 <= i < |at| ==> at[i] <= n)
    && forall i, j :: 0 <= i <= j < |at| ==> at[i] <= at[j]
  }

  lemma SnapsGrow(users: set<UserId>, ws: seq<Write>, at: seq<nat>, user: UserId, collection: string)
    requires InOrder(at, |ws|)
    ensures Growing(Snaps(users, ws, at, user, collection))
  {
    var snaps := Snaps(users, ws, at, user, collection);
    forall i, j | 0 <= i <= j < |snaps| ensures Appends(snaps[i], snaps[j]) {
      var later := ws[..at[j]];
      assert later[..at[i]] == ws[..at[i]];
      RunExtends(users, later, at[i]);
      RunNumbered(users, ws[..at[i]]);
      ExtendsAppends(Run(users, ws[..at[i]]), Run(users, later), user, collection);
    }
  }

  lemma SnapsRowIds(users: set<UserId>, ws: seq<Write>, at: seq<nat>, user: UserId, collection: string)
    requires InOrder(at, |ws|) && Run(users, ws).nextId <= Decimal.MAX64
    ensures var snaps := Snaps(users, ws, at, user, collection);
            forall i :: 0 <= i < |snaps| ==> RowIds(snaps[i])
  {
    var snaps := Snaps(users, ws, at, user, collection);
    forall i | 0 <= i < |snaps| ensures RowIds(snaps[i]) {
      RunNumbered(users, ws[..at[i]]);
      RunExtends(users, ws, at[i]);
    }
  }

  /** Row ids start at 1, so the empty cursor skips none. */
  lemma AfterStart(rows: set<Key>)
    requires RowIds(rows)
    ensures After(rows, CursorKey("")) == rows
  {}

  /** Following next_cursor from the empty cursor while clients insert, update and tombstone: a finished
      walk returns, once each and in row-id order, exactly the records there when its last page is read. */
  lemma SyncWalk(users: set<UserId>, ws: seq<Write>, at: seq<nat>, user: UserId, collection: string, limit: nat)
    requires Usable(limit) && InOrder(at, |ws|) && Run(users, ws).nextId <= Decimal.MAX64
    ensures var pages := Strip(ChangesWalk(Snaps(users, ws, at, user, collection), "", limit));
            Ended(pages) ==>
              && 1 <= |pages| <= |at|
              && Sorted(Rows(pages))
              && forall k :: k in Rows(pages) <==> InCollection(Run(users, ws[..at[|pages| - 1]]), user, collection, k)
  {
    var snaps := Snaps(users, ws, at, user, collection);
    var pages := Strip(ChangesWalk(snaps, "", limit));
    SnapsRowIds(users, ws, at, user, collection);
    SnapsGrow(users, ws, at, user, collection);
    ChangesWalkIsWalk(snaps, "", limit);
    if Ended(pages) {
      WalkGrowing(snaps, CursorKey(""), pages);
      AfterStart(snaps[|pages| - 1]);
      RowsOfExactly(Run(users, ws[..at[|pages| - 1]]), user, collection);
    }
  }

  // ---- The repository -------------------------------------------------------------------------

  class Repository {
    var users: set<UserId>
    var rows: map<RecordKey, Record>
    var nextId: int

    ghost function View(): Table
      reads this
    {
      Table(users, rows, nextId)
    }

    constructor (users: set<UserId>)
      ensures View() == Empty(users)
    {
      this.users, rows, nextId := users, map[], 1;
    }

    method UpsertRecord(key: RecordKey, ciphertext: string, contentHash: string, base: int, now: Timestamp)
      returns (r: Result<PutResult>)
      modifies this
      ensures var w := Upsert(key, ciphertext, contentHash, base, now);
              View() == Apply(old(View()), w) && r == Answer(old(View()), w)
    {
      if key in rows {
        var current := rows[key].version;
        if current != base {
          return Err(Duplicate);
        }
        var version := current + 1;
        rows := rows[key := rows[key].(ciphertext := ciphertext, contentHash := contentHash, version := version,
                                       deleted := false, updatedAt := now)];
        return Ok(PutResult(version, now, false));
      }
      if base != 0 {
        return Err(Duplicate);
      }
      if key.user !in users {
        return Err(Internal);
      }
      rows := rows[key := Record(nextId, ciphertext, contentHash, 1, false, now)];
      nextId := nextId + 1;
      r := Ok(PutResult(1, now, false));
    }

    method TombstoneRecord(key: RecordKey, base: int, now: Timestamp) returns (r: Result<PutResult>)
      modifies this
      ensures var w := Tombstone(key, base, now);
              View() == Apply(old(View()), w) && r == Answer(old(View()), w)
    {
      if key !in rows {
        return Err(NotFound);
      }
      var current := rows[key].version;
      if current != base {
        return Err(Duplicate);
      }
      var version := current + 1;
      rows := rows[key := rows[key].(ciphertext := "", contentHash := "", version := version,
                                     deleted := true, updatedAt := now)];
      r := Ok(PutResult(version, now, true));
    }

    method ListChangesAfterCursor(user: UserId, collection: string, cursor: string, limit: nat)
      returns (page: ChangesPage)
      requires IsSize(limit)
      ensures page == ListAt(RowsOf(View(), user, collection), cursor, limit)
      ensures cursor != "" && Decimal.FromChars(cursor).None? ==> page == ChangesPage([], false, "")
    {
      var last := ParseCursorId(cursor);
      if last.None? {
        return ChangesPage([], false, "");
      }
      var selected := set k | k in rows && k.user == user && k.collection == collection :: Key(rows[k].rowId, "");
      var p := EnvelopeListing.FetchPage(After(selected, Some(Key(last.value, ""))), limit);
      var next := cursor;
      if p.rows != [] {
        next := Decimal.ToText(p.rows[|p.rows| - 1].major);
      }
      page := ChangesPage(p.rows, p.hasMore, next);
    }
  }
}
