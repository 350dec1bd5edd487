/** One-time prekeys: uploaded in batches, each row handed out at most once, dropped on revocation. */
module Prekeys {
  import opened Common

  type PrekeyId = string
  datatype Owner = Owner(user: UserId, device: DeviceId)
  datatype Upload = Upload(id: PrekeyId, public: string)

  /** A one_time_prekeys row; `serial` numbers the rows ever stored. */
  datatype Prekey = Prekey(serial: nat, owner: Owner, public: string, consumed: bool)

  /** `devices` maps to the revocation mark. */
  datatype Table = Table(devices: map<Owner, bool>, rows: map<PrekeyId, Prekey>, nextSerial: nat)

  predicate Available(t: Table, o: Owner, id: PrekeyId) {
    id in t.rows && t.rows[id].owner == o && !t.rows[id].consumed
  }

  function AvailableIds(t: Table, o: Owner): set<PrekeyId> {
    set id | id in t.rows && t.rows[id].owner == o && !t.rows[id].consumed
  }

  // ---- StorePrekeys ---------------------------------------------------------------------------

  predicate Storable(t: Table, o: Owner, batch: seq<Upload>) {
    && (batch != [] ==> o in t.devices)
    && (forall i :: 0 <= i < |batch| ==> batch[i].id !in t.rows)
    && forall i, j :: 0 <= i < j < |batch| ==> batch[i].id != batch[j].id
  }

  /** The batch inserted, the last upload last. */
  function Stored(t: Table, o: Owner, batch: seq<Upload>): Table {
    if batch == [] then t
    else
      var before, pk := Stored(t, o, batch[..|batch| - 1]), batch[|batch| - 1];
      before.(rows := before.rows[pk.id := Prekey(before.nextSerial, o, pk.public, false)],
              nextSerial := before.nextSerial + 1)
  }

  /** All or nothing. */
  function StorePrekeys(t: Table, o: Owner, batch: seq<Upload>): Table {
    if Storable(t, o, batch) then Stored(t, o, batch) else t
  }

  lemma {:induction false} StoredRows(t: Table, o: Owner, batch: seq<Upload>, id: PrekeyId)
    requires Storable(t, o, batch)
    ensures var t2 := Stored(t, o, batch);
            && t2.nextSerial == t.nextSerial + |batch| && t2.devices == t.devices
            && (id in t.rows ==> id in t2.rows && t2.rows[id] == t.rows[id])
            && (id in t2.rows && id !in t.rows ==>
                  exists i :: 0 <= i < |batch| && t2.rows[id] == Prekey(t.nextSerial + i, o, batch[i].public, false)
                              && batch[i].id == id)
  {
    if batch != [] {
      var front, pk := batch[..|batch| - 1], batch[|batch| - 1];
      StoredRows(t, o, front, id);
      if id == pk.id {
        assert batch[|batch| - 1].id == id;
      } else if id in Stored(t, o, front).rows && id !in t.rows {
        var i :| 0 <= i < |front| && front[i].id == id &&
                 Stored(t, o, front).rows[id] == Prekey(t.nextSerial + i, o, front[i].public, false);
        assert batch[i].id == id;
      }
    }
  }

  /** Every upload of a stored batch is there. */
  lemma {:induction false} StoredAll(t: Table, o: Owner, batch: seq<Upload>, i: nat)
    requires Storable(t, o, batch) && i < |batch|
    ensures var t2 := Stored(t, o, batch);
            batch[i].id in t2.rows && t2.rows[batch[i].id] == Prekey(t.nextSerial + i, o, batch[i].public, false)
  {
    var front := batch[..|batch| - 1];
    if i < |front| {
      StoredAll(t, o, front, i);
    } else {
      StoredRows(t, o, front, "");
    }
  }

  /** StorePrekeys takes a batch exactly when its ids are new and different and the device exists. Then the rows are
      the old ones and one for each upload, available and with its public key. */
  lemma StoreExactly(t: Table, o: Owner, batch: seq<Upload>)
    ensures var t2 := StorePrekeys(t, o, batch);
            var fits := && (batch == [] || o in t.devices) && (forall i :: 0 <= i < |batch| ==> batch[i].id !in t.rows)
                        && (forall i, j :: 0 <= i < j < |batch| ==> batch[i].id != batch[j].id);
            && t2.devices == t.devices && (!fits ==> t2 == t)
            && (fits ==>
                  && (forall id :: id in t.rows ==> id in t2.rows && t2.rows[id] == t.rows[id])
                  && (forall i :: 0 <= i < |batch| ==>
                        && batch[i].id in t2.rows
                        && t2.rows[batch[i].id] == Prekey(t.nextSerial + i, o, batch[i].public, false))
                  && (forall id :: id in t2.rows && id !in t.rows ==> exists i :: 0 <= i < |batch| && batch[i].id == id))
  {
    if Storable(t, o, batch) {
      forall id ensures && (id in t.rows ==> id in Stored(t, o, batch).rows && Stored(t, o, batch).rows[id] == t.rows[id])
                        && (id in Stored(t, o, batch).rows && id !in t.rows ==>
                              exists i :: 0 <= i < |batch| && batch[i].id == id)
      {
        StoredRows(t, o, batch, id);
      }
      forall i | 0 <= i < |batch|
        ensures && batch[i].id in Stored(t, o, batch).rows
                && Stored(t, o, batch).rows[batch[i].id] == Prekey(t.nextSerial + i, o, batch[i].public, false)
      {
        StoredAll(t, o, batch, i);
      }
      StoredRows(t, o, batch, "");
    }
  }

  // ---- Handing out, revoking ------------------------------------------------------------------

  function Consume(t: Table, id: PrekeyId): Table
    requires id in t.rows
  {
    t.(rows := t.rows[id := t.rows[id].(consumed := true)])
  }

  function RevokeDevice(t: Table, o: Owner): Result<Table> {
    if o !in t.devices || t.devices[o] then Err(NotFound)
    else Ok(t.(devices := t.devices[o := true],
               rows := map id | id in t.rows && t.rows[id].owner != o :: t.rows[id]))
  }

  /** A hand-out marks one row and changes nothing else. */
  lemma ConsumeExactly(t: Table, id: PrekeyId, x: PrekeyId)
    requires id in t.rows
    ensures var t2 := Consume(t, id);
            && t2 == t.(rows := t2.rows) && (x in t2.rows <==> x in t.rows)
            && (x in t.rows ==> t2.rows[x] == Prekey(t.rows[x].serial, t.rows[x].owner, t.rows[x].public,
                                                     t.rows[x].consumed || x == id))
  {}

  /** A revocation is granted once per device; it marks the device and deletes exactly its rows. */
  lemma RevokeExactly(t: Table, o: Owner, x: PrekeyId)
    ensures var r := RevokeDevice(t, o);
            && (r.Ok? <==> o in t.devices && !t.devices[o]) && (r.Err? ==> r.code == NotFound)
            && (r.Ok? ==> && r.value.devices == t.devices[o := true] && r.value.nextSerial == t.nextSerial
                          && (x in r.value.rows <==> x in t.rows && t.rows[x].owner != o)
                          && (x in r.value.rows ==> r.value.rows[x] == t.rows[x]))
  {}

  // ---- Runs -----------------------------------------------------------------------------------

  datatype Call =
    | Register(o: Owner)
    | Store(o: Owner, batch: seq<Upload>)
    | Hand(o: Owner, id: PrekeyId)  // a bundle or consume call that picks the available row `id`
    | Revoke(o: Owner)

  /** The table and the serials of the rows ever stored, handed out, and dropped unused by a revocation. */
  datatype System = System(t: Table, handed: seq<nat>, dropped: set<nat>)

  function Step(s: System, c: Call): System {
    match c
    case Register(o) => if o in s.t.devices then s else s.(t := s.t.(devices := s.t.devices[o := false]))
    case Store(o, batch) => s.(t := StorePrekeys(s.t, o, batch))
    case Hand(o, id) =>
      if Available(s.t, o, id) then s.(t := Consume(s.t, id), handed := s.handed + [s.t.rows[id].serial]) else s
    case Revoke(o) =>
      var r := RevokeDevice(s.t, o);
      if r.Err? then s
      else System(r.value, s.handed, s.dropped + set id | id in AvailableIds(s.t, o) :: s.t.rows[id].serial)
  }

  function Run(calls: seq<Call>): System {
    if calls == [] then System(Table(map[], map[], 0), [], {})
    else Step(Run(calls[..|calls| - 1]), calls[|calls| - 1])
  }

  /** Serials of the rows that can still be handed out. */
  function Left(t: Table): set<nat> { set id | id in t.rows && !t.rows[id].consumed :: t.rows[id].serial }

  ghost predicate Serials(t: Table) {
    && (forall id :: id in t.rows ==> t.rows[id].serial < t.nextSerial)
    && (forall a, b :: a in t.rows && b in t.rows && a != b ==> t.rows[a].serial != t.rows[b].serial)
  }

  /** Each row ever stored is available, handed out or dropped, and only one of these; none is handed out
      twice. */
  ghost predicate Balanced(s: System) {
    && Serials(s.t)
    && (forall i, j :: 0 <= i < j < |s.handed| ==> s.handed[i] != s.handed[j])
    && (forall n :: n in s.handed ==> n !in s.dropped && n !in Left(s.t) && n < s.t.nextSerial)
    && (forall n :: n in s.dropped ==> n !in Left(s.t) && n < s.t.nextSerial)
    && (forall n: nat :: n < s.t.nextSerial ==> n in s.handed || n in s.dropped || n in Left(s.t))
  }

  lemma StoreSerials(t: Table, o: Owner, batch: seq<Upload>)
    requires Serials(t) && Storable(t, o, batch)
    ensures Serials(Stored(t, o, batch))
  {}

  /** Storing makes exactly the new serials available. */
  lemma StoreLeft(t: Table, o: Owner, batch: seq<Upload>, n: nat)
    requires Storable(t, o, batch)
    ensures n in Left(Stored(t, o, batch)) <==> n in Left(t) || t.nextSerial <= n < t.nextSerial + |batch|
  {
    var t2 := Stored(t, o, batch);
    if n in Left(t2) {
      var id :| id in t2.rows && !t2.rows[id].consumed && t2.rows[id].serial == n;
      StoredRows(t, o, batch, id);
    }
    if n in Left(t) {
      var id :| id in t.rows && !t.rows[id].consumed && t.rows[id].serial == n;
      StoredRows(t, o, batch, id);
    }
    if t.nextSerial <= n < t.nextSerial + |batch| {
      StoredAll(t, o, batch, n - t.nextSerial);
    }
  }

  lemma StoreBalanced(s: System, o: Owner, batch: seq<Upload>)
    requires Balanced(s)
    ensures Balanced(Step(s, Store(o, batch)))
  {
    if Storable(s.t, o, batch) {
      var t2 := Stored(s.t, o, batch);
      StoreSerials(s.t, o, batch);
      StoredRows(s.t, o, batch, "");
      forall n: nat ensures n in Left(t2) <==> n in Left(s.t) || s.t.nextSerial <= n < t2.nextSerial {
        StoreLeft(s.t, o, batch, n);
      }
    }
  }

  lemma HandLeft(t: Table, id: PrekeyId)
    requires Serials(t) && id in t.rows && !t.rows[id].consumed
    ensures Left(Consume(t, id)) == Left(t) - {t.rows[id].serial}
  {
    var t2 := Consume(t, id);
    forall n ensures n in Left(t2) <==> n in Left(t) && n != t.rows[id].serial {
      if n in Left(t2) {
        var x :| x in t2.rows && !t2.rows[x].consumed && t2.rows[x].serial == n;
        assert x != id && x in t.rows;
      }
      if n in Left(t) && n != t.rows[id].serial {
        var x :| x in t.rows && !t.rows[x].consumed && t.rows[x].serial == n;
        assert x in t2.rows && t2.rows[x] == t.rows[x];
      }
    }
  }

  lemma HandBalanced(s: System, o: Owner, id: PrekeyId)
    requires Balanced(s)
    ensures Balanced(Step(s, Hand(o, id)))
  {
    if Available(s.t, o, id) {
      HandLeft(s.t, id);
      var n := s.t.rows[id].serial;
      assert n in Left(s.t);
    }
  }

  lemma RevokeLeft(t: Table, o: Owner)
    requires Serials(t) && RevokeDevice(t, o).Ok?
    ensures Left(RevokeDevice(t, o).value) == Left(t) - (set id | id in AvailableIds(t, o) :: t.rows[id].serial)
  {
    var t2 := RevokeDevice(t, o).value;
    var gone := set id | id in AvailableIds(t, o) :: t.rows[id].serial;
    forall n ensures n in Left(t2) <==> n in Left(t) && n !in gone {
      if n in Left(t2) {
        var x :| x in t2.rows && !t2.rows[x].consumed && t2.rows[x].serial == n;
        assert x in t.rows && t.rows[x] == t2.rows[x];
      }
      if n in Left(t) && n !in gone {
        var x :| x in t.rows && !t.rows[x].consumed && t.rows[x].serial == n;
        assert x in AvailableIds(t, o) ==> n in gone;
        assert x in t2.rows;
      }
    }
  }

  lemma RevokeBalanced(s: System, o: Owner)
    requires Balanced(s)
    ensures Balanced(Step(s, Revoke(o)))
  {
    if RevokeDevice(s.t, o).Ok? {
      RevokeLeft(s.t, o);
      var gone := set id | id in AvailableIds(s.t, o) :: s.t.rows[id].serial;
      forall n | n in gone ensures n in Left(s.t) {
        var id :| id in AvailableIds(s.t, o) && s.t.rows[id].serial == n;
        assert id in s.t.rows;
      }
    }
  }

  lemma {:induction false} RunBalanced(calls: seq<Call>)
    ensures Balanced(Run(calls))
  {
    if calls != [] {
      var s, c := Run(calls[..|calls| - 1]), calls[|calls| - 1];
      RunBalanced(calls[..|calls| - 1]);
      match c
      case Register(o) => assert Left(Step(s, c).t) == Left(s.t);
      case Store(o, batch) => StoreBalanced(s, o, batch);
      case Hand(o, id) => HandBalanced(s, o, id);
      case Revoke(o) => RevokeBalanced(s, o);
    }
  }

  function Upto(n: nat): set<nat> { if n == 0 then {} else Upto(n - 1) + {n - 1} }

  lemma {:induction false} UptoIs(n: nat)
    ensures |Upto(n)| == n && forall x: nat :: x in Upto(n) <==> x < n
  {
    if n > 0 { UptoIs(n - 1); }
  }

  function Elements(q: seq<nat>): set<nat> { if q == [] then {} else Elements(q[..|q| - 1]) + {q[|q| - 1]} }

  lemma {:induction false} ElementsAre(q: seq<nat>)
    ensures forall x :: x in Elements(q) <==> x in q
  {
    if q != [] {
      ElementsAre(q[..|q| - 1]);
      assert q == q[..|q| - 1] + [q[|q| - 1]];
    }
  }

  lemma {:induction false} DistinctCount(q: seq<nat>)
    requires forall i, j :: 0 <= i < j < |q| ==> q[i] != q[j]
    ensures |Elements(q)| == |q|
  {
    if q != [] {
      DistinctCount(q[..|q| - 1]);
      ElementsAre(q[..|q| - 1]);
    }
  }

  lemma ThreeParts(all: set<nat>, a: set<nat>, b: set<nat>, c: set<nat>)
    requires a !! b && a !! c && b !! c && all == a + b + c
    ensures |all| == |a| + |b| + |c|
  {}

  /** On every run: stored = available + handed out + dropped by revocation. */
  lemma PrekeysConserved(calls: seq<Call>)
    ensures var s := Run(calls); s.t.nextSerial == |Left(s.t)| + |s.handed| + |s.dropped|
  {
    RunBalanced(calls);
    BalancedCounts(Run(calls));
  }

  lemma LeftBelow(t: Table)
    requires Serials(t)
    ensures forall n :: n in Left(t) ==> n < t.nextSerial
  {}

  lemma BalancedCounts(s: System)
    requires Balanced(s)
    ensures s.t.nextSerial == |Left(s.t)| + |s.handed| + |s.dropped|
  {
    var left, handed, all := Left(s.t), Elements(s.handed), Upto(s.t.nextSerial);
    DistinctCount(s.handed);
    ElementsAre(s.handed);
    UptoIs(s.t.nextSerial);
    LeftBelow(s.t);
    assert all == left + handed + s.dropped;
    ThreeParts(all, left, handed, s.dropped);
  }

  // ---- The repository -------------------------------------------------------------------------

  datatype Bundle = Bundle(prekey: Option<(PrekeyId, string)>)

  class Repository {
    var devices: map<Owner, bool>
    var rows: map<PrekeyId, Prekey>
    var nextSerial: nat

    ghost function View(): Table
      reads this
    {
      Table(devices, rows, nextSerial)
    }

    /** One INSERT per upload inside a transaction; the first that violates a key rolls all of them back. */
    method StorePrekeysInTransaction(o: Owner, batch: seq<Upload>) returns (r: Result<Unit>)
      modifies this
      ensures View() == StorePrekeys(old(View()), o, batch)
      ensures r == if Storable(old(View()), o, batch) then Ok(Unit) else Err(Internal)
    {
      var savedRows, savedSerial := rows, nextSerial;
      ghost var start := View();
      for i := 0 to |batch|
        invariant Storable(start, o, batch[..i]) && View() == Stored(start, o, batch[..i])
        invariant devices == start.devices
      {
        var pk := batch[i];
        NextStorable(start, o, batch, i);
        if pk.id in rows || o !in devices {
          rows, nextSerial := savedRows, savedSerial;
          return Err(Internal);
        }
        assert batch[..i + 1][..i] == batch[..i];
        rows, nextSerial := rows[pk.id := Prekey(nextSerial, o, pk.public, false)], nextSerial + 1;
      }
      assert batch[..|batch|] == batch;
      r := Ok(Unit);
    }

    /** Picks any available row, marks it consumed and hands it out. */
    method ConsumeOneAvailable(o: Owner) returns (r: Option<(PrekeyId, string)>)
      modifies this
      ensures match r
              case Some(pk) => && Available(old(View()), o, pk.0) && pk.1 == old(rows)[pk.0].public
                               && View() == Consume(old(View()), pk.0)
              case None => View() == old(View()) && AvailableIds(old(View()), o) == {}
    {
      if id :| id in rows && rows[id].owner == o && !rows[id].consumed {
        r := Some((id, rows[id].public));
        rows := rows[id := rows[id].(consumed := true)];
      } else {
        r := None;
      }
    }

    /** The bundle of an unrevoked device lacks a prekey only when none is available. */
    method GetPrekeyBundle(o: Owner) returns (r: Result<Bundle>)
      modifies this
      ensures match r
              case Ok(b) =>
                && o in devices && !devices[o]
                && (match b.prekey
                    case Some(pk) => && Available(old(View()), o, pk.0) && pk.1 == old(rows)[pk.0].public
                                     && View() == Consume(old(View()), pk.0)
                    case None => View() == old(View()) && AvailableIds(old(View()), o) == {})
              case Err(code) =>
                && View() == old(View()) && code == (if o !in devices then NotFound else Forbidden)
                && (o in devices ==> devices[o])
    {
      if o !in devices {
        return Err(NotFound);
      }
      if devices[o] {
        return Err(Forbidden);
      }
      var pk := ConsumeOneAvailable(o);
      r := Ok(Bundle(pk));
    }

    method ConsumeOneTimePrekey(o: Owner) returns (r: Result<(PrekeyId, string)>)
      modifies this
      ensures match r
              case Ok(pk) => && Available(old(View()), o, pk.0) && pk.1 == old(rows)[pk.0].public
                             && View() == Consume(old(View()), pk.0)
              case Err(code) => code == NotFound && View() == old(View()) && AvailableIds(old(View()), o) == {}
    {
      var pk := ConsumeOneAvailable(o);
      if pk.None? {
        return Err(NotFound);
      }
      r := Ok(pk.value);
    }

    method Revoke(o: Owner) returns (r: Result<Unit>)
      modifies this
      ensures var done := RevokeDevice(old(View()), o);
              && View() == (if done.Ok? then done.value else old(View()))
              && r == (if done.Ok? then Ok(Unit) else Err(NotFound))
    {
      if o !in devices || devices[o] {
        return Err(NotFound);
      }
      devices := devices[o := true];
      rows := map id | id in rows && rows[id].owner != o :: rows[id];
      r := Ok(Unit);
    }
  }

  /** One more upload fits exactly when its id is new and the device exists. */
  lemma NextStorable(t: Table, o: Owner, batch: seq<Upload>, i: nat)
    requires i < |batch| && Storable(t, o, batch[..i])
    ensures var t1 := Stored(t, o, batch[..i]);
            if batch[i].id in t1.rows || o !in t1.devices then !Storable(t, o, batch)
            else Storable(t, o, batch[..i + 1])
  {
    var done := batch[..i];
    StoredRows(t, o, done, batch[i].id);
    forall j | 0 <= j < i ensures batch[j].id in Stored(t, o, done).rows {
      StoredAll(t, o, done, j);
      assert done[j] == batch[j];
    }
  }
}
