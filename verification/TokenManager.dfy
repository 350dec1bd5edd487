/** The session repository and the token manager as they update the sessions table in place. */
module TokenManager {
  import opened Common
  import opened Sessions

  class SessionRepository {
    var devices: set<(UserId, DeviceId)>
    var rows: map<SessionId, Row>

    ghost function View(): Store
      reads this
    {
      Store(devices, rows)
    }

    /** The primary key and the two UNIQUE columns. */
    ghost predicate Valid()
      reads this
    {
      && (forall id :: id in rows ==> rows[id].session.id == id)
      && (forall a, b :: a in rows && b in rows && a != b ==>
            rows[a].session.access != rows[b].session.access && rows[a].session.refresh != rows[b].session.refresh)
    }

    constructor (devices: set<(UserId, DeviceId)>)
      ensures Valid() && View() == Store(devices, map[])
    {
      this.devices := devices;
      rows := map[];
    }

    method CreateSession(s: Session) returns (r: Result<Unit>)
      requires Valid()
      modifies this
      ensures Valid()
      ensures var made := Sessions.CreateSession(old(View()), s);
              && View() == (if made.Ok? then made.value else old(View()))
              && r == (if made.Ok? then Ok(Unit) else Err(Internal))
    {
      if s.id in rows || (s.user, s.device) !in devices
         || exists id :: id in rows && (rows[id].session.access == s.access || rows[id].session.refresh == s.refresh)
      {
        return Err(Internal);
      }
      rows := rows[s.id := Row(s, false)];
      r := Ok(Unit);
    }

    method FindByAccessToken(h: Hash) returns (r: Option<Session>)
      requires Valid()
      ensures match r
              case Some(s) => HoldsAccess(View(), s.id, h) && rows[s.id].session == s
              case None => forall id :: !HoldsAccess(View(), id, h)
    {
      if id :| id in rows && !rows[id].revoked && rows[id].session.access == h {
        return Some(rows[id].session);
      }
      r := None;
    }

    method FindByRefreshToken(h: Hash) returns (r: Option<Session>)
      requires Valid()
      ensures match r
              case Some(s) => HoldsRefresh(View(), s.id, h) && rows[s.id].session == s
              case None => forall id :: !HoldsRefresh(View(), id, h)
    {
      if id :| id in rows && !rows[id].revoked && rows[id].session.refresh == h {
        return Some(rows[id].session);
      }
      r := None;
    }

    method RevokeSession(id: SessionId) returns (r: Result<Unit>)
      requires Valid()
      modifies this
      ensures Valid()
      ensures var done := Sessions.RevokeSession(old(View()), id);
              && View() == (if done.Ok? then done.value else old(View()))
              && r == (if done.Ok? then Ok(Unit) else Err(NotFound))
    {
      if id in rows && !rows[id].revoked {
        rows := rows[id := rows[id].(revoked := true)];
        r := Ok(Unit);
      } else {
        r := Err(NotFound);
      }
    }

    method RevokeAllForUser(u: UserId)
      requires Valid()
      modifies this
      ensures Valid() && View() == RevokeWhere(old(View()), OfUser(old(View()), u))
    {
      rows := map id | id in rows :: rows[id].(revoked := rows[id].revoked || rows[id].session.user == u);
    }

    method RevokeAllForDevice(u: UserId, d: DeviceId)
      requires Valid()
      modifies this
      ensures Valid() && View() == RevokeWhere(old(View()), OfDevice(old(View()), u, d))
    {
      rows := map id | id in rows ::
        rows[id].(revoked := rows[id].revoked || (rows[id].session.user == u && rows[id].session.device == d));
    }

    method CleanExpired(now: Timestamp) returns (deleted: nat)
      requires Valid()
      modifies this
      ensures Valid() && View() == Sessions.CleanExpired(old(View()), now)
      ensures forall id :: id in rows <==> Live(old(View()), id) && now <= old(rows)[id].session.refreshExpires
      ensures deleted == |old(rows)| - |rows|
    {
      var kept := map id | id in rows && !(rows[id].session.refreshExpires < now || rows[id].revoked) :: rows[id];
      assert kept.Keys <= rows.Keys;
      assert rows.Keys == kept.Keys + (rows.Keys - kept.Keys);
      deleted := |rows| - |kept|;
      rows := kept;
    }
  }

  datatype TokenPair = TokenPair(access: string, refresh: string)
  datatype Refreshed = Refreshed(tokens: TokenPair, user: UserId)

  /** `hash` stands for the keyed hash of a token; ids and tokens are drawn outside and passed in. */
  class Manager {
    const sessions: SessionRepository
    const lifetimes: Lifetimes
    const hash: string -> Hash

    constructor (sessions: SessionRepository, lifetimes: Lifetimes, hash: string -> Hash)
      ensures this.sessions == sessions && this.lifetimes == lifetimes && this.hash == hash
    {
      this.sessions, this.lifetimes, this.hash := sessions, lifetimes, hash;
    }

    ghost function MintOf(id: SessionId, drawn: TokenPair): Mint { Mint(id, hash(drawn.access), hash(drawn.refresh)) }

    method IssueTokens(u: UserId, d: DeviceId, now: Timestamp, id: SessionId, drawn: TokenPair)
      returns (r: Result<TokenPair>)
      requires sessions.Valid()
      modifies sessions
      ensures sessions.Valid()
      ensures var made := Sessions.CreateSession(old(sessions.View()), Issue(lifetimes, MintOf(id, drawn), u, d, now));
              && sessions.View() == (if made.Ok? then made.value else old(sessions.View()))
              && r == (if made.Ok? then Ok(drawn) else Err(Internal))
      ensures r.Ok? ==> && id !in old(sessions.rows)
                        && sessions.rows == old(sessions.rows)[id := Row(
                             Session(id, u, d, hash(drawn.access), hash(drawn.refresh),
                                     now + lifetimes.access, now + lifetimes.refresh, now), false)]
    {
      var s := Session(id, u, d, hash(drawn.access), hash(drawn.refresh),
                       now + lifetimes.access, now + lifetimes.refresh, now);
      var made := sessions.CreateSession(s);
      if made.Err? {
        return Err(made.code);
      }
      r := Ok(drawn);
    }

    /** A token validates exactly when a live session holds its hash and its access time has not run out. */
    method ValidateAccessToken(token: string, now: Timestamp) returns (r: Result<Session>)
      requires sessions.Valid()
      ensures match r
              case Ok(s) =>
                && HoldsAccess(sessions.View(), s.id, hash(token)) && sessions.rows[s.id].session == s
                && now < s.accessExpires
              case Err(code) =>
                if code == Expired
                then exists id :: HoldsAccess(sessions.View(), id, hash(token))
                                  && sessions.rows[id].session.accessExpires <= now
                else code == Unauthorized && forall id :: !HoldsAccess(sessions.View(), id, hash(token))
    {
      var found := sessions.FindByAccessToken(hash(token));
      if found.None? {
        return Err(Unauthorized);
      }
      if found.value.accessExpires <= now {
        return Err(Expired);
      }
      r := Ok(found.value);
    }

    /** With no other call in between, a refresh is the find, revoke and create of the interleaved machine
        by one thread. */
    method RefreshTokens(token: string, d: DeviceId, now: Timestamp, newId: SessionId, drawn: TokenPair)
      returns (r: Result<Refreshed>, ghost found: SessionId)
      requires sessions.Valid()
      modifies sessions
      ensures sessions.Valid()
      ensures sessions.View() == Alone(lifetimes, old(sessions.View()), found, hash(token), d, now, MintOf(newId, drawn))
      ensures r.Err? && r.code == Unauthorized <==> forall id :: !HoldsRefresh(old(sessions.View()), id, hash(token))
      ensures r.Ok? ==> && HoldsRefresh(old(sessions.View()), found, hash(token))
                        && r.value == Refreshed(drawn, old(sessions.rows)[found].session.user)
                        && newId in sessions.rows && Live(sessions.View(), newId) && !Live(sessions.View(), found)
      ensures r.Err? && r.code != Internal ==> sessions.View() == old(sessions.View())
      ensures r.Ok? <==> newId !in old(sessions.rows) && newId in sessions.rows
      ensures r.Err? && r.code == Expired
         <==> && HoldsRefresh(old(sessions.View()), found, hash(token))
              && old(sessions.rows)[found].session.refreshExpires <= now
      ensures r.Err? && r.code == Forbidden
         <==> && HoldsRefresh(old(sessions.View()), found, hash(token))
              && now < old(sessions.rows)[found].session.refreshExpires && old(sessions.rows)[found].session.device != d
      ensures r.Ok? || r.code in {Unauthorized, Expired, Forbidden, Internal}
    {
      found := "";
      var session := sessions.FindByRefreshToken(hash(token));
      if session.Some? { found := session.value.id; }
      AloneIs(lifetimes, sessions.View(), found, hash(token), d, now, MintOf(newId, drawn));
      if session.None? {
        return Err(Unauthorized), found;
      }
      var s := session.value;
      assert HoldsRefresh(sessions.View(), found, hash(token));
      if s.refreshExpires <= now {
        return Err(Expired), found;
      }
      if s.device != d {
        return Err(Forbidden), found;
      }
      var revoked := sessions.RevokeSession(s.id);
      if revoked.Err? {
        return Err(NotFound), found;
      }
      var pair := IssueTokens(s.user, d, now, newId, drawn);
      if pair.Err? {
        return Err(pair.code), found;
      }
      r := Ok(Refreshed(pair.value, s.user));
    }

    method RevokeByAccessToken(token: string, now: Timestamp) returns (r: Result<Unit>)
      requires sessions.Valid()
      modifies sessions
      ensures sessions.Valid()
      ensures if exists id :: HoldsAccess(old(sessions.View()), id, hash(token))
                              && now < old(sessions.rows)[id].session.accessExpires
              then r.Ok? && exists id :: HoldsAccess(old(sessions.View()), id, hash(token))
                                         && sessions.View() == Sessions.RevokeSession(old(sessions.View()), id).value
              else && r.Err? && sessions.View() == old(sessions.View())
                   && r.code == if exists id :: HoldsAccess(old(sessions.View()), id, hash(token))
                                then Expired else Unauthorized
    {
      var session := ValidateAccessToken(token, now);
      ghost var t := old(sessions.View());
      assert sessions.View() == t;
      assert forall a, b :: HoldsAccess(t, a, hash(token)) && HoldsAccess(t, b, hash(token)) ==> a == b;
      if session.Err? {
        return Err(session.code);
      }
      r := sessions.RevokeSession(session.value.id);
    }
  }

  /** A live session holds the hash, on this device, and its refresh time has not run out. */
  ghost predicate Refreshable(t: Store, id: SessionId, h: Hash, d: DeviceId, now: Timestamp) {
    HoldsRefresh(t, id, h) && now < t.rows[id].session.refreshExpires && t.rows[id].session.device == d
  }

  /** The store after one thread runs its three calls with nobody in between. */
  function Alone(l: Lifetimes, t: Store, id: SessionId, h: Hash, d: DeviceId, now: Timestamp, m: Mint): Store {
    Exec(System(t, map[], map[], 0), l, [Find(0, id, h, d, now), Sessions.Revoke(0), Create(0, m)]).store
  }

  lemma AloneIs(l: Lifetimes, t: Store, id: SessionId, h: Hash, d: DeviceId, now: Timestamp, m: Mint)
    requires forall i :: i in t.rows ==> t.rows[i].session.id == i
    ensures Alone(l, t, id, h, d, now, m)
            == if !HoldsRefresh(t, id, h) || t.rows[id].session.refreshExpires <= now || t.rows[id].session.device != d
               then t
               else
                 var revoked := t.(rows := t.rows[id := t.rows[id].(revoked := true)]);
                 var made := Sessions.CreateSession(revoked, Issue(l, m, t.rows[id].session.user, d, now));
                 if made.Ok? then made.value else revoked
  {
    var calls := [Find(0, id, h, d, now), Sessions.Revoke(0), Create(0, m)];
    var s := System(t, map[], map[], 0);
    assert calls[..2][..1] == calls[..1] && calls[..1][..0] == [];
    var s1 := Step(s, l, calls[0]);
    assert Exec(s, l, calls[..1]) == s1;
    var s2 := Step(s1, l, calls[1]);
    assert Exec(s, l, calls[..2]) == s2;
    assert Exec(s, l, calls) == Step(s2, l, calls[2]);
  }

  /** So a new session comes of it exactly when the token can be refreshed and the draw is new. */
  lemma AloneCreates(l: Lifetimes, t: Store, id: SessionId, h: Hash, d: DeviceId, now: Timestamp, m: Mint)
    requires (forall i :: i in t.rows ==> t.rows[i].session.id == i) && m.id !in t.rows
    ensures m.id in Alone(l, t, id, h, d, now, m).rows
       <==> && Refreshable(t, id, h, d, now) && (t.rows[id].session.user, d) in t.devices
            && forall i :: i in t.rows ==> t.rows[i].session.access != m.access && t.rows[i].session.refresh != m.refresh
  {
    AloneIs(l, t, id, h, d, now, m);
    if Refreshable(t, id, h, d, now) {
      var revoked := t.(rows := t.rows[id := t.rows[id].(revoked := true)]);
      assert forall i :: i in t.rows ==> revoked.rows[i].session == t.rows[i].session;
      CreateExactly(revoked, Issue(l, m, t.rows[id].session.user, d, now));
    }
  }
}
