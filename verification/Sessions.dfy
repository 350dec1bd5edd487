/** Login sessions and refresh-token rotation, interleaved store call by store call. A refresh finds the
    session, revokes it if nobody has, and creates its successor; other calls may come in between. */
module Sessions {
  import opened Common

  type SessionId = string
  type Hash = string

  datatype Session = Session(
    id: SessionId, user: UserId, device: DeviceId, access: Hash, refresh: Hash,
    accessExpires: Timestamp, refreshExpires: Timestamp, created: Timestamp)

  datatype Row = Row(session: Session, revoked: bool)

  /** The sessions table and the devices its foreign key points to. */
  datatype Store = Store(devices: set<(UserId, DeviceId)>, rows: map<SessionId, Row>)

  // ---- SessionRepository ----------------------------------------------------------------------

  predicate Taken(t: Store, s: Session) {
    exists id :: id in t.rows && (t.rows[id].session.access == s.access || t.rows[id].session.refresh == s.refresh)
  }

  function CreateSession(t: Store, s: Session): Result<Store> {
    if s.id in t.rows || Taken(t, s) || (s.user, s.device) !in t.devices then Err(Internal)
    else Ok(t.(rows := t.rows[s.id := Row(s, false)]))
  }

  predicate Live(t: Store, id: SessionId) { id in t.rows && !t.rows[id].revoked }

  predicate HoldsRefresh(t: Store, id: SessionId, h: Hash) { Live(t, id) && t.rows[id].session.refresh == h }

  predicate HoldsAccess(t: Store, id: SessionId, h: Hash) { Live(t, id) && t.rows[id].session.access == h }

  function RevokeSession(t: Store, id: SessionId): Result<Store> {
    if Live(t, id) then Ok(t.(rows := t.rows[id := t.rows[id].(revoked := true)])) else Err(NotFound)
  }

  function RevokeWhere(t: Store, chosen: set<SessionId>): Store {
    t.(rows := map id | id in t.rows :: t.rows[id].(revoked := t.rows[id].revoked || id in chosen))
  }

  function OfUser(t: Store, u: UserId): set<SessionId> { set id | id in t.rows && t.rows[id].session.user == u }

  function OfDevice(t: Store, u: UserId, d: DeviceId): set<SessionId> {
    set id | id in t.rows && t.rows[id].session.user == u && t.rows[id].session.device == d
  }

  function CleanExpired(t: Store, now: Timestamp): Store {
    t.(rows := map id | id in t.rows && !(t.rows[id].session.refreshExpires < now || t.rows[id].revoked) :: t.rows[id])
  }

  /** A session is created exactly when its id and both hashes are new and its device exists; it is live. */
  lemma CreateExactly(t: Store, s: Session)
    ensures var r := CreateSession(t, s);
            && (r.Ok? <==> && s.id !in t.rows && (s.user, s.device) in t.devices
                           && forall id :: id in t.rows ==> t.rows[id].session.access != s.access
                                                            && t.rows[id].session.refresh != s.refresh)
            && (r.Ok? ==> r.value == Store(t.devices, t.rows[s.id := Row(s, false)])) && (r.Err? ==> r.code == Internal)
  {}

  /** Revoking by user or device ends exactly their sessions and changes nothing else. */
  lemma RevokeExactly(t: Store, u: UserId, d: DeviceId, id: SessionId)
    ensures var t2 := RevokeWhere(t, OfUser(t, u));
            && t2.devices == t.devices && (id in t2.rows <==> id in t.rows)
            && (id in t.rows ==>
                  t2.rows[id] == Row(t.rows[id].session, t.rows[id].revoked || t.rows[id].session.user == u))
    ensures var t2 := RevokeWhere(t, OfDevice(t, u, d));
            && t2.devices == t.devices && (id in t2.rows <==> id in t.rows)
            && (id in t.rows ==>
                  var session := t.rows[id].session;
                  t2.rows[id] == Row(session, t.rows[id].revoked || (session.user == u && session.device == d)))
  {}

  /** Revoking one session succeeds exactly if it is live, and ends it alone. */
  lemma RevokeOneExactly(t: Store, x: SessionId, id: SessionId)
    ensures var r := RevokeSession(t, x);
            && (r.Ok? <==> Live(t, x)) && (r.Err? ==> r.code == NotFound)
            && (r.Ok? ==> && r.value.devices == t.devices && (id in r.value.rows <==> id in t.rows)
                          && (id in t.rows ==>
                                r.value.rows[id] == Row(t.rows[id].session, t.rows[id].revoked || id == x)))
  {}

  /** The clean-up keeps exactly the live sessions that can still be refreshed. */
  lemma CleanExactly(t: Store, now: Timestamp, id: SessionId)
    ensures var t2 := CleanExpired(t, now);
            && t2.devices == t.devices
            && (id in t2.rows <==> Live(t, id) && now <= t.rows[id].session.refreshExpires)
            && (id in t2.rows ==> t2.rows[id] == t.rows[id])
  {}

  // ---- The interleaved machine ----------------------------------------------------------------

  /** What the server draws for a new session: its id and the hashes of its two tokens. */
  datatype Mint = Mint(id: SessionId, access: Hash, refresh: Hash)

  datatype Lifetimes = Lifetimes(access: Timestamp, refresh: Timestamp)

  function Issue(l: Lifetimes, m: Mint, u: UserId, d: DeviceId, now: Timestamp): Session {
    Session(m.id, u, d, m.access, m.refresh, now + l.access, now + l.refresh, now)
  }

  /** A RefreshTokens call in flight: it has found its session, or has revoked it and will create. */
  datatype Thread = Found(session: Session, now: Timestamp) | Won(session: Session, now: Timestamp)

  /** A session ever created: the one it succeeded, and the number of the login it descends from. */
  datatype Birth = Birth(session: Session, parent: Option<SessionId>, login: nat)

  datatype System = System(store: Store, threads: map<nat, Thread>, born: map<SessionId, Birth>, logins: nat)

  datatype Call =
    | Register(user: UserId, device: DeviceId)
    | Login(mint: Mint, user: UserId, device: DeviceId, now: Timestamp)
    | Find(tid: nat, id: SessionId, refresh: Hash, device: DeviceId, now: Timestamp)
    | Revoke(tid: nat)
    | Create(tid: nat, mint: Mint)
    | RevokeOne(id: SessionId)
    | RevokeUser(user: UserId)
    | RevokeDevice(user: UserId, device: DeviceId)
    | Clean(now: Timestamp)

  function Add(s: System, session: Session, parent: Option<SessionId>, login: nat): System {
    var r := CreateSession(s.store, session);
    if r.Err? then s else s.(store := r.value, born := s.born[session.id := Birth(session, parent, login)])
  }

  function LoginOf(s: System, id: SessionId): nat { if id in s.born then s.born[id].login else 0 }

  function Step(s: System, l: Lifetimes, c: Call): System {
    match c
    case Register(u, d) => s.(store := s.store.(devices := s.store.devices + {(u, d)}))
    case Login(m, u, d, now) => Add(s.(logins := s.logins + 1), Issue(l, m, u, d, now), None, s.logins)
    case Find(tid, id, h, d, now) =>
      if tid in s.threads || !HoldsRefresh(s.store, id, h) then s
      else
        var session := s.store.rows[id].session;
        if session.refreshExpires <= now || session.device != d then s
        else s.(threads := s.threads[tid := Found(session, now)])
    case Revoke(tid) =>
      if tid !in s.threads || s.threads[tid].Won? then s
      else
        var th := s.threads[tid];
        var r := RevokeSession(s.store, th.session.id);
        if r.Ok? then s.(store := r.value, threads := s.threads[tid := Won(th.session, th.now)])
        else s.(threads := s.threads - {tid})
    case Create(tid, m) =>
      if tid !in s.threads || s.threads[tid].Found? then s
      else
        var th := s.threads[tid];
        Add(s.(threads := s.threads - {tid}), Issue(l, m, th.session.user, th.session.device, th.now),
            Some(th.session.id), LoginOf(s, th.session.id))
    case RevokeOne(id) =>
      var r := RevokeSession(s.store, id);
      if r.Ok? then s.(store := r.value) else s
    case RevokeUser(u) => s.(store := RevokeWhere(s.store, OfUser(s.store, u)))
    case RevokeDevice(u, d) => s.(store := RevokeWhere(s.store, OfDevice(s.store, u, d)))
    case Clean(now) => s.(store := CleanExpired(s.store, now))
  }

  /** Ids and tokens are drawn at random and the token hash is injective: a draw repeats none before it. */
  ghost predicate Unused(s: System, m: Mint) {
    m.id !in s.born
    && forall id :: id in s.born ==> s.born[id].session.access != m.access && s.born[id].session.refresh != m.refresh
  }

  ghost predicate Enabled(s: System, c: Call) { c.Login? || c.Create? ==> Unused(s, c.mint) }

  const EMPTY: System := System(Store({}, map[]), map[], map[], 0)

  function Exec(s: System, l: Lifetimes, calls: seq<Call>): System {
    if calls == [] then s else Step(Exec(s, l, calls[..|calls| - 1]), l, calls[|calls| - 1])
  }

  ghost predicate Legal(s: System, l: Lifetimes, calls: seq<Call>) {
    forall i :: 0 <= i < |calls| ==> Enabled(Exec(s, l, calls[..i]), calls[i])
  }

  // ---- Invariants -----------------------------------------------------------------------------
  // One predicate per entry or pair of entries; each is instantiated by name.

  ghost predicate Winning(s: System, i: nat) { i in s.threads && s.threads[i].Won? }

  ghost predicate RowOk(s: System, id: SessionId) {
    id in s.store.rows ==> id in s.born && s.store.rows[id].session == s.born[id].session
  }

  /** A successor belongs to the same user, device and login, and its predecessor is spent. */
  ghost predicate Succeeds(s: System, id: SessionId, p: SessionId)
    requires id in s.born
  {
    && p in s.born && !Live(s.store, p)
    && s.born[id].session.user == s.born[p].session.user && s.born[id].session.device == s.born[p].session.device
    && s.born[id].login == s.born[p].login
  }

  ghost predicate BirthOk(s: System, id: SessionId) {
    id in s.born ==>
      && s.born[id].session.id == id && s.born[id].login < s.logins
      && (s.born[id].session.user, s.born[id].session.device) in s.store.devices
      && (s.born[id].parent.Some? ==> Succeeds(s, id, s.born[id].parent.value))
  }

  ghost predicate ThreadOk(s: System, i: nat) {
    i in s.threads ==>
      var session := s.threads[i].session;
      && session.id in s.born && s.born[session.id].session == session
      && (s.threads[i].Won? ==> !Live(s.store, session.id))
  }

  /** Two sessions share no token hash and no predecessor. */
  ghost predicate Apart(s: System, a: SessionId, b: SessionId) {
    a in s.born && b in s.born && a != b ==>
      && s.born[a].session.access != s.born[b].session.access
      && s.born[a].session.refresh != s.born[b].session.refresh
      && (s.born[a].parent.Some? ==> s.born[a].parent != s.born[b].parent)
  }

  /** The session a winner has revoked has no successor yet. */
  ghost predicate Childless(s: System, i: nat, id: SessionId) {
    Winning(s, i) && id in s.born ==> s.born[id].parent != Some(s.threads[i].session.id)
  }

  // A login is held by a live session or by a refresh about to create one, never by two.

  ghost predicate LiveApart(s: System, a: SessionId, b: SessionId) {
    Live(s.store, a) && Live(s.store, b) && LoginOf(s, a) == LoginOf(s, b) ==> a == b
  }

  ghost predicate WinnersApart(s: System, i: nat, j: nat) {
    Winning(s, i) && Winning(s, j) && LoginOf(s, s.threads[i].session.id) == LoginOf(s, s.threads[j].session.id)
    ==> i == j
  }

  ghost predicate HoldersApart(s: System, a: SessionId, i: nat) {
    Live(s.store, a) && Winning(s, i) ==> LoginOf(s, a) != LoginOf(s, s.threads[i].session.id)
  }

  ghost predicate OneHolder(s: System) {
    && (forall a, b {:trigger LiveApart(s, a, b)} :: LiveApart(s, a, b))
    && (forall i, j {:trigger WinnersApart(s, i, j)} :: WinnersApart(s, i, j))
    && (forall a, i {:trigger HoldersApart(s, a, i)} :: HoldersApart(s, a, i))
  }

  ghost predicate Inv(s: System) {
    && (forall id {:trigger RowOk(s, id)} :: RowOk(s, id))
    && (forall id {:trigger BirthOk(s, id)} :: BirthOk(s, id))
    && (forall i {:trigger ThreadOk(s, i)} :: ThreadOk(s, i))
    && (forall a, b {:trigger Apart(s, a, b)} :: Apart(s, a, b))
    && (forall i, id {:trigger Childless(s, i, id)} :: Childless(s, i, id))
    && OneHolder(s)
  }

  // ---- Steps ----------------------------------------------------------------------------------

  /** Fewer live rows and winners, nothing new but calls that have just found their session. */
  ghost predicate Shrinks(s: System, s2: System) {
    && s2.born == s.born && s2.logins == s.logins && s.store.devices <= s2.store.devices
    && (forall id :: id in s2.store.rows ==> id in s.store.rows && s2.store.rows[id].session == s.store.rows[id].session)
    && (forall id :: Live(s2.store, id) ==> Live(s.store, id))
    && (forall i :: i in s2.threads ==> (i in s.threads && s2.threads[i] == s.threads[i]) || JustFound(s, s2.threads[i]))
  }

  ghost predicate JustFound(s: System, th: Thread) {
    th.Found? && th.session.id in s.born && s.born[th.session.id].session == th.session
  }

  lemma ShrinkKeeps(s: System, s2: System)
    requires Inv(s) && Shrinks(s, s2)
    ensures Inv(s2)
  {
    forall id ensures RowOk(s2, id) { assert RowOk(s, id); }
    forall id ensures BirthOk(s2, id) { assert BirthOk(s, id); }
    forall i ensures ThreadOk(s2, i) { assert ThreadOk(s, i); }
    forall a, b ensures Apart(s2, a, b) { assert Apart(s, a, b); }
    forall i, id ensures Childless(s2, i, id) { assert Childless(s, i, id); }
    forall a, b ensures LiveApart(s2, a, b) { assert LiveApart(s, a, b); }
    forall i, j ensures WinnersApart(s2, i, j) { assert WinnersApart(s, i, j); }
    forall a, i ensures HoldersApart(s2, a, i) { assert HoldersApart(s, a, i); }
  }

  lemma FindShrinks(s: System, l: Lifetimes, c: Call)
    requires Inv(s) && c.Find?
    ensures Shrinks(s, Step(s, l, c))
  {
    assert RowOk(s, c.id);
    assert BirthOk(s, c.id);
  }

  /** The refresh that revokes a live session takes over its login. */
  lemma WinKeeps(s: System, s2: System, tid: nat, p: Session, now: Timestamp)
    requires Inv(s) && tid in s.threads && s.threads[tid] == Found(p, now) && Live(s.store, p.id)
    requires s2 == s.(store := RevokeSession(s.store, p.id).value, threads := s.threads[tid := Won(p, now)])
    ensures Inv(s2)
  {
    assert ThreadOk(s, tid);
    forall id ensures RowOk(s2, id) { assert RowOk(s, id); }
    forall id ensures BirthOk(s2, id) { assert BirthOk(s, id); }
    forall i ensures ThreadOk(s2, i) { assert ThreadOk(s, i); }
    forall a, b ensures Apart(s2, a, b) { assert Apart(s, a, b); }
    forall i, id ensures Childless(s2, i, id) { assert Childless(s, i, id) && BirthOk(s, id); }
    forall a, b ensures LiveApart(s2, a, b) { assert LiveApart(s, a, b); }
    forall i, j ensures WinnersApart(s2, i, j) {
      assert WinnersApart(s, i, j) && HoldersApart(s, p.id, i) && HoldersApart(s, p.id, j);
    }
    forall a, i ensures HoldersApart(s2, a, i) { assert HoldersApart(s, a, i) && LiveApart(s, a, p.id); }
  }

  lemma RevokeKeeps(s: System, l: Lifetimes, tid: nat)
    requires Inv(s)
    ensures Inv(Step(s, l, Revoke(tid)))
  {
    if tid in s.threads && s.threads[tid].Found? {
      var th := s.threads[tid];
      if Live(s.store, th.session.id) {
        WinKeeps(s, Step(s, l, Revoke(tid)), tid, th.session, th.now);
      } else {
        ShrinkKeeps(s, Step(s, l, Revoke(tid)));
      }
    }
  }

  /** `session` may be added: its login is held by nobody, and if it has a predecessor it is the first. */
  ghost predicate Addable(s: System, session: Session, parent: Option<SessionId>, login: nat) {
    && Unused(s, Mint(session.id, session.access, session.refresh)) && login < s.logins
    && (forall a :: Live(s.store, a) ==> LoginOf(s, a) != login)
    && (forall i :: Winning(s, i) ==> LoginOf(s, s.threads[i].session.id) != login)
    && (parent.Some? ==>
          var p := parent.value;
          && p in s.born && !Live(s.store, p) && s.born[p].login == login
          && s.born[p].session.user == session.user && s.born[p].session.device == session.device
          && forall id :: id in s.born ==> s.born[id].parent != parent)
  }

  lemma AddKeeps(s: System, session: Session, parent: Option<SessionId>, login: nat)
    requires Inv(s) && Addable(s, session, parent, login)
    ensures Inv(Add(s, session, parent, login))
  {
    var s2 := Add(s, session, parent, login);
    if CreateSession(s.store, session).Ok? {
      forall id ensures RowOk(s2, id) { assert RowOk(s, id); }
      forall id ensures BirthOk(s2, id) { AddBirth(s, session, parent, login, id); }
      forall i ensures ThreadOk(s2, i) { assert ThreadOk(s, i); }
      forall a, b ensures Apart(s2, a, b) { assert Apart(s, a, b); }
      forall i, id ensures Childless(s2, i, id) { AddChildless(s, session, parent, login, i, id); }
      AddHolder(s, session, parent, login);
    }
  }

  lemma AddBirth(s: System, session: Session, parent: Option<SessionId>, login: nat, id: SessionId)
    requires Inv(s) && Addable(s, session, parent, login) && CreateSession(s.store, session).Ok?
    ensures BirthOk(Add(s, session, parent, login), id)
  {
    assert BirthOk(s, id);
  }

  lemma AddChildless(s: System, session: Session, parent: Option<SessionId>, login: nat, i: nat, id: SessionId)
    requires Inv(s) && Addable(s, session, parent, login) && CreateSession(s.store, session).Ok?
    ensures Childless(Add(s, session, parent, login), i, id)
  {
    assert Childless(s, i, id) && ThreadOk(s, i);
  }

  lemma AddLive(s: System, session: Session, parent: Option<SessionId>, login: nat, a: SessionId, b: SessionId)
    requires Inv(s) && Addable(s, session, parent, login) && CreateSession(s.store, session).Ok?
    ensures LiveApart(Add(s, session, parent, login), a, b)
  {
    var s2 := Add(s, session, parent, login);
    assert LiveApart(s, a, b) && RowOk(s, a) && RowOk(s, b);
    assert a != session.id && Live(s2.store, a) ==> Live(s.store, a) && LoginOf(s2, a) == LoginOf(s, a);
    assert b != session.id && Live(s2.store, b) ==> Live(s.store, b) && LoginOf(s2, b) == LoginOf(s, b);
  }

  lemma AddHolder(s: System, session: Session, parent: Option<SessionId>, login: nat)
    requires Inv(s) && Addable(s, session, parent, login) && CreateSession(s.store, session).Ok?
    ensures OneHolder(Add(s, session, parent, login))
  {
    var s2 := Add(s, session, parent, login);
    forall a, b ensures LiveApart(s2, a, b) { AddLive(s, session, parent, login, a, b); }
    forall i, j ensures WinnersApart(s2, i, j) { assert WinnersApart(s, i, j) && ThreadOk(s, i) && ThreadOk(s, j); }
    forall a, i ensures HoldersApart(s2, a, i) { assert HoldersApart(s, a, i) && RowOk(s, a) && ThreadOk(s, i); }
  }

  lemma LoginKeeps(s: System, l: Lifetimes, m: Mint, u: UserId, d: DeviceId, now: Timestamp)
    requires Inv(s) && Unused(s, m)
    ensures Inv(Step(s, l, Login(m, u, d, now)))
  {
    var s1 := s.(logins := s.logins + 1);
    NumberKeeps(s, s1);
    forall a | Live(s1.store, a) ensures LoginOf(s1, a) != s.logins { assert RowOk(s, a) && BirthOk(s, a); }
    forall i | Winning(s1, i) ensures LoginOf(s1, s1.threads[i].session.id) != s.logins {
      assert ThreadOk(s, i) && BirthOk(s, s.threads[i].session.id);
    }
    AddKeeps(s1, Issue(l, m, u, d, now), None, s.logins);
  }

  lemma NumberKeeps(s: System, s1: System)
    requires Inv(s) && s1 == s.(logins := s.logins + 1)
    ensures Inv(s1)
  {
    forall id ensures RowOk(s1, id) { assert RowOk(s, id); }
    forall id ensures BirthOk(s1, id) { assert BirthOk(s, id); }
    forall i ensures ThreadOk(s1, i) { assert ThreadOk(s, i); }
    forall a, b ensures Apart(s1, a, b) { assert Apart(s, a, b); }
    forall i, id ensures Childless(s1, i, id) { assert Childless(s, i, id); }
    forall a, b ensures LiveApart(s1, a, b) { assert LiveApart(s, a, b); }
    forall i, j ensures WinnersApart(s1, i, j) { assert WinnersApart(s, i, j); }
    forall a, i ensures HoldersApart(s1, a, i) { assert HoldersApart(s, a, i); }
  }

  lemma CreateKeeps(s: System, l: Lifetimes, tid: nat, m: Mint)
    requires Inv(s) && Unused(s, m)
    ensures Inv(Step(s, l, Create(tid, m)))
  {
    if Winning(s, tid) {
      var th := s.threads[tid];
      var s1 := s.(threads := s.threads - {tid});
      ShrinkKeeps(s, s1);
      var login := LoginOf(s, th.session.id);
      assert ThreadOk(s, tid) && BirthOk(s, th.session.id);
      forall a | Live(s1.store, a) ensures LoginOf(s1, a) != login { assert HoldersApart(s, a, tid); }
      forall i | Winning(s1, i) ensures LoginOf(s1, s1.threads[i].session.id) != login {
        assert WinnersApart(s, i, tid);
      }
      forall id | id in s1.born ensures s1.born[id].parent != Some(th.session.id) { assert Childless(s, tid, id); }
      AddKeeps(s1, Issue(l, m, th.session.user, th.session.device, th.now), Some(th.session.id), login);
    }
  }

  lemma StepKeeps(s: System, l: Lifetimes, c: Call)
    requires Inv(s) && Enabled(s, c)
    ensures Inv(Step(s, l, c))
  {
    match c
    case Login(m, u, d, now) => LoginKeeps(s, l, m, u, d, now);
    case Revoke(tid) => RevokeKeeps(s, l, tid);
    case Create(tid, m) => CreateKeeps(s, l, tid, m);
    case Find(_, _, _, _, _) =>
      FindShrinks(s, l, c);
      ShrinkKeeps(s, Step(s, l, c));
    case _ =>
      OtherShrinks(s, l, c);
      ShrinkKeeps(s, Step(s, l, c));
  }

  lemma OtherShrinks(s: System, l: Lifetimes, c: Call)
    requires c.Register? || c.RevokeOne? || c.RevokeUser? || c.RevokeDevice? || c.Clean?
    ensures Shrinks(s, Step(s, l, c))
  {}

  lemma {:induction false} ExecKeeps(s: System, l: Lifetimes, calls: seq<Call>)
    requires Inv(s) && Legal(s, l, calls)
    ensures Inv(Exec(s, l, calls))
  {
    if calls != [] {
      LegalFront(s, l, calls);
      ExecKeeps(s, l, calls[..|calls| - 1]);
      StepKeeps(Exec(s, l, calls[..|calls| - 1]), l, calls[|calls| - 1]);
    }
  }

  lemma LegalFront(s: System, l: Lifetimes, calls: seq<Call>)
    requires calls != [] && Legal(s, l, calls)
    ensures Legal(s, l, calls[..|calls| - 1])
    ensures Enabled(Exec(s, l, calls[..|calls| - 1]), calls[|calls| - 1])
  {
    var front := calls[..|calls| - 1];
    assert forall i :: 0 <= i <= |front| ==> front[..i] == calls[..i];
  }

  lemma EmptyOk()
    ensures Inv(EMPTY)
  {}

  // ---- What every interleaving guarantees -----------------------------------------------------

  /** Exactly once: two sessions that succeeded the same session are one, with its user and device. */
  lemma RefreshedOnce(l: Lifetimes, calls: seq<Call>, a: SessionId, b: SessionId, p: SessionId)
    requires Legal(EMPTY, l, calls)
    ensures var s := Exec(EMPTY, l, calls);
            a in s.born && b in s.born && s.born[a].parent == Some(p) && s.born[b].parent == Some(p)
            ==> && a == b && p in s.born
                && s.born[a].session.user == s.born[p].session.user
                && s.born[a].session.device == s.born[p].session.device
  {
    EmptyOk();
    ExecKeeps(EMPTY, l, calls);
    var s := Exec(EMPTY, l, calls);
    assert BirthOk(s, a) && Apart(s, a, b);
  }

  /** One holder: of the sessions that descend from one login at most one is unrevoked, and none is while a
      refresh stands between its revoke and its create. */
  lemma OneLivePerLogin(l: Lifetimes, calls: seq<Call>, a: SessionId, b: SessionId, i: nat)
    requires Legal(EMPTY, l, calls)
    ensures var s := Exec(EMPTY, l, calls);
            && (Live(s.store, a) && Live(s.store, b) && LoginOf(s, a) == LoginOf(s, b) ==> a == b)
            && (Live(s.store, a) && Winning(s, i) ==> LoginOf(s, a) != LoginOf(s, s.threads[i].session.id))
  {
    EmptyOk();
    ExecKeeps(EMPTY, l, calls);
    var s := Exec(EMPTY, l, calls);
    assert LiveApart(s, a, b) && HoldersApart(s, a, i);
  }

  /** A call neither forgets a session nor brings a spent one back. */
  lemma StepSpent(s: System, l: Lifetimes, c: Call, id: SessionId)
    requires Enabled(s, c) && id in s.born
    ensures var s2 := Step(s, l, c);
            id in s2.born && s2.born[id] == s.born[id] && (Live(s2.store, id) ==> Live(s.store, id))
  {}

  /** Spent stays spent: a session that was created and is not live now will never be live. */
  lemma {:induction false} SpentForever(s: System, l: Lifetimes, calls: seq<Call>, id: SessionId)
    requires Legal(s, l, calls) && id in s.born && !Live(s.store, id)
    ensures var s2 := Exec(s, l, calls); id in s2.born && s2.born[id] == s.born[id] && !Live(s2.store, id)
  {
    if calls != [] {
      LegalFront(s, l, calls);
      SpentForever(s, l, calls[..|calls| - 1], id);
      StepSpent(Exec(s, l, calls[..|calls| - 1]), l, calls[|calls| - 1], id);
    }
  }

  /** So its tokens are dead: neither hash is found again, whatever happens. */
  lemma SpentTokens(s: System, l: Lifetimes, calls: seq<Call>, id: SessionId, other: SessionId)
    requires Inv(s) && Legal(s, l, calls) && id in s.born && !Live(s.store, id)
    ensures var s2 := Exec(s, l, calls);
            && !HoldsAccess(s2.store, other, s.born[id].session.access)
            && !HoldsRefresh(s2.store, other, s.born[id].session.refresh)
  {
    SpentForever(s, l, calls, id);
    ExecKeeps(s, l, calls);
    var s2 := Exec(s, l, calls);
    assert RowOk(s2, other) && Apart(s2, id, other);
  }

  /** Which sessions a call ends: exactly those it is for. */
  lemma EndsExactly(s: System, l: Lifetimes, c: Call, id: SessionId)
    requires c.RevokeOne? || c.RevokeUser? || c.RevokeDevice? || c.Clean?
    ensures Live(Step(s, l, c).store, id)
       <==> && Live(s.store, id)
            && var session := s.store.rows[id].session;
               match c
               case RevokeOne(x) => id != x
               case RevokeUser(u) => session.user != u
               case RevokeDevice(u, d) => session.user != u || session.device != d
               case Clean(now) => now <= session.refreshExpires
               case _ => true
  {}

  // ---- Expiry ---------------------------------------------------------------------------------

  /** The session's times follow from its creation, which a predecessor's refresh time did not precede. */
  ghost predicate TimedBirth(s: System, l: Lifetimes, id: SessionId) {
    id in s.born ==>
      var session := s.born[id].session;
      && session.accessExpires == session.created + l.access && session.refreshExpires == session.created + l.refresh
      && (s.born[id].parent.Some? ==> s.born[id].parent.value in s.born
                                      && session.created < s.born[s.born[id].parent.value].session.refreshExpires)
  }

  ghost predicate TimedThread(s: System, i: nat) {
    i in s.threads ==> s.threads[i].now < s.threads[i].session.refreshExpires
  }

  ghost predicate Timed(s: System, l: Lifetimes) {
    && (forall id {:trigger TimedBirth(s, l, id)} :: TimedBirth(s, l, id))
    && (forall i {:trigger TimedThread(s, i)} :: TimedThread(s, i))
  }

  lemma StepTimed(s: System, l: Lifetimes, c: Call)
    requires Inv(s) && Timed(s, l) && Enabled(s, c)
    ensures Timed(Step(s, l, c), l)
  {
    var s2 := Step(s, l, c);
    forall id ensures TimedBirth(s2, l, id) {
      assert TimedBirth(s, l, id);
      if c.Create? { assert TimedThread(s, c.tid) && ThreadOk(s, c.tid); }
    }
    forall i ensures TimedThread(s2, i) { assert TimedThread(s, i); }
  }

  /** In every interleaving: a session's tokens expire one lifetime after it was created, and a session that
      succeeds another was created before that one's refresh token ran out. */
  lemma {:induction false} RefreshedInTime(l: Lifetimes, calls: seq<Call>, id: SessionId)
    requires Legal(EMPTY, l, calls)
    ensures TimedBirth(Exec(EMPTY, l, calls), l, id) && Timed(Exec(EMPTY, l, calls), l)
  {
    if calls != [] {
      LegalFront(EMPTY, l, calls);
      EmptyOk();
      ExecKeeps(EMPTY, l, calls[..|calls| - 1]);
      RefreshedInTime(l, calls[..|calls| - 1], id);
      StepTimed(Exec(EMPTY, l, calls[..|calls| - 1]), l, calls[|calls| - 1]);
    } else {
      forall x ensures TimedBirth(EMPTY, l, x) {}
    }
    assert TimedBirth(Exec(EMPTY, l, calls), l, id);
  }

  // ---- RevokeAllForUser -----------------------------------------------------------------------

  ghost predicate ClearedRow(s: System, u: UserId, n: nat, a: SessionId) {
    Live(s.store, a) && s.store.rows[a].session.user == u ==> LoginOf(s, a) >= n
  }

  ghost predicate ClearedThread(s: System, u: UserId, n: nat, i: nat) {
    Winning(s, i) && s.threads[i].session.user == u ==> LoginOf(s, s.threads[i].session.id) >= n
  }

  /** Nobody holds one of the first `n` logins for `u`. */
  ghost predicate Cleared(s: System, u: UserId, n: nat) {
    && n <= s.logins
    && (forall a {:trigger ClearedRow(s, u, n, a)} :: ClearedRow(s, u, n, a))
    && (forall i {:trigger ClearedThread(s, u, n, i)} :: ClearedThread(s, u, n, i))
  }

  lemma RowStaysCleared(s: System, l: Lifetimes, c: Call, u: UserId, n: nat, a: SessionId)
    requires Inv(s) && Enabled(s, c) && Cleared(s, u, n)
    ensures ClearedRow(Step(s, l, c), u, n, a)
  {
    assert RowOk(s, a) && ClearedRow(s, u, n, a);
    if c.Create? {
      assert ClearedThread(s, u, n, c.tid);
    }
  }

  lemma ThreadStaysCleared(s: System, l: Lifetimes, c: Call, u: UserId, n: nat, i: nat)
    requires Inv(s) && Enabled(s, c) && Cleared(s, u, n)
    ensures ClearedThread(Step(s, l, c), u, n, i)
  {
    assert ThreadOk(s, i) && ClearedThread(s, u, n, i);
    if i in s.threads {
      var id := s.threads[i].session.id;
      assert RowOk(s, id) && ClearedRow(s, u, n, id);
    }
  }

  lemma {:induction false} ExecCleared(s: System, l: Lifetimes, calls: seq<Call>, u: UserId, n: nat)
    requires Inv(s) && Legal(s, l, calls) && Cleared(s, u, n)
    ensures Cleared(Exec(s, l, calls), u, n)
  {
    if calls != [] {
      LegalFront(s, l, calls);
      var front, last := calls[..|calls| - 1], calls[|calls| - 1];
      var s1 := Exec(s, l, front);
      ExecKeeps(s, l, front);
      ExecCleared(s, l, front, u, n);
      forall a ensures ClearedRow(Step(s1, l, last), u, n, a) { RowStaysCleared(s1, l, last, u, n, a); }
      forall i ensures ClearedThread(Step(s1, l, last), u, n, i) { ThreadStaysCleared(s1, l, last, u, n, i); }
    }
  }

  /** No refresh of `u` stands between its revoke and its create. */
  ghost predicate NoneBetween(s: System, u: UserId) { forall i :: Winning(s, i) ==> s.threads[i].session.user != u }

  /** Whatever calls follow, session `a` is not a live session of `u` from one of the first `n` logins. */
  ghost predicate GoneAfter(s: System, l: Lifetimes, u: UserId, n: nat, calls: seq<Call>, a: SessionId) {
    Legal(s, l, calls) ==> ClearedRow(Exec(s, l, calls), u, n, a)
  }

  /** After RevokeAllForUser no session of an earlier login is ever live again, in any continuation. */
  ghost predicate LoggedOutForGood(s: System, l: Lifetimes, u: UserId) {
    forall calls, a :: GoneAfter(Step(s, l, RevokeUser(u)), l, u, s.logins, calls, a)
  }

  lemma LogoutHolds(s: System, l: Lifetimes, u: UserId)
    requires Inv(s) && NoneBetween(s, u)
    ensures LoggedOutForGood(s, l, u)
  {
    var s1 := Step(s, l, RevokeUser(u));
    StepKeeps(s, l, RevokeUser(u));
    forall a ensures ClearedRow(s1, u, s.logins, a) {}
    forall i ensures ClearedThread(s1, u, s.logins, i) { assert Winning(s1, i) ==> Winning(s, i); }
    forall calls, a ensures GoneAfter(s1, l, u, s.logins, calls, a) {
      if Legal(s1, l, calls) {
        ExecCleared(s1, l, calls, u, s.logins);
      }
    }
  }

  /** A refresh that has revoked but not yet created puts a session of the old login back. */
  lemma LogoutMissed(s: System, l: Lifetimes, u: UserId, tid: nat, m: Mint)
    requires Inv(s) && Winning(s, tid) && s.threads[tid].session.user == u && Unused(s, m)
    ensures !LoggedOutForGood(s, l, u)
  {
    var s1 := Step(s, l, RevokeUser(u));
    var th := s.threads[tid];
    var calls := [Create(tid, m)];
    assert calls[..0] == [] && Exec(s1, l, []) == s1;
    assert Legal(s1, l, calls);
    assert ThreadOk(s, tid) && BirthOk(s, th.session.id);
    CreateSucceeds(s, s1, Issue(l, m, u, th.session.device, th.now), m);
    assert !ClearedRow(Exec(s1, l, calls), u, s.logins, m.id);
    assert !GoneAfter(s1, l, u, s.logins, calls, m.id);
  }

  lemma CreateSucceeds(s: System, s1: System, session: Session, m: Mint)
    requires Inv(s) && Unused(s, m) && s1.store == RevokeWhere(s.store, OfUser(s.store, session.user))
    requires session.id == m.id && session.access == m.access && session.refresh == m.refresh
    requires (session.user, session.device) in s.store.devices
    ensures CreateSession(s1.store, session).Ok?
  {
    forall id | id in s1.store.rows
      ensures s1.store.rows[id].session.access != m.access && s1.store.rows[id].session.refresh != m.refresh
    {
      assert RowOk(s, id);
    }
    assert RowOk(s, m.id);
  }

  lemma ExecOne(s: System, l: Lifetimes, calls: seq<Call>, c: Call)
    requires Legal(s, l, calls) && Enabled(Exec(s, l, calls), c)
    ensures Legal(s, l, calls + [c]) && Exec(s, l, calls + [c]) == Step(Exec(s, l, calls), l, c)
  {
    var all := calls + [c];
    assert all[..|calls|] == calls;
    forall i | 0 <= i < |all| ensures Enabled(Exec(s, l, all[..i]), all[i]) {
      assert i < |calls| ==> all[..i] == calls[..i] && all[i] == calls[i];
    }
  }

  /** The calls of a user who logs in and refreshes, up to the refresh's revoke. */
  function HalfRefresh(u: UserId, d: DeviceId, m: Mint): seq<Call> {
    [Register(u, d)] + [Login(m, u, d, 0)] + [Find(0, m.id, m.refresh, d, 0)] + [Revoke(0)]
  }

  /** Such a moment does occur, and RevokeAllForUser at that moment misses the login: for any user and device,
      any two draws that differ and any refresh lifetime above zero. */
  lemma LogoutCanMiss(l: Lifetimes, u: UserId, d: DeviceId, m: Mint, m2: Mint)
    requires l.refresh > 0 && m.id != m2.id && m.access != m2.access && m.refresh != m2.refresh
    ensures var calls := HalfRefresh(u, d, m);
            Legal(EMPTY, l, calls) && !LoggedOutForGood(Exec(EMPTY, l, calls), l, u)
  {
    var c1, c2, c3 := Register(u, d), Login(m, u, d, 0), Find(0, m.id, m.refresh, d, 0);
    assert [] + [c1] == [c1];
    ExecOne(EMPTY, l, [], c1);
    ExecOne(EMPTY, l, [c1], c2);
    ExecOne(EMPTY, l, [c1] + [c2], c3);
    ExecOne(EMPTY, l, [c1] + [c2] + [c3], Revoke(0));
    var s := Exec(EMPTY, l, HalfRefresh(u, d, m));
    EmptyOk();
    ExecKeeps(EMPTY, l, HalfRefresh(u, d, m));
    LogoutMissed(s, l, u, 0, m2);
  }

  /** RevokeAllForUser ends every earlier login for good exactly when no refresh of the user is between its
      revoke and its create; `m` is any unused draw. */
  lemma LogoutExactly(s: System, l: Lifetimes, u: UserId, m: Mint)
    requires Inv(s) && Unused(s, m)
    ensures LoggedOutForGood(s, l, u) <==> NoneBetween(s, u)
  {
    if NoneBetween(s, u) {
      LogoutHolds(s, l, u);
    } else {
      var tid :| Winning(s, tid) && s.threads[tid].session.user == u;
      LogoutMissed(s, l, u, tid, m);
    }
  }
}
