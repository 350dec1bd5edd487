/** Concurrent joins: AddMember and SubscribeChannel count in one store call and write their row in a later
    one, so joins between the two can carry a conversation past its limit, but only by so much. */
module MembershipRace {
  import opened Common
  import opened RelayModel
  import opened RelayBounds
  import RelayCreation
  import Strings

  /** A join that has counted and not yet written. */
  datatype Join = JoinGroup(c: ConversationId, u: UserId, role: Role) | JoinChannel(c: ConversationId, u: UserId)

  datatype Race = Race(t: Tables, pending: seq<Join>)

  /** The store calls. Whether the actor may manage is decided in earlier calls, so here any join may start. */
  datatype Move =
    | CountMembers(c: ConversationId, u: UserId, role: Role)
    | CountSubscribers(c: ConversationId, u: UserId)
    | Write(i: nat)
    | Remove(c: ConversationId, u: UserId)
    | Unsubscribe(c: ConversationId, u: UserId)

  predicate IsKind(t: Tables, c: ConversationId, kind: Kind) { c in t.convs && t.convs[c].kind == kind }

  function Written(t: Tables, j: Join): Tables {
    var r := if j.JoinGroup? then AddMemberRow(t, j.c, j.u, j.role) else SubscribeRow(t, j.c, j.u);
    if r.Ok? then r.value else t
  }

  function Advance(r: Race, cfg: Config, m: Move): Race {
    match m
    case CountMembers(c, u, role) =>
      if IsKind(r.t, c, Group) && |Members(r.t, c)| < cfg.maxGroup
      then r.(pending := r.pending + [JoinGroup(c, u, role)]) else r
    case CountSubscribers(c, u) =>
      if IsKind(r.t, c, Channel) && (u in Subscribers(r.t, c) || |Subscribers(r.t, c)| < cfg.maxChannel)
      then r.(pending := r.pending + [JoinChannel(c, u)]) else r
    case Write(i) =>
      if i < |r.pending| then Race(Written(r.t, r.pending[i]), r.pending[..i] + r.pending[i + 1..]) else r
    case Remove(c, u) => if IsKind(r.t, c, Group) then r.(t := RemoveMemberRow(r.t, c, u)) else r
    case Unsubscribe(c, u) => if IsKind(r.t, c, Channel) then r.(t := UnsubscribeRow(r.t, c, u)) else r
  }

  function RunRace(t: Tables, cfg: Config, moves: seq<Move>): Race {
    if moves == [] then Race(t, []) else Advance(RunRace(t, cfg, moves[..|moves| - 1]), cfg, moves[|moves| - 1])
  }

  lemma OneMore(t: Tables, cfg: Config, moves: seq<Move>, m: Move)
    ensures RunRace(t, cfg, moves + [m]) == Advance(RunRace(t, cfg, moves), cfg, m)
  {
    assert (moves + [m])[..|moves|] == moves;
  }

  /** Never more than `k` joins past their count. */
  ghost predicate AtMost(k: nat, t: Tables, cfg: Config, moves: seq<Move>) {
    forall i :: 0 <= i <= |moves| ==> |RunRace(t, cfg, moves[..i]).pending| <= k
  }

  // ---- The bound ------------------------------------------------------------------------------

  /** Who is in a conversation: members of a group, subscribers of a channel. */
  function Inside(t: Tables, c: ConversationId, kind: Kind): set<UserId> {
    if kind.Channel? then Subscribers(t, c) else Members(t, c)
  }

  predicate Joins(j: Join, c: ConversationId, kind: Kind) { j.c == c && j.JoinChannel? == kind.Channel? }

  function Joining(q: seq<Join>, c: ConversationId, kind: Kind): set<UserId> {
    set j | j in q && Joins(j, c, kind) :: j.u
  }

  /** Who is in the conversation or about to be. */
  function Reach(r: Race, c: ConversationId, kind: Kind): set<UserId> {
    Inside(r.t, c, kind) + Joining(r.pending, c, kind)
  }

  function Max(cfg: Config, kind: Kind): nat { if kind.Channel? then cfg.maxChannel else cfg.maxGroup }

  lemma JoiningMore(q: seq<Join>, j: Join, c: ConversationId, kind: Kind)
    ensures Joining(q + [j], c, kind) == Joining(q, c, kind) + (if Joins(j, c, kind) then {j.u} else {})
  {}

  lemma {:induction false} JoiningSize(q: seq<Join>, c: ConversationId, kind: Kind)
    ensures |Joining(q, c, kind)| <= |q|
  {
    if q != [] {
      var front, last := q[..|q| - 1], q[|q| - 1];
      JoiningSize(front, c, kind);
      JoiningMore(front, last, c, kind);
      assert q == front + [last];
    }
  }

  lemma SmallerReach(r: Race, r2: Race, c: ConversationId, kind: Kind)
    requires Inside(r2.t, c, kind) <= Reach(r, c, kind) && Joining(r2.pending, c, kind) <= Reach(r, c, kind)
    ensures |Reach(r2, c, kind)| <= |Reach(r, c, kind)|
  {
    Cardinality(Reach(r2, c, kind), Reach(r, c, kind));
  }

  /** A join whose count found room. */
  lemma CountReach(r: Race, c: ConversationId, kind: Kind, max: nat, k: nat)
    requires |Inside(r.t, c, kind)| < max && |r.pending| <= k
    ensures |Reach(r, c, kind)| < max + k
  {
    JoiningSize(r.pending, c, kind);
    var inside, joining := Inside(r.t, c, kind), Joining(r.pending, c, kind);
    Cardinality(joining - inside, joining);
    assert Reach(r, c, kind) == inside + (joining - inside);
  }

  lemma WriteInside(t: Tables, j: Join, c: ConversationId, kind: Kind)
    requires IsKind(t, c, kind)
    ensures IsKind(Written(t, j), c, kind)
    ensures Inside(Written(t, j), c, kind) <= Inside(t, c, kind) + (if Joins(j, c, kind) then {j.u} else {})
  {
    var t2 := Written(t, j);
    if t2 != t {
      if j.JoinGroup? { AddSeat(t, j.c, j.u, j.role); } else { SubscribeSeat(t, j.c, j.u); }
      if j.c != c { SameElsewhere(t, t2, j.c, c); }
    }
  }

  lemma LeaveInside(t: Tables, d: ConversationId, u: UserId, c: ConversationId, kind: Kind)
    requires IsKind(t, c, kind) && d in t.convs
    ensures IsKind(RemoveMemberRow(t, d, u), c, kind) && IsKind(UnsubscribeRow(t, d, u), c, kind)
    ensures Inside(RemoveMemberRow(t, d, u), c, kind) <= Inside(t, c, kind)
    ensures Inside(UnsubscribeRow(t, d, u), c, kind) <= Inside(t, c, kind)
  {
    RemoveSeat(t, d, u);
    UnsubscribeSeat(t, d, u);
    if d != c {
      SameElsewhere(t, RemoveMemberRow(t, d, u), d, c);
      SameElsewhere(t, UnsubscribeRow(t, d, u), d, c);
    }
  }

  /** The join a count lets through found room, or was for somebody inside. */
  lemma PassedCount(r: Race, cfg: Config, m: Move)
    requires m.CountMembers? || m.CountSubscribers?
    ensures var r2 := Advance(r, cfg, m);
            r2 == r || exists j, kind :: PassedAs(r, cfg, r2, j, kind)
  {
    var r2 := Advance(r, cfg, m);
    if r2 != r {
      if m.CountMembers? {
        assert PassedAs(r, cfg, r2, JoinGroup(m.c, m.u, m.role), Group);
      } else {
        assert PassedAs(r, cfg, r2, JoinChannel(m.c, m.u), Channel);
      }
    }
  }

  ghost predicate PassedAs(r: Race, cfg: Config, r2: Race, j: Join, kind: Kind) {
    && r2 == r.(pending := r.pending + [j]) && IsKind(r.t, j.c, kind) && j.JoinChannel? == kind.Channel?
    && (j.u in Inside(r.t, j.c, kind) || |Inside(r.t, j.c, kind)| < Max(cfg, kind))
  }

  lemma CountKeeps(r: Race, cfg: Config, m: Move, c: ConversationId, kind: Kind, k: nat)
    requires IsKind(r.t, c, kind) && (m.CountMembers? || m.CountSubscribers?)
    requires |Reach(r, c, kind)| < Max(cfg, kind) + k && |Advance(r, cfg, m).pending| <= k
    ensures |Reach(Advance(r, cfg, m), c, kind)| < Max(cfg, kind) + k
  {
    var r2 := Advance(r, cfg, m);
    PassedCount(r, cfg, m);
    if r2 != r {
      var j, kind2 :| PassedAs(r, cfg, r2, j, kind2);
      JoiningMore(r.pending, j, c, kind);
      if j.c == c && j.u !in Inside(r.t, c, kind) {
        CountReach(r2, c, kind, Max(cfg, kind), k);
      } else {
        SmallerReach(r, r2, c, kind);
      }
    }
  }

  lemma WriteKeeps(r: Race, cfg: Config, i: nat, c: ConversationId, kind: Kind)
    requires IsKind(r.t, c, kind) && i < |r.pending|
    ensures IsKind(Advance(r, cfg, Write(i)).t, c, kind)
    ensures |Reach(Advance(r, cfg, Write(i)), c, kind)| <= |Reach(r, c, kind)|
  {
    var j := r.pending[i];
    WriteInside(r.t, j, c, kind);
    assert r.pending == r.pending[..i] + [j] + r.pending[i + 1..];
    assert Joins(j, c, kind) ==> j.u in Joining(r.pending, c, kind);
    SmallerReach(r, Advance(r, cfg, Write(i)), c, kind);
  }

  lemma MoveKeeps(r: Race, cfg: Config, m: Move, c: ConversationId, kind: Kind, k: nat)
    requires IsKind(r.t, c, kind) && kind != Dm && |Advance(r, cfg, m).pending| <= k
    requires |Reach(r, c, kind)| < Max(cfg, kind) + k
    ensures IsKind(Advance(r, cfg, m).t, c, kind) && |Reach(Advance(r, cfg, m), c, kind)| < Max(cfg, kind) + k
  {
    match m
    case CountMembers(_, _, _) => CountKeeps(r, cfg, m, c, kind, k);
    case CountSubscribers(_, _) => CountKeeps(r, cfg, m, c, kind, k);
    case Write(i) => if i < |r.pending| { WriteKeeps(r, cfg, i, c, kind); }
    case Remove(d, u) =>
      if d in r.t.convs { LeaveInside(r.t, d, u, c, kind); SmallerReach(r, Advance(r, cfg, m), c, kind); }
    case Unsubscribe(d, u) =>
      if d in r.t.convs { LeaveInside(r.t, d, u, c, kind); SmallerReach(r, Advance(r, cfg, m), c, kind); }
  }

  /** In every interleaving of joins and departures with at most `k` joins in flight, a group or channel that
      starts within its limit never holds more than that limit + k - 1 users. */
  lemma {:induction false} RaceBound(t: Tables, cfg: Config, moves: seq<Move>, c: ConversationId, kind: Kind, k: nat)
    requires IsKind(t, c, kind) && kind != Dm && |Inside(t, c, kind)| <= Max(cfg, kind)
    requires k >= 1 && AtMost(k, t, cfg, moves)
    ensures IsKind(RunRace(t, cfg, moves).t, c, kind)
    ensures |Inside(RunRace(t, cfg, moves).t, c, kind)| <= Max(cfg, kind) + k - 1
    ensures |Reach(RunRace(t, cfg, moves), c, kind)| <= Max(cfg, kind) + k - 1
    decreases |moves|
  {
    var r := RunRace(t, cfg, moves);
    if moves == [] {
      assert Reach(r, c, kind) == Inside(t, c, kind);
    } else {
      var front := moves[..|moves| - 1];
      assert forall i :: 0 <= i <= |front| ==> front[..i] == moves[..i];
      RaceBound(t, cfg, front, c, kind, k);
      assert moves[..|moves|] == moves;
      MoveKeeps(RunRace(t, cfg, front), cfg, moves[|moves| - 1], c, kind, k);
      Cardinality(Inside(r.t, c, kind), Reach(r, c, kind));
    }
  }

  // ---- The bound is reached -------------------------------------------------------------------

  function Counts(c: ConversationId, us: seq<UserId>): seq<Move> {
    seq(|us|, i requires 0 <= i < |us| => CountMembers(c, us[i], Member))
  }

  function Queue(c: ConversationId, us: seq<UserId>): seq<Join> {
    seq(|us|, i requires 0 <= i < |us| => JoinGroup(c, us[i], Member))
  }

  function Writes(n: nat): seq<Move> { seq(n, i => Write(0)) }

  lemma {:induction false} CountsRun(t: Tables, cfg: Config, c: ConversationId, us: seq<UserId>)
    requires IsKind(t, c, Group) && |Members(t, c)| < cfg.maxGroup
    ensures RunRace(t, cfg, Counts(c, us)) == Race(t, Queue(c, us))
  {
    if us != [] {
      var front, u := us[..|us| - 1], us[|us| - 1];
      CountsRun(t, cfg, c, front);
      OneMore(t, cfg, Counts(c, front), CountMembers(c, u, Member));
      assert Counts(c, us) == Counts(c, front) + [CountMembers(c, u, Member)];
      assert Queue(c, us) == Queue(c, front) + [JoinGroup(c, u, Member)];
    }
  }

  lemma WriteFirst(t: Tables, cfg: Config, c: ConversationId, us: seq<UserId>)
    requires IsKind(t, c, Group) && us != [] && us[0] in t.users
    ensures var r := Advance(Race(t, Queue(c, us)), cfg, Write(0));
            && r.pending == Queue(c, us[1..]) && IsKind(r.t, c, Group) && r.t.users == t.users
            && Members(r.t, c) == Members(t, c) + {us[0]}
  {
    AddSeat(t, c, us[0], Member);
    var q := Queue(c, us);
    assert q[..0] + q[1..] == Queue(c, us[1..]);
  }

  /** What the race looks like after `n` of the writes. */
  ghost predicate Wrote(r: Race, t: Tables, c: ConversationId, us: seq<UserId>, n: nat)
    requires n <= |us|
  {
    && r.pending == Queue(c, us[n..]) && IsKind(r.t, c, Group) && r.t.users == t.users
    && Members(r.t, c) == Members(t, c) + Elements(us[..n])
  }

  lemma WroteMore(r: Race, t: Tables, cfg: Config, c: ConversationId, us: seq<UserId>, n: nat)
    requires n < |us| && Wrote(r, t, c, us, n) && us[n] in t.users
    ensures Wrote(Advance(r, cfg, Write(0)), t, c, us, n + 1)
  {
    WriteFirst(r.t, cfg, c, us[n..]);
    assert us[n..][1..] == us[n + 1..];
    assert us[..n + 1] == us[..n] + [us[n]];
    assert Elements(us[..n + 1]) == Elements(us[..n]) + {us[n]};
  }

  lemma {:induction false} WritesRun(t: Tables, cfg: Config, c: ConversationId, us: seq<UserId>, n: nat)
    requires IsKind(t, c, Group) && |Members(t, c)| < cfg.maxGroup && n <= |us|
    requires forall u :: u in us ==> u in t.users
    ensures Wrote(RunRace(t, cfg, Counts(c, us) + Writes(n)), t, c, us, n)
    decreases n
  {
    if n == 0 {
      assert Counts(c, us) + Writes(0) == Counts(c, us);
      assert us[0..] == us && Elements(us[..0]) == {};
      CountsRun(t, cfg, c, us);
    } else {
      WritesRun(t, cfg, c, us, n - 1);
      OneMore(t, cfg, Counts(c, us) + Writes(n - 1), Write(0));
      assert Counts(c, us) + Writes(n) == (Counts(c, us) + Writes(n - 1)) + [Write(0)];
      WroteMore(RunRace(t, cfg, Counts(c, us) + Writes(n - 1)), t, cfg, c, us, n - 1);
    }
  }

  lemma InFlight(t: Tables, cfg: Config, c: ConversationId, us: seq<UserId>)
    requires IsKind(t, c, Group) && |Members(t, c)| < cfg.maxGroup && forall u :: u in us ==> u in t.users
    ensures AtMost(|us|, t, cfg, Counts(c, us) + Writes(|us|))
  {
    var moves := Counts(c, us) + Writes(|us|);
    forall i | 0 <= i <= |moves| ensures |RunRace(t, cfg, moves[..i]).pending| <= |us| {
      if i <= |us| {
        assert moves[..i] == Counts(c, us[..i]);
        CountsRun(t, cfg, c, us[..i]);
      } else {
        assert moves[..i] == Counts(c, us) + Writes(i - |us|);
        WritesRun(t, cfg, c, us, i - |us|);
      }
    }
  }

  /** Joins of different newcomers that all count one free place overshoot by one less than their number. */
  lemma RaceReached(t: Tables, cfg: Config, c: ConversationId, us: seq<UserId>)
    requires IsKind(t, c, Group) && |Members(t, c)| + 1 == cfg.maxGroup
    requires Distinct(us) && Members(t, c) !! Elements(us) && forall u :: u in us ==> u in t.users
    ensures var moves := Counts(c, us) + Writes(|us|);
            && AtMost(|us|, t, cfg, moves)
            && |Members(RunRace(t, cfg, moves).t, c)| == cfg.maxGroup + |us| - 1
  {
    InFlight(t, cfg, c, us);
    WritesRun(t, cfg, c, us, |us|);
    DistinctSize(us);
    assert us[..|us|] == us;
  }

  function Registrations(us: seq<UserId>): seq<Op> { seq(|us|, i requires 0 <= i < |us| => UserOp(us[i])) }

  lemma {:induction false} Registered(cfg: Config, us: seq<UserId>)
    ensures Run(cfg, Registrations(us)) == INITIAL.(t := INITIAL.t.(users := Elements(us)))
  {
    if us != [] {
      var front, u := us[..|us| - 1], us[|us| - 1];
      Registered(cfg, front);
      assert Registrations(us)[..|us| - 1] == Registrations(front);
      assert Elements(us) == Elements(front) + {u};
    }
  }

  /** CreateGroup on distinct registered users makes a group of exactly those. */
  lemma GroupOf(s: State, cfg: Config, members: seq<UserId>, c: ConversationId)
    requires Seated(s.t) && c !in s.t.convs && RelayCreation.AllUsers(s.t, members)
    requires Distinct(members) && 2 <= |members| <= cfg.maxGroup
    ensures var t := CreateGroup(s, cfg, members[0], members, c).0.t;
            IsKind(t, c, Group) && Members(t, c) == Elements(members) && t.users == s.t.users
  {
    var t := CreateGroup(s, cfg, members[0], members, c).0.t;
    SortedSize(members);
    DistinctSize(members);
    RelayCreation.GroupCreated(s, cfg, members[0], members, c);
    var made := CreateConversation(s.t, c, Conversation(Group, members[0], "", 0));
    RelayCreation.AddAllSucceeds(made.value, c, Strings.SortUnique(members), members[0], Member);
    AddAllKind(made.value, c, Strings.SortUnique(members), members[0]);
    forall u ensures u in Members(t, c) <==> u in members {
      assert u in Members(t, c) <==> IsMember(t, c, u);
    }
  }

  lemma {:induction false} AddAllKind(t: Tables, c: ConversationId, ids: seq<UserId>, owner: UserId)
    requires IsKind(t, c, Group)
    ensures IsKind(AddAll(t, c, ids, owner, Member).0, c, Group)
  {
    if ids != [] { AddAllKind(t, c, ids[..|ids| - 1], owner); }
  }

  /** The calls that lead to a group with one free place. */
  function Almost(cfg: Config, all: seq<UserId>, c: ConversationId): seq<Op>
    requires 3 <= cfg.maxGroup <= |all|
  {
    Registrations(all) + [GroupOp(all[0], all[..cfg.maxGroup - 1], c)]
  }

  lemma AlmostFull(cfg: Config, all: seq<UserId>, c: ConversationId)
    requires 3 <= cfg.maxGroup <= |all| && Distinct(all)
    ensures var t := Run(cfg, Almost(cfg, all, c)).t;
            IsKind(t, c, Group) && Members(t, c) == Elements(all[..cfg.maxGroup - 1]) && t.users == Elements(all)
  {
    var first, ops := all[..cfg.maxGroup - 1], Almost(cfg, all, c);
    Registered(cfg, all);
    assert ops[..|ops| - 1] == Registrations(all);
    GroupOf(Run(cfg, Registrations(all)), cfg, first, c);
  }

  /** The overshoot is reached from the empty server: users register, one of them makes a group of all but one
      of the places, and everybody else joins at once. Then all of them are in it, however many they are. */
  lemma RaceFromStart(cfg: Config, all: seq<UserId>, c: ConversationId)
    requires 3 <= cfg.maxGroup <= |all| && Distinct(all) && forall u :: u in all ==> NoSeparator(u)
    ensures Legal(Almost(cfg, all, c))
    ensures var late := all[cfg.maxGroup - 1..];
            var t := Run(cfg, Almost(cfg, all, c)).t;
            var moves := Counts(c, late) + Writes(|late|);
            && |Members(t, c)| + 1 == cfg.maxGroup && AtMost(|late|, t, cfg, moves)
            && |Members(RunRace(t, cfg, moves).t, c)| == |all| == cfg.maxGroup + |late| - 1
  {
    var first, late := all[..cfg.maxGroup - 1], all[cfg.maxGroup - 1..];
    var t := Run(cfg, Almost(cfg, all, c)).t;
    AlmostFull(cfg, all, c);
    DistinctSize(first);
    RaceReached(t, cfg, c, late);
  }

  // ---- Uninterrupted --------------------------------------------------------------------------

  lemma Alone(t: Tables, cfg: Config, m: Move)
    ensures RunRace(t, cfg, [m, Write(0)]).t
            == var r := Advance(Race(t, []), cfg, m); if r.pending == [] then r.t else Written(r.t, r.pending[0])
  {
    OneMore(t, cfg, [], m);
    OneMore(t, cfg, [m], Write(0));
    assert [] + [m] == [m] && [m] + [Write(0)] == [m, Write(0)];
  }

  /** A count and a write with nothing between them are one AddMember call by a manager of a group, granted or
      refused. */
  lemma AloneIsAddMember(s: State, cfg: Config, c: ConversationId, actor: UserId, u: UserId, role: Role)
    requires IsKind(s.t, c, Group) && CanManage(s.t, c, actor)
    ensures RunRace(s.t, cfg, [CountMembers(c, u, role), Write(0)]).t == AddMember(s, cfg, c, actor, u, role).0.t
  {
    Alone(s.t, cfg, CountMembers(c, u, role));
  }

  /** And one SubscribeChannel call. */
  lemma AloneIsSubscribe(s: State, cfg: Config, c: ConversationId, u: UserId)
    requires IsKind(s.t, c, Channel)
    ensures RunRace(s.t, cfg, [CountSubscribers(c, u), Write(0)]).t == SubscribeChannel(s, cfg, c, u).0.t
  {
    Alone(s.t, cfg, CountSubscribers(c, u));
  }
}
