/** The membership version of a conversation is a stamp: while it stays the same, so does every seat. */
module RelayStamps {
  import opened Common
  import opened RelayModel
  import Strings

  /** Conversation `c` has the same membership and subscription rows in both. */
  ghost predicate SameSeats(t: Tables, t2: Tables, c: ConversationId) {
    forall u ::
      && (Seat(c, u) in t.members <==> Seat(c, u) in t2.members)
      && (Seat(c, u) in t.members ==> t.members[Seat(c, u)] == t2.members[Seat(c, u)])
      && (IsSubscriber(t, c, u) <==> IsSubscriber(t2, c, u))
  }

  ghost predicate StampHolds(t: Tables, t2: Tables, c: ConversationId) {
    && c in t.convs && c in t2.convs
    && t2.convs[c] == t.convs[c].(version := t2.convs[c].version)
    && t.convs[c].version <= t2.convs[c].version
    && (t.convs[c].version == t2.convs[c].version ==> SameSeats(t, t2, c))
  }

  /** Every conversation of `t` is still there, of the same kind, with a stamp that has not gone back. */
  ghost predicate Advances(t: Tables, t2: Tables) {
    forall c :: c in t.convs ==> StampHolds(t, t2, c)
  }

  lemma AdvancesTwice(t: Tables, t2: Tables, t3: Tables)
    requires Advances(t, t2) && Advances(t2, t3)
    ensures Advances(t, t3)
  {}

  /** The conversation tables are as they were. */
  lemma StillAdvances(t: Tables, t2: Tables)
    requires t2.convs == t.convs && t2.members == t.members && t2.subs == t.subs
    ensures Advances(t, t2)
  {}

  lemma CreateAdvances(t: Tables, c: ConversationId, row: Conversation)
    ensures var r := CreateConversation(t, c, row); r.Ok? ==> Advances(t, r.value)
  {}

  lemma AddAdvances(t: Tables, c: ConversationId, u: UserId, role: Role)
    ensures var r := AddMemberRow(t, c, u, role); r.Ok? ==> Advances(t, r.value)
  {}

  lemma SubscribeAdvances(t: Tables, c: ConversationId, u: UserId)
    ensures var r := SubscribeRow(t, c, u); r.Ok? ==> Advances(t, r.value)
  {}

  lemma RemoveAdvances(t: Tables, c: ConversationId, u: UserId)
    ensures Advances(t, RemoveMemberRow(t, c, u))
  {}

  lemma UnsubscribeAdvances(t: Tables, c: ConversationId, u: UserId)
    ensures Advances(t, UnsubscribeRow(t, c, u))
  {}

  lemma {:induction false} AddAllAdvances(t: Tables, c: ConversationId, ids: seq<UserId>, owner: UserId, other: Role)
    ensures Advances(t, AddAll(t, c, ids, owner, other).0)
  {
    if ids != [] {
      var u := ids[|ids| - 1];
      var before := AddAll(t, c, ids[..|ids| - 1], owner, other).0;
      AddAllAdvances(t, c, ids[..|ids| - 1], owner, other);
      AddAdvances(before, c, u, if u == owner then Owner else other);
      AdvancesTwice(t, before, AddAll(t, c, ids, owner, other).0);
    }
  }

  lemma {:induction false} SubscribeAllAdvances(t: Tables, c: ConversationId, ids: seq<UserId>, skip: set<UserId>)
    ensures Advances(t, SubscribeAll(t, c, ids, skip).0)
  {
    if ids != [] {
      var before := SubscribeAll(t, c, ids[..|ids| - 1], skip).0;
      SubscribeAllAdvances(t, c, ids[..|ids| - 1], skip);
      SubscribeAdvances(before, c, ids[|ids| - 1]);
      AdvancesTwice(t, before, SubscribeAll(t, c, ids, skip).0);
    }
  }

  lemma {:induction false} AddAdminsAdvances(t: Tables, c: ConversationId, ids: seq<UserId>, owner: UserId)
    ensures Advances(t, AddAdmins(t, c, ids, owner).0)
  {
    if ids != [] {
      var u := ids[|ids| - 1];
      var role := if u == owner then Owner else Admin;
      var (before, ok) := AddAdmins(t, c, ids[..|ids| - 1], owner);
      AddAdminsAdvances(t, c, ids[..|ids| - 1], owner);
      AddAdvances(before, c, u, role);
      var r := AddMemberRow(before, c, u, role);
      if ok && r.Ok? {
        SubscribeAdvances(r.value, c, u);
        AdvancesTwice(t, before, r.value);
        AdvancesTwice(t, r.value, AddAdmins(t, c, ids, owner).0);
      }
    }
  }

  lemma DmAdvances(s: State, a: UserId, b: UserId, creator: UserId, c: ConversationId)
    ensures Advances(s.t, CreateDm(s, a, b, creator, c).0.t)
  {
    var row := Conversation(Dm, creator, "", 0);
    CreateAdvances(s.t, c, row);
    var r := CreateConversation(s.t, c, row);
    if r.Ok? {
      var ids := if a == b then [a] else [creator, if creator == a then b else a];
      AddAllAdvances(r.value, c, ids, creator, Member);
      AdvancesTwice(s.t, r.value, AddAll(r.value, c, ids, creator, Member).0);
    }
  }

  lemma GroupAdvances(s: State, cfg: Config, creator: UserId, members: seq<UserId>, c: ConversationId)
    ensures Advances(s.t, CreateGroup(s, cfg, creator, members, c).0.t)
  {
    var row := Conversation(Group, creator, "", 0);
    CreateAdvances(s.t, c, row);
    var r := CreateConversation(s.t, c, row);
    if r.Ok? {
      var ids := Strings.SortUnique(members);
      AddAllAdvances(r.value, c, ids, creator, Member);
      AdvancesTwice(s.t, r.value, AddAll(r.value, c, ids, creator, Member).0);
    }
  }

  lemma ChannelAdvances(s: State, cfg: Config, creator: UserId, admins: seq<UserId>, subs: seq<UserId>,
                        c: ConversationId)
    ensures Advances(s.t, CreateChannel(s, cfg, creator, admins, subs, c).0.t)
  {
    var row := Conversation(Channel, creator, ADMINS_ONLY, 0);
    CreateAdvances(s.t, c, row);
    var r := CreateConversation(s.t, c, row);
    if r.Ok? {
      var made := AddAdmins(r.value, c, admins, creator).0;
      AddAdminsAdvances(r.value, c, admins, creator);
      AdvancesTwice(s.t, r.value, made);
      SubscribeAllAdvances(made, c, subs, Elements(admins));
      AdvancesTwice(s.t, made, SubscribeAll(made, c, subs, Elements(admins)).0);
    }
  }

  lemma JoinAdvances(s: State, cfg: Config, op: Op)
    requires op.AddOp? || op.SubscribeOp?
    ensures Advances(s.t, Step(s, cfg, op).t)
  {
    if op.AddOp? {
      AddAdvances(s.t, op.c, op.u, op.role);
    } else {
      SubscribeAdvances(s.t, op.c, op.u);
    }
    StillAdvances(s.t, s.t);
  }

  lemma PurgeAdvances(s: State, t2: Tables, c: ConversationId, u: UserId)
    requires Advances(s.t, t2)
    ensures Advances(s.t, PurgeMember(s.(t := t2), c, u).t)
  {}

  lemma LeaveAdvances(s: State, cfg: Config, op: Op)
    requires op.RemoveOp? || op.UnsubscribeOp?
    ensures Advances(s.t, Step(s, cfg, op).t)
  {
    StillAdvances(s.t, s.t);
    if op.RemoveOp? {
      RemoveAdvances(s.t, op.c, op.u);
      PurgeAdvances(s, RemoveMemberRow(s.t, op.c, op.u), op.c, op.u);
    } else {
      UnsubscribeAdvances(s.t, op.c, op.u);
      PurgeAdvances(s, UnsubscribeRow(s.t, op.c, op.u), op.c, op.u);
    }
  }

  /** Calls that leave the conversation tables alone. */
  predicate Seatless(op: Op) {
    op.SendOp? || op.DequeueOp? || op.OfflineOp? || op.AckOp? || op.UserOp? || op.DeviceOp? || op.RevokeOp?
  }

  lemma {:induction false} PersistSeats(t: Tables, q: seq<Delivery.Queued>, x: Dev, now: Timestamp)
    ensures var t2 := Persist(t, q, x, now); t2 == t.(delivery := t2.delivery)
  {
    if q != [] { PersistSeats(t, q[..|q| - 1], x, now); }
  }

  lemma SendSeats(s: State, cfg: Config, r: SendRequest, now: Timestamp, uuid: EnvelopeId)
    ensures var t2 := Send(s, cfg, r, now, uuid).0.t;
            t2.convs == s.t.convs && t2.members == s.t.members && t2.subs == s.t.subs
  {}

  lemma SeatlessSeats(s: State, cfg: Config, op: Op)
    requires Seatless(op)
    ensures var t2 := Step(s, cfg, op).t; t2.convs == s.t.convs && t2.members == s.t.members && t2.subs == s.t.subs
  {
    match op
    case SendOp(r, now, uuid) => SendSeats(s, cfg, r, now, uuid);
    case OfflineOp(x, now) => PersistSeats(s.t, Delivery.Pending(s.queues, Key(x)), x, now);
    case _ =>
  }

  lemma StepAdvances(s: State, cfg: Config, op: Op)
    ensures Advances(s.t, Step(s, cfg, op).t)
  {
    if Seatless(op) {
      SeatlessSeats(s, cfg, op);
      StillAdvances(s.t, Step(s, cfg, op).t);
    } else if op.AddOp? || op.SubscribeOp? {
      JoinAdvances(s, cfg, op);
    } else if op.RemoveOp? || op.UnsubscribeOp? {
      LeaveAdvances(s, cfg, op);
    } else {
      match op
      case DmOp(a, b, creator, c) => DmAdvances(s, a, b, creator, c);
      case GroupOp(creator, members, c) => GroupAdvances(s, cfg, creator, members, c);
      case ChannelOp(creator, admins, subs, c) => ChannelAdvances(s, cfg, creator, admins, subs, c);
    }
  }

  /** Between any two moments of a run, an equal version means an equal set of seats and roles. */
  lemma {:induction false} RunAdvances(cfg: Config, ops: seq<Op>, i: nat)
    requires i <= |ops|
    ensures Advances(Run(cfg, ops[..i]).t, Run(cfg, ops).t)
    decreases |ops|
  {
    if i == |ops| {
      assert ops[..i] == ops;
      StillAdvances(Run(cfg, ops).t, Run(cfg, ops).t);
    } else {
      var front := ops[..|ops| - 1];
      assert front[..i] == ops[..i];
      RunAdvances(cfg, front, i);
      StepAdvances(Run(cfg, front), cfg, ops[|ops| - 1]);
      AdvancesTwice(Run(cfg, ops[..i]).t, Run(cfg, front).t, Run(cfg, ops).t);
    }
  }
}
