/** Size and role bounds of conversations, on every run of whole calls. */
module RelayBounds {
  import opened Common
  import opened RelayModel
  import RelayStamps
  import Strings

  ghost predicate SizedAt(t: Tables, cfg: Config, c: ConversationId)
    requires c in t.convs
  {
    match t.convs[c].kind
    case Dm => |Members(t, c)| <= 2 && Subscribers(t, c) == {}
    case Group => |Members(t, c)| <= cfg.maxGroup && Subscribers(t, c) == {}
    case Channel => |Subscribers(t, c)| <= cfg.maxChannel && Managed(t, c)
  }

  /** The members of a channel manage it, and all of them are subscribed. */
  ghost predicate Managed(t: Tables, c: ConversationId) {
    forall u :: IsMember(t, c, u) ==> CanManage(t, c, u) && IsSubscriber(t, c, u)
  }

  ghost predicate Seated(t: Tables) {
    && (forall x :: x in t.members ==> x.conv in t.convs)
    && (forall x :: x in t.subs ==> x.conv in t.convs)
  }

  ghost predicate Sized(t: Tables, cfg: Config) {
    Seated(t) && forall c :: c in t.convs ==> SizedAt(t, cfg, c)
  }

  /** Only conversation `c` differs, and only rows that the keys allow are new. */
  ghost predicate Elsewhere(t: Tables, t2: Tables, c: ConversationId) {
    && t2.users == t.users
    && (forall d :: d != c ==> (d in t.convs <==> d in t2.convs))
    && (forall d :: d != c && d in t.convs ==> t.convs[d] == t2.convs[d])
    && (forall x :: x in t2.members && x.conv != c ==> x in t.members)
    && (forall x :: x in t2.subs && x.conv != c ==> x in t.subs)
    && (forall x :: x in t.members && x.conv != c ==> x in t2.members && t2.members[x] == t.members[x])
    && (forall x :: x in t.subs && x.conv != c ==> x in t2.subs && t2.subs[x] == t.subs[x])
  }

  lemma SameElsewhere(t: Tables, t2: Tables, c: ConversationId, d: ConversationId)
    requires Elsewhere(t, t2, c) && d != c
    ensures Members(t2, d) == Members(t, d) && Subscribers(t2, d) == Subscribers(t, d)
    ensures Managed(t, d) ==> Managed(t2, d)
  {
    assert forall u :: Seat(d, u).conv != c;
    assert forall u :: IsMember(t2, d, u) <==> IsMember(t, d, u);
    assert forall u :: IsSubscriber(t2, d, u) <==> IsSubscriber(t, d, u);
  }

  lemma ElsewhereTwice(t: Tables, t2: Tables, t3: Tables, c: ConversationId)
    requires Elsewhere(t, t2, c) && Elsewhere(t2, t3, c)
    ensures Elsewhere(t, t3, c)
  {}

  lemma SizedFrom(t: Tables, t2: Tables, cfg: Config, c: ConversationId)
    requires Sized(t, cfg) && Elsewhere(t, t2, c) && c in t2.convs && SizedAt(t2, cfg, c)
    ensures Sized(t2, cfg)
  {
    forall d | d in t2.convs ensures SizedAt(t2, cfg, d) {
      if d != c {
        SameElsewhere(t, t2, c, d);
        assert SizedAt(t, cfg, d);
      }
    }
  }

  // ---- One row --------------------------------------------------------------------------------

  lemma AddSeat(t: Tables, c: ConversationId, u: UserId, role: Role)
    requires AddMemberRow(t, c, u, role).Ok?
    ensures var t2 := AddMemberRow(t, c, u, role).value;
            && Elsewhere(t, t2, c) && c in t2.convs && t2.convs[c].kind == t.convs[c].kind
            && Members(t2, c) == Members(t, c) + {u} && t2.subs == t.subs
  {
    var t2 := AddMemberRow(t, c, u, role).value;
    forall v ensures v in Members(t2, c) <==> v in Members(t, c) + {u} {
      assert v in Members(t2, c) <==> IsMember(t2, c, v);
      assert v in Members(t, c) <==> IsMember(t, c, v);
    }
  }

  lemma SubscribeSeat(t: Tables, c: ConversationId, u: UserId)
    requires SubscribeRow(t, c, u).Ok?
    ensures var t2 := SubscribeRow(t, c, u).value;
            && Elsewhere(t, t2, c) && c in t2.convs && t2.convs[c].kind == t.convs[c].kind
            && Subscribers(t2, c) == Subscribers(t, c) + {u} && t2.members == t.members
  {
    var t2 := SubscribeRow(t, c, u).value;
    forall v ensures v in Subscribers(t2, c) <==> v in Subscribers(t, c) + {u} {
      assert v in Subscribers(t2, c) <==> IsSubscriber(t2, c, v);
      assert v in Subscribers(t, c) <==> IsSubscriber(t, c, v);
    }
  }

  /** Subscribing leaves the managers managing. */
  lemma StillManaged(t: Tables, t2: Tables, c: ConversationId)
    requires Managed(t, c) && t2.members == t.members && Subscribers(t, c) <= Subscribers(t2, c)
    ensures Managed(t2, c)
  {
    forall u | IsMember(t2, c, u) ensures CanManage(t2, c, u) && IsSubscriber(t2, c, u) {
      assert IsMember(t, c, u) && u in Subscribers(t, c);
    }
  }

  lemma RemoveSeat(t: Tables, c: ConversationId, u: UserId)
    requires c in t.convs
    ensures var t2 := RemoveMemberRow(t, c, u);
            && Elsewhere(t, t2, c) && c in t2.convs && t2.convs[c].kind == t.convs[c].kind
            && Members(t2, c) <= Members(t, c) && t2.subs == t.subs
  {
    var t2 := RemoveMemberRow(t, c, u);
    forall v | v in Members(t2, c) ensures v in Members(t, c) {
      assert IsMember(t2, c, v) && IsMember(t, c, v);
    }
  }

  lemma UnsubscribeSeat(t: Tables, c: ConversationId, u: UserId)
    requires c in t.convs
    ensures var t2 := UnsubscribeRow(t, c, u);
            && Elsewhere(t, t2, c) && c in t2.convs && t2.convs[c].kind == t.convs[c].kind
            && Subscribers(t2, c) <= Subscribers(t, c) && t2.members == t.members
  {
    var t2 := UnsubscribeRow(t, c, u);
    forall v | v in Subscribers(t2, c) ensures v in Subscribers(t, c) {
      assert IsSubscriber(t2, c, v) && IsSubscriber(t, c, v);
    }
  }

  lemma Cardinality<T>(a: set<T>, b: set<T>)
    requires a <= b
    ensures |a| <= |b|
  {
    assert b == a + (b - a);
  }

  // ---- Joining and leaving --------------------------------------------------------------------

  lemma AddSized(s: State, cfg: Config, c: ConversationId, actor: UserId, u: UserId, role: Role)
    requires Sized(s.t, cfg)
    ensures Sized(AddMember(s, cfg, c, actor, u, role).0.t, cfg)
  {
    if AddMember(s, cfg, c, actor, u, role).1.Ok? {
      AddSeat(s.t, c, u, role);
      SizedFrom(s.t, AddMemberRow(s.t, c, u, role).value, cfg, c);
    }
  }

  lemma SubscribeSized(s: State, cfg: Config, c: ConversationId, u: UserId)
    requires Sized(s.t, cfg)
    ensures Sized(SubscribeChannel(s, cfg, c, u).0.t, cfg)
  {
    if SubscribeChannel(s, cfg, c, u).1.Ok? {
      var t2 := SubscribeRow(s.t, c, u).value;
      SubscribeSeat(s.t, c, u);
      assert u in Subscribers(s.t, c) ==> Subscribers(t2, c) == Subscribers(s.t, c);
      StillManaged(s.t, t2, c);
      SizedFrom(s.t, t2, cfg, c);
    }
  }

  /** Purging touches no seat. */
  lemma PurgeSized(s: State, cfg: Config, c: ConversationId, u: UserId)
    requires Sized(s.t, cfg)
    ensures Sized(PurgeMember(s, c, u).t, cfg)
  {
    SameSeatsSized(s.t, PurgeMember(s, c, u).t, cfg);
  }

  lemma SameSeatsSized(t: Tables, t2: Tables, cfg: Config)
    requires Sized(t, cfg) && t2.convs == t.convs && t2.members == t.members && t2.subs == t.subs
    ensures Sized(t2, cfg)
  {
    forall c | c in t2.convs ensures SizedAt(t2, cfg, c) {
      assert SizedAt(t, cfg, c);
      forall u | Managed(t, c) && IsMember(t2, c, u) ensures CanManage(t2, c, u) && IsSubscriber(t2, c, u) {
        assert IsMember(t, c, u);
      }
      assert Members(t2, c) == Members(t, c) && Subscribers(t2, c) == Subscribers(t, c);
    }
  }

  lemma RemoveSized(s: State, cfg: Config, c: ConversationId, actor: UserId, u: UserId)
    requires Sized(s.t, cfg)
    ensures Sized(RemoveMember(s, c, actor, u).0.t, cfg)
  {
    if RemoveMember(s, c, actor, u).1.Ok? {
      var t2 := RemoveMemberRow(s.t, c, u);
      RemoveSeat(s.t, c, u);
      Cardinality(Members(t2, c), Members(s.t, c));
      SizedFrom(s.t, t2, cfg, c);
      PurgeSized(s.(t := t2), cfg, c, u);
    }
  }

  lemma UnsubscribeSized(s: State, cfg: Config, c: ConversationId, u: UserId)
    requires Sized(s.t, cfg)
    ensures Sized(UnsubscribeChannel(s, c, u).0.t, cfg)
  {
    if UnsubscribeChannel(s, c, u).1.Ok? {
      var t2 := UnsubscribeRow(s.t, c, u);
      UnsubscribeSeat(s.t, c, u);
      Cardinality(Subscribers(t2, c), Subscribers(s.t, c));
      forall v | IsMember(t2, c, v) ensures CanManage(t2, c, v) && IsSubscriber(t2, c, v) {
        assert IsMember(s.t, c, v);
      }
      SizedFrom(s.t, t2, cfg, c);
      PurgeSized(s.(t := t2), cfg, c, u);
    }
  }

  // ---- Creating -------------------------------------------------------------------------------

  /** What a creation loop has built so far: `c` is new, everything else as in `t`. */
  ghost predicate Building(t: Tables, t2: Tables, c: ConversationId, kind: Kind) {
    Elsewhere(t, t2, c) && c in t2.convs && t2.convs[c].kind == kind
  }

  lemma {:induction false} AddAllSeats(t: Tables, t1: Tables, c: ConversationId, kind: Kind, ids: seq<UserId>,
                                       owner: UserId, other: Role)
    requires Building(t, t1, c, kind) && Members(t1, c) == {}
    ensures var t2 := AddAll(t1, c, ids, owner, other).0;
            Building(t, t2, c, kind) && Members(t2, c) <= Elements(ids) && t2.subs == t1.subs
  {
    if ids != [] {
      var front, u := ids[..|ids| - 1], ids[|ids| - 1];
      AddAllSeats(t, t1, c, kind, front, owner, other);
      var (before, ok) := AddAll(t1, c, front, owner, other);
      var role := if u == owner then Owner else other;
      if ok && AddMemberRow(before, c, u, role).Ok? {
        AddSeat(before, c, u, role);
        ElsewhereTwice(t, before, AddMemberRow(before, c, u, role).value, c);
      }
      assert Elements(front) <= Elements(ids) && u in Elements(ids);
    }
  }

  lemma {:induction false} AddAdminsSeats(t: Tables, t1: Tables, c: ConversationId, ids: seq<UserId>, owner: UserId)
    requires Building(t, t1, c, Channel) && Members(t1, c) == {} && Subscribers(t1, c) == {}
    ensures var t2 := AddAdmins(t1, c, ids, owner).0;
            Building(t, t2, c, Channel) && Managed(t2, c) && Subscribers(t2, c) <= Elements(ids)
  {
    if ids == [] {
      assert forall u :: IsMember(t1, c, u) ==> u in Members(t1, c);
    } else {
      var front, u := ids[..|ids| - 1], ids[|ids| - 1];
      AddAdminsSeats(t, t1, c, front, owner);
      var (before, ok) := AddAdmins(t1, c, front, owner);
      var role := if u == owner then Owner else Admin;
      if ok && AddMemberRow(before, c, u, role).Ok? {
        AdminSeat(before, c, u, role);
      }
      assert Elements(front) <= Elements(ids) && u in Elements(ids);
    }
  }

  lemma AdminSeat(t: Tables, c: ConversationId, u: UserId, role: Role)
    requires Managed(t, c) && role != Member && AddMemberRow(t, c, u, role).Ok?
    ensures var r := SubscribeRow(AddMemberRow(t, c, u, role).value, c, u);
            && r.Ok? && Elsewhere(t, r.value, c) && c in r.value.convs && r.value.convs[c].kind == t.convs[c].kind
            && Managed(r.value, c) && Subscribers(r.value, c) == Subscribers(t, c) + {u}
  {
    AddSeat(t, c, u, role);
    var t1 := AddMemberRow(t, c, u, role).value;
    SubscribeSeat(t1, c, u);
    var t2 := SubscribeRow(t1, c, u).value;
    forall v | IsMember(t2, c, v) ensures CanManage(t2, c, v) && IsSubscriber(t2, c, v) {
      assert v != u ==> IsMember(t, c, v);
    }
  }

  lemma {:induction false} SubscribeAllSeats(t: Tables, t1: Tables, c: ConversationId, ids: seq<UserId>,
                                             skip: set<UserId>)
    requires Building(t, t1, c, Channel) && Managed(t1, c)
    ensures var t2 := SubscribeAll(t1, c, ids, skip).0;
            && Building(t, t2, c, Channel) && Managed(t2, c)
            && Subscribers(t2, c) <= Subscribers(t1, c) + Elements(ids)
  {
    if ids != [] {
      var front, u := ids[..|ids| - 1], ids[|ids| - 1];
      SubscribeAllSeats(t, t1, c, front, skip);
      var before := SubscribeAll(t1, c, front, skip).0;
      if SubscribeRow(before, c, u).Ok? {
        SubscribeSeat(before, c, u);
        StillManaged(before, SubscribeRow(before, c, u).value, c);
        ElsewhereTwice(t, before, SubscribeRow(before, c, u).value, c);
      }
      assert Elements(front) <= Elements(ids) && u in Elements(ids);
    }
  }

  lemma {:induction false} ElementsSize(ids: seq<UserId>)
    ensures |Elements(ids)| <= |ids|
  {
    if ids != [] {
      var front := ids[..|ids| - 1];
      ElementsSize(front);
      assert ids == front + [ids[|ids| - 1]];
      assert Elements(ids) == Elements(front) + {ids[|ids| - 1]};
    }
  }

  lemma {:induction false} DistinctSize(us: seq<UserId>)
    requires Distinct(us)
    ensures |Elements(us)| == |us|
  {
    if us != [] {
      var front := us[..|us| - 1];
      DistinctSize(front);
      assert us == front + [us[|us| - 1]];
      assert Elements(us) == Elements(front) + {us[|us| - 1]};
    }
  }

  /** Sorting and dropping repetitions leaves as many as there are different ones. */
  lemma SortedSize(us: seq<UserId>)
    ensures |Strings.SortUnique(us)| == |Elements(us)|
  {
    var sorted := Strings.SortUnique(us);
    forall i, j | 0 <= i < j < |sorted| ensures sorted[i] != sorted[j] { Strings.LessIrreflexive(sorted[i]); }
    DistinctSize(sorted);
    assert Elements(sorted) == Elements(us);
  }

  /** A conversation just created has no seat. */
  lemma NewIsEmpty(t: Tables, cfg: Config, c: ConversationId, row: Conversation)
    requires Sized(t, cfg) && CreateConversation(t, c, row).Ok?
    ensures var t1 := CreateConversation(t, c, row).value;
            Building(t, t1, c, row.kind) && Members(t1, c) == {} && Subscribers(t1, c) == {}
  {}

  lemma DmSized(s: State, cfg: Config, a: UserId, b: UserId, creator: UserId, c: ConversationId)
    requires Sized(s.t, cfg)
    ensures Sized(CreateDm(s, a, b, creator, c).0.t, cfg)
  {
    var r := CreateConversation(s.t, c, Conversation(Dm, creator, "", 0));
    if (creator == a || creator == b) && r.Ok? {
      NewIsEmpty(s.t, cfg, c, Conversation(Dm, creator, "", 0));
      var ids := if a == b then [a] else [creator, if creator == a then b else a];
      BuiltSized(s.t, r.value, cfg, c, Dm, ids, creator);
    }
  }

  lemma BuiltSized(t: Tables, t1: Tables, cfg: Config, c: ConversationId, kind: Kind, ids: seq<UserId>, owner: UserId)
    requires Sized(t, cfg) && Building(t, t1, c, kind) && Members(t1, c) == {} && Subscribers(t1, c) == {}
    requires (kind == Dm && |ids| <= 2) || (kind == Group && |ids| <= cfg.maxGroup)
    ensures Sized(AddAll(t1, c, ids, owner, Member).0, cfg)
  {
    var t2 := AddAll(t1, c, ids, owner, Member).0;
    AddAllSeats(t, t1, c, kind, ids, owner, Member);
    Cardinality(Members(t2, c), Elements(ids));
    ElementsSize(ids);
    SizedFrom(t, t2, cfg, c);
  }

  lemma GroupSized(s: State, cfg: Config, creator: UserId, members: seq<UserId>, c: ConversationId)
    requires Sized(s.t, cfg)
    ensures Sized(CreateGroup(s, cfg, creator, members, c).0.t, cfg)
  {
    var ids := Strings.SortUnique(members);
    var r := CreateConversation(s.t, c, Conversation(Group, creator, "", 0));
    if |ids| <= cfg.maxGroup && r.Ok? {
      NewIsEmpty(s.t, cfg, c, Conversation(Group, creator, "", 0));
      BuiltSized(s.t, r.value, cfg, c, Group, ids, creator);
    }
  }

  lemma ChannelSized(s: State, cfg: Config, creator: UserId, admins: seq<UserId>, subs: seq<UserId>, c: ConversationId)
    requires Sized(s.t, cfg)
    ensures Sized(CreateChannel(s, cfg, creator, admins, subs, c).0.t, cfg)
  {
    var s2 := CreateChannel(s, cfg, creator, admins, subs, c).0;
    var r := CreateConversation(s.t, c, Conversation(Channel, creator, ADMINS_ONLY, 0));
    if s2 != s {
      NewIsEmpty(s.t, cfg, c, Conversation(Channel, creator, ADMINS_ONLY, 0));
      AddAdminsSeats(s.t, r.value, c, admins, creator);
      SubscribeAllSeats(s.t, AddAdmins(r.value, c, admins, creator).0, c, subs, Elements(admins));
      Cardinality(Subscribers(s2.t, c), Elements(admins) + Elements(subs));
      SizedFrom(s.t, s2.t, cfg, c);
    }
  }

  // ---- Every run ------------------------------------------------------------------------------

  lemma StepSized(s: State, cfg: Config, op: Op)
    requires Sized(s.t, cfg)
    ensures Sized(Step(s, cfg, op).t, cfg)
  {
    if RelayStamps.Seatless(op) {
      RelayStamps.SeatlessSeats(s, cfg, op);
      SameSeatsSized(s.t, Step(s, cfg, op).t, cfg);
    } else {
      match op
      case DmOp(a, b, creator, c) => DmSized(s, cfg, a, b, creator, c);
      case GroupOp(creator, members, c) => GroupSized(s, cfg, creator, members, c);
      case ChannelOp(creator, admins, subs, c) => ChannelSized(s, cfg, creator, admins, subs, c);
      case AddOp(c, actor, u, role) => AddSized(s, cfg, c, actor, u, role);
      case RemoveOp(c, actor, u) => RemoveSized(s, cfg, c, actor, u);
      case SubscribeOp(c, u) => SubscribeSized(s, cfg, c, u);
      case UnsubscribeOp(c, u) => UnsubscribeSized(s, cfg, c, u);
    }
  }

  /** On every run, creations that failed half way included, no group or channel outgrows its limit, a
      direct conversation has at most two members, and whoever manages a channel is subscribed to it. */
  lemma {:induction false} RunSized(cfg: Config, ops: seq<Op>)
    ensures Sized(Run(cfg, ops).t, cfg)
  {
    if ops != [] {
      RunSized(cfg, ops[..|ops| - 1]);
      StepSized(Run(cfg, ops[..|ops| - 1]), cfg, ops[|ops| - 1]);
    }
  }
}
