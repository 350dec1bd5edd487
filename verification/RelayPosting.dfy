/** Who may post: on every run, an accepted message to a channel comes from one of its managers. */
module RelayPosting {
  import opened Common
  import opened RelayModel
  import RelayStamps
  import Strings

  /** Every channel has the policy it was created with. */
  ghost predicate AdminsPost(t: Tables) {
    forall c :: c in t.convs && t.convs[c].kind.Channel? ==> t.convs[c].policy == ADMINS_ONLY
  }

  lemma OccursChar(s: string, sub: string, i: nat, k: nat)
    ensures OccursAt(s, sub, i) && k < |sub| ==> s[i + k] == sub[k]
  {}

  lemma NoV()
    ensures forall j :: 24 <= j <= 40 ==> ADMINS_ONLY[j] != 'v'
  {}

  /** The policy given to a new channel does not open it to everyone. */
  lemma PolicyForbids()
    ensures !Contains(ADMINS_ONLY, EVERYONE)
  {
    assert |ADMINS_ONLY| == 48 && |EVERYONE| == 32 && EVERYONE[24] == 'v';
    NoV();
    forall i: nat | i <= |ADMINS_ONLY| ensures !OccursAt(ADMINS_ONLY, EVERYONE, i) {
      OccursChar(ADMINS_ONLY, EVERYONE, i, 24);
    }
  }

  /** What a creating call inserts. */
  function Made(op: Op): Option<(ConversationId, Conversation)> {
    match op
    case DmOp(_, _, creator, c) => Some((c, Conversation(Dm, creator, "", 0)))
    case GroupOp(creator, _, c) => Some((c, Conversation(Group, creator, "", 0)))
    case ChannelOp(creator, _, _, c) => Some((c, Conversation(Channel, creator, ADMINS_ONLY, 0)))
    case _ => None
  }

  /** A conversation of `t2` was in `t` or has just been created. */
  ghost predicate OnlyNew(t: Tables, t2: Tables, made: Option<(ConversationId, Conversation)>) {
    forall c :: c in t2.convs && c !in t.convs ==>
      made.Some? && made.value.0 == c && t2.convs[c] == made.value.1.(version := t2.convs[c].version)
  }

  lemma {:induction false} AddAllConvs(t: Tables, c: ConversationId, ids: seq<UserId>, owner: UserId, other: Role)
    ensures AddAll(t, c, ids, owner, other).0.convs.Keys == t.convs.Keys
  {
    if ids != [] { AddAllConvs(t, c, ids[..|ids| - 1], owner, other); }
  }

  lemma {:induction false} SubscribeAllConvs(t: Tables, c: ConversationId, ids: seq<UserId>, skip: set<UserId>)
    ensures SubscribeAll(t, c, ids, skip).0.convs.Keys == t.convs.Keys
  {
    if ids != [] { SubscribeAllConvs(t, c, ids[..|ids| - 1], skip); }
  }

  lemma {:induction false} AddAdminsConvs(t: Tables, c: ConversationId, ids: seq<UserId>, owner: UserId)
    ensures AddAdmins(t, c, ids, owner).0.convs.Keys == t.convs.Keys
  {
    if ids != [] { AddAdminsConvs(t, c, ids[..|ids| - 1], owner); }
  }

  lemma DmMade(s: State, a: UserId, b: UserId, creator: UserId, c: ConversationId)
    ensures OnlyNew(s.t, CreateDm(s, a, b, creator, c).0.t, Some((c, Conversation(Dm, creator, "", 0))))
  {
    var r := CreateConversation(s.t, c, Conversation(Dm, creator, "", 0));
    if r.Ok? {
      var ids := if a == b then [a] else [creator, if creator == a then b else a];
      AddAllConvs(r.value, c, ids, creator, Member);
      RelayStamps.AddAllAdvances(r.value, c, ids, creator, Member);
    }
  }

  lemma GroupMade(s: State, cfg: Config, creator: UserId, members: seq<UserId>, c: ConversationId)
    ensures OnlyNew(s.t, CreateGroup(s, cfg, creator, members, c).0.t, Some((c, Conversation(Group, creator, "", 0))))
  {
    var r := CreateConversation(s.t, c, Conversation(Group, creator, "", 0));
    if r.Ok? {
      AddAllConvs(r.value, c, Strings.SortUnique(members), creator, Member);
      RelayStamps.AddAllAdvances(r.value, c, Strings.SortUnique(members), creator, Member);
    }
  }

  /** No conversation is added or changed but for its version. */
  ghost predicate SameConvs(t: Tables, t2: Tables) { t2.convs.Keys == t.convs.Keys && RelayStamps.Advances(t, t2) }

  lemma ChannelBuilt(t: Tables, c: ConversationId, admins: seq<UserId>, subs: seq<UserId>, creator: UserId)
    ensures var made := AddAdmins(t, c, admins, creator).0;
            SameConvs(t, made) && SameConvs(t, SubscribeAll(made, c, subs, Elements(admins)).0)
  {
    var made := AddAdmins(t, c, admins, creator).0;
    AddAdminsConvs(t, c, admins, creator);
    SubscribeAllConvs(made, c, subs, Elements(admins));
    RelayStamps.AddAdminsAdvances(t, c, admins, creator);
    RelayStamps.SubscribeAllAdvances(made, c, subs, Elements(admins));
    RelayStamps.AdvancesTwice(t, made, SubscribeAll(made, c, subs, Elements(admins)).0);
  }

  /** The new conversation keeps the row it was created with. */
  lemma CreatedThen(t: Tables, t1: Tables, t2: Tables, c: ConversationId, row: Conversation)
    requires t1 == t.(convs := t.convs[c := row]) && SameConvs(t1, t2)
    ensures OnlyNew(t, t2, Some((c, row)))
  {}

  lemma ChannelMade(s: State, cfg: Config, creator: UserId, admins: seq<UserId>, subs: seq<UserId>, c: ConversationId)
    ensures OnlyNew(s.t, CreateChannel(s, cfg, creator, admins, subs, c).0.t,
                      Some((c, Conversation(Channel, creator, ADMINS_ONLY, 0))))
  {
    var r := CreateConversation(s.t, c, Conversation(Channel, creator, ADMINS_ONLY, 0));
    if r.Ok? {
      ChannelBuilt(r.value, c, admins, subs, creator);
      var made := AddAdmins(r.value, c, admins, creator).0;
      CreatedThen(s.t, r.value, made, c, Conversation(Channel, creator, ADMINS_ONLY, 0));
      CreatedThen(s.t, r.value, SubscribeAll(made, c, subs, Elements(admins)).0, c,
                  Conversation(Channel, creator, ADMINS_ONLY, 0));
    }
  }

  /** Joining and leaving create nothing. */
  lemma SeatsOnly(s: State, cfg: Config, op: Op)
    requires op.AddOp? || op.RemoveOp? || op.SubscribeOp? || op.UnsubscribeOp?
    ensures Step(s, cfg, op).t.convs.Keys == s.t.convs.Keys
  {}

  lemma StepConvs(s: State, cfg: Config, op: Op)
    ensures OnlyNew(s.t, Step(s, cfg, op).t, Made(op))
  {
    if RelayStamps.Seatless(op) {
      RelayStamps.SeatlessSeats(s, cfg, op);
    } else {
      match op
      case DmOp(a, b, creator, c) => DmMade(s, a, b, creator, c);
      case GroupOp(creator, members, c) => GroupMade(s, cfg, creator, members, c);
      case ChannelOp(creator, admins, subs, c) => ChannelMade(s, cfg, creator, admins, subs, c);
      case _ => SeatsOnly(s, cfg, op);
    }
  }

  lemma StillAdminsPost(t: Tables, t2: Tables, op: Op)
    requires AdminsPost(t) && RelayStamps.Advances(t, t2) && OnlyNew(t, t2, Made(op))
    ensures AdminsPost(t2)
  {}

  lemma {:induction false} RunAdminsPost(cfg: Config, ops: seq<Op>)
    ensures AdminsPost(Run(cfg, ops).t)
  {
    if ops != [] {
      var s, op := Run(cfg, ops[..|ops| - 1]), ops[|ops| - 1];
      RunAdminsPost(cfg, ops[..|ops| - 1]);
      StepConvs(s, cfg, op);
      RelayStamps.StepAdvances(s, cfg, op);
      StillAdminsPost(s.t, Step(s, cfg, op).t, op);
    }
  }

  /** A message accepted after any run was sent from a registered device of a user in the conversation, and
      to a channel only by an owner or administrator of it. */
  lemma OnlyManagersPost(cfg: Config, ops: seq<Op>, r: SendRequest, now: Timestamp, uuid: EnvelopeId)
    requires Send(Run(cfg, ops), cfg, r, now, uuid).1.Ok?
    ensures var t := Run(cfg, ops).t;
            && r.sender in t.devices && InConversation(t, r.conv, r.sender.user)
            && (t.convs[r.conv].kind.Channel? ==> CanManage(t, r.conv, r.sender.user))
  {
    RunAdminsPost(cfg, ops);
    PolicyForbids();
  }
}
