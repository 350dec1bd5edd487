/** Confinement: on every run, whatever waits for a device, in memory or in the store, belongs to a
    conversation its user is in now. */
module RelayConfinement {
  import opened Common
  import opened Delivery
  import opened RelayModel
  import Strings

  /** What the schema's keys and the server's id generation maintain. */
  ghost predicate WellFormed(s: State) {
    && (forall u :: u in s.t.users ==> NoSeparator(u))
    && (forall x :: x in s.t.devices ==> x.user in s.t.users)
    && s.queues.Keys <= Keys(s.t.devices.Keys)
  }

  ghost predicate QueueConfined(s: State, x: Dev) {
    forall e :: e in Pending(s.queues, Key(x)) ==>
      && e.envelopeId in s.t.envelopes && s.t.envelopes[e.envelopeId].conv == e.conversationId
      && InConversation(s.t, e.conversationId, x.user)
  }

  ghost predicate RowConfined(t: Tables, k: RowKey) {
    && k.envelope in t.envelopes && Dev(k.user, k.device) in t.devices
    && InConversation(t, t.envelopes[k.envelope].conv, k.user)
  }

  ghost predicate Confined(s: State) {
    && WellFormed(s)
    && (forall x :: x in s.t.devices ==> QueueConfined(s, x))
    && (forall k :: k in s.t.delivery ==> RowConfined(s.t, k))
  }

  /** Distinct registered devices have distinct queues. */
  lemma KeysDiffer(s: State, x: Dev, y: Dev)
    requires WellFormed(s) && x in s.t.devices && y in s.t.devices && Key(x) == Key(y)
    ensures x == y
  {
    ScopeKeyInjective(x.user, x.device, y.user, y.device);
  }

  // ---- Calls that only let more users in ------------------------------------------------------

  /** `t2` has the same devices, envelopes and delivery rows, and everyone stays where they were. */
  ghost predicate LetsIn(t: Tables, t2: Tables) {
    && t.users <= t2.users && t2.devices == t.devices && t2.envelopes == t.envelopes && t2.delivery == t.delivery
    && (forall u :: u in t2.users && u !in t.users ==> NoSeparator(u))
    && forall c, u :: InConversation(t, c, u) ==> InConversation(t2, c, u)
  }

  lemma LetsInConfined(s: State, t2: Tables)
    requires Confined(s) && LetsIn(s.t, t2)
    ensures Confined(s.(t := t2))
  {}

  lemma AddMemberLetsIn(t: Tables, c: ConversationId, u: UserId, role: Role)
    ensures var r := AddMemberRow(t, c, u, role); r.Ok? ==> LetsIn(t, r.value)
  {}

  lemma SubscribeLetsIn(t: Tables, c: ConversationId, u: UserId)
    ensures var r := SubscribeRow(t, c, u); r.Ok? ==> LetsIn(t, r.value)
  {}

  lemma CreateLetsIn(t: Tables, c: ConversationId, row: Conversation)
    ensures var r := CreateConversation(t, c, row); r.Ok? ==> LetsIn(t, r.value)
  {}

  lemma {:induction false} AddAllLetsIn(t: Tables, c: ConversationId, ids: seq<UserId>, owner: UserId, other: Role)
    ensures LetsIn(t, AddAll(t, c, ids, owner, other).0)
  {
    if ids != [] {
      AddAllLetsIn(t, c, ids[..|ids| - 1], owner, other);
      var before := AddAll(t, c, ids[..|ids| - 1], owner, other).0;
      var u := ids[|ids| - 1];
      AddMemberLetsIn(before, c, u, if u == owner then Owner else other);
    }
  }

  lemma {:induction false} SubscribeAllLetsIn(t: Tables, c: ConversationId, ids: seq<UserId>, skip: set<UserId>)
    ensures LetsIn(t, SubscribeAll(t, c, ids, skip).0)
  {
    if ids != [] {
      SubscribeAllLetsIn(t, c, ids[..|ids| - 1], skip);
      SubscribeLetsIn(SubscribeAll(t, c, ids[..|ids| - 1], skip).0, c, ids[|ids| - 1]);
    }
  }

  lemma {:induction false} AddAdminsLetsIn(t: Tables, c: ConversationId, ids: seq<UserId>, owner: UserId)
    ensures LetsIn(t, AddAdmins(t, c, ids, owner).0)
  {
    if ids != [] {
      AddAdminsLetsIn(t, c, ids[..|ids| - 1], owner);
      var before := AddAdmins(t, c, ids[..|ids| - 1], owner).0;
      var u := ids[|ids| - 1];
      var r := AddMemberRow(before, c, u, if u == owner then Owner else Admin);
      AddMemberLetsIn(before, c, u, if u == owner then Owner else Admin);
      if r.Ok? { SubscribeLetsIn(r.value, c, u); }
    }
  }

  // ---- Calls that make a user leave -----------------------------------------------------------

  /** `t2` differs from `t` only in that `u` may no longer be in `c`. */
  ghost predicate LetsOut(t: Tables, t2: Tables, c: ConversationId, u: UserId) {
    && t2.users == t.users && t2.devices == t.devices && t2.envelopes == t.envelopes && t2.delivery == t.delivery
    && forall c2, u2 :: InConversation(t, c2, u2) && (c2 != c || u2 != u) ==> InConversation(t2, c2, u2)
  }

  lemma RemoveLetsOut(t: Tables, c: ConversationId, u: UserId)
    ensures LetsOut(t, RemoveMemberRow(t, c, u), c, u)
  {}

  lemma UnsubscribeLetsOut(t: Tables, c: ConversationId, u: UserId)
    ensures LetsOut(t, UnsubscribeRow(t, c, u), c, u)
  {}

  /** The purge restores confinement after `u` left `c`. */
  lemma PurgeConfines(s: State, t2: Tables, c: ConversationId, u: UserId)
    requires Confined(s) && LetsOut(s.t, t2, c, u)
    ensures Confined(PurgeMember(s.(t := t2), c, u))
  {
    var s2 := PurgeMember(s.(t := t2), c, u);
    forall x | x in s2.t.devices ensures QueueConfined(s2, x) {
      assert QueueConfined(s, x);
      forall e | e in Pending(s2.queues, Key(x))
        ensures && e.envelopeId in s2.t.envelopes && s2.t.envelopes[e.envelopeId].conv == e.conversationId
                && InConversation(s2.t, e.conversationId, x.user)
      {
        WithoutMembers(s.queues[Key(x)], c, e);
        assert e in Pending(s.queues, Key(x));
        assert x.user == u ==> Key(x) in UserKeys(t2, u);
      }
    }
    forall k | k in s2.t.delivery ensures RowConfined(s2.t, k) {
      assert RowConfined(s.t, k);
    }
  }

  // ---- Fan-out --------------------------------------------------------------------------------

  /** Storing a new envelope disturbs nothing that waits. */
  lemma StoreConfined(s: State, id: EnvelopeId, e: Envelope)
    requires Confined(s) && id !in s.t.envelopes
    ensures Confined(s.(t := s.t.(envelopes := s.t.envelopes[id := e])))
  {}

  /** A registered device's queue after the fan-out. */
  lemma FanOutQueue(s: State, max: nat, e: Queued, xs: set<Dev>, x: Dev)
    requires WellFormed(s) && xs <= s.t.devices.Keys && x in s.t.devices
    ensures var q := Pending(s.queues, Key(x));
            Pending(FanOut(s, max, e, xs).queues, Key(x)) == if x in xs && |q| < max then q + [e] else q
  {
    if Key(x) in Keys(xs) {
      var y :| y in xs && Key(y) == Key(x);
      KeysDiffer(s, x, y);
    }
  }

  /** The delivery rows after the fan-out. */
  lemma FanOutRow(s: State, max: nat, e: Queued, xs: set<Dev>, k: RowKey)
    ensures k in FanOut(s, max, e, xs).t.delivery
       <==> k in s.t.delivery || (k.envelope == e.envelopeId && Dev(k.user, k.device) in Full(s.queues, max, xs))
  {}

  lemma FanOutConfined(s: State, max: nat, e: Queued, xs: set<Dev>)
    requires Confined(s) && xs <= s.t.devices.Keys
    requires e.envelopeId in s.t.envelopes && s.t.envelopes[e.envelopeId].conv == e.conversationId
    requires forall x :: x in xs ==> InConversation(s.t, e.conversationId, x.user)
    ensures Confined(FanOut(s, max, e, xs))
  {
    var s2 := FanOut(s, max, e, xs);
    SameMembership(s.t, s2.t);
    forall x | x in s2.t.devices ensures QueueConfined(s2, x) {
      assert QueueConfined(s, x);
      FanOutQueue(s, max, e, xs, x);
    }
    forall k | k in s2.t.delivery ensures RowConfined(s2.t, k) {
      FanOutRow(s, max, e, xs, k);
      assert k in s.t.delivery ==> RowConfined(s.t, k);
    }
  }

  lemma SameMembership(t: Tables, t2: Tables)
    requires t2 == t.(delivery := t2.delivery)
    ensures forall c, u :: InConversation(t, c, u) <==> InConversation(t2, c, u)
  {}

  lemma SendConfined(s: State, cfg: Config, r: SendRequest, now: Timestamp, uuid: EnvelopeId)
    requires Confined(s)
    ensures Confined(Send(s, cfg, r, now, uuid).0)
  {
    var id := if r.envelopeId == "" then uuid else r.envelopeId;
    if Refusal(s.t, r).None? && id !in s.t.envelopes {
      var row := Envelope(r.conv, r.sender, r.ciphertext, now);
      StoreConfined(s, id, row);
      var e := Queued(id, r.conv, r.sender.user, r.sender.device, r.ciphertext, now);
      FanOutConfined(s.(t := s.t.(envelopes := s.t.envelopes[id := row])), cfg.maxQueue, e,
                     Targets(s.t, r.conv, r.sender));
    }
  }

  // ---- Dequeue, SwitchToOffline, Acknowledge --------------------------------------------------

  /** Queues that only lose entries stay confined. */
  lemma ShrinkConfined(s: State, qs: Queues)
    requires Confined(s) && qs.Keys == s.queues.Keys
    requires forall k, e :: k in qs && e in qs[k] ==> e in s.queues[k]
    ensures Confined(s.(queues := qs))
  {}

  lemma {:induction false} PersistConfined(s: State, q: seq<Queued>, x: Dev, now: Timestamp)
    requires Confined(s)
    requires x in s.t.devices ==> forall e :: e in q ==>
               && e.envelopeId in s.t.envelopes
               && InConversation(s.t, s.t.envelopes[e.envelopeId].conv, x.user)
    ensures Confined(s.(t := Persist(s.t, q, x, now)))
    ensures var t2 := Persist(s.t, q, x, now);
            t2 == s.t.(delivery := t2.delivery)
  {
    if q != [] {
      var last := q[|q| - 1];
      assert q == q[..|q| - 1] + [last] && last in q;
      PersistConfined(s, q[..|q| - 1], x, now);
      AddDeliveryConfined(s.(t := Persist(s.t, q[..|q| - 1], x, now)),
                          RowKey(last.envelopeId, x.user, x.device), now);
    }
  }

  lemma AddDeliveryConfined(s: State, k: RowKey, now: Timestamp)
    requires Confined(s)
    requires Dev(k.user, k.device) in s.t.devices ==>
               k.envelope in s.t.envelopes && InConversation(s.t, s.t.envelopes[k.envelope].conv, k.user)
    ensures Confined(s.(t := AddDelivery(s.t, k, now)))
  {}

  lemma OfflineConfined(s: State, x: Dev, now: Timestamp)
    requires Confined(s)
    ensures Confined(SwitchToOffline(s, x, now))
  {
    assert x in s.t.devices ==> QueueConfined(s, x);
    PersistConfined(s, Pending(s.queues, Key(x)), x, now);
    ShrinkConfined(s.(t := Persist(s.t, Pending(s.queues, Key(x)), x, now)), Clear(s.queues, Key(x)));
  }

  lemma AckConfined(s: State, x: Dev, id: EnvelopeId)
    requires Confined(s)
    ensures Confined(Acknowledge(s, x, id).0)
  {}

  // ---- Accounts -------------------------------------------------------------------------------

  lemma DeviceConfined(s: State, x: Dev)
    requires Confined(s)
    ensures Confined(RegisterDevice(s, x))
  {
    var s2 := RegisterDevice(s, x);
    if s2 != s {
      if Key(x) in s.queues {
        var y :| y in s.t.devices && Key(y) == Key(x);
        ScopeKeyInjective(x.user, x.device, y.user, y.device);
      }
      assert Keys(s.t.devices.Keys) <= Keys(s2.t.devices.Keys);
      forall y | y in s2.t.devices ensures QueueConfined(s2, y) {
        assert y in s.t.devices ==> QueueConfined(s, y);
      }
      forall k | k in s2.t.delivery ensures RowConfined(s2.t, k) {
        assert RowConfined(s.t, k);
      }
    }
  }

  lemma RevokeConfined(s: State, x: Dev)
    requires Confined(s)
    ensures Confined(RevokeDevice(s, x))
  {}

  // ---- Every step, every run ------------------------------------------------------------------

  lemma CreateConfined(s: State, cfg: Config, op: Op)
    requires Confined(s) && (op.DmOp? || op.GroupOp? || op.ChannelOp?)
    ensures Confined(Step(s, cfg, op))
  {
    var row := match op
      case DmOp(_, _, creator, _) => Conversation(Dm, creator, "", 0)
      case GroupOp(creator, _, _) => Conversation(Group, creator, "", 0)
      case ChannelOp(creator, _, _, _) => Conversation(Channel, creator, ADMINS_ONLY, 0);
    var s2 := Step(s, cfg, op);
    if s2 != s {
      CreateLetsIn(s.t, op.c, row);
      var t := CreateConversation(s.t, op.c, row).value;
      match op {
        case DmOp(a, b, creator, c) =>
          var other := if creator == a then b else a;
          AddAllLetsIn(t, c, if a == b then [a] else [creator, other], creator, Member);
        case GroupOp(creator, members, c) =>
          AddAllLetsIn(t, c, Strings.SortUnique(members), creator, Member);
        case ChannelOp(creator, admins, subs, c) =>
          AddAdminsLetsIn(t, c, admins, creator);
          SubscribeAllLetsIn(AddAdmins(t, c, admins, creator).0, c, subs, Elements(admins));
      }
      LetsInConfined(s, s2.t);
    }
  }

  lemma JoinConfined(s: State, cfg: Config, op: Op)
    requires Confined(s) && Enabled(op) && (op.AddOp? || op.SubscribeOp? || op.UserOp?)
    ensures Confined(Step(s, cfg, op))
  {
    var s2 := Step(s, cfg, op);
    if s2 != s {
      if op.AddOp? { AddMemberLetsIn(s.t, op.c, op.u, op.role); }
      if op.SubscribeOp? { SubscribeLetsIn(s.t, op.c, op.u); }
      LetsInConfined(s, s2.t);
    }
  }

  lemma LeaveConfined(s: State, cfg: Config, op: Op)
    requires Confined(s) && (op.RemoveOp? || op.UnsubscribeOp?)
    ensures Confined(Step(s, cfg, op))
  {
    RemoveLetsOut(s.t, op.c, op.u);
    UnsubscribeLetsOut(s.t, op.c, op.u);
    PurgeConfines(s, if op.RemoveOp? then RemoveMemberRow(s.t, op.c, op.u) else UnsubscribeRow(s.t, op.c, op.u),
                  op.c, op.u);
  }

  lemma StepConfined(s: State, cfg: Config, op: Op)
    requires Confined(s) && Enabled(op)
    ensures Confined(Step(s, cfg, op))
  {
    if op.DmOp? || op.GroupOp? || op.ChannelOp? {
      CreateConfined(s, cfg, op);
    } else if op.AddOp? || op.SubscribeOp? || op.UserOp? {
      JoinConfined(s, cfg, op);
    } else if op.RemoveOp? || op.UnsubscribeOp? {
      LeaveConfined(s, cfg, op);
    } else {
      match op
      case SendOp(r, now, uuid) => SendConfined(s, cfg, r, now, uuid);
      case DequeueOp(x, n) => ShrinkConfined(s, Dequeue(s.queues, Key(x), n));
      case OfflineOp(x, now) => OfflineConfined(s, x, now);
      case AckOp(x, id) => AckConfined(s, x, id);
      case DeviceOp(x) => DeviceConfined(s, x);
      case RevokeOp(x) => RevokeConfined(s, x);
    }
  }

  /** On every run of service calls, every envelope in a device queue or a delivery row belongs to a
      conversation the owning user is currently in. */
  lemma {:induction false} RunConfined(cfg: Config, ops: seq<Op>)
    requires Legal(ops)
    ensures Confined(Run(cfg, ops))
  {
    if ops != [] {
      RunConfined(cfg, ops[..|ops| - 1]);
      StepConfined(Run(cfg, ops[..|ops| - 1]), cfg, ops[|ops| - 1]);
    }
  }
}
