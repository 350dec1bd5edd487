/** What each relay call answers and what it leaves behind, told by the rows of the tables alone: when it is
    granted, the error otherwise, and the whole new state. */
module RelayAnswers {
  import opened Common
  import opened Delivery
  import opened RelayModel
  import opened RelayConfinement
  import opened RelayCreation
  import RelayDelivery
  import RelayStamps

  /** An active seat, a running subscription, a seat that manages. */
  predicate SitsIn(t: Tables, c: ConversationId, u: UserId) {
    Seat(c, u) in t.members && t.members[Seat(c, u)].active
  }
  predicate Follows(t: Tables, c: ConversationId, u: UserId) { Seat(c, u) in t.subs && t.subs[Seat(c, u)] }
  predicate Manages(t: Tables, c: ConversationId, u: UserId) {
    SitsIn(t, c, u) && t.members[Seat(c, u)].role != Member
  }

  /** Messages of `c` reach `u`. */
  predicate Hears(t: Tables, c: ConversationId, u: UserId) {
    c in t.convs && if t.convs[c].kind == Channel then Follows(t, c, u) else SitsIn(t, c, u)
  }

  // ---- SendEnvelope ---------------------------------------------------------------------------

  /** The channel's policy text opens it to everyone. */
  ghost predicate OpenToAll(policy: string) {
    exists before: string, after: string :: policy == before + "\"channel_post_policy\":\"everyone\"" + after
  }

  lemma OpenIsContains(policy: string)
    ensures OpenToAll(policy) <==> Contains(policy, EVERYONE)
  {
    if before: string, after: string :| policy == before + EVERYONE + after {
      assert OccursAt(policy, EVERYONE, |before|);
    }
    if i: nat :| i <= |policy| && OccursAt(policy, EVERYONE, i) {
      assert policy == policy[..i] + EVERYONE + policy[i + |EVERYONE|..];
    }
  }

  ghost predicate MayPost(t: Tables, r: SendRequest) {
    && r.ciphertext != "" && r.sender in t.devices && Hears(t, r.conv, r.sender.user)
    && (t.convs[r.conv].kind == Channel ==> OpenToAll(t.convs[r.conv].policy) || Manages(t, r.conv, r.sender.user))
  }

  /** A message is accepted exactly when its sender may post and its id is new. Then it is stored as sent; a
      refusal names its reason and changes nothing. */
  lemma SendAnswers(s: State, cfg: Config, r: SendRequest, now: Timestamp, uuid: EnvelopeId)
    ensures var (s2, res) := Send(s, cfg, r, now, uuid);
            var id := if r.envelopeId == "" then uuid else r.envelopeId;
            && (res.Ok? <==> MayPost(s.t, r) && id !in s.t.envelopes)
            && (res.Ok? ==> && res.value.envelopeId == id && res.value.timestamp == now
                            && s2.t == s.t.(envelopes := s2.t.envelopes, delivery := s2.t.delivery)
                            && s2.t.envelopes == s.t.envelopes[id := Envelope(r.conv, r.sender, r.ciphertext, now)])
            && (res.Err? ==>
                  && s2 == s
                  && res.code == if r.ciphertext == "" then InvalidArgument
                                 else if r.sender !in s.t.devices then Unauthorized
                                 else if r.conv !in s.t.convs then NotFound
                                 else if !MayPost(s.t, r) then Forbidden
                                 else Duplicate)
  {
    if r.conv in s.t.convs { OpenIsContains(s.t.convs[r.conv].policy); }
  }

  /** The devices a message goes to. */
  predicate Receives(t: Tables, r: SendRequest, x: Dev) {
    x in t.devices && !t.devices[x].revoked && Hears(t, r.conv, x.user) && x != r.sender
  }

  lemma TargetsReceive(t: Tables, r: SendRequest, x: Dev)
    ensures x in Targets(t, r.conv, r.sender) <==> Receives(t, r, x)
  {}

  /** An accepted message is put at the end of the queue of each receiving device that has room. */
  lemma SendQueues(s: State, cfg: Config, r: SendRequest, now: Timestamp, uuid: EnvelopeId, x: Dev)
    requires Confined(s) && x in s.t.devices && Send(s, cfg, r, now, uuid).1.Ok?
    ensures var (s2, res) := Send(s, cfg, r, now, uuid);
            var q := Pending(s.queues, Key(x));
            Pending(s2.queues, Key(x))
            == if Receives(s.t, r, x) && |q| < cfg.maxQueue
               then q + [Queued(res.value.envelopeId, r.conv, r.sender.user, r.sender.device, r.ciphertext, now)] else q
  {
    var id := Send(s, cfg, r, now, uuid).1.value.envelopeId;
    var s1 := s.(t := s.t.(envelopes := s.t.envelopes[id := Envelope(r.conv, r.sender, r.ciphertext, now)]));
    TargetsReceive(s.t, r, x);
    FanOutQueue(s1, cfg.maxQueue, Queued(id, r.conv, r.sender.user, r.sender.device, r.ciphertext, now),
                Targets(s.t, r.conv, r.sender), x);
  }

  lemma FanOutRowIs(s: State, max: nat, e: Queued, xs: set<Dev>, k: RowKey)
    requires k in s.t.delivery ==> k.envelope != e.envelopeId
    ensures var d := FanOut(s, max, e, xs).t.delivery;
            && (k in d <==> k in s.t.delivery
                            || (k.envelope == e.envelopeId && Dev(k.user, k.device) in xs
                                && |Pending(s.queues, Key(Dev(k.user, k.device)))| >= max))
            && (k in d ==> d[k] == if k in s.t.delivery then s.t.delivery[k] else DeliveryRow(e.timestamp, false))
  {
    FanOutRow(s, max, e, xs, k);
  }

  /** Each receiving device whose queue is full gets a new row; no other row changes. */
  lemma SendRows(s: State, cfg: Config, r: SendRequest, now: Timestamp, uuid: EnvelopeId, k: RowKey)
    requires Confined(s) && Send(s, cfg, r, now, uuid).1.Ok?
    ensures var (s2, res) := Send(s, cfg, r, now, uuid);
            var x := Dev(k.user, k.device);
            && (k in s2.t.delivery
                <==> k in s.t.delivery || (k.envelope == res.value.envelopeId && Receives(s.t, r, x)
                                           && |Pending(s.queues, Key(x))| >= cfg.maxQueue))
            && (k in s2.t.delivery ==>
                  s2.t.delivery[k] == if k in s.t.delivery then s.t.delivery[k] else DeliveryRow(now, false))
  {
    var id := Send(s, cfg, r, now, uuid).1.value.envelopeId;
    var s1 := s.(t := s.t.(envelopes := s.t.envelopes[id := Envelope(r.conv, r.sender, r.ciphertext, now)]));
    assert k in s.t.delivery ==> RowConfined(s.t, k);
    TargetsReceive(s.t, r, Dev(k.user, k.device));
    FanOutRowIs(s1, cfg.maxQueue, Queued(id, r.conv, r.sender.user, r.sender.device, r.ciphertext, now),
                Targets(s.t, r.conv, r.sender), k);
  }

  // ---- Acknowledge, accounts ------------------------------------------------------------------

  /** An acknowledgement is granted exactly when the device has a row for the envelope, and marks that row. */
  lemma AcknowledgeAnswers(s: State, x: Dev, id: EnvelopeId)
    ensures var (s2, r) := Acknowledge(s, x, id);
            var k := RowKey(id, x.user, x.device);
            && (r.Ok? <==> k in s.t.delivery) && (r.Err? ==> r.code == NotFound && s2 == s)
            && (r.Ok? ==> s2 == s.(t := s.t.(delivery := s.t.delivery[k := DeliveryRow(s.t.delivery[k].queuedAt, true)])))
  {}

  /** A device is registered once, for a registered user. */
  lemma RegisterDeviceExactly(s: State, x: Dev, y: Dev)
    ensures var s2 := RegisterDevice(s, y);
            && s2 == s.(t := s.t.(devices := s2.t.devices))
            && (x in s2.t.devices <==> x in s.t.devices || (x == y && x.user in s.t.users))
            && (x in s2.t.devices ==> (s2.t.devices[x].revoked <==> x in s.t.devices && s.t.devices[x].revoked))
  {}

  /** Only its own revocation revokes it. */
  lemma RevokeDeviceExactly(s: State, x: Dev, y: Dev)
    ensures var s2 := RevokeDevice(s, y);
            && s2 == s.(t := s.t.(devices := s2.t.devices))
            && (x in s2.t.devices <==> x in s.t.devices)
            && (x in s2.t.devices ==> (s2.t.devices[x].revoked <==> s.t.devices[x].revoked || x == y))
  {}

  lemma StepDevices(s: State, cfg: Config, op: Op)
    requires !op.DeviceOp? && !op.RevokeOp?
    ensures Step(s, cfg, op).t.devices == s.t.devices
  {
    match op
    case DmOp(a, b, creator, c) => RelayDelivery.DmKeepsDelivery(s, a, b, creator, c);
    case GroupOp(creator, members, c) => RelayDelivery.GroupKeepsDelivery(s, cfg, creator, members, c);
    case ChannelOp(creator, admins, subs, c) => RelayDelivery.ChannelKeepsDelivery(s, cfg, creator, admins, subs, c);
    case OfflineOp(x, now) => RelayStamps.PersistSeats(s.t, Pending(s.queues, Key(x)), x, now);
    case _ =>
  }

  predicate Revoked(t: Tables, x: Dev) { x in t.devices && t.devices[x].revoked }

  /** A device once revoked is revoked for the rest of the run, so no message is put anywhere for it again. */
  lemma {:induction false} RevokedForGood(cfg: Config, ops: seq<Op>, i: nat, x: Dev, r: SendRequest)
    requires i <= |ops| && Revoked(Run(cfg, ops[..i]).t, x)
    ensures Revoked(Run(cfg, ops).t, x) && !Receives(Run(cfg, ops).t, r, x)
    decreases |ops|
  {
    if i == |ops| {
      assert ops[..i] == ops;
    } else {
      var front, op := ops[..|ops| - 1], ops[|ops| - 1];
      assert front[..i] == ops[..i];
      RevokedForGood(cfg, front, i, x, r);
      var s := Run(cfg, front);
      if op.DeviceOp? {
        RegisterDeviceExactly(s, x, op.dev);
      } else if op.RevokeOp? {
        RevokeDeviceExactly(s, x, op.dev);
      } else {
        StepDevices(s, cfg, op);
      }
    }
  }

  // ---- Joining --------------------------------------------------------------------------------

  /** AddMember is granted exactly to a manager of a group with room, for a registered user. */
  lemma AddMemberAnswers(s: State, cfg: Config, c: ConversationId, actor: UserId, u: UserId, role: Role)
    ensures var (s2, r) := AddMember(s, cfg, c, actor, u, role);
            && (r.Ok? <==> && c in s.t.convs && s.t.convs[c].kind == Group && Manages(s.t, c, actor)
                           && |Members(s.t, c)| < cfg.maxGroup && u in s.t.users)
            && (r.Ok? ==> s2 == s.(t := s.t.(convs := Versioned(s.t, c, s.t.convs[c].version + 1),
                                             members := s.t.members[Seat(c, u) := Membership(role, true)])))
            && (r.Err? ==>
                  && s2 == s
                  && r.code == if c !in s.t.convs then NotFound
                               else if s.t.convs[c].kind != Group then InvalidArgument
                               else if !Manages(s.t, c, actor) then Forbidden
                               else if |Members(s.t, c)| >= cfg.maxGroup then QuotaExceeded
                               else Internal)
  {}

  /** SubscribeChannel is granted exactly to registered users of a channel with room, and again to those in it. */
  lemma SubscribeAnswers(s: State, cfg: Config, c: ConversationId, u: UserId)
    ensures var (s2, r) := SubscribeChannel(s, cfg, c, u);
            && (r.Ok? <==> && c in s.t.convs && s.t.convs[c].kind == Channel && u in s.t.users
                           && (Follows(s.t, c, u) || |Subscribers(s.t, c)| < cfg.maxChannel))
            && (r.Ok? ==> s2 == s.(t := s.t.(convs := Versioned(s.t, c, s.t.convs[c].version + 1),
                                             subs := s.t.subs[Seat(c, u) := true])))
            && (r.Err? ==>
                  && s2 == s
                  && r.code == if c !in s.t.convs then NotFound
                               else if s.t.convs[c].kind != Channel then InvalidArgument
                               else if !Follows(s.t, c, u) && |Subscribers(s.t, c)| >= cfg.maxChannel then QuotaExceeded
                               else Internal)
  {
    assert u in Subscribers(s.t, c) <==> Follows(s.t, c, u) by {
      if Follows(s.t, c, u) { assert Seat(c, u) in s.t.subs; }
    }
  }

  // ---- Leaving --------------------------------------------------------------------------------

  /** Everything of `c` that waited for `u` is gone, and nothing else that waited for anybody. */
  ghost predicate Purged(s: State, s2: State, c: ConversationId, u: UserId) {
    && (forall x :: x in s.t.devices ==>
          var q := Pending(s.queues, Key(x));
          Pending(s2.queues, Key(x)) == if x.user == u then Without(q, c) else q)
    && (forall k :: k in s2.t.delivery
               <==> && k in s.t.delivery
                    && !(k.user == u && k.envelope in s.t.envelopes && s.t.envelopes[k.envelope].conv == c))
    && (forall k :: k in s2.t.delivery ==> s2.t.delivery[k] == s.t.delivery[k])
  }

  lemma PurgePurges(s: State, t1: Tables, c: ConversationId, u: UserId)
    requires WellFormed(s) && t1.devices == s.t.devices && t1.envelopes == s.t.envelopes && t1.delivery == s.t.delivery
    ensures var s2 := PurgeMember(s.(t := t1), c, u); Purged(s, s2, c, u) && s2.t == t1.(delivery := s2.t.delivery)
  {
    var s2 := PurgeMember(s.(t := t1), c, u);
    forall x | x in s.t.devices
      ensures var q := Pending(s.queues, Key(x));
              Pending(s2.queues, Key(x)) == if x.user == u then Without(q, c) else q
    {
      if Key(x) in UserKeys(t1, u) {
        var y :| y in t1.devices && y.user == u && Key(y) == Key(x);
        KeysDiffer(s, x, y);
      }
      assert x.user == u ==> Key(x) in UserKeys(t1, u);
    }
  }

  lemma RemoveRowExactly(t: Tables, c: ConversationId, u: UserId)
    requires c in t.convs
    ensures var t2 := RemoveMemberRow(t, c, u);
            && t2 == t.(convs := t2.convs, members := t2.members)
            && t2.convs == Versioned(t, c, t.convs[c].version + if SitsIn(t, c, u) then 1 else 0)
            && t2.members.Keys == t.members.Keys
            && forall x :: x in t.members ==>
                 t2.members[x] == Membership(t.members[x].role, t.members[x].active && x != Seat(c, u))
  {}

  lemma UnsubscribeRowExactly(t: Tables, c: ConversationId, u: UserId)
    requires c in t.convs
    ensures var t2 := UnsubscribeRow(t, c, u);
            && t2 == t.(convs := t2.convs, subs := t2.subs)
            && t2.convs == Versioned(t, c, t.convs[c].version + if Follows(t, c, u) then 1 else 0)
            && t2.subs.Keys == t.subs.Keys
            && forall x :: x in t.subs ==> t2.subs[x] == (t.subs[x] && x != Seat(c, u))
  {}

  /** RemoveMember is granted exactly to a manager of a group. Then the user is out, nobody else is, and what
      waited for them from that group is gone. */
  lemma RemoveMemberAnswers(s: State, c: ConversationId, actor: UserId, u: UserId)
    requires WellFormed(s)
    ensures var (s2, r) := RemoveMember(s, c, actor, u);
            && (r.Ok? <==> c in s.t.convs && s.t.convs[c].kind == Group && Manages(s.t, c, actor))
            && (r.Err? ==>
                  && s2 == s
                  && r.code == if c !in s.t.convs then NotFound
                               else if s.t.convs[c].kind != Group then InvalidArgument else Forbidden)
            && (r.Ok? ==>
                  && Purged(s, s2, c, u)
                  && s2.t == s.t.(convs := s2.t.convs, members := s2.t.members, delivery := s2.t.delivery)
                  && s2.t.convs == Versioned(s.t, c, s.t.convs[c].version + if SitsIn(s.t, c, u) then 1 else 0)
                  && s2.t.members.Keys == s.t.members.Keys
                  && forall x :: x in s.t.members ==>
                       s2.t.members[x] == Membership(s.t.members[x].role, s.t.members[x].active && x != Seat(c, u)))
  {
    if c in s.t.convs { RemoveRowExactly(s.t, c, u); }
    PurgePurges(s, RemoveMemberRow(s.t, c, u), c, u);
  }

  /** UnsubscribeChannel is granted exactly to those who do not manage the channel; then likewise. */
  lemma UnsubscribeAnswers(s: State, c: ConversationId, u: UserId)
    requires WellFormed(s)
    ensures var (s2, r) := UnsubscribeChannel(s, c, u);
            && (r.Ok? <==> c in s.t.convs && s.t.convs[c].kind == Channel && !Manages(s.t, c, u))
            && (r.Err? ==>
                  && s2 == s
                  && r.code == if c !in s.t.convs then NotFound
                               else if s.t.convs[c].kind != Channel then InvalidArgument else Forbidden)
            && (r.Ok? ==>
                  && Purged(s, s2, c, u)
                  && s2.t == s.t.(convs := s2.t.convs, subs := s2.t.subs, delivery := s2.t.delivery)
                  && s2.t.convs == Versioned(s.t, c, s.t.convs[c].version + if Follows(s.t, c, u) then 1 else 0)
                  && s2.t.subs.Keys == s.t.subs.Keys
                  && forall x :: x in s.t.subs ==> s2.t.subs[x] == (s.t.subs[x] && x != Seat(c, u)))
  {
    if c in s.t.convs { UnsubscribeRowExactly(s.t, c, u); }
    PurgePurges(s, UnsubscribeRow(s.t, c, u), c, u);
  }
}
