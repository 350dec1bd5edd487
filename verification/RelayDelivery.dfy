/** Exactly-one placement: an envelope waits for a device in its queue or in a delivery row, never both
    and never twice; what a send places where; what switching to offline keeps. */
module RelayDelivery {
  import opened Common
  import opened Delivery
  import opened RelayModel
  import opened RelayConfinement
  import Strings

  ghost predicate DistinctIds(q: seq<Queued>) {
    forall i, j :: 0 <= i < j < |q| ==> q[i].envelopeId != q[j].envelopeId
  }

  function RowOf(x: Dev, id: EnvelopeId): RowKey { RowKey(id, x.user, x.device) }

  ghost predicate PlacedOnce(s: State, max: nat, x: Dev) {
    var q := Pending(s.queues, Key(x));
    && |q| <= max
    && DistinctIds(q)
    && forall e :: e in q ==> RowOf(x, e.envelopeId) !in s.t.delivery
  }

  ghost predicate Exclusive(s: State, max: nat) {
    forall x :: x in s.t.devices ==> PlacedOnce(s, max, x)
  }

  // ---- Steps ----------------------------------------------------------------------------------

  lemma {:induction false} WithoutDistinct(q: seq<Queued>, c: ConversationId)
    requires DistinctIds(q)
    ensures DistinctIds(Without(q, c))
  {
    if q != [] {
      var front, last := q[..|q| - 1], q[|q| - 1];
      WithoutDistinct(front, c);
      forall e | e in Without(front, c) ensures e.envelopeId != last.envelopeId {
        WithoutMembers(front, c, e);
      }
    }
  }

  lemma PurgeExclusive(s: State, max: nat, t2: Tables, c: ConversationId, u: UserId)
    requires Exclusive(s, max) && t2.devices == s.t.devices && t2.delivery == s.t.delivery
    ensures Exclusive(PurgeMember(s.(t := t2), c, u), max)
  {
    var s2 := PurgeMember(s.(t := t2), c, u);
    forall x | x in s2.t.devices ensures PlacedOnce(s2, max, x) {
      assert PlacedOnce(s, max, x);
      var q := Pending(s.queues, Key(x));
      WithoutDistinct(q, c);
      WithoutSplits(q, c);
      forall e | e in Pending(s2.queues, Key(x)) ensures RowOf(x, e.envelopeId) !in s2.t.delivery {
        WithoutMembers(q, c, e);
      }
    }
  }

  lemma DequeueExclusive(s: State, max: nat, y: Dev, n: nat)
    requires Exclusive(s, max)
    ensures Exclusive(s.(queues := Dequeue(s.queues, Key(y), n)), max)
  {}

  /** The rows after persisting a queue: the old ones and one for each entry. */
  lemma {:induction false} PersistRows(t: Tables, q: seq<Queued>, x: Dev, now: Timestamp, k: RowKey)
    requires forall e :: e in q ==> e.envelopeId in t.envelopes
    ensures var t2 := Persist(t, q, x, now); t2 == t.(delivery := t2.delivery)
    ensures k in Persist(t, q, x, now).delivery
       <==> || k in t.delivery
            || (x in t.devices && exists e :: e in q && k == RowOf(x, e.envelopeId))
  {
    if q != [] {
      var front, last := q[..|q| - 1], q[|q| - 1];
      assert q == front + [last];
      PersistRows(t, front, x, now, k);
      assert Dev(RowOf(x, last.envelopeId).user, RowOf(x, last.envelopeId).device) == x;
    }
  }

  /** Persisting a queue leaves rows that were there alone and adds unacknowledged ones. */
  lemma {:induction false} PersistValues(t: Tables, q: seq<Queued>, x: Dev, now: Timestamp, k: RowKey)
    ensures var t2 := Persist(t, q, x, now);
            && (k in t.delivery ==> k in t2.delivery && t2.delivery[k] == t.delivery[k])
            && (k in t2.delivery && k !in t.delivery ==> t2.delivery[k] == DeliveryRow(now, false))
  {
    if q != [] { PersistValues(t, q[..|q| - 1], x, now, k); }
  }

  lemma OfflineExclusive(s: State, max: nat, y: Dev, now: Timestamp)
    requires Confined(s) && Exclusive(s, max)
    ensures Exclusive(SwitchToOffline(s, y, now), max)
  {
    var s2 := SwitchToOffline(s, y, now);
    var q := Pending(s.queues, Key(y));
    QueuedAreStored(s, y);
    PersistRows(s.t, q, y, now, RowOf(y, ""));
    forall x | x in s2.t.devices ensures PlacedOnce(s2, max, x) {
      assert PlacedOnce(s, max, x);
      forall e | e in Pending(s2.queues, Key(x)) ensures RowOf(x, e.envelopeId) !in s2.t.delivery {
        PersistRows(s.t, q, y, now, RowOf(x, e.envelopeId));
      }
    }
  }

  lemma QueuedAreStored(s: State, y: Dev)
    requires Confined(s)
    ensures forall e :: e in Pending(s.queues, Key(y)) ==> e.envelopeId in s.t.envelopes
  {}

  lemma FanOutExclusive(s: State, max: nat, e: Queued, xs: set<Dev>)
    requires WellFormed(s) && Exclusive(s, max) && xs <= s.t.devices.Keys
    requires forall x, f :: x in s.t.devices && f in Pending(s.queues, Key(x)) ==> f.envelopeId != e.envelopeId
    requires forall k :: k in s.t.delivery ==> k.envelope != e.envelopeId
    ensures Exclusive(FanOut(s, max, e, xs), max)
  {
    var s2 := FanOut(s, max, e, xs);
    forall x | x in s2.t.devices ensures PlacedOnce(s2, max, x) {
      assert PlacedOnce(s, max, x);
      FanOutQueue(s, max, e, xs, x);
      forall f | f in Pending(s2.queues, Key(x)) ensures RowOf(x, f.envelopeId) !in s2.t.delivery {
        FanOutRow(s, max, e, xs, RowOf(x, f.envelopeId));
      }
    }
  }

  /** An id that names no envelope waits nowhere. */
  lemma NewIdIsNowhere(s: State, id: EnvelopeId)
    requires Confined(s) && id !in s.t.envelopes
    ensures forall x, f :: x in s.t.devices && f in Pending(s.queues, Key(x)) ==> f.envelopeId != id
    ensures forall k :: k in s.t.delivery ==> k.envelope != id
  {}

  lemma SendExclusive(s: State, cfg: Config, r: SendRequest, now: Timestamp, uuid: EnvelopeId)
    requires Confined(s) && Exclusive(s, cfg.maxQueue)
    ensures Exclusive(Send(s, cfg, r, now, uuid).0, cfg.maxQueue)
  {
    var id := if r.envelopeId == "" then uuid else r.envelopeId;
    if Refusal(s.t, r).None? && id !in s.t.envelopes {
      NewIdIsNowhere(s, id);
      var s1 := s.(t := s.t.(envelopes := s.t.envelopes[id := Envelope(r.conv, r.sender, r.ciphertext, now)]));
      assert Exclusive(s1, cfg.maxQueue) by {
        forall x | x in s1.t.devices ensures PlacedOnce(s1, cfg.maxQueue, x) { assert PlacedOnce(s, cfg.maxQueue, x); }
      }
      FanOutExclusive(s1, cfg.maxQueue, Queued(id, r.conv, r.sender.user, r.sender.device, r.ciphertext, now),
                      Targets(s.t, r.conv, r.sender));
    }
  }

  lemma DeviceExclusive(s: State, max: nat, x: Dev)
    requires Confined(s) && Exclusive(s, max)
    ensures Exclusive(RegisterDevice(s, x), max)
  {}

  /** Devices, delivery rows and queues are as they were. */
  ghost predicate SameDelivery(s: State, s2: State) {
    s2.queues == s.queues && s2.t.devices == s.t.devices && s2.t.delivery == s.t.delivery
  }

  lemma DmKeepsDelivery(s: State, a: UserId, b: UserId, creator: UserId, c: ConversationId)
    ensures SameDelivery(s, CreateDm(s, a, b, creator, c).0)
  {
    var r := CreateConversation(s.t, c, Conversation(Dm, creator, "", 0));
    if r.Ok? {
      AddAllLetsIn(r.value, c, if a == b then [a] else [creator, if creator == a then b else a], creator, Member);
    }
  }

  lemma GroupKeepsDelivery(s: State, cfg: Config, creator: UserId, members: seq<UserId>, c: ConversationId)
    ensures SameDelivery(s, CreateGroup(s, cfg, creator, members, c).0)
  {
    var r := CreateConversation(s.t, c, Conversation(Group, creator, "", 0));
    if r.Ok? { AddAllLetsIn(r.value, c, Strings.SortUnique(members), creator, Member); }
  }

  lemma ChannelKeepsDelivery(s: State, cfg: Config, creator: UserId, admins: seq<UserId>, subs: seq<UserId>,
                             c: ConversationId)
    ensures SameDelivery(s, CreateChannel(s, cfg, creator, admins, subs, c).0)
  {
    var r := CreateConversation(s.t, c, Conversation(Channel, creator, ADMINS_ONLY, 0));
    if r.Ok? {
      AddAdminsLetsIn(r.value, c, admins, creator);
      SubscribeAllLetsIn(AddAdmins(r.value, c, admins, creator).0, c, subs, Elements(admins));
    }
  }

  /** The calls that touch neither a queue nor the keys of a device or a delivery row. */
  predicate Quiet(op: Op) {
    !op.SendOp? && !op.DequeueOp? && !op.OfflineOp? && !op.RemoveOp? && !op.UnsubscribeOp? && !op.DeviceOp?
  }

  lemma QuietKeeps(s: State, cfg: Config, op: Op)
    requires Quiet(op)
    ensures var s2 := Step(s, cfg, op);
            s2.queues == s.queues && s2.t.devices.Keys == s.t.devices.Keys && s2.t.delivery.Keys == s.t.delivery.Keys
  {
    match op
    case DmOp(a, b, creator, c) => DmKeepsDelivery(s, a, b, creator, c);
    case GroupOp(creator, members, c) => GroupKeepsDelivery(s, cfg, creator, members, c);
    case ChannelOp(creator, admins, subs, c) => ChannelKeepsDelivery(s, cfg, creator, admins, subs, c);
    case _ =>
  }

  lemma QuietExclusive(s: State, s2: State, max: nat)
    requires Exclusive(s, max) && s2.queues == s.queues
    requires s2.t.devices.Keys == s.t.devices.Keys && s2.t.delivery.Keys == s.t.delivery.Keys
    ensures Exclusive(s2, max)
  {}

  lemma LeaveExclusive(s: State, cfg: Config, op: Op)
    requires Exclusive(s, cfg.maxQueue) && (op.RemoveOp? || op.UnsubscribeOp?)
    ensures Exclusive(Step(s, cfg, op), cfg.maxQueue)
  {
    var t2 := if op.RemoveOp? then RemoveMemberRow(s.t, op.c, op.u) else UnsubscribeRow(s.t, op.c, op.u);
    PurgeExclusive(s, cfg.maxQueue, t2, op.c, op.u);
  }

  lemma StepExclusive(s: State, cfg: Config, op: Op)
    requires Confined(s) && Exclusive(s, cfg.maxQueue)
    ensures Exclusive(Step(s, cfg, op), cfg.maxQueue)
  {
    if Quiet(op) {
      QuietKeeps(s, cfg, op);
      QuietExclusive(s, Step(s, cfg, op), cfg.maxQueue);
    } else if op.RemoveOp? || op.UnsubscribeOp? {
      LeaveExclusive(s, cfg, op);
    } else {
      match op
      case SendOp(r, now, uuid) => SendExclusive(s, cfg, r, now, uuid);
      case DequeueOp(x, n) => DequeueExclusive(s, cfg.maxQueue, x, n);
      case OfflineOp(x, now) => OfflineExclusive(s, cfg.maxQueue, x, now);
      case DeviceOp(x) => DeviceExclusive(s, cfg.maxQueue, x);
    }
  }

  lemma {:induction false} RunExclusive(cfg: Config, ops: seq<Op>)
    requires Legal(ops)
    ensures Confined(Run(cfg, ops)) && Exclusive(Run(cfg, ops), cfg.maxQueue)
  {
    RunConfined(cfg, ops);
    if ops != [] {
      RunExclusive(cfg, ops[..|ops| - 1]);
      StepExclusive(Run(cfg, ops[..|ops| - 1]), cfg, ops[|ops| - 1]);
    }
  }

  // ---- What a send does -----------------------------------------------------------------------

  ghost predicate InQueue(s: State, x: Dev, id: EnvelopeId) {
    exists e :: e in Pending(s.queues, Key(x)) && e.envelopeId == id
  }

  ghost predicate InRow(s: State, x: Dev, id: EnvelopeId) { RowOf(x, id) in s.t.delivery }

  /** After a successful send, exactly the unrevoked devices of the recipients, without the sending
      device, hold the envelope, each in exactly one place; other entries stay as they were. */
  lemma SendPlacesOnce(s: State, cfg: Config, r: SendRequest, now: Timestamp, uuid: EnvelopeId, x: Dev)
    requires Confined(s) && x in s.t.devices
    requires Send(s, cfg, r, now, uuid).1.Ok?
    ensures var (s2, res) := Send(s, cfg, r, now, uuid);
            var id := res.value.envelopeId;
            var q := Pending(s.queues, Key(x));
            && (InQueue(s2, x, id) || InRow(s2, x, id)
                <==> !s.t.devices[x].revoked && InConversation(s.t, r.conv, x.user) && x != r.sender)
            && !(InQueue(s2, x, id) && InRow(s2, x, id))
            && (InQueue(s2, x, id) ==>
                  && |q| < cfg.maxQueue
                  && Pending(s2.queues, Key(x))
                     == q + [Queued(id, r.conv, r.sender.user, r.sender.device, r.ciphertext, now)])
            && (!InQueue(s2, x, id) ==> Pending(s2.queues, Key(x)) == q)
            && forall id2 :: id2 != id ==> (InRow(s2, x, id2) <==> InRow(s, x, id2))
  {
    var (s2, res) := Send(s, cfg, r, now, uuid);
    var id := res.value.envelopeId;
    NewIdIsNowhere(s, id);
    var s1 := s.(t := s.t.(envelopes := s.t.envelopes[id := Envelope(r.conv, r.sender, r.ciphertext, now)]));
    var e := Queued(id, r.conv, r.sender.user, r.sender.device, r.ciphertext, now);
    var xs := Targets(s.t, r.conv, r.sender);
    FanOutQueue(s1, cfg.maxQueue, e, xs, x);
    if x in xs && |Pending(s.queues, Key(x))| < cfg.maxQueue {
      assert e in Pending(s2.queues, Key(x));
    }
    forall id2 ensures InRow(s2, x, id2) <==> InRow(s, x, id2) || (id2 == id && x in Full(s.queues, cfg.maxQueue, xs)) {
      FanOutRow(s1, cfg.maxQueue, e, xs, RowOf(x, id2));
    }
  }

  ghost function Holders(s: State, id: EnvelopeId): set<Dev> { set x | x in s.t.devices && InQueue(s, x, id) }

  lemma HoldersAreServed(s: State, cfg: Config, r: SendRequest, now: Timestamp, uuid: EnvelopeId)
    requires Confined(s) && Send(s, cfg, r, now, uuid).1.Ok?
    ensures var xs := Targets(s.t, r.conv, r.sender);
            Holders(Send(s, cfg, r, now, uuid).0, Send(s, cfg, r, now, uuid).1.value.envelopeId)
            == xs - Full(s.queues, cfg.maxQueue, xs)
  {
    var (s2, res) := Send(s, cfg, r, now, uuid);
    var id := res.value.envelopeId;
    NewIdIsNowhere(s, id);
    var s1 := s.(t := s.t.(envelopes := s.t.envelopes[id := Envelope(r.conv, r.sender, r.ciphertext, now)]));
    var e := Queued(id, r.conv, r.sender.user, r.sender.device, r.ciphertext, now);
    var xs := Targets(s.t, r.conv, r.sender);
    forall x | x in s.t.devices ensures InQueue(s2, x, id) <==> x in xs - Full(s.queues, cfg.maxQueue, xs) {
      FanOutQueue(s1, cfg.maxQueue, e, xs, x);
      if x in xs - Full(s.queues, cfg.maxQueue, xs) {
        assert e in Pending(s2.queues, Key(x));
      }
    }
  }

  /** delivered_to_count is the number of queues the envelope went into, and a refused send does nothing. */
  lemma SendCountsQueues(s: State, cfg: Config, r: SendRequest, now: Timestamp, uuid: EnvelopeId)
    requires Confined(s)
    ensures var (s2, res) := Send(s, cfg, r, now, uuid);
            if res.Err? then s2 == s else res.value.deliveredTo == |Holders(s2, res.value.envelopeId)|
  {
    if Send(s, cfg, r, now, uuid).1.Ok? {
      HoldersAreServed(s, cfg, r, now, uuid);
    }
  }

  // ---- What switching to offline keeps --------------------------------------------------------

  /** Every queued envelope of the device becomes a delivery row. */
  ghost predicate AllPersisted(s: State, s2: State, x: Dev) {
    forall e :: e in Pending(s.queues, Key(x)) ==> InRow(s2, x, e.envelopeId)
  }

  /** SwitchToOffline empties the queue; nothing is lost exactly when the queue was empty or the pair it
      was called with names a registered device (the rows have a foreign key, the queues do not). */
  lemma OfflineKeepsAll(s: State, max: nat, x: Dev, now: Timestamp)
    requires Confined(s) && Exclusive(s, max)
    ensures var s2 := SwitchToOffline(s, x, now);
            && Pending(s2.queues, Key(x)) == []
            && (AllPersisted(s, s2, x) <==> Pending(s.queues, Key(x)) == [] || x in s.t.devices)
            && forall y, id :: y != x ==> (InRow(s2, y, id) <==> InRow(s, y, id))
  {
    var s2 := SwitchToOffline(s, x, now);
    var q := Pending(s.queues, Key(x));
    QueuedAreStored(s, x);
    forall y, id ensures InRow(s2, y, id)
                    <==> || InRow(s, y, id)
                         || (x in s.t.devices && exists e :: e in q && RowOf(y, id) == RowOf(x, e.envelopeId))
    {
      PersistRows(s.t, q, x, now, RowOf(y, id));
    }
    if x !in s.t.devices && q != [] {
      assert q[0] in q;
      assert RowConfined(s.t, RowOf(x, q[0].envelopeId)) <== InRow(s, x, q[0].envelopeId);
      assert !InRow(s2, x, q[0].envelopeId);
    }
  }

  /** The rest of the state: the other queues stay, and so do the rows there were; each row that is new is for an
      envelope that was queued, unacknowledged and stamped with the time of the call. */
  lemma OfflineExactly(s: State, x: Dev, now: Timestamp, key: string, k: RowKey)
    requires Confined(s)
    ensures var s2 := SwitchToOffline(s, x, now);
            && s2.t == s.t.(delivery := s2.t.delivery)
            && (key != Key(x) ==> Pending(s2.queues, key) == Pending(s.queues, key))
            && (k in s.t.delivery ==> k in s2.t.delivery && s2.t.delivery[k] == s.t.delivery[k])
            && (k in s2.t.delivery && k !in s.t.delivery ==>
                  && s2.t.delivery[k] == DeliveryRow(now, false)
                  && exists e :: e in Pending(s.queues, Key(x)) && k == RowOf(x, e.envelopeId))
  {
    QueuedAreStored(s, x);
    PersistRows(s.t, Pending(s.queues, Key(x)), x, now, k);
    PersistValues(s.t, Pending(s.queues, Key(x)), x, now, k);
  }
}
