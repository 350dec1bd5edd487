/** Nothing is lost on the way: an envelope that waits for a device keeps waiting until the device takes it
    from its queue, acknowledges it, or its user leaves the conversation. */
module RelayNoLoss {
  import opened Common
  import opened Delivery
  import opened RelayModel
  import opened RelayConfinement
  import opened RelayDelivery
  import EnvelopeListing
  import RelayStamps

  /** A delivery row that has not been acknowledged. */
  ghost predicate Unread(s: State, x: Dev, id: EnvelopeId) {
    InRow(s, x, id) && !s.t.delivery[RowOf(x, id)].acked
  }

  ghost predicate Waiting(s: State, x: Dev, id: EnvelopeId) { InQueue(s, x, id) || Unread(s, x, id) }

  /** The call hands the envelope to the device. */
  ghost predicate Takes(s: State, op: Op, x: Dev, id: EnvelopeId) {
    && op.DequeueOp? && op.dev == x
    && var q := Pending(s.queues, Key(x));
       exists e :: e in q[..Min(op.n, |q|)] && e.envelopeId == id
  }

  /** The device acknowledges the envelope's delivery row. */
  ghost predicate Acknowledges(s: State, op: Op, x: Dev, id: EnvelopeId) {
    op.AckOp? && op.dev == x && op.id == id && InRow(s, x, id)
  }

  /** The device's user is in the envelope's conversation before the call and not after it. */
  ghost predicate Departs(s: State, cfg: Config, op: Op, x: Dev, id: EnvelopeId) {
    && id in s.t.envelopes && InConversation(s.t, s.t.envelopes[id].conv, x.user)
    && !InConversation(Step(s, cfg, op).t, s.t.envelopes[id].conv, x.user)
  }

  /** Devices are named by their users' generated ids. */
  ghost predicate NamesDevices(op: Op) { op.OfflineOp? || op.DequeueOp? ==> NoSeparator(op.dev.user) }

  lemma SameDevice(s: State, x: Dev, y: Dev)
    requires Confined(s) && x in s.t.devices && NoSeparator(y.user) && Key(x) == Key(y)
    ensures x == y
  {
    ScopeKeyInjective(x.user, x.device, y.user, y.device);
  }

  // ---- One call -------------------------------------------------------------------------------

  lemma SendRows(s: State, cfg: Config, r: SendRequest, now: Timestamp, uuid: EnvelopeId, k: RowKey)
    requires Confined(s) && k in s.t.delivery
    ensures var t2 := Send(s, cfg, r, now, uuid).0.t; k in t2.delivery && t2.delivery[k] == s.t.delivery[k]
  {
    assert RowConfined(s.t, k);
  }

  lemma SendKeeps(s: State, cfg: Config, op: Op, x: Dev, id: EnvelopeId)
    requires Confined(s) && x in s.t.devices && op.SendOp? && Waiting(s, x, id)
    ensures Waiting(Step(s, cfg, op), x, id)
  {
    var r := op.request;
    if Unread(s, x, id) {
      SendRows(s, cfg, r, op.now, op.uuid, RowOf(x, id));
    } else if Send(s, cfg, r, op.now, op.uuid).1.Ok? {
      SendPlacesOnce(s, cfg, r, op.now, op.uuid, x);
      var e :| e in Pending(s.queues, Key(x)) && e.envelopeId == id;
      assert e in Pending(Step(s, cfg, op).queues, Key(x));
    }
  }

  lemma DequeueKeeps(s: State, cfg: Config, op: Op, x: Dev, id: EnvelopeId)
    requires Confined(s) && x in s.t.devices && op.DequeueOp? && NamesDevices(op) && Waiting(s, x, id)
    ensures Waiting(Step(s, cfg, op), x, id) || Takes(s, op, x, id)
  {
    if InQueue(s, x, id) {
      var q := Pending(s.queues, Key(x));
      var e :| e in q && e.envelopeId == id;
      if Key(op.dev) == Key(x) {
        SameDevice(s, x, op.dev);
        var m := Min(op.n, |q|);
        assert q == q[..m] + q[m..];
      } else {
        assert e in Pending(Step(s, cfg, op).queues, Key(x));
      }
    }
  }

  lemma OfflineKeeps(s: State, cfg: Config, op: Op, x: Dev, id: EnvelopeId)
    requires Confined(s) && Exclusive(s, cfg.maxQueue) && x in s.t.devices
    requires op.OfflineOp? && NamesDevices(op) && Waiting(s, x, id)
    ensures Waiting(Step(s, cfg, op), x, id)
  {
    var y := op.dev;
    var q := Pending(s.queues, Key(y));
    var row := RowOf(x, id);
    QueuedAreStored(s, y);
    PersistRows(s.t, q, y, op.now, row);
    if Unread(s, x, id) {
      PersistValues(s.t, q, y, op.now, row);
    } else {
      var e :| e in Pending(s.queues, Key(x)) && e.envelopeId == id;
      assert PlacedOnce(s, cfg.maxQueue, x);
      if Key(y) == Key(x) {
        SameDevice(s, x, y);
        PersistValues(s.t, q, y, op.now, row);
      } else {
        assert e in Pending(Step(s, cfg, op).queues, Key(x));
      }
    }
  }

  lemma PurgeKeeps(s: State, t2: Tables, c: ConversationId, u: UserId, x: Dev, id: EnvelopeId)
    requires Confined(s) && x in s.t.devices && Waiting(s, x, id)
    requires t2.devices == s.t.devices && t2.envelopes == s.t.envelopes && t2.delivery == s.t.delivery
    ensures || Waiting(PurgeMember(s.(t := t2), c, u), x, id)
            || (u == x.user && id in s.t.envelopes && s.t.envelopes[id].conv == c)
  {
    var s2 := PurgeMember(s.(t := t2), c, u);
    if InQueue(s, x, id) {
      var q := Pending(s.queues, Key(x));
      var e :| e in q && e.envelopeId == id;
      assert QueueConfined(s, x);
      if Key(x) in UserKeys(t2, u) {
        var y :| y in t2.devices && y.user == u && Key(y) == Key(x);
        KeysDiffer(s, x, y);
        WithoutMembers(q, c, e);
      }
      assert e.conversationId != c || u != x.user ==> e in Pending(s2.queues, Key(x));
    }
  }

  /** What waits for a user belongs to a conversation they are in. */
  lemma WaitingInside(s: State, x: Dev, id: EnvelopeId)
    requires Confined(s) && x in s.t.devices && Waiting(s, x, id)
    ensures id in s.t.envelopes && InConversation(s.t, s.t.envelopes[id].conv, x.user)
  {
    assert QueueConfined(s, x);
    assert InRow(s, x, id) ==> RowConfined(s.t, RowOf(x, id));
  }

  lemma RemoveKeeps(s: State, cfg: Config, op: Op, x: Dev, id: EnvelopeId)
    requires Confined(s) && x in s.t.devices && op.RemoveOp? && Waiting(s, x, id)
    ensures Waiting(Step(s, cfg, op), x, id) || Departs(s, cfg, op, x, id)
  {
    WaitingInside(s, x, id);
    PurgeKeeps(s, RemoveMemberRow(s.t, op.c, op.u), op.c, op.u, x, id);
  }

  lemma UnsubscribeKeeps(s: State, cfg: Config, op: Op, x: Dev, id: EnvelopeId)
    requires Confined(s) && x in s.t.devices && op.UnsubscribeOp? && Waiting(s, x, id)
    ensures Waiting(Step(s, cfg, op), x, id) || Departs(s, cfg, op, x, id)
  {
    WaitingInside(s, x, id);
    PurgeKeeps(s, UnsubscribeRow(s.t, op.c, op.u), op.c, op.u, x, id);
  }

  lemma AckKeeps(s: State, cfg: Config, op: Op, x: Dev, id: EnvelopeId)
    requires op.AckOp? && Waiting(s, x, id)
    ensures Waiting(Step(s, cfg, op), x, id) || Acknowledges(s, op, x, id)
  {
    if InQueue(s, x, id) {
      var e :| e in Pending(s.queues, Key(x)) && e.envelopeId == id;
      assert e in Pending(Step(s, cfg, op).queues, Key(x));
    }
  }

  /** Any other call touches no queue and no delivery row. */
  lemma OtherKeeps(s: State, cfg: Config, op: Op)
    requires (Quiet(op) && !op.AckOp?) || op.DeviceOp?
    ensures var s2 := Step(s, cfg, op); s2.queues == s.queues && s2.t.delivery == s.t.delivery
  {
    match op
    case DmOp(a, b, creator, c) => DmKeepsDelivery(s, a, b, creator, c);
    case GroupOp(creator, members, c) => GroupKeepsDelivery(s, cfg, creator, members, c);
    case ChannelOp(creator, admins, subs, c) => ChannelKeepsDelivery(s, cfg, creator, admins, subs, c);
    case _ =>
  }

  lemma StepNoLoss(s: State, cfg: Config, op: Op, x: Dev, id: EnvelopeId)
    requires Confined(s) && Exclusive(s, cfg.maxQueue) && x in s.t.devices && NamesDevices(op) && Waiting(s, x, id)
    ensures || Waiting(Step(s, cfg, op), x, id)
            || Takes(s, op, x, id) || Acknowledges(s, op, x, id) || Departs(s, cfg, op, x, id)
  {
    if op.SendOp? {
      SendKeeps(s, cfg, op, x, id);
    } else if op.DequeueOp? {
      DequeueKeeps(s, cfg, op, x, id);
    } else if op.OfflineOp? {
      OfflineKeeps(s, cfg, op, x, id);
    } else if op.AckOp? {
      AckKeeps(s, cfg, op, x, id);
    } else if op.RemoveOp? {
      RemoveKeeps(s, cfg, op, x, id);
    } else if op.UnsubscribeOp? {
      UnsubscribeKeeps(s, cfg, op, x, id);
    } else {
      OtherKeeps(s, cfg, op);
    }
  }

  /** A registered device stays registered. */
  lemma {:induction false} DevicesStay(cfg: Config, ops: seq<Op>, i: nat, x: Dev)
    requires i <= |ops| && x in Run(cfg, ops[..i]).t.devices
    ensures x in Run(cfg, ops).t.devices
    decreases |ops|
  {
    if i == |ops| {
      assert ops[..i] == ops;
    } else {
      var front, op := ops[..|ops| - 1], ops[|ops| - 1];
      assert front[..i] == ops[..i];
      DevicesStay(cfg, front, i, x);
      StepDevices(Run(cfg, front), cfg, op, x);
    }
  }

  lemma StepDevices(s: State, cfg: Config, op: Op, x: Dev)
    requires x in s.t.devices
    ensures x in Step(s, cfg, op).t.devices
  {
    if Quiet(op) {
      QuietKeeps(s, cfg, op);
    } else if op.OfflineOp? {
      RelayStamps.PersistSeats(s.t, Pending(s.queues, Key(op.dev)), op.dev, op.now);
    }
  }

  // ---- Every run ------------------------------------------------------------------------------

  /** Call number `j` of the run ends the envelope's wait. */
  ghost predicate Ends(cfg: Config, ops: seq<Op>, j: nat, x: Dev, id: EnvelopeId)
    requires j < |ops|
  {
    var s := Run(cfg, ops[..j]);
    Takes(s, ops[j], x, id) || Acknowledges(s, ops[j], x, id) || Departs(s, cfg, ops[j], x, id)
  }

  lemma LastCall(cfg: Config, ops: seq<Op>, x: Dev, id: EnvelopeId)
    requires Legal(ops) && ops != [] && NamesDevices(ops[|ops| - 1])
    requires var s := Run(cfg, ops[..|ops| - 1]); x in s.t.devices && Waiting(s, x, id)
    ensures Waiting(Run(cfg, ops), x, id) || Ends(cfg, ops, |ops| - 1, x, id)
  {
    var front := ops[..|ops| - 1];
    RunExclusive(cfg, front);
    StepNoLoss(Run(cfg, front), cfg, ops[|ops| - 1], x, id);
  }

  lemma EarlierCall(cfg: Config, ops: seq<Op>, j: nat, x: Dev, id: EnvelopeId)
    requires j < |ops| - 1 && Ends(cfg, ops[..|ops| - 1], j, x, id)
    ensures Ends(cfg, ops, j, x, id)
  {
    assert ops[..|ops| - 1][..j] == ops[..j];
  }

  ghost predicate EndedSince(cfg: Config, ops: seq<Op>, i: nat, x: Dev, id: EnvelopeId) {
    exists j :: i <= j < |ops| && Ends(cfg, ops, j, x, id)
  }

  /** Between any two moments of a run: an envelope that waited for a device still waits for it, in its queue
      or as an unacknowledged row, or in between the device took it, acknowledged it, or its user, who was in
      the conversation, left it. */
  lemma {:induction false} NoLoss(cfg: Config, ops: seq<Op>, i: nat, x: Dev, id: EnvelopeId)
    requires Legal(ops) && (forall j :: 0 <= j < |ops| ==> NamesDevices(ops[j])) && i <= |ops|
    requires x in Run(cfg, ops[..i]).t.devices && Waiting(Run(cfg, ops[..i]), x, id)
    ensures Waiting(Run(cfg, ops), x, id) || EndedSince(cfg, ops, i, x, id)
    decreases |ops|
  {
    if i == |ops| {
      assert ops[..i] == ops;
    } else {
      var front := ops[..|ops| - 1];
      assert front[..i] == ops[..i];
      NoLoss(cfg, front, i, x, id);
      DevicesStay(cfg, front, i, x);
      if Waiting(Run(cfg, front), x, id) {
        LastCall(cfg, ops, x, id);
      } else {
        var j :| i <= j < |front| && Ends(cfg, front, j, x, id);
        EarlierCall(cfg, ops, j, x, id);
      }
    }
  }

  /** An accepted message waits for every device it is sent to. */
  lemma SentWaits(s: State, cfg: Config, r: SendRequest, now: Timestamp, uuid: EnvelopeId, x: Dev)
    requires Confined(s) && x in Targets(s.t, r.conv, r.sender) && Send(s, cfg, r, now, uuid).1.Ok?
    ensures var (s2, res) := Send(s, cfg, r, now, uuid); x in s2.t.devices && Waiting(s2, x, res.value.envelopeId)
  {
    SendPlacesOnce(s, cfg, r, now, uuid, x);
    NewIdIsNowhere(s, Send(s, cfg, r, now, uuid).1.value.envelopeId);
  }

  /** So from the moment a message is accepted each recipient device has it waiting until it takes it,
      acknowledges it, or its user leaves the conversation. */
  lemma SentIsNotLost(cfg: Config, ops: seq<Op>, i: nat, x: Dev)
    requires Legal(ops) && (forall j :: 0 <= j < |ops| ==> NamesDevices(ops[j])) && i < |ops| && ops[i].SendOp?
    requires var s := Run(cfg, ops[..i]);
             && Send(s, cfg, ops[i].request, ops[i].now, ops[i].uuid).1.Ok?
             && x in Targets(s.t, ops[i].request.conv, ops[i].request.sender)
    ensures var id := Send(Run(cfg, ops[..i]), cfg, ops[i].request, ops[i].now, ops[i].uuid).1.value.envelopeId;
            Waiting(Run(cfg, ops), x, id) || EndedSince(cfg, ops, i + 1, x, id)
  {
    var s, op := Run(cfg, ops[..i]), ops[i];
    RunConfined(cfg, ops[..i]);
    SentWaits(s, cfg, op.request, op.now, op.uuid, x);
    assert ops[..i + 1][..i] == ops[..i];
    NoLoss(cfg, ops, i + 1, x, Send(s, cfg, op.request, op.now, op.uuid).1.value.envelopeId);
  }

  /** A row waits exactly as long as the device's pending listing shows it. */
  lemma UnreadIsListed(s: State, x: Dev, id: EnvelopeId)
    requires id in s.t.envelopes
    ensures Unread(s, x, id) <==> EnvelopeListing.KeyOf(s.t, id) in EnvelopeListing.PendingRows(s.t, x)
  {
    var k := EnvelopeListing.KeyOf(s.t, id);
    if Unread(s, x, id) {
      var r := RowOf(x, id);
      assert r in s.t.delivery && EnvelopeListing.KeyOf(s.t, r.envelope) == k;
    }
  }
}
