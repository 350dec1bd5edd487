/** Device ids come from clients and may hold the separator of the scope key. A pair that was never registered
    can then share the queue of a registered device; SwitchToOffline called with it empties that queue and
    stores nothing. This run gets there. */
module RelayAlias {
  import opened Common
  import opened Delivery
  import opened RelayModel
  import opened RelayConfinement
  import opened RelayDelivery
  import opened RelayBounds
  import RelayCreation
  import RelayStamps

  const ANN := Dev("ann", "phone")
  const BOB := Dev("bob", "tab" + [SEPARATOR] + "let")
  const ALIAS := Dev("bob" + [SEPARATOR] + "tab", "let")
  const CFG := Config(1, 2, 2)
  const MESSAGE := SendRequest(ANN, "talk", "hi", "m1")

  const OPS: seq<Op> := [UserOp("ann")] + [UserOp("bob")] + [DeviceOp(ANN)] + [DeviceOp(BOB)]
                        + [DmOp("ann", "bob", "ann", "talk")] + [SendOp(MESSAGE, 0, "")]

  lemma RunMore(ops: seq<Op>, op: Op)
    ensures Run(CFG, ops + [op]) == Step(Run(CFG, ops), CFG, op)
  {
    assert (ops + [op])[..|ops|] == ops;
  }

  lemma TwoUsers()
    ensures Run(CFG, [UserOp("ann")] + [UserOp("bob")]) == INITIAL.(t := INITIAL.t.(users := {"ann", "bob"}))
  {
    assert [] + [UserOp("ann")] == [UserOp("ann")];
    RunMore([], UserOp("ann"));
    RunMore([UserOp("ann")], UserOp("bob"));
    assert {} + {"ann"} + {"bob"} == {"ann", "bob"};
  }

  lemma Registered()
    ensures var s := Run(CFG, [UserOp("ann")] + [UserOp("bob")] + [DeviceOp(ANN)] + [DeviceOp(BOB)]);
            && s.t.users == {"ann", "bob"} && s.t.devices == map[ANN := Device(false), BOB := Device(false)]
            && s.t.convs == map[] && s.t.envelopes == map[] && s.queues == map[]
  {
    TwoUsers();
    RunMore([UserOp("ann")] + [UserOp("bob")], DeviceOp(ANN));
    RunMore([UserOp("ann")] + [UserOp("bob")] + [DeviceOp(ANN)], DeviceOp(BOB));
    assert ANN.user != BOB.user;
  }

  lemma SameKey()
    ensures Key(ALIAS) == Key(BOB) && ALIAS != BOB && ALIAS != ANN
  {
    var k := "bob" + [SEPARATOR] + "tab" + [SEPARATOR] + "let";
    assert Key(ALIAS) == k && Key(BOB) == k;
    assert |ALIAS.user| == 7 && |BOB.user| == 3 && |ANN.user| == 3;
  }

  lemma AllLegal()
    ensures Legal(OPS)
  {
    assert NoSeparator("ann") && NoSeparator("bob");
  }

  /** The state in which the two talk and nothing waits yet. */
  ghost predicate Talking(s: State) {
    && s.t.devices == map[ANN := Device(false), BOB := Device(false)] && s.t.envelopes == map[] && s.queues == map[]
    && "talk" in s.t.convs && s.t.convs["talk"].kind == Dm
    && InConversation(s.t, "talk", "ann") && InConversation(s.t, "talk", "bob")
  }

  lemma TheyTalk()
    ensures Talking(Run(CFG, OPS[..5]))
  {
    var ops := [UserOp("ann")] + [UserOp("bob")] + [DeviceOp(ANN)] + [DeviceOp(BOB)];
    var s := Run(CFG, ops);
    Registered();
    RunSized(CFG, ops);
    RunMore(ops, DmOp("ann", "bob", "ann", "talk"));
    assert OPS[..5] == ops + [DmOp("ann", "bob", "ann", "talk")];
    DmTalks(s);
  }

  lemma DmTalks(s: State)
    requires Seated(s.t) && s.t.users == {"ann", "bob"} && s.t.convs == map[]
    ensures var s2 := CreateDm(s, "ann", "bob", "ann", "talk").0;
            && s2.t.devices == s.t.devices && s2.t.envelopes == s.t.envelopes && s2.queues == s.queues
            && "talk" in s2.t.convs && s2.t.convs["talk"].kind == Dm
            && InConversation(s2.t, "talk", "ann") && InConversation(s2.t, "talk", "bob")
  {
    var row := Conversation(Dm, "ann", "", 0);
    var t1 := CreateConversation(s.t, "talk", row).value;
    var s2 := CreateDm(s, "ann", "bob", "ann", "talk").0;
    RelayCreation.DmCreated(s, "ann", "bob", "ann", "talk");
    AddAllLetsIn(t1, "talk", ["ann", "bob"], "ann", Member);
    RelayStamps.AddAllAdvances(t1, "talk", ["ann", "bob"], "ann", Member);
    assert RelayStamps.StampHolds(t1, s2.t, "talk");
    assert RelayCreation.HasRole(s2.t, "talk", "ann", Owner) && RelayCreation.HasRole(s2.t, "talk", "bob", Member);
  }

  lemma BobHasMail(s: State)
    requires Confined(s) && Talking(s)
    ensures var s2 := Step(s, CFG, SendOp(MESSAGE, 0, "")); InQueue(s2, BOB, "m1") && s2.t.devices == s.t.devices
  {
    HoldersAreServed(s, CFG, MESSAGE, 0, "");
    assert BOB in Targets(s.t, "talk", ANN);
    assert BOB in Holders(Step(s, CFG, SendOp(MESSAGE, 0, "")), "m1");
  }

  lemma MailWaits()
    ensures Legal(OPS)
    ensures var s := Run(CFG, OPS); ALIAS !in s.t.devices && BOB in s.t.devices && InQueue(s, BOB, "m1")
  {
    AllLegal();
    TheyTalk();
    RunConfined(CFG, OPS[..5]);
    BobHasMail(Run(CFG, OPS[..5]));
    assert OPS == OPS[..5] + [SendOp(MESSAGE, 0, "")];
    RunMore(OPS[..5], SendOp(MESSAGE, 0, ""));
    SameKey();
  }

  /** Any pair that is not registered and shares the key of a registered device loses what waits for it. */
  lemma AliasOffline(s: State, max: nat, x: Dev, y: Dev, id: EnvelopeId, now: Timestamp)
    requires Confined(s) && Exclusive(s, max) && x in s.t.devices && y !in s.t.devices && Key(x) == Key(y)
    requires InQueue(s, x, id)
    ensures var s2 := SwitchToOffline(s, y, now);
            Pending(s2.queues, Key(x)) == [] && !AllPersisted(s, s2, y) && !InRow(s2, x, id)
  {
    OfflineKeepsAll(s, max, y, now);
    assert PlacedOnce(s, max, x);
  }

  /** After this legal run SwitchToOffline with the alias loses what waited for the device. */
  lemma AliasLoses(now: Timestamp)
    ensures Legal(OPS)
    ensures var s := Run(CFG, OPS);
            var s2 := SwitchToOffline(s, ALIAS, now);
            && ALIAS !in s.t.devices && InQueue(s, BOB, "m1")
            && Pending(s2.queues, Key(BOB)) == [] && !AllPersisted(s, s2, ALIAS) && !InRow(s2, BOB, "m1")
  {
    MailWaits();
    SameKey();
    RunExclusive(CFG, OPS);
    AliasOffline(Run(CFG, OPS), CFG.maxQueue, BOB, ALIAS, "m1", now);
  }
}
