/** ConversationService: creation loops that may fail half way, joins, departures and the purge after them. */
module ConversationService {
  import opened Common
  import opened RelayModel
  import opened RelayStore
  import opened RelayServices
  import D = Delivery
  import Strings

  // ---- The purge ------------------------------------------------------------------------------

  /** The queues after the first devices have been purged. */
  lemma PurgeMore(qs: D.Queues, c: ConversationId, keys: set<string>, k: string)
    ensures D.Purge(PurgeQueues(qs, c, keys), k, c) == PurgeQueues(qs, c, keys + {k})
  {
    if k in qs && k in keys { WithoutTwice(qs[k], c); }
  }

  lemma {:induction false} WithoutTwice(q: seq<D.Queued>, c: ConversationId)
    ensures D.Without(D.Without(q, c), c) == D.Without(q, c)
  {
    if q != [] {
      var rest, last := D.Without(q[..|q| - 1], c), q[|q| - 1];
      WithoutTwice(q[..|q| - 1], c);
      if last.conversationId != c {
        assert (rest + [last])[..|rest|] == rest;
      }
    }
  }

  function KeysOf(xs: seq<Dev>): set<string> { set x | x in xs :: Key(x) }

  lemma KeysMore(xs: seq<Dev>, i: nat)
    requires i < |xs|
    ensures KeysOf(xs[..i + 1]) == KeysOf(xs[..i]) + {Key(xs[i])}
  {}

  lemma PurgeNone(qs: D.Queues, c: ConversationId)
    ensures PurgeQueues(qs, c, {}) == qs
  {}

  lemma KeysOfUser(t: Tables, u: UserId, xs: seq<Dev>)
    requires forall x :: x in xs <==> x in t.devices && x.user == u
    ensures KeysOf(xs) == UserKeys(t, u)
  {}

  // ---- Checking a channel's users -------------------------------------------------------------

  lemma ElementsMore(ids: seq<UserId>, i: nat)
    requires i < |ids|
    ensures Elements(ids[..i + 1]) == Elements(ids[..i]) + {ids[i]}
  {}

  lemma UnionMore(a: set<UserId>, ids: seq<UserId>, i: nat)
    requires i < |ids|
    ensures a + Elements(ids[..i + 1]) == (a + Elements(ids[..i])) + {ids[i]}
  {}

  lemma DistinctMore(ids: seq<UserId>, i: nat)
    requires i < |ids| && Distinct(ids[..i])
    ensures if ids[i] in Elements(ids[..i]) then !Distinct(ids) else Distinct(ids[..i + 1])
  {}

  /** The administrators seen; None when one is listed twice. */
  method SeeAdmins(admins: seq<UserId>) returns (seen: Option<set<UserId>>)
    ensures seen == if Distinct(admins) then Some(Elements(admins)) else None
  {
    var s: set<UserId> := {};
    for i := 0 to |admins|
      invariant s == Elements(admins[..i]) && Distinct(admins[..i])
    {
      ElementsMore(admins, i);
      DistinctMore(admins, i);
      if admins[i] in s {
        return None;
      }
      s := s + {admins[i]};
    }
    assert admins[..|admins|] == admins;
    seen := Some(s);
  }

  /** Counts the distinct users of a channel; None when an administrator is listed twice. */
  method CountUsers(admins: seq<UserId>, subscribers: seq<UserId>) returns (total: Option<nat>)
    ensures total == if Distinct(admins) then Some(|Elements(admins) + Elements(subscribers)|) else None
  {
    var admitted := SeeAdmins(admins);
    if admitted.None? {
      return None;
    }
    var seen, n := admitted.value, |admitted.value|;
    assert Elements(admins) + Elements(subscribers[..0]) == Elements(admins);
    for i := 0 to |subscribers|
      invariant seen == Elements(admins) + Elements(subscribers[..i]) && n == |seen|
    {
      UnionMore(Elements(admins), subscribers, i);
      if subscribers[i] in seen {
        assert seen + {subscribers[i]} == seen;
        continue;
      }
      seen := seen + {subscribers[i]};
      n := n + 1;
    }
    assert subscribers[..|subscribers|] == subscribers;
    total := Some(n);
  }

  class Service {
    const store: Store
    const delivery: DeliveryManager
    const cfg: Config

    ghost predicate Wired() { delivery.store == store }

    ghost function View(): State
      reads store, delivery
    {
      State(store.View(), delivery.queues)
    }

    constructor (store: Store, delivery: DeliveryManager, cfg: Config)
      requires delivery.store == store
      ensures Wired() && this.store == store && this.delivery == delivery && this.cfg == cfg
    {
      this.store, this.delivery, this.cfg := store, delivery, cfg;
    }

    method PurgeMemberDelivery(c: ConversationId, u: UserId)
      requires Wired()
      modifies store`delivery, delivery
      ensures View() == PurgeMember(old(View()), c, u)
    {
      store.DeletePendingDelivery(c, u);
      var xs := store.GetDevicesForUser(u);
      ghost var qs := delivery.queues;
      PurgeNone(qs, c);
      for i := 0 to |xs|
        invariant store.View() == DropDelivery(old(View()).t, c, u)
        invariant delivery.queues == PurgeQueues(qs, c, KeysOf(xs[..i]))
      {
        PurgeMore(qs, c, KeysOf(xs[..i]), Key(xs[i]));
        KeysMore(xs, i);
        delivery.PurgeConversation(c, xs[i]);
      }
      assert xs[..|xs|] == xs;
      KeysOfUser(store.View(), u, xs);
    }

    /** Adds members in order and stops at the first the store refuses. */
    method AddMembers(c: ConversationId, ids: seq<UserId>, owner: UserId) returns (ok: bool)
      modifies store
      ensures (store.View(), ok) == AddAll(old(store.View()), c, ids, owner, Member)
    {
      ghost var t := store.View();
      for i := 0 to |ids|
        invariant (store.View(), true) == AddAll(t, c, ids[..i], owner, Member)
      {
        assert ids[..i + 1][..i] == ids[..i];
        var role := if ids[i] == owner then Owner else Member;
        var r := store.AddMember(c, ids[i], role);
        if r.Err? {
          Stuck(t, c, ids, i, owner, Member);
          return false;
        }
      }
      assert ids[..|ids|] == ids;
      ok := true;
    }

    method AddAdministrators(c: ConversationId, ids: seq<UserId>, owner: UserId) returns (ok: bool)
      modifies store
      ensures (store.View(), ok) == AddAdmins(old(store.View()), c, ids, owner)
    {
      ghost var t := store.View();
      for i := 0 to |ids|
        invariant (store.View(), true) == AddAdmins(t, c, ids[..i], owner)
      {
        assert ids[..i + 1][..i] == ids[..i];
        var role := if ids[i] == owner then Owner else Admin;
        var r := store.AddMember(c, ids[i], role);
        if r.Err? {
          StuckAdmin(t, c, ids, i, owner);
          return false;
        }
        var r2 := store.Subscribe(c, ids[i]);
        if r2.Err? {
          StuckAdmin(t, c, ids, i, owner);
          return false;
        }
      }
      assert ids[..|ids|] == ids;
      ok := true;
    }

    method SubscribeOthers(c: ConversationId, ids: seq<UserId>, admins: seq<UserId>) returns (ok: bool)
      modifies store
      ensures (store.View(), ok) == SubscribeAll(old(store.View()), c, ids, Elements(admins))
    {
      ghost var t := store.View();
      for i := 0 to |ids|
        invariant (store.View(), true) == SubscribeAll(t, c, ids[..i], Elements(admins))
      {
        assert ids[..i + 1][..i] == ids[..i];
        if ids[i] in admins {
          continue;
        }
        var r := store.Subscribe(c, ids[i]);
        if r.Err? {
          StuckSubscriber(t, c, ids, i, Elements(admins));
          return false;
        }
      }
      assert ids[..|ids|] == ids;
      ok := true;
    }

    method CreateDm(a: UserId, b: UserId, creator: UserId, c: ConversationId) returns (r: Result<ConversationId>)
      modifies store
      ensures (View(), r) == RelayModel.CreateDm(old(View()), a, b, creator, c)
    {
      if creator != a && creator != b {
        return Err(Forbidden);
      }
      var made := store.CreateConversation(c, Conversation(Dm, creator, "", 0));
      if made.Err? {
        return Err(made.code);
      }
      var other := if creator == a then b else a;
      var ok := AddMembers(c, if a == b then [a] else [creator, other], creator);
      r := if ok then Ok(c) else Err(Internal);
    }

    method CreateGroup(creator: UserId, members: seq<UserId>, c: ConversationId) returns (r: Result<ConversationId>)
      modifies store
      ensures (View(), r) == RelayModel.CreateGroup(old(View()), cfg, creator, members, c)
    {
      var ids := Strings.SortUnique(members);
      if |ids| < 2 {
        return Err(InvalidArgument);
      }
      if creator !in ids {
        return Err(InvalidArgument);
      }
      if |ids| > cfg.maxGroup {
        return Err(QuotaExceeded);
      }
      var made := store.CreateConversation(c, Conversation(Group, creator, "", 0));
      if made.Err? {
        return Err(made.code);
      }
      var ok := AddMembers(c, ids, creator);
      r := if ok then Ok(c) else Err(Internal);
    }

    method CreateChannel(creator: UserId, admins: seq<UserId>, subscribers: seq<UserId>, c: ConversationId)
      returns (r: Result<ConversationId>)
      modifies store
      ensures (View(), r) == RelayModel.CreateChannel(old(View()), cfg, creator, admins, subscribers, c)
    {
      if admins == [] || creator !in admins {
        return Err(InvalidArgument);
      }
      var total := CountUsers(admins, subscribers);
      if total.None? {
        return Err(InvalidArgument);
      }
      if total.value > cfg.maxChannel {
        return Err(QuotaExceeded);
      }
      var made := store.CreateConversation(c, Conversation(Channel, creator, ADMINS_ONLY, 0));
      if made.Err? {
        return Err(made.code);
      }
      var ok := AddAdministrators(c, admins, creator);
      if ok {
        ok := SubscribeOthers(c, subscribers, admins);
      }
      r := if ok then Ok(c) else Err(Internal);
    }

    method ActorCanManage(c: ConversationId, actor: UserId) returns (r: bool)
      ensures r == CanManage(store.View(), c, actor)
    {
      var role := store.GetMember(c, actor);
      if role.None? {
        return false;
      }
      r := role.value.Owner? || role.value.Admin?;
    }

    method AddMember(c: ConversationId, actor: UserId, u: UserId, role: Role) returns (r: Result<Unit>)
      modifies store
      ensures (View(), r) == RelayModel.AddMember(old(View()), cfg, c, actor, u, role)
    {
      if c !in store.convs {
        return Err(NotFound);
      }
      if !store.convs[c].kind.Group? {
        return Err(InvalidArgument);
      }
      var may := ActorCanManage(c, actor);
      if !may {
        return Err(Forbidden);
      }
      var members := store.GetMembers(c);
      if |members| >= cfg.maxGroup {
        return Err(QuotaExceeded);
      }
      r := store.AddMember(c, u, role);
    }

    method RemoveMember(c: ConversationId, actor: UserId, u: UserId) returns (r: Result<Unit>)
      requires Wired()
      modifies store, delivery
      ensures (View(), r) == RelayModel.RemoveMember(old(View()), c, actor, u)
    {
      if c !in store.convs {
        return Err(NotFound);
      }
      if !store.convs[c].kind.Group? {
        return Err(InvalidArgument);
      }
      var may := ActorCanManage(c, actor);
      if !may {
        return Err(Forbidden);
      }
      store.RemoveMember(c, u);
      PurgeMemberDelivery(c, u);
      r := Ok(Unit);
    }

    method SubscribeChannel(c: ConversationId, u: UserId) returns (r: Result<Unit>)
      modifies store
      ensures (View(), r) == RelayModel.SubscribeChannel(old(View()), cfg, c, u)
    {
      if c !in store.convs {
        return Err(NotFound);
      }
      if !store.convs[c].kind.Channel? {
        return Err(InvalidArgument);
      }
      var subscribers := store.GetSubscribers(c);
      InSubscribers(store.View(), c);
      for i := 0 to |subscribers|
        invariant store.View() == old(store.View()) && u !in subscribers[..i]
      {
        if subscribers[i] == u {
          assert u in subscribers;
          r := store.Subscribe(c, u);
          return;
        }
      }
      assert subscribers[..|subscribers|] == subscribers;
      if |subscribers| >= cfg.maxChannel {
        return Err(QuotaExceeded);
      }
      r := store.Subscribe(c, u);
    }

    method UnsubscribeChannel(c: ConversationId, u: UserId) returns (r: Result<Unit>)
      requires Wired()
      modifies store, delivery
      ensures (View(), r) == RelayModel.UnsubscribeChannel(old(View()), c, u)
    {
      if c !in store.convs {
        return Err(NotFound);
      }
      if !store.convs[c].kind.Channel? {
        return Err(InvalidArgument);
      }
      var manages := ActorCanManage(c, u);
      if manages {
        return Err(Forbidden);
      }
      store.Unsubscribe(c, u);
      PurgeMemberDelivery(c, u);
      r := Ok(Unit);
    }
  }

  // ---- Once refused, the rest is not tried ----------------------------------------------------

  lemma {:induction false} Stuck(t: Tables, c: ConversationId, ids: seq<UserId>, i: nat, owner: UserId, other: Role)
    requires i < |ids| && !AddAll(t, c, ids[..i + 1], owner, other).1
    ensures AddAll(t, c, ids, owner, other) == AddAll(t, c, ids[..i + 1], owner, other)
    decreases |ids|
  {
    if i + 1 == |ids| {
      assert ids[..i + 1] == ids;
    } else {
      var front := ids[..|ids| - 1];
      assert front[..i + 1] == ids[..i + 1];
      Stuck(t, c, front, i, owner, other);
    }
  }

  lemma {:induction false} StuckAdmin(t: Tables, c: ConversationId, ids: seq<UserId>, i: nat, owner: UserId)
    requires i < |ids| && !AddAdmins(t, c, ids[..i + 1], owner).1
    ensures AddAdmins(t, c, ids, owner) == AddAdmins(t, c, ids[..i + 1], owner)
    decreases |ids|
  {
    if i + 1 == |ids| {
      assert ids[..i + 1] == ids;
    } else {
      var front := ids[..|ids| - 1];
      assert front[..i + 1] == ids[..i + 1];
      StuckAdmin(t, c, front, i, owner);
    }
  }

  lemma {:induction false} StuckSubscriber(t: Tables, c: ConversationId, ids: seq<UserId>, i: nat, skip: set<UserId>)
    requires i < |ids| && !SubscribeAll(t, c, ids[..i + 1], skip).1
    ensures SubscribeAll(t, c, ids, skip) == SubscribeAll(t, c, ids[..i + 1], skip)
    decreases |ids|
  {
    if i + 1 == |ids| {
      assert ids[..i + 1] == ids;
    } else {
      var front := ids[..|ids| - 1];
      assert front[..i + 1] == ids[..i + 1];
      StuckSubscriber(t, c, front, i, skip);
    }
  }
}
