/** When creating a conversation succeeds, and who is in it then, with which role. */
module RelayCreation {
  import opened Common
  import opened RelayModel
  import opened RelayBounds
  import Strings

  /** `u` is an active member of `c` with this role. */
  predicate HasRole(t: Tables, c: ConversationId, u: UserId, role: Role) {
    IsMember(t, c, u) && t.members[Seat(c, u)].role == role
  }

  /** The active members of `c` are exactly `ids`: `owner` owns it, the others have role `other`. */
  ghost predicate SeatedAs(t: Tables, c: ConversationId, ids: seq<UserId>, owner: UserId, other: Role) {
    forall u :: if u in ids then HasRole(t, c, u, if u == owner then Owner else other) else !IsMember(t, c, u)
  }

  ghost predicate AllUsers(t: Tables, ids: seq<UserId>) { forall u :: u in ids ==> u in t.users }

  lemma LastSplits(ids: seq<UserId>)
    requires ids != []
    ensures forall u :: u in ids <==> u in ids[..|ids| - 1] || u == ids[|ids| - 1]
  {}

  // ---- Members --------------------------------------------------------------------------------

  lemma SeatMore(t: Tables, c: ConversationId, ids: seq<UserId>, owner: UserId, other: Role)
    requires ids != [] && SeatedAs(t, c, ids[..|ids| - 1], owner, other) && c in t.convs && ids[|ids| - 1] in t.users
    ensures var u := ids[|ids| - 1];
            SeatedAs(AddMemberRow(t, c, u, if u == owner then Owner else other).value, c, ids, owner, other)
  {
    LastSplits(ids);
  }

  /** Adding succeeds exactly when all are users, and then seats exactly them. */
  lemma {:induction false} AddAllSucceeds(t: Tables, c: ConversationId, ids: seq<UserId>, owner: UserId, other: Role)
    requires c in t.convs && SeatedAs(t, c, [], owner, other)
    ensures var (t2, ok) := AddAll(t, c, ids, owner, other);
            && (ok <==> AllUsers(t, ids)) && (ok ==> SeatedAs(t2, c, ids, owner, other))
            && c in t2.convs && t2.users == t.users && t2.subs == t.subs
  {
    if ids != [] {
      AddAllSucceeds(t, c, ids[..|ids| - 1], owner, other);
      LastSplits(ids);
      var (before, ok) := AddAll(t, c, ids[..|ids| - 1], owner, other);
      if ok && ids[|ids| - 1] in t.users {
        SeatMore(before, c, ids, owner, other);
      }
    }
  }

  /** CreateGroup succeeds exactly on at least two distinct users within the limit, the creator among them;
      then they are the members, and the creator the only owner. */
  lemma GroupCreated(s: State, cfg: Config, creator: UserId, members: seq<UserId>, c: ConversationId)
    requires Seated(s.t)
    ensures var (s2, r) := CreateGroup(s, cfg, creator, members, c);
            && (r.Ok? <==> && creator in members && 2 <= |Strings.SortUnique(members)| <= cfg.maxGroup
                           && c !in s.t.convs && AllUsers(s.t, members))
            && (r.Ok? ==> r.value == c && SeatedAs(s2.t, c, members, creator, Member) && Subscribers(s2.t, c) == {})
  {
    var row := Conversation(Group, creator, "", 0);
    var ids := Strings.SortUnique(members);
    var made := CreateConversation(s.t, c, row);
    if made.Ok? {
      AddAllSucceeds(made.value, c, ids, creator, Member);
    }
  }

  /** CreateDm succeeds exactly when the creator takes part and both are users; then they are the members. */
  lemma DmCreated(s: State, a: UserId, b: UserId, creator: UserId, c: ConversationId)
    requires Seated(s.t)
    ensures var (s2, r) := CreateDm(s, a, b, creator, c);
            && (r.Ok? <==> (creator == a || creator == b) && a in s.t.users && b in s.t.users && c !in s.t.convs)
            && (r.Ok? ==> r.value == c && SeatedAs(s2.t, c, [a, b], creator, Member))
  {
    var row := Conversation(Dm, creator, "", 0);
    var made := CreateConversation(s.t, c, row);
    if made.Ok? && (creator == a || creator == b) {
      var ids := if a == b then [a] else [creator, if creator == a then b else a];
      assert forall u :: u in ids <==> u in [a, b];
      AddAllSucceeds(made.value, c, ids, creator, Member);
    }
  }

  // ---- Channels -------------------------------------------------------------------------------

  ghost predicate SubscribedAs(t: Tables, c: ConversationId, ids: set<UserId>) {
    forall u :: IsSubscriber(t, c, u) <==> u in ids
  }

  lemma AdminMore(t: Tables, c: ConversationId, ids: seq<UserId>, owner: UserId)
    requires ids != [] && c in t.convs && ids[|ids| - 1] in t.users
    requires SeatedAs(t, c, ids[..|ids| - 1], owner, Admin) && SubscribedAs(t, c, Elements(ids[..|ids| - 1]))
    ensures var u := ids[|ids| - 1];
            var t1 := AddMemberRow(t, c, u, if u == owner then Owner else Admin).value;
            var r := SubscribeRow(t1, c, u);
            r.Ok? && SeatedAs(r.value, c, ids, owner, Admin) && SubscribedAs(r.value, c, Elements(ids))
  {
    var u := ids[|ids| - 1];
    var t1 := AddMemberRow(t, c, u, if u == owner then Owner else Admin).value;
    SeatMore(t, c, ids, owner, Admin);
    LastSplits(ids);
    var t2 := SubscribeRow(t1, c, u).value;
    forall v ensures IsMember(t2, c, v) <==> IsMember(t1, c, v) {}
    forall v ensures IsSubscriber(t2, c, v) <==> v in Elements(ids) {
      assert IsSubscriber(t1, c, v) <==> IsSubscriber(t, c, v);
    }
  }

  lemma {:induction false} AddAdminsSucceeds(t: Tables, c: ConversationId, ids: seq<UserId>, owner: UserId)
    requires c in t.convs && SeatedAs(t, c, [], owner, Admin) && SubscribedAs(t, c, {})
    ensures var (t2, ok) := AddAdmins(t, c, ids, owner);
            && (ok <==> AllUsers(t, ids)) && c in t2.convs && t2.users == t.users
            && (ok ==> SeatedAs(t2, c, ids, owner, Admin) && SubscribedAs(t2, c, Elements(ids)))
  {
    if ids != [] {
      AddAdminsSucceeds(t, c, ids[..|ids| - 1], owner);
      LastSplits(ids);
      var (before, ok) := AddAdmins(t, c, ids[..|ids| - 1], owner);
      if ok && ids[|ids| - 1] in t.users {
        AdminMore(before, c, ids, owner);
      }
    }
  }

  lemma SubscriberMore(t: Tables, c: ConversationId, u: UserId, ids: set<UserId>)
    requires c in t.convs && u in t.users && SubscribedAs(t, c, ids)
    ensures SubscribedAs(SubscribeRow(t, c, u).value, c, ids + {u})
  {}

  lemma {:induction false} SubscribeAllSucceeds(t: Tables, c: ConversationId, ids: seq<UserId>, admins: set<UserId>)
    requires c in t.convs && SubscribedAs(t, c, admins) && admins <= t.users
    ensures var (t2, ok) := SubscribeAll(t, c, ids, admins);
            && (ok <==> AllUsers(t, ids)) && c in t2.convs && t2.users == t.users && t2.members == t.members
            && (ok ==> SubscribedAs(t2, c, admins + Elements(ids)))
  {
    if ids == [] {
      assert admins + Elements(ids) == admins;
    } else {
      var front, u := ids[..|ids| - 1], ids[|ids| - 1];
      SubscribeAllSucceeds(t, c, front, admins);
      LastSplits(ids);
      assert admins + Elements(ids) == admins + Elements(front) + {u};
      var (before, ok) := SubscribeAll(t, c, front, admins);
      if ok && u in t.users && u !in admins {
        SubscriberMore(before, c, u, admins + Elements(front));
      }
    }
  }

  /** What CreateChannel asks for. */
  ghost predicate ChannelRequest(s: State, cfg: Config, creator: UserId, admins: seq<UserId>, subs: seq<UserId>,
                                 c: ConversationId) {
    && creator in admins && Distinct(admins) && |Elements(admins) + Elements(subs)| <= cfg.maxChannel
    && c !in s.t.convs && AllUsers(s.t, admins) && AllUsers(s.t, subs)
  }

  /** CreateChannel succeeds exactly on such requests; then the administrators are its members, the creator
      the only owner, and administrators and subscribers are subscribed, nobody else. */
  lemma ChannelCreated(s: State, cfg: Config, creator: UserId, admins: seq<UserId>, subs: seq<UserId>, c: ConversationId)
    requires Seated(s.t)
    ensures var (s2, r) := CreateChannel(s, cfg, creator, admins, subs, c);
            && (r.Ok? <==> ChannelRequest(s, cfg, creator, admins, subs, c))
            && (r.Ok? ==> && r.value == c && SeatedAs(s2.t, c, admins, creator, Admin)
                          && SubscribedAs(s2.t, c, Elements(admins) + Elements(subs)))
  {
    var made := CreateConversation(s.t, c, Conversation(Channel, creator, ADMINS_ONLY, 0));
    if made.Ok? && creator in admins {
      AddAdminsSucceeds(made.value, c, admins, creator);
      var (t1, ok) := AddAdmins(made.value, c, admins, creator);
      if ok {
        SubscribeAllSucceeds(t1, c, subs, Elements(admins));
        SameRoles(t1, SubscribeAll(t1, c, subs, Elements(admins)).0, c, admins, creator);
      }
    }
  }

  lemma SameRoles(t: Tables, t2: Tables, c: ConversationId, ids: seq<UserId>, owner: UserId)
    requires SeatedAs(t, c, ids, owner, Admin) && t2.members == t.members
    ensures SeatedAs(t2, c, ids, owner, Admin)
  {}

  // ---- The whole state after a creation -------------------------------------------------------

  /** How many users at the front of the list are registered. */
  function Known(users: set<UserId>, ids: seq<UserId>): (n: nat)
    ensures n <= |ids| && (forall i :: 0 <= i < n ==> ids[i] in users) && (n < |ids| ==> ids[n] !in users)
  {
    if ids == [] then 0
    else
      var n := Known(users, ids[..|ids| - 1]);
      if n < |ids| - 1 || ids[|ids| - 1] !in users then n else n + 1
  }

  /** The conversations with another version of one of them. */
  function Versioned(t: Tables, c: ConversationId, version: nat): map<ConversationId, Conversation>
    requires c in t.convs
  {
    t.convs[c := Conversation(t.convs[c].kind, t.convs[c].createdBy, t.convs[c].policy, version)]
  }

  /** The seats of `m`, and active ones in `c` for `ids`. */
  ghost predicate Joined(m: map<Seat, Membership>, m2: map<Seat, Membership>, c: ConversationId, ids: seq<UserId>,
                         owner: UserId, other: Role) {
    && (forall x :: x in m2 <==> x in m || (x.conv == c && x.user in ids))
    && forall x :: x in m2 ==>
         m2[x] == if x.conv == c && x.user in ids
                  then Membership(if x.user == owner then Owner else other, true) else m[x]
  }

  /** The subscriptions of `m`, and running ones to `c` for `ids` without `skip`. */
  ghost predicate Subscribed(m: map<Seat, bool>, m2: map<Seat, bool>, c: ConversationId, ids: seq<UserId>,
                             skip: set<UserId>) {
    && (forall x :: x in m2 <==> x in m || (x.conv == c && x.user in ids && x.user !in skip))
    && forall x :: x in m2 ==> m2[x] == if x.conv == c && x.user in ids && x.user !in skip then true else m[x]
  }

  lemma KnownFront(users: set<UserId>, ids: seq<UserId>)
    requires ids != []
    ensures var front, n := ids[..|ids| - 1], Known(users, ids);
            ids[..n] == if Known(users, front) == |front| && ids[|ids| - 1] in users then ids
                        else front[..Known(users, front)]
  {}

  lemma JoinedMore(m: map<Seat, Membership>, m1: map<Seat, Membership>, c: ConversationId, ids: seq<UserId>,
                   owner: UserId, other: Role)
    requires ids != [] && Joined(m, m1, c, ids[..|ids| - 1], owner, other)
    ensures var u := ids[|ids| - 1];
            Joined(m, m1[Seat(c, u) := Membership(if u == owner then Owner else other, true)], c, ids, owner, other)
  {
    LastSplits(ids);
  }

  lemma SubscribedMore(m: map<Seat, bool>, m1: map<Seat, bool>, c: ConversationId, ids: seq<UserId>, skip: set<UserId>)
    requires ids != [] && Subscribed(m, m1, c, ids[..|ids| - 1], skip)
    ensures var u := ids[|ids| - 1];
            Subscribed(m, if u in skip then m1 else m1[Seat(c, u) := true], c, ids, skip)
  {
    LastSplits(ids);
  }

  /** `ids` have been seated, one version each. */
  ghost predicate Added(t: Tables, t2: Tables, c: ConversationId, ids: seq<UserId>, owner: UserId, other: Role)
    requires c in t.convs
  {
    && Joined(t.members, t2.members, c, ids, owner, other)
    && t2 == t.(convs := Versioned(t, c, t.convs[c].version + |ids|), members := t2.members)
  }

  lemma AddedMore(t: Tables, t1: Tables, c: ConversationId, ids: seq<UserId>, owner: UserId, other: Role)
    requires c in t.convs && ids != [] && Added(t, t1, c, ids[..|ids| - 1], owner, other) && ids[|ids| - 1] in t.users
    ensures var u := ids[|ids| - 1];
            var r := AddMemberRow(t1, c, u, if u == owner then Owner else other);
            r.Ok? && Added(t, r.value, c, ids, owner, other)
  {
    JoinedMore(t.members, t1.members, c, ids, owner, other);
  }

  /** Adding seats the users up to the first who is not registered, each with a new version. */
  lemma {:induction false} AddAllExactly(t: Tables, c: ConversationId, ids: seq<UserId>, owner: UserId, other: Role)
    requires c in t.convs
    ensures var (t2, ok) := AddAll(t, c, ids, owner, other);
            var n := Known(t.users, ids);
            (ok <==> n == |ids|) && Added(t, t2, c, ids[..n], owner, other)
  {
    if ids != [] {
      var front := ids[..|ids| - 1];
      AddAllExactly(t, c, front, owner, other);
      KnownFront(t.users, ids);
      var (before, ok) := AddAll(t, c, front, owner, other);
      if ok && ids[|ids| - 1] in t.users {
        assert front[..|front|] == front;
        AddedMore(t, before, c, ids, owner, other);
      }
    } else {
      assert ids[..0] == [];
    }
  }

  /** `ids` have been seated and subscribed, two versions each. */
  ghost predicate AddedAdmins(t: Tables, t2: Tables, c: ConversationId, ids: seq<UserId>, owner: UserId)
    requires c in t.convs
  {
    && Joined(t.members, t2.members, c, ids, owner, Admin) && Subscribed(t.subs, t2.subs, c, ids, {})
    && t2 == t.(convs := Versioned(t, c, t.convs[c].version + 2 * |ids|), members := t2.members, subs := t2.subs)
  }

  lemma AdminRow(t: Tables, c: ConversationId, u: UserId, role: Role)
    requires c in t.convs && u in t.users
    ensures var r := AddMemberRow(t, c, u, role);
            && r.Ok? && SubscribeRow(r.value, c, u).Ok?
            && SubscribeRow(r.value, c, u).value
               == t.(convs := Versioned(t, c, t.convs[c].version + 2),
                     members := t.members[Seat(c, u) := Membership(role, true)], subs := t.subs[Seat(c, u) := true])
  {}

  lemma AddedAdminsMore(t: Tables, t1: Tables, c: ConversationId, ids: seq<UserId>, owner: UserId)
    requires c in t.convs && ids != [] && AddedAdmins(t, t1, c, ids[..|ids| - 1], owner) && ids[|ids| - 1] in t.users
    ensures var u := ids[|ids| - 1];
            var r := AddMemberRow(t1, c, u, if u == owner then Owner else Admin);
            r.Ok? && var r2 := SubscribeRow(r.value, c, u); r2.Ok? && AddedAdmins(t, r2.value, c, ids, owner)
  {
    AdminRow(t1, c, ids[|ids| - 1], if ids[|ids| - 1] == owner then Owner else Admin);
    JoinedMore(t.members, t1.members, c, ids, owner, Admin);
    SubscribedMore(t.subs, t1.subs, c, ids, {});
  }

  /** Likewise for administrators, who are subscribed as well. */
  lemma {:induction false} AddAdminsExactly(t: Tables, c: ConversationId, ids: seq<UserId>, owner: UserId)
    requires c in t.convs
    ensures var (t2, ok) := AddAdmins(t, c, ids, owner);
            var n := Known(t.users, ids);
            (ok <==> n == |ids|) && AddedAdmins(t, t2, c, ids[..n], owner)
  {
    if ids != [] {
      var front := ids[..|ids| - 1];
      AddAdminsExactly(t, c, front, owner);
      KnownFront(t.users, ids);
      var (before, ok) := AddAdmins(t, c, front, owner);
      if ok && ids[|ids| - 1] in t.users {
        assert front[..|front|] == front;
        AddedAdminsMore(t, before, c, ids, owner);
      }
    } else {
      assert ids[..0] == [];
    }
  }

  /** How many of the list are not in `skip`. */
  function Others(ids: seq<UserId>, skip: set<UserId>): nat {
    if ids == [] then 0 else Others(ids[..|ids| - 1], skip) + if ids[|ids| - 1] in skip then 0 else 1
  }

  /** The subscribers listed have been subscribed, one version for each who is no administrator. */
  ghost predicate AddedSubscribers(t: Tables, t2: Tables, c: ConversationId, ids: seq<UserId>, skip: set<UserId>)
    requires c in t.convs
  {
    && Subscribed(t.subs, t2.subs, c, ids, skip)
    && t2 == t.(convs := Versioned(t, c, t.convs[c].version + Others(ids, skip)), subs := t2.subs)
  }

  lemma AddedSubscribersMore(t: Tables, t1: Tables, c: ConversationId, ids: seq<UserId>, skip: set<UserId>)
    requires c in t.convs && ids != [] && AddedSubscribers(t, t1, c, ids[..|ids| - 1], skip)
    requires ids[|ids| - 1] in t.users + skip
    ensures var u := ids[|ids| - 1];
            if u in skip then AddedSubscribers(t, t1, c, ids, skip)
            else SubscribeRow(t1, c, u).Ok? && AddedSubscribers(t, SubscribeRow(t1, c, u).value, c, ids, skip)
  {
    SubscribedMore(t.subs, t1.subs, c, ids, skip);
  }

  /** Subscribing passes over `skip` and stops at the first other user who is not registered. */
  lemma {:induction false} SubscribeAllExactly(t: Tables, c: ConversationId, ids: seq<UserId>, skip: set<UserId>)
    requires c in t.convs
    ensures var (t2, ok) := SubscribeAll(t, c, ids, skip);
            var n := Known(t.users + skip, ids);
            (ok <==> n == |ids|) && AddedSubscribers(t, t2, c, ids[..n], skip)
  {
    if ids != [] {
      var front := ids[..|ids| - 1];
      SubscribeAllExactly(t, c, front, skip);
      KnownFront(t.users + skip, ids);
      var before := SubscribeAll(t, c, front, skip);
      if before.1 && ids[|ids| - 1] in t.users + skip {
        assert front[..|front|] == front && ids[..|ids|] == ids;
        AddedSubscribersMore(t, before.0, c, ids, skip);
      }
    } else {
      assert ids[..0] == [];
    }
  }

  /** CreateGroup: the answer, and the whole state, also when a member turns out not to be registered. */
  lemma GroupAnswers(s: State, cfg: Config, creator: UserId, members: seq<UserId>, c: ConversationId)
    ensures var (s2, r) := CreateGroup(s, cfg, creator, members, c);
            var ids := Strings.SortUnique(members);
            var n, row := Known(s.t.users, ids), Conversation(Group, creator, "", 0);
            if |Elements(members)| < 2 || creator !in members then s2 == s && r == Err(InvalidArgument)
            else if |Elements(members)| > cfg.maxGroup then s2 == s && r == Err(QuotaExceeded)
            else if c in s.t.convs || creator !in s.t.users then s2 == s && r == Err(AlreadyExists)
            else && r == (if AllUsers(s.t, members) then Ok(c) else Err(Internal)) && s2.queues == s.queues
                 && Added(s.t.(convs := s.t.convs[c := row]), s2.t, c, ids[..n], creator, Member)
  {
    SortedSize(members);
    var ids := Strings.SortUnique(members);
    var made := CreateConversation(s.t, c, Conversation(Group, creator, "", 0));
    if made.Ok? {
      AddAllExactly(made.value, c, ids, creator, Member);
      AllKnown(s.t, ids, members);
    }
  }

  lemma AllKnown(t: Tables, ids: seq<UserId>, members: seq<UserId>)
    requires forall u :: u in ids <==> u in members
    ensures Known(t.users, ids) == |ids| <==> AllUsers(t, members)
  {}

  /** CreateDm likewise; the creator comes first. */
  lemma DmAnswers(s: State, a: UserId, b: UserId, creator: UserId, c: ConversationId)
    ensures var (s2, r) := CreateDm(s, a, b, creator, c);
            var row := Conversation(Dm, creator, "", 0);
            if creator != a && creator != b then s2 == s && r == Err(Forbidden)
            else if c in s.t.convs || creator !in s.t.users then s2 == s && r == Err(AlreadyExists)
            else && r == (if a in s.t.users && b in s.t.users then Ok(c) else Err(Internal)) && s2.queues == s.queues
                 && Added(s.t.(convs := s.t.convs[c := row]), s2.t, c,
                          if a == b then [a] else if r.Err? then [creator] else if creator == a then [a, b] else [b, a],
                          creator, Member)
  {
    var made := CreateConversation(s.t, c, Conversation(Dm, creator, "", 0));
    if made.Ok? && (creator == a || creator == b) {
      var ids := if a == b then [a] else [creator, if creator == a then b else a];
      AddAllExactly(made.value, c, ids, creator, Member);
      assert |ids| == 2 ==> ids[..1] == [creator] && ids[..2] == ids;
      assert |ids| == 1 ==> ids[..1] == ids;
    }
  }

  /** What CreateChannel leaves: the administrators up to the first unknown one, and once all of them are in,
      the subscribers up to the first unknown one. */
  ghost predicate ChannelBuilt(t: Tables, t2: Tables, creator: UserId, admins: seq<UserId>, subs: seq<UserId>,
                               c: ConversationId) {
    var row := Conversation(Channel, creator, "{\"title\":\"\",\"channel_post_policy\":\"admins_only\"}", 0);
    var made := t.(convs := t.convs[c := row]);
    if !AllUsers(t, admins) then AddedAdmins(made, t2, c, admins[..Known(t.users, admins)], creator)
    else exists t1 :: && AddedAdmins(made, t1, c, admins, creator)
                      && AddedSubscribers(t1, t2, c, subs[..Known(t.users, subs)], Elements(admins))
  }

  lemma ChannelBuilds(t: Tables, creator: UserId, admins: seq<UserId>, subs: seq<UserId>, c: ConversationId)
    ensures var made := t.(convs := t.convs[c := Conversation(Channel, creator, ADMINS_ONLY, 0)]);
            var (t1, ok) := AddAdmins(made, c, admins, creator);
            var (t2, ok2) := if ok then SubscribeAll(t1, c, subs, Elements(admins)) else (t1, false);
            ChannelBuilt(t, t2, creator, admins, subs, c) && (ok2 <==> AllUsers(t, admins) && AllUsers(t, subs))
  {
    var made := t.(convs := t.convs[c := Conversation(Channel, creator, ADMINS_ONLY, 0)]);
    AddAdminsExactly(made, c, admins, creator);
    AllKnown(t, admins, admins);
    var (t1, ok) := AddAdmins(made, c, admins, creator);
    if ok {
      assert admins[..|admins|] == admins;
      assert t1.users + Elements(admins) == t.users;
      SubscribeAllExactly(t1, c, subs, Elements(admins));
      AllKnown(t, subs, subs);
    }
  }

  /** CreateChannel likewise: administrators first, then the subscribers who are not administrators. */
  lemma ChannelAnswers(s: State, cfg: Config, creator: UserId, admins: seq<UserId>, subs: seq<UserId>, c: ConversationId)
    ensures var (s2, r) := CreateChannel(s, cfg, creator, admins, subs, c);
            if creator !in admins || !Distinct(admins) then s2 == s && r == Err(InvalidArgument)
            else if |Elements(admins) + Elements(subs)| > cfg.maxChannel then s2 == s && r == Err(QuotaExceeded)
            else if c in s.t.convs || creator !in s.t.users then s2 == s && r == Err(AlreadyExists)
            else && r == (if AllUsers(s.t, admins) && AllUsers(s.t, subs) then Ok(c) else Err(Internal))
                 && s2.queues == s.queues && ChannelBuilt(s.t, s2.t, creator, admins, subs, c)
  {
    ChannelBuilds(s.t, creator, admins, subs, c);
  }
}
