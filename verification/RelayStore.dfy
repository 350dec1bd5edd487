/** The repositories of lib/vox_store that the relay uses, as objects whose tables change in place. */
module RelayStore {
  import opened Common
  import opened RelayModel

  /** The tables after a call that may be refused, and its answer. */
  function Left(r: Result<Tables>, before: Tables): Tables { if r.Ok? then r.value else before }

  function Answer(r: Result<Tables>): Result<Unit> { if r.Ok? then Ok(Unit) else Err(r.code) }

  /** A SELECT without ORDER BY: the selected values, each once, in some order. */
  method Select<T(==)>(s: set<T>) returns (q: seq<T>)
    ensures (forall x :: x in q <==> x in s) && |q| == |s|
    ensures forall i, j :: 0 <= i < j < |q| ==> q[i] != q[j]
  {
    q := [];
    var rest := s;
    while rest != {}
      invariant rest <= s && forall x :: x in q <==> x in s - rest
      invariant |q| + |rest| == |s|
      invariant forall i, j :: 0 <= i < j < |q| ==> q[i] != q[j]
      decreases |rest|
    {
      var x :| x in rest;
      assert x !in q && forall i :: 0 <= i < |q| ==> q[i] in q;
      q := q + [x];
      rest := rest - {x};
    }
  }

  class Store {
    var users: set<UserId>
    var devices: map<Dev, Device>
    var convs: map<ConversationId, Conversation>
    var members: map<Seat, Membership>
    var subs: map<Seat, bool>
    var envelopes: map<EnvelopeId, Envelope>
    var delivery: map<RowKey, DeliveryRow>

    ghost function View(): Tables
      reads this
    {
      Tables(users, devices, convs, members, subs, envelopes, delivery)
    }

    constructor ()
      ensures View() == INITIAL.t
    {
      users, devices, convs, members, subs, envelopes, delivery := {}, map[], map[], map[], map[], map[], map[];
    }

    // ---- conversation_repository.cpp ------------------------------------------------------------

    method BumpMembershipVersion(c: ConversationId)
      modifies this`convs
      ensures View() == Bump(old(View()), c)
    {
      if c in convs {
        convs := convs[c := convs[c].(version := convs[c].version + 1)];
      }
    }

    method CreateConversation(c: ConversationId, row: Conversation) returns (r: Result<Unit>)
      modifies this`convs
      ensures var made := RelayModel.CreateConversation(old(View()), c, row);
              View() == Left(made, old(View())) && r == Answer(made)
    {
      if c in convs || row.createdBy !in users {
        return Err(AlreadyExists);
      }
      convs := convs[c := row];
      r := Ok(Unit);
    }

    method AddMember(c: ConversationId, u: UserId, role: Role) returns (r: Result<Unit>)
      modifies this`convs, this`members
      ensures var made := AddMemberRow(old(View()), c, u, role);
              View() == Left(made, old(View())) && r == Answer(made)
    {
      if c !in convs || u !in users {
        return Err(Internal);
      }
      members := members[Seat(c, u) := Membership(role, true)];
      BumpMembershipVersion(c);
      r := Ok(Unit);
    }

    method RemoveMember(c: ConversationId, u: UserId)
      modifies this`convs, this`members
      ensures View() == RemoveMemberRow(old(View()), c, u)
    {
      var seat := Seat(c, u);
      if seat in members && members[seat].active {
        members := members[seat := members[seat].(active := false)];
        BumpMembershipVersion(c);
      }
    }

    method Subscribe(c: ConversationId, u: UserId) returns (r: Result<Unit>)
      modifies this`convs, this`subs
      ensures var made := SubscribeRow(old(View()), c, u);
              View() == Left(made, old(View())) && r == Answer(made)
    {
      if c !in convs || u !in users {
        return Err(Internal);
      }
      subs := subs[Seat(c, u) := true];
      BumpMembershipVersion(c);
      r := Ok(Unit);
    }

    method Unsubscribe(c: ConversationId, u: UserId)
      modifies this`convs, this`subs
      ensures View() == UnsubscribeRow(old(View()), c, u)
    {
      var seat := Seat(c, u);
      if seat in subs && subs[seat] {
        subs := subs[seat := false];
        BumpMembershipVersion(c);
      }
    }

    method GetMember(c: ConversationId, u: UserId) returns (r: Option<Role>)
      ensures r == if IsMember(View(), c, u) then Some(members[Seat(c, u)].role) else None
    {
      var seat := Seat(c, u);
      if seat in members && members[seat].active {
        return Some(members[seat].role);
      }
      r := None;
    }

    method IsUserInConversation(c: ConversationId, u: UserId) returns (r: bool)
      ensures r == InConversation(View(), c, u)
    {
      if c !in convs {
        return false;
      }
      var seat := Seat(c, u);
      if convs[c].kind.Channel? {
        return seat in subs && subs[seat];
      }
      r := seat in members && members[seat].active;
    }

    /** The users a message to `c` goes to: subscribers of a channel, members of anything else. */
    method Recipients(c: ConversationId) returns (q: seq<UserId>)
      requires c in convs
      ensures forall u :: u in q <==> InConversation(View(), c, u)
      ensures forall i, j :: 0 <= i < j < |q| ==> q[i] != q[j]
    {
      if convs[c].kind.Channel? {
        q := GetSubscribers(c);
      } else {
        q := GetMembers(c);
      }
    }

    method GetMembers(c: ConversationId) returns (q: seq<UserId>)
      ensures forall u :: u in q <==> IsMember(View(), c, u)
      ensures (forall i, j :: 0 <= i < j < |q| ==> q[i] != q[j]) && |q| == |Members(View(), c)|
    {
      q := Select(set x | x in members && x.conv == c && members[x].active :: x.user);
      assert forall u :: u in Members(View(), c) <==> IsMember(View(), c, u) by { InMembers(View(), c); }
    }

    method GetSubscribers(c: ConversationId) returns (q: seq<UserId>)
      ensures forall u :: u in q <==> IsSubscriber(View(), c, u)
      ensures (forall i, j :: 0 <= i < j < |q| ==> q[i] != q[j]) && |q| == |Subscribers(View(), c)|
    {
      q := Select(set x | x in subs && x.conv == c && subs[x] :: x.user);
      assert forall u :: u in Subscribers(View(), c) <==> IsSubscriber(View(), c, u) by { InSubscribers(View(), c); }
    }

    // ---- envelope_repository.cpp and device_repository.cpp ---------------------------------------

    method StoreEnvelope(id: EnvelopeId, e: Envelope) returns (r: Result<Unit>)
      modifies this`envelopes
      ensures var made := RelayModel.StoreEnvelope(old(View()), id, e);
              View() == Left(made, old(View())) && r == Answer(made)
    {
      if id in envelopes || e.conv !in convs || e.sender !in devices {
        return Err(Duplicate);
      }
      envelopes := envelopes[id := e];
      r := Ok(Unit);
    }

    method AddDeliveryState(k: RowKey, now: Timestamp)
      modifies this`delivery
      ensures View() == AddDelivery(old(View()), k, now)
    {
      if k !in delivery && k.envelope in envelopes && Dev(k.user, k.device) in devices {
        delivery := delivery[k := DeliveryRow(now, false)];
      }
    }

    method MarkAcked(k: RowKey) returns (r: Result<Unit>)
      modifies this`delivery
      ensures if k in old(delivery)
              then && r == Ok(Unit)
                   && View() == old(View()).(delivery := old(delivery)[k := old(delivery)[k].(acked := true)])
              else r == Err(NotFound) && View() == old(View())
    {
      if k !in delivery {
        return Err(NotFound);
      }
      delivery := delivery[k := delivery[k].(acked := true)];
      r := Ok(Unit);
    }

    method DeletePendingDelivery(c: ConversationId, u: UserId)
      modifies this`delivery
      ensures View() == DropDelivery(old(View()), c, u)
    {
      delivery := map k | k in delivery && !(k.user == u && k.envelope in envelopes && envelopes[k.envelope].conv == c)
                       :: delivery[k];
    }

    method GetDevicesForUser(u: UserId) returns (q: seq<Dev>)
      ensures forall x :: x in q <==> x in devices && x.user == u
      ensures forall i, j :: 0 <= i < j < |q| ==> q[i] != q[j]
    {
      q := Select(set x | x in devices && x.user == u);
    }
  }

  lemma InMembers(t: Tables, c: ConversationId)
    ensures forall u :: u in Members(t, c) <==> IsMember(t, c, u)
  {}

  lemma InSubscribers(t: Tables, c: ConversationId)
    ensures forall u :: u in Subscribers(t, c) <==> IsSubscriber(t, c, u)
  {}
}
