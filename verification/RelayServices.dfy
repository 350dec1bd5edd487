/** DeliveryManager and RelayService: loops over recipients, devices and queue entries that change the queues
    and the store, each shown to do what the relay model says. */
module RelayServices {
  import opened Common
  import opened RelayModel
  import opened RelayStore
  import D = Delivery
  import C = RelayConfinement

  class DeliveryManager {
    const store: Store
    const max: nat
    var queues: D.Queues

    constructor (store: Store, max: nat)
      ensures this.store == store && this.max == max && queues == map[]
    {
      this.store, this.max, queues := store, max, map[];
    }

    method Enqueue(x: Dev, e: D.Queued) returns (accepted: bool)
      modifies this
      ensures queues == D.Enqueue(old(queues), max, Key(x), e)
      ensures accepted == (|D.Pending(old(queues), Key(x))| < max)
    {
      var key := DeviceScopeKey(x.user, x.device);
      if key !in queues {
        queues := queues[key := []];
      }
      if |queues[key]| >= max {
        return false;
      }
      queues := queues[key := queues[key] + [e]];
      accepted := true;
    }

    method Dequeue(x: Dev, n: nat) returns (result: seq<D.Queued>)
      modifies this
      ensures queues == D.Dequeue(old(queues), Key(x), n)
      ensures result + D.Pending(queues, Key(x)) == D.Pending(old(queues), Key(x))
      ensures |result| == D.Min(n, |D.Pending(old(queues), Key(x))|)
    {
      result := [];
      var key := DeviceScopeKey(x.user, x.device);
      if key !in queues {
        return;
      }
      var pending := queues[key];
      var count := if n < |pending| then n else |pending|;
      for i := 0 to count
        invariant |result| == i && result + pending == old(queues)[key]
      {
        result := result + [pending[0]];
        pending := pending[1..];
      }
      queues := queues[key := pending];
    }

    method SwitchToOffline(x: Dev, now: Timestamp)
      modifies this, store
      ensures queues == D.Clear(old(queues), Key(x))
      ensures store.View() == Persist(old(store.View()), D.Pending(old(queues), Key(x)), x, now)
    {
      var key := DeviceScopeKey(x.user, x.device);
      if key !in queues {
        return;
      }
      var pending := queues[key];
      ghost var start := store.View();
      for i := 0 to |pending|
        invariant queues == old(queues) && store.View() == Persist(start, pending[..i], x, now)
      {
        assert pending[..i + 1][..i] == pending[..i];
        store.AddDeliveryState(RowKey(pending[i].envelopeId, x.user, x.device), now);
      }
      assert pending[..|pending|] == pending;
      queues := queues[key := []];
    }

    /** stable_partition and erase. */
    method PurgeConversation(c: ConversationId, x: Dev)
      modifies this
      ensures queues == D.Purge(old(queues), Key(x), c)
    {
      var key := DeviceScopeKey(x.user, x.device);
      if key !in queues {
        return;
      }
      var pending := queues[key];
      var kept := [];
      for i := 0 to |pending|
        invariant kept == D.Without(pending[..i], c)
      {
        assert pending[..i + 1][..i] == pending[..i];
        if pending[i].conversationId != c {
          kept := kept + [pending[i]];
        }
      }
      assert pending[..|pending|] == pending;
      queues := queues[key := kept];
    }

    method Acknowledge(x: Dev, id: EnvelopeId) returns (r: Result<Unit>)
      modifies store
      ensures (State(store.View(), queues), r) == RelayModel.Acknowledge(State(old(store.View()), queues), x, id)
    {
      r := store.MarkAcked(RowKey(id, x.user, x.device));
    }

    method QueueSize(x: Dev) returns (n: nat)
      ensures n == |D.Pending(queues, Key(x))|
    {
      var key := DeviceScopeKey(x.user, x.device);
      if key !in queues {
        return 0;
      }
      n := |queues[key]|;
    }
  }

  // ---- Fan-out --------------------------------------------------------------------------------

  /** A registered device that has not been served yet has the queue it started with. */
  lemma Unserved(s: State, max: nat, e: D.Queued, done: set<Dev>, x: Dev)
    requires C.WellFormed(s) && done <= s.t.devices.Keys && x in s.t.devices && x !in done
    ensures Key(x) !in Keys(done)
    ensures D.Pending(FanOut(s, max, e, done).queues, Key(x)) == D.Pending(s.queues, Key(x))
  {
    C.FanOutQueue(s, max, e, done, x);
    if Key(x) in Keys(done) {
      var y :| y in done && Key(y) == Key(x);
      C.KeysDiffer(s, x, y);
    }
  }

  lemma FanQueuesMore(qs: D.Queues, max: nat, e: D.Queued, keys: set<string>, k: string)
    requires k !in keys
    ensures FanQueues(qs, max, e, keys + {k}) == D.Enqueue(FanQueues(qs, max, e, keys), max, k, e)
  {}

  /** Serving one more device is one Enqueue. */
  lemma ServeQueues(s: State, max: nat, e: D.Queued, done: set<Dev>, x: Dev)
    requires C.WellFormed(s) && done <= s.t.devices.Keys && x in s.t.devices && x !in done
    ensures FanOut(s, max, e, done + {x}).queues == D.Enqueue(FanOut(s, max, e, done).queues, max, Key(x), e)
  {
    Unserved(s, max, e, done, x);
    assert Keys(done + {x}) == Keys(done) + {Key(x)};
    FanQueuesMore(s.queues, max, e, Keys(done), Key(x));
  }

  ghost predicate NoRows(t: Tables, id: EnvelopeId) { forall k :: k in t.delivery ==> k.envelope != id }

  lemma RowsMore(id: EnvelopeId, full: set<Dev>, x: Dev)
    requires x !in full
    ensures var row := RowKey(id, x.user, x.device);
            Rows(id, full + {x}) == Rows(id, full) + {row} && row !in Rows(id, full)
  {}

  lemma NewRowsMore(m: map<RowKey, DeliveryRow>, rows: set<RowKey>, row: RowKey, now: Timestamp)
    requires row !in m && row !in rows
    ensures m + NewRows(rows + {row}, now) == (m + NewRows(rows, now))[row := DeliveryRow(now, false)]
    ensures row !in m + NewRows(rows, now)
  {}

  lemma FullMore(qs: D.Queues, max: nat, done: set<Dev>, x: Dev)
    requires x !in done
    ensures Full(qs, max, done + {x})
            == if |D.Pending(qs, Key(x))| < max then Full(qs, max, done) else Full(qs, max, done) + {x}
  {}

  /** And, if the queue is full, one AddDeliveryState. */
  lemma ServeTables(s: State, max: nat, e: D.Queued, done: set<Dev>, x: Dev)
    requires x in s.t.devices && x !in done
    requires e.envelopeId in s.t.envelopes && NoRows(s.t, e.envelopeId)
    ensures var before, after := FanOut(s, max, e, done).t, FanOut(s, max, e, done + {x}).t;
            after == if |D.Pending(s.queues, Key(x))| < max then before
                     else AddDelivery(before, RowKey(e.envelopeId, x.user, x.device), e.timestamp)
  {
    FullMore(s.queues, max, done, x);
    if |D.Pending(s.queues, Key(x))| >= max {
      var full := Full(s.queues, max, done);
      RowsMore(e.envelopeId, full, x);
      NewRowsMore(s.t.delivery, Rows(e.envelopeId, full), RowKey(e.envelopeId, x.user, x.device), e.timestamp);
    }
  }

  lemma ServeCount(s: State, max: nat, done: set<Dev>, x: Dev)
    requires x !in done
    ensures var served := done - Full(s.queues, max, done);
            |(done + {x}) - Full(s.queues, max, done + {x})|
            == |served| + if |D.Pending(s.queues, Key(x))| < max then 1 else 0
  {
    var served := done - Full(s.queues, max, done);
    var served2 := (done + {x}) - Full(s.queues, max, done + {x});
    if |D.Pending(s.queues, Key(x))| < max {
      assert served2 == served + {x};
    } else {
      assert served2 == served;
    }
  }

  /** The fan-out has served exactly `done`. */
  ghost predicate Served(s: State, max: nat, e: D.Queued, done: set<Dev>, now: State, count: nat) {
    now == FanOut(s, max, e, done) && count == |done - Full(s.queues, max, done)|
  }

  ghost predicate ReadyToServe(s: State, e: D.Queued) {
    C.WellFormed(s) && e.envelopeId in s.t.envelopes && NoRows(s.t, e.envelopeId)
  }

  /** The state and the count after one more device. */
  lemma ServeOne(s: State, max: nat, e: D.Queued, done: set<Dev>, x: Dev, now: State, count: nat)
    requires ReadyToServe(s, e) && done <= s.t.devices.Keys && x in s.t.devices && x !in done
    requires Served(s, max, e, done, now, count)
    ensures var qs := D.Enqueue(now.queues, max, Key(x), e);
            if |D.Pending(now.queues, Key(x))| < max then Served(s, max, e, done + {x}, State(now.t, qs), count + 1)
            else Served(s, max, e, done + {x},
                        State(AddDelivery(now.t, RowKey(e.envelopeId, x.user, x.device), e.timestamp), qs), count)
  {
    Unserved(s, max, e, done, x);
    ServeQueues(s, max, e, done, x);
    ServeTables(s, max, e, done, x);
    ServeCount(s, max, done, x);
  }

  /** Devices of the first users, or of one user's first devices, that the fan-out serves. */
  function ServedOf(t: Tables, users: seq<UserId>, sender: Dev): set<Dev> {
    set x | x in t.devices && x.user in users && !t.devices[x].revoked && x != sender
  }

  function ServedAmong(t: Tables, xs: seq<Dev>, sender: Dev): set<Dev> {
    set x | x in xs && x in t.devices && !t.devices[x].revoked && x != sender
  }

  lemma NextDevice(t: Tables, xs: seq<Dev>, i: nat, sender: Dev, done: set<Dev>)
    requires i < |xs| && xs[i] in t.devices && xs[i] !in done
    requires forall i, j :: 0 <= i < j < |xs| ==> xs[i] != xs[j]
    ensures var so := done + ServedAmong(t, xs[..i], sender);
            && xs[i] !in so
            && done + ServedAmong(t, xs[..i + 1], sender)
               == if t.devices[xs[i]].revoked || xs[i] == sender then so else so + {xs[i]}
  {}

  lemma NextUser(t: Tables, users: seq<UserId>, i: nat, xs: seq<Dev>, sender: Dev)
    requires i < |users| && forall x :: x in xs <==> x in t.devices && x.user == users[i]
    ensures ServedOf(t, users[..i + 1], sender) == ServedOf(t, users[..i], sender) + ServedAmong(t, xs, sender)
  {}

  class RelayService {
    const store: Store
    const delivery: DeliveryManager
    const cfg: Config

    ghost predicate Wired() { delivery.store == store && delivery.max == cfg.maxQueue }

    ghost function View(): State
      reads store, delivery
    {
      State(store.View(), delivery.queues)
    }

    constructor (store: Store, delivery: DeliveryManager, cfg: Config)
      requires delivery.store == store && delivery.max == cfg.maxQueue
      ensures Wired() && this.store == store && this.delivery == delivery && this.cfg == cfg
    {
      this.store, this.delivery, this.cfg := store, delivery, cfg;
    }

    /** The checks before anything is stored. */
    method Authorise(r: SendRequest) returns (refusal: Option<ErrorCode>)
      ensures refusal == Refusal(store.View(), r)
    {
      if r.ciphertext == "" {
        return Some(InvalidArgument);
      }
      if r.sender !in store.devices {
        return Some(Unauthorized);
      }
      if r.conv !in store.convs {
        return Some(NotFound);
      }
      var isMember := store.IsUserInConversation(r.conv, r.sender.user);
      if !isMember {
        return Some(Forbidden);
      }
      if store.convs[r.conv].kind.Channel? {
        var adminsOnly := true;
        if Contains(store.convs[r.conv].policy, EVERYONE) {
          adminsOnly := false;
        }
        if adminsOnly {
          var role := store.GetMember(r.conv, r.sender.user);
          if role.None? || (!role.value.Owner? && !role.value.Admin?) {
            return Some(Forbidden);
          }
        }
      }
      refusal := None;
    }

    /** One device: its queue, or a delivery row if the queue is full. */
    method ServeDevice(x: Dev, e: D.Queued, ghost s: State, ghost done: set<Dev>, count: nat) returns (count2: nat)
      requires Wired() && ReadyToServe(s, e) && done <= s.t.devices.Keys && x in s.t.devices && x !in done
      requires Served(s, cfg.maxQueue, e, done, View(), count)
      modifies store`delivery, delivery
      ensures Served(s, cfg.maxQueue, e, done + {x}, View(), count2)
    {
      ServeOne(s, cfg.maxQueue, e, done, x, View(), count);
      count2 := count;
      var accepted := delivery.Enqueue(x, e);
      if accepted {
        count2 := count2 + 1;
      } else {
        store.AddDeliveryState(RowKey(e.envelopeId, x.user, x.device), e.timestamp);
      }
    }

    /** The inner loop: one recipient's devices. */
    method ServeUser(xs: seq<Dev>, e: D.Queued, sender: Dev, ghost s: State, ghost done: set<Dev>, count: nat)
      returns (count2: nat)
      requires Wired() && ReadyToServe(s, e) && done <= s.t.devices.Keys
      requires Served(s, cfg.maxQueue, e, done, View(), count)
      requires store.devices == s.t.devices && forall x :: x in xs ==> x in s.t.devices && x !in done
      requires forall i, j :: 0 <= i < j < |xs| ==> xs[i] != xs[j]
      modifies store`delivery, delivery
      ensures Served(s, cfg.maxQueue, e, done + ServedAmong(s.t, xs, sender), View(), count2)
    {
      count2 := count;
      ghost var so := done;
      for i := 0 to |xs|
        invariant so == done + ServedAmong(s.t, xs[..i], sender)
        invariant Served(s, cfg.maxQueue, e, so, View(), count2)
      {
        NextDevice(s.t, xs, i, sender, done);
        if !store.devices[xs[i]].revoked && xs[i] != sender {
          count2 := ServeDevice(xs[i], e, s, so, count2);
          so := so + {xs[i]};
        }
      }
      assert xs[..|xs|] == xs;
    }

    /** The outer loop: every recipient. */
    method ServeAll(users: seq<UserId>, e: D.Queued, sender: Dev) returns (count: nat)
      requires Wired() && ReadyToServe(View(), e)
      requires forall i, j :: 0 <= i < j < |users| ==> users[i] != users[j]
      modifies store`delivery, delivery
      ensures Served(old(View()), cfg.maxQueue, e, ServedOf(old(View()).t, users, sender), View(), count)
    {
      ghost var s := View();
      count := 0;
      NothingServed(s, cfg.maxQueue, e, sender);
      for i := 0 to |users|
        invariant Served(s, cfg.maxQueue, e, ServedOf(s.t, users[..i], sender), View(), count)
      {
        assert store.devices == s.t.devices;
        var xs := store.GetDevicesForUser(users[i]);
        ghost var done := ServedOf(s.t, users[..i], sender);
        NextUser(s.t, users, i, xs, sender);
        count := ServeUser(xs, e, sender, s, done, count);
      }
      assert users[..|users|] == users;
    }

    method SendEnvelope(r: SendRequest, now: Timestamp, uuid: EnvelopeId) returns (res: Result<SendResponse>)
      requires Wired() && C.Confined(View())
      modifies store`envelopes, store`delivery, delivery
      ensures C.Confined(View())
      ensures (View(), res) == Send(old(View()), cfg, r, now, uuid)
    {
      ghost var s := View();
      C.SendConfined(s, cfg, r, now, uuid);
      var refusal := Authorise(r);
      if refusal.Some? {
        return Err(refusal.value);
      }
      var id := if r.envelopeId == "" then uuid else r.envelopeId;
      if id in store.envelopes {
        return Err(Duplicate);
      }
      FreshId(s, id);
      var stored := store.StoreEnvelope(id, Envelope(r.conv, r.sender, r.ciphertext, now));
      var users := store.Recipients(r.conv);
      var e := D.Queued(id, r.conv, r.sender.user, r.sender.device, r.ciphertext, now);
      var count := ServeAll(users, e, r.sender);
      SameTargets(s.t, s.t.(envelopes := s.t.envelopes[id := Envelope(r.conv, r.sender, r.ciphertext, now)]),
                  users, r.conv, r.sender);
      res := Ok(SendResponse(id, now, count));
    }
  }

  lemma NothingServed(s: State, max: nat, e: D.Queued, sender: Dev)
    ensures Served(s, max, e, ServedOf(s.t, [], sender), s, 0)
  {}

  lemma FreshId(s: State, id: EnvelopeId)
    requires C.Confined(s) && id !in s.t.envelopes
    ensures NoRows(s.t, id)
  {}

  lemma SameTargets(t: Tables, t2: Tables, users: seq<UserId>, c: ConversationId, sender: Dev)
    requires t2 == t.(envelopes := t2.envelopes) && forall u :: u in users <==> InConversation(t2, c, u)
    ensures ServedOf(t2, users, sender) == Targets(t, c, sender)
  {}
}
