/** The in-memory device queues of lib/vox_relay/delivery_manager.cpp as a value, and the ledger of
    everything that ever entered one of them. */
module Delivery {
  import opened Common

  datatype Queued = Queued(
    envelopeId: EnvelopeId,
    conversationId: ConversationId,
    senderUserId: UserId,
    senderDeviceId: DeviceId,
    ciphertext: string,
    timestamp: Timestamp)

  /** The queues by scope key.  A key is added by the first Enqueue for its device. */
  type Queues = map<string, seq<Queued>>

  function Pending(qs: Queues, key: string): seq<Queued> { if key in qs then qs[key] else [] }

  /** What stable_partition and erase leave of a queue. */
  function Without(q: seq<Queued>, conv: ConversationId): seq<Queued> {
    if q == [] then []
    else
      var rest := Without(q[..|q| - 1], conv);
      if q[|q| - 1].conversationId != conv then rest + [q[|q| - 1]] else rest
  }

  function Only(q: seq<Queued>, conv: ConversationId): seq<Queued> {
    if q == [] then []
    else
      var rest := Only(q[..|q| - 1], conv);
      if q[|q| - 1].conversationId == conv then rest + [q[|q| - 1]] else rest
  }

  /** `Without` keeps exactly the entries of the other conversations. */
  lemma {:induction false} WithoutMembers(q: seq<Queued>, conv: ConversationId, e: Queued)
    ensures e in Without(q, conv) <==> e in q && e.conversationId != conv
  {
    if q != [] {
      WithoutMembers(q[..|q| - 1], conv, e);
      assert q == q[..|q| - 1] + [q[|q| - 1]];
    }
  }

  lemma {:induction false} WithoutSplits(q: seq<Queued>, conv: ConversationId)
    ensures multiset(q) == multiset(Without(q, conv)) + multiset(Only(q, conv))
    ensures |Without(q, conv)| <= |q|
  {
    if q != [] {
      WithoutSplits(q[..|q| - 1], conv);
      assert q == q[..|q| - 1] + [q[|q| - 1]];
    }
  }

  // ---- Calls ----------------------------------------------------------------------------------

  function Enqueue(qs: Queues, max: nat, key: string, e: Queued): Queues {
    var q := Pending(qs, key);
    qs[key := if |q| < max then q + [e] else q]
  }

  function Min(a: nat, b: nat): nat { if a < b then a else b }

  function Dequeue(qs: Queues, key: string, n: nat): Queues {
    if key in qs then qs[key := qs[key][Min(n, |qs[key]|)..]] else qs
  }

  function Clear(qs: Queues, key: string): Queues { if key in qs then qs[key := []] else qs }

  function Purge(qs: Queues, key: string, conv: ConversationId): Queues {
    if key in qs then qs[key := Without(qs[key], conv)] else qs
  }

  datatype Call =
    | EnqueueCall(key: string, e: Queued)
    | DequeueCall(key: string, n: nat)
    | OfflineCall(key: string)
    | PurgeCall(key: string, conv: ConversationId)

  function Apply(qs: Queues, max: nat, c: Call): Queues {
    match c
    case EnqueueCall(key, e) => Enqueue(qs, max, key, e)
    case DequeueCall(key, n) => Dequeue(qs, key, n)
    case OfflineCall(key) => Clear(qs, key)
    case PurgeCall(key, conv) => Purge(qs, key, conv)
  }

  function RunCalls(max: nat, calls: seq<Call>): Queues {
    if calls == [] then map[] else Apply(RunCalls(max, calls[..|calls| - 1]), max, calls[|calls| - 1])
  }

  // ---- The ledger of one device ---------------------------------------------------------------

  /** What happened to the queue of one scope key: every accepted envelope, in order, and where it went. */
  datatype Book = Book(accepted: seq<Queued>, pending: seq<Queued>, dequeued: seq<Queued>,
                       offline: seq<Queued>, purged: seq<Queued>)

  function Post(b: Book, max: nat, key: string, c: Call): Book {
    match c
    case EnqueueCall(k, e) =>
      if k == key && |b.pending| < max then b.(accepted := b.accepted + [e], pending := b.pending + [e]) else b
    case DequeueCall(k, n) =>
      if k == key then
        var m := Min(n, |b.pending|);
        b.(dequeued := b.dequeued + b.pending[..m], pending := b.pending[m..])
      else b
    case OfflineCall(k) =>
      if k == key then b.(offline := b.offline + b.pending, pending := []) else b
    case PurgeCall(k, conv) =>
      if k == key then b.(purged := b.purged + Only(b.pending, conv), pending := Without(b.pending, conv)) else b
  }

  function Ledger(max: nat, calls: seq<Call>, key: string): Book {
    if calls == [] then Book([], [], [], [], [])
    else Post(Ledger(max, calls[..|calls| - 1], key), max, key, calls[|calls| - 1])
  }

  /** The book's pending column is the real queue, whatever the other devices' calls were. */
  lemma {:induction false} LedgerIsQueue(max: nat, calls: seq<Call>, key: string)
    ensures Ledger(max, calls, key).pending == Pending(RunCalls(max, calls), key)
  {
    if calls != [] {
      LedgerIsQueue(max, calls[..|calls| - 1], key);
    }
  }

  /** `a` is `b` with some elements left out, in the same order. */
  ghost predicate Subsequence<T>(a: seq<T>, b: seq<T>)
    decreases |b|
  {
    || a == []
    || (b != [] && (|| Subsequence(a, b[..|b| - 1])
                    || (a[|a| - 1] == b[|b| - 1] && Subsequence(a[..|a| - 1], b[..|b| - 1]))))
  }

  lemma {:induction false} SubsequenceTransitive<T>(a: seq<T>, b: seq<T>, c: seq<T>)
    requires Subsequence(a, b) && Subsequence(b, c)
    ensures Subsequence(a, c)
    decreases |b| + |c|
  {
    if a != [] && b != [] {
      if Subsequence(b, c[..|c| - 1]) {
        SubsequenceTransitive(a, b, c[..|c| - 1]);
      } else if Subsequence(a, b[..|b| - 1]) {
        SubsequenceTransitive(a, b[..|b| - 1], c[..|c| - 1]);
      } else {
        SubsequenceTransitive(a[..|a| - 1], b[..|b| - 1], c[..|c| - 1]);
      }
    }
  }

  lemma {:induction false} SubsequenceSelf<T>(a: seq<T>)
    ensures Subsequence(a, a)
  {
    if a != [] { SubsequenceSelf(a[..|a| - 1]); }
  }

  lemma {:induction false} PrefixIsSubsequence<T>(a: seq<T>, b: seq<T>)
    ensures Subsequence(a, a + b)
  {
    if b == [] {
      assert a + b == a;
      SubsequenceSelf(a);
    } else {
      PrefixIsSubsequence(a, b[..|b| - 1]);
      assert (a + b)[..|a + b| - 1] == a + b[..|b| - 1];
    }
  }

  lemma {:induction false} WithoutIsSubsequence(head: seq<Queued>, q: seq<Queued>, conv: ConversationId)
    ensures Subsequence(head + Without(q, conv), head + q)
  {
    if q == [] {
      SubsequenceSelf(head + q);
      assert head + Without(q, conv) == head + q;
    } else {
      var front, last := q[..|q| - 1], q[|q| - 1];
      WithoutIsSubsequence(head, front, conv);
      assert (head + q)[..|head + q| - 1] == head + front;
      if last.conversationId != conv {
        var kept := head + Without(q, conv);
        assert kept[..|kept| - 1] == head + Without(front, conv);
      }
    }
  }

  ghost predicate Balanced(b: Book, max: nat) {
    && multiset(b.accepted)
    == multiset(b.pending) + multiset(b.dequeued) + multiset(b.offline) + multiset(b.purged)
    && Subsequence(b.dequeued + b.pending, b.accepted)
    && |b.pending| <= max
  }

  lemma EnqueueBalanced(b: Book, max: nat, e: Queued)
    requires Balanced(b, max) && |b.pending| < max
    ensures Balanced(b.(accepted := b.accepted + [e], pending := b.pending + [e]), max)
  {
    var out := b.dequeued + b.pending;
    assert b.dequeued + (b.pending + [e]) == out + [e];
    assert (out + [e])[..|out|] == out && (b.accepted + [e])[..|b.accepted|] == b.accepted;
  }

  lemma DequeueBalanced(b: Book, max: nat, m: nat)
    requires Balanced(b, max) && m <= |b.pending|
    ensures Balanced(b.(dequeued := b.dequeued + b.pending[..m], pending := b.pending[m..]), max)
  {
    assert b.pending == b.pending[..m] + b.pending[m..];
    assert (b.dequeued + b.pending[..m]) + b.pending[m..] == b.dequeued + b.pending;
  }

  lemma OfflineBalanced(b: Book, max: nat)
    requires Balanced(b, max)
    ensures Balanced(b.(offline := b.offline + b.pending, pending := []), max)
  {
    PrefixIsSubsequence(b.dequeued, b.pending);
    SubsequenceTransitive(b.dequeued, b.dequeued + b.pending, b.accepted);
    assert b.dequeued + [] == b.dequeued;
  }

  lemma PurgeBalanced(b: Book, max: nat, conv: ConversationId)
    requires Balanced(b, max)
    ensures Balanced(b.(purged := b.purged + Only(b.pending, conv), pending := Without(b.pending, conv)), max)
  {
    WithoutSplits(b.pending, conv);
    WithoutIsSubsequence(b.dequeued, b.pending, conv);
    SubsequenceTransitive(b.dequeued + Without(b.pending, conv), b.dequeued + b.pending, b.accepted);
  }

  lemma PostBalanced(b: Book, max: nat, key: string, c: Call)
    requires Balanced(b, max)
    ensures Balanced(Post(b, max, key, c), max)
  {
    if c.key == key {
      match c
      case EnqueueCall(_, e) => if |b.pending| < max { EnqueueBalanced(b, max, e); }
      case DequeueCall(_, n) => DequeueBalanced(b, max, Min(n, |b.pending|));
      case OfflineCall(_) => OfflineBalanced(b, max);
      case PurgeCall(_, conv) => PurgeBalanced(b, max, conv);
    }
  }

  /** On every run, every accepted envelope of a device is exactly once still pending, dequeued, handed
      to offline storage or purged; what was dequeued, followed by what is pending, keeps the order of
      acceptance; and the queue never exceeds its maximum depth. */
  lemma {:induction false} LedgerBalances(max: nat, calls: seq<Call>, key: string)
    ensures Balanced(Ledger(max, calls, key), max)
    ensures |Pending(RunCalls(max, calls), key)| <= max
  {
    if calls != [] {
      LedgerBalances(max, calls[..|calls| - 1], key);
      PostBalanced(Ledger(max, calls[..|calls| - 1], key), max, key, calls[|calls| - 1]);
    }
    LedgerIsQueue(max, calls, key);
  }
}
