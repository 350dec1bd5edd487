/** A map split over shards by the hash of the key behaves as one map, whatever the hash. */
module ShardMap {
  import opened Common

  /** Shard i of n holds only keys that hash to i. */
  ghost predicate Placed<K(!new), V>(ss: seq<map<K, V>>, n: nat, hash: K -> nat)
    requires n > 0
  {
    |ss| <= n && forall i, k :: 0 <= i < |ss| && k in ss[i] ==> hash(k) % n == i
  }

  function Union<K, V>(ss: seq<map<K, V>>): map<K, V> {
    if ss == [] then map[] else Union(ss[..|ss| - 1]) + ss[|ss| - 1]
  }

  function Sizes<K, V>(ss: seq<map<K, V>>): nat {
    if ss == [] then 0 else Sizes(ss[..|ss| - 1]) + |ss[|ss| - 1]|
  }

  /** A key is in the union exactly when it is in its own shard, with the same value. */
  lemma {:induction false} UnionLookup<K(!new), V>(ss: seq<map<K, V>>, n: nat, hash: K -> nat, k: K)
    requires n > 0 && Placed(ss, n, hash)
    ensures var h := hash(k) % n;
            && (k in Union(ss) <==> h < |ss| && k in ss[h])
            && (k in Union(ss) ==> Union(ss)[k] == ss[h][k])
  {
    if ss != [] {
      UnionLookup(ss[..|ss| - 1], n, hash, k);
      assert k in ss[|ss| - 1] ==> hash(k) % n == |ss| - 1;
    }
  }

  lemma MergeSize<K, V>(a: map<K, V>, b: map<K, V>)
    requires a.Keys !! b.Keys
    ensures |a + b| == |a| + |b|
  {}

  lemma {:induction false} UnionSize<K(!new), V>(ss: seq<map<K, V>>, n: nat, hash: K -> nat)
    requires n > 0 && Placed(ss, n, hash)
    ensures |Union(ss)| == Sizes(ss)
  {
    if ss != [] {
      var front, last := ss[..|ss| - 1], ss[|ss| - 1];
      UnionSize(front, n, hash);
      forall k | k in last ensures k !in Union(front) { UnionLookup(front, n, hash, k); }
      MergeSize(Union(front), last);
    }
  }

  /** Changing the shard of key `k`, at `k` alone, changes the union at `k` alone. */
  lemma UnionChange<K(!new), V>(ss: seq<map<K, V>>, hash: K -> nat, k: K, m: map<K, V>, all: map<K, V>)
    requires |ss| > 0 && Placed(ss, |ss|, hash)
    requires Placed(ss[hash(k) % |ss| := m], |ss|, hash)
    requires var was := ss[hash(k) % |ss|];
             forall x :: x != k ==> (x in m <==> x in was) && (x in m ==> m[x] == was[x])
    requires (k in all <==> k in m) && (k in m ==> all[k] == m[k])
    requires forall x :: x != k ==> (x in all <==> x in Union(ss)) && (x in all ==> all[x] == Union(ss)[x])
    ensures Union(ss[hash(k) % |ss| := m]) == all
  {
    var ss2 := ss[hash(k) % |ss| := m];
    forall x ensures (x in Union(ss2) <==> x in all) && (x in all ==> Union(ss2)[x] == all[x]) {
      UnionLookup(ss, |ss|, hash, x);
      UnionLookup(ss2, |ss|, hash, x);
    }
  }

  class Sharded<K(!new, ==), V> {
    const hash: K -> nat
    const shards: array<map<K, V>>

    ghost predicate Valid()
      reads this, shards
    {
      shards.Length > 0 && Placed(shards[..], shards.Length, hash)
    }

    /** The one map it stands for. */
    ghost function View(): map<K, V>
      reads this, shards
    {
      Union(shards[..])
    }

    constructor (count: nat, hash: K -> nat)
      requires count > 0
      ensures Valid() && View() == map[] && fresh(shards) && this.hash == hash && shards.Length == count
    {
      this.hash := hash;
      shards := new map<K, V>[count](i => map[]);
      new;
      forall k ensures k !in Union(shards[..]) { UnionLookup(shards[..], count, hash, k); }
    }

    function ShardOf(k: K): nat
      requires shards.Length > 0
      ensures ShardOf(k) < shards.Length
    {
      hash(k) % shards.Length
    }

    method Insert(k: K, v: V)
      requires Valid()
      modifies shards
      ensures Valid() && View() == old(View())[k := v]
    {
      var h := ShardOf(k);
      ghost var before := shards[..];
      shards[h] := shards[h][k := v];
      assert shards[..] == before[h := before[h][k := v]];
      UnionChange(before, hash, k, before[h][k := v], Union(before)[k := v]);
    }

    method Erase(k: K) returns (erased: bool)
      requires Valid()
      modifies shards
      ensures Valid() && View() == old(View()) - {k} && erased == (k in old(View()))
    {
      var h := ShardOf(k);
      ghost var before := shards[..];
      UnionLookup(before, shards.Length, hash, k);
      erased := k in shards[h];
      shards[h] := shards[h] - {k};
      assert shards[..] == before[h := before[h] - {k}];
      UnionChange(before, hash, k, before[h] - {k}, Union(before) - {k});
    }

    method Find(k: K) returns (r: Option<V>)
      requires Valid()
      ensures r == if k in View() then Some(View()[k]) else None
    {
      var h := ShardOf(k);
      UnionLookup(shards[..], shards.Length, hash, k);
      if k in shards[h] {
        r := Some(shards[h][k]);
      } else {
        r := None;
      }
    }

    method Contains(k: K) returns (r: bool)
      requires Valid()
      ensures r == (k in View())
    {
      var h := ShardOf(k);
      UnionLookup(shards[..], shards.Length, hash, k);
      r := k in shards[h];
    }

    /** WithShard with a function that looks up its key and adds `v` when it is missing. */
    method FindOrInsert(k: K, v: V) returns (r: V)
      requires Valid()
      modifies shards
      ensures Valid()
      ensures var was := old(View());
              if k in was then View() == was && r == was[k] else View() == was[k := v] && r == v
    {
      var h := ShardOf(k);
      UnionLookup(shards[..], shards.Length, hash, k);
      if k in shards[h] {
        return shards[h][k];
      }
      ghost var before := shards[..];
      shards[h] := shards[h][k := v];
      assert shards[..] == before[h := before[h][k := v]];
      UnionChange(before, hash, k, before[h][k := v], Union(before)[k := v]);
      r := v;
    }

    method Size() returns (total: nat)
      requires Valid()
      ensures total == |View()|
    {
      total := 0;
      for i := 0 to shards.Length
        invariant total == Sizes(shards[..i])
      {
        assert shards[..i + 1][..i] == shards[..i];
        total := total + |shards[i]|;
      }
      assert shards[..shards.Length] == shards[..];
      UnionSize(shards[..], shards.Length, hash);
    }
  }
}
