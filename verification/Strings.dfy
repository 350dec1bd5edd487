/** Byte-wise string order, as std::string and SQLite's BINARY collation compare, and sorted lists. */
module Strings {

  predicate Less(a: string, b: string) {
    if a == "" then b != ""
    else if b == "" then false
    else a[0] < b[0] || (a[0] == b[0] && Less(a[1..], b[1..]))
  }

  lemma {:induction false} LessIrreflexive(a: string)
    ensures !Less(a, a)
  {
    if a != "" { LessIrreflexive(a[1..]); }
  }

  lemma {:induction false} LessTotal(a: string, b: string)
    ensures a == b || Less(a, b) || Less(b, a)
    ensures !(Less(a, b) && Less(b, a))
    decreases |a|
  {
    if a != "" && b != "" {
      LessTotal(a[1..], b[1..]);
      if a[0] == b[0] && a[1..] == b[1..] {
        assert a == [a[0]] + a[1..] && b == [b[0]] + b[1..];
      }
    }
  }

  lemma {:induction false} LessTransitive(a: string, b: string, c: string)
    requires Less(a, b) && Less(b, c)
    ensures Less(a, c)
    decreases |a|
  {
    if a != "" && a[0] == b[0] == c[0] {
      LessTransitive(a[1..], b[1..], c[1..]);
    }
  }

  // ---- SortUnique -----------------------------------------------------------------------------

  predicate Sorted(s: seq<string>) {
    forall i, j :: 0 <= i < j < |s| ==> Less(s[i], s[j])
  }

  /** `x` inserted into a sorted list, unless it is there. */
  function Insert(s: seq<string>, x: string): (r: seq<string>)
    requires Sorted(s)
    ensures Sorted(r) && forall y :: y in r <==> y in s || y == x
    decreases |s|
  {
    if s == [] then [x]
    else
      var front, last := s[..|s| - 1], s[|s| - 1];
      assert s == front + [last];
      LessTotal(last, x);
      if Less(last, x) then
        assert forall i :: 0 <= i < |s| ==> Less(s[i], x) by {
          forall i | 0 <= i < |front| ensures Less(s[i], x) { LessTransitive(s[i], last, x); }
        }
        s + [x]
      else if last == x then s
      else
        var r := Insert(front, x);
        assert forall y :: y in r ==> Less(y, last);
        r + [last]
  }

  function SortUnique(ids: seq<string>): (r: seq<string>)
    ensures Sorted(r) && forall y :: y in r <==> y in ids
  {
    if ids == [] then [] else Insert(SortUnique(ids[..|ids| - 1]), ids[|ids| - 1])
  }

  lemma SameEmptiness(a: seq<string>, b: seq<string>)
    requires forall y :: y in a ==> y in b
    ensures b == [] ==> a == []
  {
    if a != [] { assert a[0] in a; }
  }

  lemma LastIsGreatest(a: seq<string>, y: string)
    requires Sorted(a) && y in a
    ensures y == a[|a| - 1] || Less(y, a[|a| - 1])
  {}

  lemma FrontOf(a: seq<string>)
    requires Sorted(a) && a != []
    ensures forall z :: z in a[..|a| - 1] <==> z in a && z != a[|a| - 1]
  {
    var front, last := a[..|a| - 1], a[|a| - 1];
    LessIrreflexive(last);
    assert a == front + [last];
  }

  lemma SameLast(a: seq<string>, b: seq<string>)
    requires Sorted(a) && Sorted(b) && a != [] && b != [] && forall y :: y in a <==> y in b
    ensures a[|a| - 1] == b[|b| - 1]
  {
    var x, y := a[|a| - 1], b[|b| - 1];
    assert x in b && y in a;
    LastIsGreatest(a, y);
    LastIsGreatest(b, x);
    LessTotal(x, y);
  }

  /** Sorted lists without repetition are determined by their elements. */
  lemma {:induction false} SortedUnique(a: seq<string>, b: seq<string>)
    requires Sorted(a) && Sorted(b) && forall y :: y in a <==> y in b
    ensures a == b
    decreases |a|
  {
    SameEmptiness(a, b);
    SameEmptiness(b, a);
    if a != [] {
      SameLast(a, b);
      FrontOf(a);
      FrontOf(b);
      var a2, b2 := a[..|a| - 1], b[..|b| - 1];
      forall z ensures z in a2 <==> z in b2 {
        assert z in a2 <==> z in a && z != a[|a| - 1];
        assert z in b2 <==> z in b && z != b[|b| - 1];
      }
      SortedUnique(a2, b2);
      assert a == a2 + [a[|a| - 1]] && b == b2 + [b[|b| - 1]];
    }
  }
}
