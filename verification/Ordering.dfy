/** The iteration order of the source's ordered maps: their keys from least to greatest. */
module Ordering {

  ghost predicate TotalOrder<K(!new)>(leq: (K, K) -> bool) {
    && (forall a, b :: leq(a, b) || leq(b, a))
    && (forall a, b :: leq(a, b) && leq(b, a) ==> a == b)
    && (forall a, b, c :: leq(a, b) && leq(b, c) ==> leq(a, c))
  }

  ghost predicate Ascending<K>(s: seq<K>, leq: (K, K) -> bool) {
    forall i, j :: 0 <= i < j < |s| ==> leq(s[i], s[j]) && s[i] != s[j]
  }

  lemma SomeElement<K>(keys: set<K>) returns (k: K)
    requires keys != {}
    ensures k in keys
  {
    k :| k in keys;
  }

  lemma LeastExists<K(!new)>(keys: set<K>, leq: (K, K) -> bool) returns (least: K)
    requires TotalOrder(leq) && keys != {}
    ensures least in keys && forall k :: k in keys ==> leq(least, k)
  {
    var some :| some in keys;
    var rest := keys - {some};
    if rest == {} {
      assert keys == {some};
      least := some;
    } else {
      var low := LeastExists(rest, leq);
      least := if leq(some, low) then some else low;
      forall k | k in keys
        ensures leq(least, k)
      {
        assert k == some || k in rest;
      }
    }
  }

  function Least<K(!new, ==)>(keys: set<K>, leq: (K, K) -> bool): (least: K)
    requires TotalOrder(leq) && keys != {}
    ensures least in keys && forall k :: k in keys ==> leq(least, k)
  {
    assert exists k :: k in keys && forall j :: j in keys ==> leq(k, j) by {
      var least := LeastExists(keys, leq);
    }
    var k :| k in keys && forall j :: j in keys ==> leq(k, j);
    k
  }

  /** The keys in ascending order, each once. */
  function InOrder<K(!new, ==)>(keys: set<K>, leq: (K, K) -> bool): (s: seq<K>)
    requires TotalOrder(leq)
    ensures forall k :: k in s <==> k in keys
    ensures |s| == |keys|
    ensures Ascending(s, leq)
    decreases |keys|
  {
    if keys == {} then
      []
    else
      var k := Least(keys, leq);
      var rest := InOrder(keys - {k}, leq);
      PutLeastFirst(k, rest, keys, leq);
      [k] + rest
  }

  lemma PutLeastFirst<K(!new)>(least: K, rest: seq<K>, keys: set<K>, leq: (K, K) -> bool)
    requires least in keys && forall k :: k in keys ==> leq(least, k)
    requires Ascending(rest, leq) && |rest| == |keys| - 1
    requires forall k :: k in rest <==> k in keys - {least}
    ensures Ascending([least] + rest, leq)
    ensures forall k :: k in [least] + rest <==> k in keys
  {
    var s := [least] + rest;
    forall i, j | 0 <= i < j < |s|
      ensures leq(s[i], s[j]) && s[i] != s[j]
    {
      assert s[j] == rest[j - 1] && rest[j - 1] in rest;
    }
  }

  predicate IntLeq(a: int, b: int) {
    a <= b
  }

  function SortedInts(keys: set<int>): (s: seq<int>)
    ensures forall k :: k in s <==> k in keys
    ensures forall i :: 0 <= i < |s| ==> s[i] in keys
    ensures |s| == |keys|
    ensures forall i, j :: 0 <= i < j < |s| ==> s[i] < s[j]
  {
    var s := InOrder(keys, IntLeq);
    assert forall i :: 0 <= i < |s| ==> s[i] in s;
    s
  }

  /** Byte-wise lexicographic order, a proper prefix first. */
  predicate StringLeq(a: string, b: string) {
    if a == [] then true
    else if b == [] then false
    else a[0] < b[0] || (a[0] == b[0] && StringLeq(a[1..], b[1..]))
  }

  /** The first characters that differ decide. */
  lemma {:induction false} FirstDifferenceDecides(common: string, a: string, b: string)
    requires a == [] || b == [] || a[0] != b[0]
    ensures StringLeq(common + a, common + b) <==> a == [] || (b != [] && a[0] < b[0])
  {
    if common == [] {
      assert common + a == a && common + b == b;
    } else {
      assert (common + a)[1..] == common[1..] + a && (common + b)[1..] == common[1..] + b;
      FirstDifferenceDecides(common[1..], a, b);
    }
  }

  lemma {:induction false} StringLeqTransitive(a: string, b: string, c: string)
    requires StringLeq(a, b) && StringLeq(b, c)
    ensures StringLeq(a, c)
  {
    if a != [] && a[0] == b[0] == c[0] {
      StringLeqTransitive(a[1..], b[1..], c[1..]);
    }
  }

  lemma {:induction false} StringLeqLinear(a: string, b: string)
    ensures StringLeq(a, b) || StringLeq(b, a)
    ensures StringLeq(a, b) && StringLeq(b, a) ==> a == b
  {
    if a != [] && b != [] && a[0] == b[0] {
      StringLeqLinear(a[1..], b[1..]);
      assert a == [a[0]] + a[1..] && b == [b[0]] + b[1..];
    }
  }

  lemma StringOrderIsTotal()
    ensures TotalOrder(StringLeq)
  {
    forall a, b
      ensures StringLeq(a, b) || StringLeq(b, a)
      ensures StringLeq(a, b) && StringLeq(b, a) ==> a == b
    {
      StringLeqLinear(a, b);
    }
    forall a, b, c | StringLeq(a, b) && StringLeq(b, c)
      ensures StringLeq(a, c)
    {
      StringLeqTransitive(a, b, c);
    }
  }

  function SortedStrings(keys: set<string>): (s: seq<string>)
    ensures forall k :: k in s <==> k in keys
    ensures forall i :: 0 <= i < |s| ==> s[i] in keys
    ensures |s| == |keys|
    ensures forall i, j :: 0 <= i < j < |s| ==> StringLeq(s[i], s[j]) && s[i] != s[j]
  {
    StringOrderIsTotal();
    var s := InOrder(keys, StringLeq);
    assert forall i :: 0 <= i < |s| ==> s[i] in s;
    s
  }
}
