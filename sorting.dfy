/**
 * Kotlin's `sortedBy`, for the two keys the console sorts by: a name,
 * compared as Kotlin compares strings, and an integer cost.  Both sorts
 * insert each element after every earlier element whose key is not greater,
 * as a stable sort does.
 */
module Sorting {
  import opened Text

  /** `a <= b` for Kotlin strings. */
  predicate NameLe(a: string, b: string)
  {
    !StrLess(b, a)
  }

  lemma NameLeFacts(a: string, b: string, c: string)
    ensures NameLe(a, a)
    ensures NameLe(a, b) || NameLe(b, a)
    ensures NameLe(a, b) && NameLe(b, c) ==> NameLe(a, c)
    ensures StrLess(a, b) ==> NameLe(a, b)
  {
    StrLessIrreflexive(a);
    StrLessTotal(a, b);
    StrLessAsymmetric(a, b);
    if NameLe(a, b) && NameLe(b, c) {
      StrLessTotal(b, c);
      StrLessTotal(a, c);
      if StrLess(c, a) {
        if a == b {
        } else if b == c {
        } else {
          StrLessTransitive(a, b, c);
          StrLessAsymmetric(a, c);
        }
      }
    }
  }

  predicate SortedByName<T>(s: seq<T>, name: T -> string)
  {
    forall i, j :: 0 <= i < j < |s| ==> NameLe(name(s[i]), name(s[j]))
  }

  /** `x` placed after the leading elements whose name is not greater than its own. */
  function InsertByName<T>(x: T, s: seq<T>, name: T -> string): (r: seq<T>)
    ensures multiset(r) == multiset(s) + multiset{x}
  {
    if s == [] then [x]
    else if StrLess(name(x), name(s[0])) then [x] + s
    else
      assert s == [s[0]] + s[1..];
      [s[0]] + InsertByName(x, s[1..], name)
  }

  lemma {:induction false} InsertByNameSorted<T>(x: T, s: seq<T>, name: T -> string)
    requires SortedByName(s, name)
    ensures SortedByName(InsertByName(x, s, name), name)
  {
    if s == [] {
    } else if StrLess(name(x), name(s[0])) {
      var r := InsertByName(x, s, name);
      forall i, j | 0 <= i < j < |r| ensures NameLe(name(r[i]), name(r[j])) {
        if i == 0 {
          NameLeFacts(name(x), name(s[0]), name(s[j - 1]));
        }
      }
    } else {
      InsertByNameSorted(x, s[1..], name);
      var r := InsertByName(x, s, name);
      var tail := InsertByName(x, s[1..], name);
      assert r == [s[0]] + tail;
      forall j | 0 <= j < |tail| ensures NameLe(name(s[0]), name(tail[j])) {
        assert tail[j] in multiset(s[1..]) + multiset{x};
        if tail[j] in multiset(s[1..]) {
          var k :| 0 <= k < |s[1..]| && s[1..][k] == tail[j];
          assert s[k + 1] == tail[j];
        } else {
          NameLeFacts(name(x), name(s[0]), name(s[0]));
        }
      }
    }
  }

  /** `sortedBy { name(it) }`. */
  function SortByName<T>(s: seq<T>, name: T -> string): (r: seq<T>)
    ensures multiset(r) == multiset(s)
    ensures |r| == |s|
    decreases |s|
  {
    if s == [] then []
    else
      assert s == s[..|s| - 1] + [s[|s| - 1]];
      var r := InsertByName(s[|s| - 1], SortByName(s[..|s| - 1], name), name);
      assert |r| == |multiset(r)|;
      r
  }

  lemma {:induction false} SortByNameSorted<T>(s: seq<T>, name: T -> string)
    ensures SortedByName(SortByName(s, name), name)
    decreases |s|
  {
    if s != [] {
      SortByNameSorted(s[..|s| - 1], name);
      InsertByNameSorted(s[|s| - 1], SortByName(s[..|s| - 1], name), name);
    }
  }

  predicate SortedByCost<T>(s: seq<T>, cost: T -> int)
  {
    forall i, j :: 0 <= i < j < |s| ==> cost(s[i]) <= cost(s[j])
  }

  /** `x` placed after the leading elements whose cost is not greater than its own. */
  function InsertByCost<T>(x: T, s: seq<T>, cost: T -> int): (r: seq<T>)
    ensures multiset(r) == multiset(s) + multiset{x}
  {
    if s == [] then [x]
    else if cost(x) < cost(s[0]) then [x] + s
    else
      assert s == [s[0]] + s[1..];
      [s[0]] + InsertByCost(x, s[1..], cost)
  }

  /** Every element of an insertion comes from the sequence or is the inserted one. */
  lemma InsertByCostFrom<T>(x: T, s: seq<T>, cost: T -> int, j: nat)
    requires j < |InsertByCost(x, s, cost)|
    ensures InsertByCost(x, s, cost)[j] == x || exists k :: 0 <= k < |s| && s[k] == InsertByCost(x, s, cost)[j]
  {
    var y := InsertByCost(x, s, cost)[j];
    assert y in multiset(s) + multiset{x};
    if y in multiset(s) {
      assert y in s;
    }
  }

  lemma {:induction false} InsertByCostSorted<T>(x: T, s: seq<T>, cost: T -> int)
    requires SortedByCost(s, cost)
    ensures SortedByCost(InsertByCost(x, s, cost), cost)
  {
    if s != [] && cost(x) >= cost(s[0]) {
      InsertByCostSorted(x, s[1..], cost);
      var tail := InsertByCost(x, s[1..], cost);
      assert InsertByCost(x, s, cost) == [s[0]] + tail;
      forall j | 0 <= j < |tail| ensures cost(s[0]) <= cost(tail[j]) {
        InsertByCostFrom(x, s[1..], cost, j);
      }
    }
  }

  /** `sortedBy { cost(it) }`. */
  function SortByCost<T>(s: seq<T>, cost: T -> int): (r: seq<T>)
    ensures multiset(r) == multiset(s)
    ensures |r| == |s|
    decreases |s|
  {
    if s == [] then []
    else
      assert s == s[..|s| - 1] + [s[|s| - 1]];
      var r := InsertByCost(s[|s| - 1], SortByCost(s[..|s| - 1], cost), cost);
      assert |r| == |multiset(r)|;
      r
  }

  lemma {:induction false} SortByCostSorted<T>(s: seq<T>, cost: T -> int)
    ensures SortedByCost(SortByCost(s, cost), cost)
    decreases |s|
  {
    if s != [] {
      SortByCostSorted(s[..|s| - 1], cost);
      InsertByCostSorted(s[|s| - 1], SortByCost(s[..|s| - 1], cost), cost);
    }
  }
}
