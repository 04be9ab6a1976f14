/**
 * Where cards go when they are added to a pile: as a block at the front, at
 * the back, or one by one at random positions.
 */
module ListStrategies {
  import opened Ids

  datatype ListStrategy = Front | Back | Random

  /** `add(i, x)` on a list: `x` ends up at index `i`, the tail shifted right. */
  function InsertAt<T>(s: seq<T>, i: nat, x: T): (r: seq<T>)
    requires i <= |s|
    ensures |r| == |s| + 1 && r[i] == x
    ensures forall k :: 0 <= k < i ==> r[k] == s[k]
    ensures forall k :: i < k <= |s| ==> r[k] == s[k - 1]
  {
    s[..i] + [x] + s[i..]
  }

  /** What an insertion keeps: the part before the index, the part from it on, and every element. */
  lemma InsertAtSplits<T>(s: seq<T>, i: nat, x: T)
    requires i < |s|
    ensures InsertAt(s, i, x)[..i] == s[..i] && InsertAt(s, i, x)[i + 1..] == s[i..]
    ensures multiset(InsertAt(s, i, x)) == multiset(s) + multiset{x}
  {
    assert s[..i] + s[i..] == s;
    assert InsertAt(s, i, x)[i + 1..] == s[i..];
  }

  /**
   * Each element of `xs` in turn goes to a random index of the list as it
   * is then, drawn among its size plus one positions.
   */
  function RandomInserted<T>(s: seq<T>, xs: seq<T>, draws: Draws, pos: nat): seq<T>
    decreases |xs|
  {
    if xs == [] then s
    else RandomInserted(InsertAt(s, draws(pos, |s| + 1), xs[0]), xs[1..], draws, pos + 1)
  }

  /**
   * The list after inserting `xs` with a strategy.  Only the random
   * strategy draws, one draw per element, starting at position `pos`.
   */
  function Inserted<T>(s: seq<T>, xs: seq<T>, strategy: ListStrategy, draws: Draws, pos: nat): seq<T>
  {
    match strategy
    case Front => xs + s
    case Back => s + xs
    case Random => RandomInserted(s, xs, draws, pos)
  }

  /** How many draws an insertion takes. */
  function DrawsTaken<T>(xs: seq<T>, strategy: ListStrategy): nat
  {
    if strategy == Random then |xs| else 0
  }

  /** The elements of a list, as a set. */
  function Elements<T>(s: seq<T>): set<T>
  {
    set x | x in s
  }

  /** The elements of `s` outside `e`, in order. */
  function Keep<T(==)>(s: seq<T>, e: set<T>): seq<T>
  {
    if s == [] then []
    else (if s[0] in e then [] else [s[0]]) + Keep(s[1..], e)
  }

  lemma {:induction false} KeepConcat<T>(a: seq<T>, b: seq<T>, e: set<T>)
    ensures Keep(a + b, e) == Keep(a, e) + Keep(b, e)
  {
    if a == [] {
      assert a + b == b;
    } else {
      assert (a + b)[1..] == a[1..] + b;
      KeepConcat(a[1..], b, e);
    }
  }

  lemma {:induction false} KeepDisjoint<T>(s: seq<T>, e: set<T>)
    requires forall k :: 0 <= k < |s| ==> s[k] !in e
    ensures Keep(s, e) == s
  {
    if s != [] {
      KeepDisjoint(s[1..], e);
    }
  }

  lemma {:induction false} KeepInsertAt<T>(s: seq<T>, i: nat, x: T, e: set<T>)
    requires i <= |s| && x in e
    ensures Keep(InsertAt(s, i, x), e) == Keep(s, e)
  {
    assert InsertAt(s, i, x) == s[..i] + ([x] + s[i..]);
    KeepConcat(s[..i], [x] + s[i..], e);
    assert ([x] + s[i..])[1..] == s[i..];
    KeepConcat(s[..i], s[i..], e);
    assert s[..i] + s[i..] == s;
  }

  lemma {:induction false} KeepAll<T>(s: seq<T>, e: set<T>)
    requires forall k :: 0 <= k < |s| ==> s[k] in e
    ensures Keep(s, e) == []
  {
    if s != [] {
      KeepAll(s[1..], e);
    }
  }

  lemma RandomInsertedFacts<T>(s: seq<T>, xs: seq<T>, draws: Draws, pos: nat, e: set<T>)
    requires forall k :: 0 <= k < |xs| ==> xs[k] in e
    ensures |RandomInserted(s, xs, draws, pos)| == |s| + |xs|
    ensures multiset(RandomInserted(s, xs, draws, pos)) == multiset(s) + multiset(xs)
    ensures Keep(RandomInserted(s, xs, draws, pos), e) == Keep(s, e)
  {
    RandomInsertedElements(s, xs, draws, pos);
    RandomInsertedKeeps(s, xs, draws, pos, e);
  }

  lemma InsertAtMultiset<T>(s: seq<T>, i: nat, x: T)
    requires i <= |s|
    ensures multiset(InsertAt(s, i, x)) == multiset(s) + multiset{x}
  {
    assert s[..i] + s[i..] == s;
  }

  lemma {:induction false} RandomInsertedElements<T>(s: seq<T>, xs: seq<T>, draws: Draws, pos: nat)
    ensures |RandomInserted(s, xs, draws, pos)| == |s| + |xs|
    ensures multiset(RandomInserted(s, xs, draws, pos)) == multiset(s) + multiset(xs)
    decreases |xs|
  {
    if xs != [] {
      var i := draws(pos, |s| + 1);
      InsertAtMultiset(s, i, xs[0]);
      RandomInsertedElements(InsertAt(s, i, xs[0]), xs[1..], draws, pos + 1);
      assert xs == [xs[0]] + xs[1..];
    }
  }

  lemma {:induction false} RandomInsertedKeeps<T>(s: seq<T>, xs: seq<T>, draws: Draws, pos: nat, e: set<T>)
    requires forall k :: 0 <= k < |xs| ==> xs[k] in e
    ensures Keep(RandomInserted(s, xs, draws, pos), e) == Keep(s, e)
    decreases |xs|
  {
    if xs != [] {
      var i := draws(pos, |s| + 1);
      KeepInsertAt(s, i, xs[0], e);
      RandomInsertedKeeps(InsertAt(s, i, xs[0]), xs[1..], draws, pos + 1, e);
    }
  }

  /**
   * Every strategy adds exactly the inserted elements; the front strategy
   * puts the new block first and the back strategy last, both in the given
   * order.
   */
  lemma {:induction false} InsertedFacts<T>(s: seq<T>, xs: seq<T>, strategy: ListStrategy, draws: Draws, pos: nat)
    ensures |Inserted(s, xs, strategy, draws, pos)| == |s| + |xs|
    ensures multiset(Inserted(s, xs, strategy, draws, pos)) == multiset(s) + multiset(xs)
    ensures strategy == Front ==> Inserted(s, xs, strategy, draws, pos)[..|xs|] == xs
    ensures strategy == Back ==> Inserted(s, xs, strategy, draws, pos)[|s|..] == xs
  {
    if strategy == Random {
      RandomInsertedFacts(s, xs, draws, pos, Elements(xs));
    }
  }

  /** Every strategy keeps the elements already in the list in their relative order. */
  lemma {:induction false} InsertedKeepsOrder<T>(s: seq<T>, xs: seq<T>, strategy: ListStrategy, draws: Draws, pos: nat)
    requires forall k :: 0 <= k < |s| ==> s[k] !in xs
    ensures Keep(Inserted(s, xs, strategy, draws, pos), Elements(xs)) == s
  {
    var e := Elements(xs);
    assert forall k :: 0 <= k < |xs| ==> xs[k] in e;
    match strategy {
      case Front =>
        KeepConcat(xs, s, e);
        KeepAll(xs, e);
      case Back =>
        KeepConcat(s, xs, e);
        KeepAll(xs, e);
      case Random =>
        RandomInsertedFacts(s, xs, draws, pos, e);
    }
    KeepDisjoint(s, e);
  }

  /** Insertion commutes with a map over the elements, as long as the map is applied to both lists. */
  lemma {:induction false} InsertedMap<T, U>(s: seq<T>, xs: seq<T>, f: T -> U, strategy: ListStrategy, draws: Draws, pos: nat)
    ensures Map(Inserted(s, xs, strategy, draws, pos), f) == Inserted(Map(s, f), Map(xs, f), strategy, draws, pos)
  {
    match strategy {
      case Front => MapConcat(xs, s, f);
      case Back => MapConcat(s, xs, f);
      case Random => RandomInsertedMap(s, xs, f, draws, pos);
    }
  }

  lemma {:induction false} RandomInsertedMap<T, U>(s: seq<T>, xs: seq<T>, f: T -> U, draws: Draws, pos: nat)
    ensures Map(RandomInserted(s, xs, draws, pos), f) == RandomInserted(Map(s, f), Map(xs, f), draws, pos)
    decreases |xs|
  {
    if xs != [] {
      var s' := InsertAt(s, draws(pos, |s| + 1), xs[0]);
      RandomInsertedMap(s', xs[1..], f, draws, pos + 1);
      RandomInsertedMapStep(s, xs, f, draws, pos);
    }
  }

  /** One insertion of `RandomInsertedMap`: the first element goes to the same index in both lists. */
  lemma RandomInsertedMapStep<T, U>(s: seq<T>, xs: seq<T>, f: T -> U, draws: Draws, pos: nat)
    requires xs != []
    requires var s' := InsertAt(s, draws(pos, |s| + 1), xs[0]);
             Map(RandomInserted(s', xs[1..], draws, pos + 1), f) == RandomInserted(Map(s', f), Map(xs[1..], f), draws, pos + 1)
    ensures Map(RandomInserted(s, xs, draws, pos), f) == RandomInserted(Map(s, f), Map(xs, f), draws, pos)
  {
    var i := draws(pos, |s| + 1);
    MapInsertAt(s, i, xs[0], f);
    MapTail(xs, f);
  }

  lemma MapInsertAt<T, U>(s: seq<T>, i: nat, x: T, f: T -> U)
    requires i <= |s|
    ensures Map(InsertAt(s, i, x), f) == InsertAt(Map(s, f), i, f(x))
  {
    var a, b := Map(InsertAt(s, i, x), f), InsertAt(Map(s, f), i, f(x));
    assert |a| == |b|;
    forall k | 0 <= k < |a|
      ensures a[k] == b[k]
    {
      if k < i {
        assert a[k] == f(s[k]);
      } else if k > i {
        assert a[k] == f(s[k - 1]);
      }
    }
  }

  lemma MapTail<T, U>(xs: seq<T>, f: T -> U)
    requires xs != []
    ensures Map(xs, f)[1..] == Map(xs[1..], f)
  {
  }

  function Map<T, U>(s: seq<T>, f: T -> U): (r: seq<U>)
    ensures |r| == |s| && forall k :: 0 <= k < |s| ==> r[k] == f(s[k])
  {
    if s == [] then [] else [f(s[0])] + Map(s[1..], f)
  }

  lemma MapConcat<T, U>(a: seq<T>, b: seq<T>, f: T -> U)
    ensures Map(a + b, f) == Map(a, f) + Map(b, f)
  {
    assert forall k :: 0 <= k < |a + b| ==> Map(a + b, f)[k] == (Map(a, f) + Map(b, f))[k];
  }

  /** No element occurs twice. */
  ghost predicate Distinct<T>(s: seq<T>)
  {
    forall a, b :: 0 <= a < b < |s| ==> s[a] != s[b]
  }

  lemma {:induction false} InsertAtDistinct<T>(s: seq<T>, i: nat, x: T)
    requires i <= |s| && Distinct(s) && x !in s
    ensures Distinct(InsertAt(s, i, x))
  {
    var r := InsertAt(s, i, x);
    forall a, b | 0 <= a < b < |r|
      ensures r[a] != r[b]
    {
      if a != i && b != i {
        var a' := if a < i then a else a - 1;
        var b' := if b < i then b else b - 1;
        assert r[a] == s[a'] && r[b] == s[b'];
      }
    }
  }

  lemma {:induction false} RandomInsertedDistinct<T>(s: seq<T>, xs: seq<T>, draws: Draws, pos: nat)
    requires Distinct(s) && Distinct(xs) && forall k :: 0 <= k < |xs| ==> xs[k] !in s
    ensures Distinct(RandomInserted(s, xs, draws, pos))
    decreases |xs|
  {
    if xs != [] {
      var i := draws(pos, |s| + 1);
      InsertAtDistinct(s, i, xs[0]);
      var s' := InsertAt(s, i, xs[0]);
      assert s[..i] + s[i..] == s;
      assert multiset(s') == multiset(s) + multiset{xs[0]};
      forall k | 0 <= k < |xs[1..]|
        ensures xs[1..][k] !in s'
      {
        assert xs[1..][k] == xs[k + 1] && xs[k + 1] != xs[0];
        assert xs[k + 1] !in multiset(s');
      }
      RandomInsertedDistinct(s', xs[1..], draws, pos + 1);
    }
  }

  /** Inserting new, distinct elements into a list without repeats gives a list without repeats. */
  lemma {:induction false} InsertedDistinct<T>(s: seq<T>, xs: seq<T>, strategy: ListStrategy, draws: Draws, pos: nat)
    requires Distinct(s) && Distinct(xs) && forall k :: 0 <= k < |xs| ==> xs[k] !in s
    ensures Distinct(Inserted(s, xs, strategy, draws, pos))
  {
    match strategy {
      case Front =>
        var r := xs + s;
        forall a, b | 0 <= a < b < |r|
          ensures r[a] != r[b]
        {
          if a < |xs| <= b {
            assert r[a] == xs[a] && r[b] == s[b - |xs|];
          }
        }
      case Back =>
        var r := s + xs;
        forall a, b | 0 <= a < b < |r|
          ensures r[a] != r[b]
        {
          if a < |s| <= b {
            assert r[a] == s[a] && r[b] == xs[b - |s|];
          }
        }
      case Random =>
        RandomInsertedDistinct(s, xs, draws, pos);
    }
  }
}
