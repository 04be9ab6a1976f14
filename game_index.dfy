/**
 * The card-to-pile index of a game state, as values: the piles, the ids of
 * the cards each holds, and the map from card id to the pile holding it.  A
 * move takes the moved cards out of every pile, points their ids at the
 * target pile, and inserts them there.
 */
module GameIndex {
  import opened Wrappers
  import opened Ids
  import opened Cards
  import opened Piles
  import opened ListStrategies
  import Shop

  /** `removeAll { it.id in ids }` on a pile: the cards whose id is not in `ids`, in order. */
  function Without(s: seq<MutableCard>, ids: set<Id>): seq<MutableCard>
  {
    if s == [] then []
    else (if s[0].id in ids then [] else [s[0]]) + Without(s[1..], ids)
  }

  /** The same on the ids of a pile. */
  function WithoutIds(s: seq<Id>, ids: set<Id>): seq<Id>
  {
    if s == [] then []
    else (if s[0] in ids then [] else [s[0]]) + WithoutIds(s[1..], ids)
  }

  /** The ids of a list of cards, as a set. */
  function IdSet(s: seq<MutableCard>): (r: set<Id>)
    ensures forall id :: id in r <==> id in IdsOf(s)
    ensures r == Elements(IdsOf(s))
  {
    set k | 0 <= k < |s| :: s[k].id
  }

  lemma IdSetSnoc(s: seq<MutableCard>, i: nat)
    requires i < |s|
    ensures IdSet(s[..i + 1]) == IdSet(s[..i]) + {s[i].id}
    ensures IdsOf(s[..i + 1]) == IdsOf(s[..i]) + [s[i].id]
  {
    assert IdsOf(s[..i + 1]) == IdsOf(s[..i]) + [s[i].id];
  }

  lemma {:induction false} IdsOfWithout(s: seq<MutableCard>, ids: set<Id>)
    ensures IdsOf(Without(s, ids)) == WithoutIds(IdsOf(s), ids)
  {
    if s != [] {
      IdsOfWithout(s[1..], ids);
      var head := if s[0].id in ids then [] else [s[0]];
      IdsOfConcat(head, Without(s[1..], ids));
      assert IdsOf(s)[1..] == IdsOf(s[1..]);
    }
  }

  lemma {:induction false} IdsOfConcat(a: seq<MutableCard>, b: seq<MutableCard>)
    ensures IdsOf(a + b) == IdsOf(a) + IdsOf(b)
  {
    if a == [] {
      assert a + b == b;
    } else {
      assert (a + b)[1..] == a[1..] + b;
      IdsOfConcat(a[1..], b);
    }
  }

  lemma {:induction false} WithoutTwice(s: seq<MutableCard>, ids: set<Id>, more: set<Id>)
    ensures Without(Without(s, ids), more) == Without(s, ids + more)
  {
    if s != [] {
      WithoutTwice(s[1..], ids, more);
      if s[0].id !in ids {
        assert ([s[0]] + Without(s[1..], ids))[1..] == Without(s[1..], ids);
      } else {
        assert Without(s, ids) == Without(s[1..], ids);
      }
    }
  }

  lemma {:induction false} WithoutNothing(s: seq<MutableCard>)
    ensures Without(s, {}) == s
  {
    if s != [] {
      WithoutNothing(s[1..]);
    }
  }

  lemma {:induction false} WithoutAbsent(s: seq<MutableCard>, ids: set<Id>, more: set<Id>)
    requires forall k :: 0 <= k < |s| ==> s[k].id !in more
    ensures Without(s, ids + more) == Without(s, ids)
  {
    if s != [] {
      WithoutAbsent(s[1..], ids, more);
    }
  }

  /** What is left of a list of ids: no removed id, every other id kept, still without repeats. */
  lemma {:induction false} WithoutIdsFacts(s: seq<Id>, ids: set<Id>)
    ensures forall x :: x in WithoutIds(s, ids) <==> x in s && x !in ids
    ensures Distinct(s) ==> Distinct(WithoutIds(s, ids))
  {
    if s != [] {
      WithoutIdsFacts(s[1..], ids);
      var r := WithoutIds(s, ids);
      if Distinct(s) {
        assert Distinct(s[1..]);
        if s[0] !in ids {
          forall a, b | 0 <= a < b < |r|
            ensures r[a] != r[b]
          {
            if a == 0 {
              assert r[b] in WithoutIds(s[1..], ids);
              assert s[0] !in s[1..];
            } else {
              assert r[a] == WithoutIds(s[1..], ids)[a - 1] && r[b] == WithoutIds(s[1..], ids)[b - 1];
            }
          }
        }
      }
    }
  }

  /**
   * The index is consistent with the piles: the piles are distinct objects,
   * every card of a pile is indexed to that pile, every indexed id is held
   * by the pile it is indexed to, and no pile holds an id twice.
   */
  ghost predicate IndexConsistent(piles: seq<MutablePile>, ids: seq<seq<Id>>, index: map<Id, MutablePile>)
  {
    && |piles| == |ids|
    && (forall i, j :: 0 <= i < j < |piles| ==> piles[i] != piles[j])
    && (forall i, k :: 0 <= i < |ids| && 0 <= k < |ids[i]| ==> ids[i][k] in index && index[ids[i][k]] == piles[i])
    && (forall id :: id in index ==> index[id] in piles)
    && (forall i, id :: 0 <= i < |piles| && id in index && index[id] == piles[i] ==> id in ids[i])
    && (forall i :: 0 <= i < |ids| ==> Distinct(ids[i]))
  }

  /**
   * Under a consistent index, every id of the first four piles is placed in
   * the second exactly when the first, third and fourth piles are empty.
   */
  lemma AllInSecond(piles: seq<MutablePile>, ids: seq<seq<Id>>, index: map<Id, MutablePile>)
    requires IndexConsistent(piles, ids, index) && |piles| >= 4
    ensures AllIdsPlacedIn(ids[0] + ids[1] + ids[2] + ids[3], index, piles[1])
            <==> ids[0] == [] && ids[2] == [] && ids[3] == []
  {
    var o := ids[0] + ids[1] + ids[2] + ids[3];
    if ids[0] == [] && ids[2] == [] && ids[3] == [] {
      assert o == ids[1];
    } else if ids[0] != [] {
      assert o[0] == ids[0][0] && index[o[0]] == piles[0];
    } else if ids[2] != [] {
      var k := |ids[1]|;
      assert o[k] == ids[2][0] && index[o[k]] == piles[2];
    } else {
      var k := |ids[1]| + |ids[2]|;
      assert o[k] == ids[3][0] && index[o[k]] == piles[3];
    }
  }

  /** The index places every one of the cards in `pile`. */
  predicate AllPlacedIn(cards: seq<MutableCard>, index: map<Id, MutablePile>, pile: MutablePile)
  {
    forall k :: 0 <= k < |cards| ==> cards[k].id in index && index[cards[k].id] == pile
  }

  /** The index places every one of the ids in `pile`. */
  ghost predicate AllIdsPlacedIn(ids: seq<Id>, index: map<Id, MutablePile>, pile: MutablePile)
  {
    forall k :: 0 <= k < |ids| ==> ids[k] in index && index[ids[k]] == pile
  }

  lemma PlacedIds(cards: seq<MutableCard>, index: map<Id, MutablePile>, pile: MutablePile)
    ensures AllPlacedIn(cards, index, pile) == AllIdsPlacedIn(IdsOf(cards), index, pile)
  {
  }

  /** `AllInSecond` for the cards of the piles. */
  lemma AllCardsInSecond(piles: seq<MutablePile>, contents: seq<seq<MutableCard>>, index: map<Id, MutablePile>)
    requires |contents| >= 4 && IndexConsistent(piles, IdsOfAll(contents), index)
    ensures AllPlacedIn(contents[0] + contents[1] + contents[2] + contents[3], index, piles[1])
            <==> contents[0] == [] && contents[2] == [] && contents[3] == []
  {
    var ids := IdsOfAll(contents);
    AllInSecond(piles, ids, index);
    var o := contents[0] + contents[1] + contents[2] + contents[3];
    PlacedIds(o, index, piles[1]);
    IdsOfConcat(contents[0], contents[1]);
    IdsOfConcat(contents[0] + contents[1], contents[2]);
    IdsOfConcat(contents[0] + contents[1] + contents[2], contents[3]);
    assert IdsOf(o) == ids[0] + ids[1] + ids[2] + ids[3];
    assert |ids[0]| == |contents[0]| && |ids[2]| == |contents[2]| && |ids[3]| == |contents[3]|;
  }

  ghost predicate GloballyDistinct(ids: seq<seq<Id>>)
  {
    forall i, a, j, b ::
      (0 <= i < |ids| && 0 <= a < |ids[i]| && 0 <= j < |ids| && 0 <= b < |ids[j]| && (i != j || a != b))
      ==> ids[i][a] != ids[j][b]
  }

  /** The index the game state's `init` block builds: every card's id points to its pile, later piles winning. */
  function PileIndex(piles: seq<MutablePile>, ids: seq<seq<Id>>): map<Id, MutablePile>
    requires |piles| == |ids|
  {
    if piles == [] then map[]
    else
      var n := |piles| - 1;
      PointAll(PileIndex(piles[..n], ids[..n]), ids[n], piles[n])
  }

  /** Each id of the list in turn pointed at the pile. */
  function PointAll(index0: map<Id, MutablePile>, ids: seq<Id>, pile: MutablePile): map<Id, MutablePile>
  {
    if ids == [] then index0
    else PointAll(index0, ids[..|ids| - 1], pile)[ids[|ids| - 1] := pile]
  }

  /** After pointing, the listed ids map to the pile and every other id keeps its entry. */
  lemma {:induction false} PointAllFacts(index0: map<Id, MutablePile>, ids: seq<Id>, pile: MutablePile)
    ensures forall id :: id in PointAll(index0, ids, pile) <==> id in index0 || id in ids
    ensures forall id :: id in ids ==> PointAll(index0, ids, pile)[id] == pile
    ensures forall id :: id in index0 && id !in ids ==> PointAll(index0, ids, pile)[id] == index0[id]
  {
    if ids != [] {
      var n := |ids| - 1;
      PointAllFacts(index0, ids[..n], pile);
      assert ids == ids[..n] + [ids[n]];
    }
  }

  /** With no id in two places, the index holds each card's own pile and nothing else. */
  lemma {:induction false} PileIndexAt(piles: seq<MutablePile>, ids: seq<seq<Id>>)
    requires |piles| == |ids| && GloballyDistinct(ids)
    ensures forall i, k :: 0 <= i < |ids| && 0 <= k < |ids[i]| ==>
              ids[i][k] in PileIndex(piles, ids) && PileIndex(piles, ids)[ids[i][k]] == piles[i]
    ensures forall id :: id in PileIndex(piles, ids) ==> exists i :: 0 <= i < |ids| && id in ids[i] && PileIndex(piles, ids)[id] == piles[i]
    decreases |piles|
  {
    if piles != [] {
      var n := |piles| - 1;
      assert forall i :: 0 <= i < n ==> ids[..n][i] == ids[i];
      PileIndexAt(piles[..n], ids[..n]);
      PointAllFacts(PileIndex(piles[..n], ids[..n]), ids[n], piles[n]);
    }
  }

  /** Cards distinct across and within piles index consistently. */
  lemma {:induction false} DistinctIndexConsistent(piles: seq<MutablePile>, ids: seq<seq<Id>>)
    requires |piles| == |ids|
    requires forall i, j :: 0 <= i < j < |piles| ==> piles[i] != piles[j]
    requires GloballyDistinct(ids)
    ensures IndexConsistent(piles, ids, PileIndex(piles, ids))
  {
    PileIndexAt(piles, ids);
    var index := PileIndex(piles, ids);
    forall i, id | 0 <= i < |piles| && id in index && index[id] == piles[i]
      ensures id in ids[i]
    {
      var j :| 0 <= j < |ids| && id in ids[j] && index[id] == piles[j];
    }
  }

  /** Two consistent indexes over the same ids put an id in the piles at the same place. */
  lemma IndexesAgree(p: seq<MutablePile>, q: seq<MutablePile>, ids: seq<seq<Id>>,
                     ip: map<Id, MutablePile>, iq: map<Id, MutablePile>, id: Id)
    requires IndexConsistent(p, ids, ip) && IndexConsistent(q, ids, iq)
    ensures forall i :: 0 <= i < |p| ==> ((id in iq && iq[id] == q[i]) <==> (id in ip && ip[id] == p[i]))
  {
    forall i | 0 <= i < |p|
      ensures (id in iq && iq[id] == q[i]) <==> id in ids[i]
      ensures (id in ip && ip[id] == p[i]) <==> id in ids[i]
    {
      if id in ids[i] {
        var k :| 0 <= k < |ids[i]| && ids[i][k] == id;
      }
    }
  }

  /** A consistent index means no id occurs twice across the piles. */
  lemma {:induction false} ConsistentIsDistinct(piles: seq<MutablePile>, ids: seq<seq<Id>>, index: map<Id, MutablePile>)
    requires IndexConsistent(piles, ids, index)
    ensures GloballyDistinct(ids)
  {
    forall i, a, j, b | 0 <= i < |ids| && 0 <= a < |ids[i]| && 0 <= j < |ids| && 0 <= b < |ids[j]| && (i != j || a != b)
      ensures ids[i][a] != ids[j][b]
    {
      if i == j {
        assert Distinct(ids[i]);
      } else {
        assert index[ids[i][a]] == piles[i] && index[ids[j][b]] == piles[j];
        assert piles[i] != piles[j] by {
          if i < j {
          } else {
          }
        }
      }
    }
  }

  /**
   * Taking one more card out of the piles: a pile it is not indexed to does
   * not hold it, and removing the ids one set after another is removing
   * their union.
   */
  lemma {:induction false} DetachStep(piles: seq<MutablePile>, c0: seq<seq<MutableCard>>, index: map<Id, MutablePile>,
                                      done: set<Id>, d: Id)
    requires IndexConsistent(piles, IdsOfAll(c0), index)
    ensures forall l :: 0 <= l < |c0| && !(d in index && index[d] == piles[l]) ==> Without(c0[l], done + {d}) == Without(c0[l], done)
    ensures forall l :: 0 <= l < |c0| ==> Without(Without(c0[l], done), {d}) == Without(c0[l], done + {d})
  {
    forall l | 0 <= l < |c0|
      ensures !(d in index && index[d] == piles[l]) ==> Without(c0[l], done + {d}) == Without(c0[l], done)
      ensures Without(Without(c0[l], done), {d}) == Without(c0[l], done + {d})
    {
      WithoutTwice(c0[l], done, {d});
      if !(d in index && index[d] == piles[l]) {
        forall k | 0 <= k < |c0[l]|
          ensures c0[l][k].id !in {d}
        {
          assert IdsOfAll(c0)[l][k] == c0[l][k].id;
        }
        WithoutAbsent(c0[l], done, {d});
      }
    }
  }

  /** Taking out the card of a pile it is indexed to leaves every pile as if it had been removed along with the others. */
  lemma DetachContents(piles: seq<MutablePile>, c0: seq<seq<MutableCard>>, index: map<Id, MutablePile>,
                       done: set<Id>, d: Id, j: nat)
    requires IndexConsistent(piles, IdsOfAll(c0), index)
    requires d in index && j < |piles| && index[d] == piles[j]
    ensures WithoutAll(c0, done)[j := Without(WithoutAll(c0, done)[j], {d})] == WithoutAll(c0, done + {d})
  {
    DetachStep(piles, c0, index, done, d);
  }

  /** An unindexed card is in no pile, so taking it out changes nothing. */
  lemma DetachAbsent(piles: seq<MutablePile>, c0: seq<seq<MutableCard>>, index: map<Id, MutablePile>,
                     done: set<Id>, d: Id)
    requires IndexConsistent(piles, IdsOfAll(c0), index) && d !in index
    ensures WithoutAll(c0, done) == WithoutAll(c0, done + {d})
  {
    DetachStep(piles, c0, index, done, d);
  }

  /** Dropping an id from the index and then pointing it at the target pile redirects it along with the others. */
  lemma RedirectStep(index: map<Id, MutablePile>, done: set<Id>, d: Id, to: MutablePile)
    ensures (Redirect(index, done, to) - {d})[d := to] == Redirect(index, done + {d}, to)
    ensures Redirect(index, done, to)[d := to] == Redirect(index, done + {d}, to)
  {
  }

  /**
   * One step of taking the moved cards out, on values: the next card is in
   * the pile the index points it to and nowhere else, and afterwards the
   * index points it, and every card before it, at the target pile.
   */
  lemma DetachPrepares(piles: seq<MutablePile>, c0: seq<seq<MutableCard>>, idx0: map<Id, MutablePile>,
                       done: set<Id>, d: Id, to: MutablePile)
    requires IndexConsistent(piles, IdsOfAll(c0), idx0) && d !in done
    ensures var index := Redirect(idx0, done, to);
            var w := WithoutAll(c0, done);
            var w' := WithoutAll(c0, done + {d});
            && (d in index ==> index[d] in piles)
            && (d in index ==> forall l :: 0 <= l < |piles| && piles[l] == index[d] ==> w' == w[l := Without(w[l], {d})])
            && (d !in index ==> w' == w)
            && index[d := to] == Redirect(idx0, done + {d}, to)
  {
    if d in idx0 {
      var j :| 0 <= j < |piles| && piles[j] == idx0[d];
      DetachContents(piles, c0, idx0, done, d, j);
    } else {
      DetachAbsent(piles, c0, idx0, done, d);
    }
    RedirectStep(idx0, done, d, to);
  }

  /** The next card of a list without repeated ids is not among the ones before it. */
  lemma IdsOfPrefix(cards: seq<MutableCard>, i: nat)
    requires i <= |cards|
    ensures IdsOf(cards[..i]) == IdsOf(cards)[..i]
  {
  }

  lemma DistinctPrefixFresh<T>(s: seq<T>, i: nat)
    requires Distinct(s) && i < |s|
    ensures s[i] !in s[..i]
  {
    assert forall k :: 0 <= k < i ==> s[..i][k] == s[k];
  }

  lemma NextIdFresh(cards: seq<MutableCard>, i: nat)
    requires Distinct(IdsOf(cards)) && i < |cards|
    ensures cards[i].id !in IdSet(cards[..i])
  {
    IdsOfPrefix(cards, i);
    DistinctPrefixFresh(IdsOf(cards), i);
  }

  /** The index after the move: every moved id points to the target pile, every other id is unchanged. */
  function Redirect(index: map<Id, MutablePile>, moved: set<Id>, to: MutablePile): (r: map<Id, MutablePile>)
    ensures forall id :: id in r <==> id in index || id in moved
    ensures forall id :: id in moved ==> r[id] == to
    ensures forall id :: id in index && id !in moved ==> r[id] == index[id]
  {
    map id | id in index.Keys + moved :: if id in moved then to else index[id]
  }

  /** Every pile without the moved cards; the target pile then gets them inserted by the strategy. */
  function MovedContents(contents: seq<seq<MutableCard>>, t: nat, cards: seq<MutableCard>, strategy: ListStrategy,
                         draws: Draws, pos: nat): (r: seq<seq<MutableCard>>)
    requires t < |contents|
    ensures |r| == |contents|
    ensures forall i :: 0 <= i < |contents| && i != t ==> r[i] == Without(contents[i], IdSet(cards))
    ensures r[t] == Inserted(Without(contents[t], IdSet(cards)), cards, strategy, draws, pos)
  {
    seq(|contents|, i requires 0 <= i < |contents| =>
      if i == t then Inserted(Without(contents[t], IdSet(cards)), cards, strategy, draws, pos)
      else Without(contents[i], IdSet(cards)))
  }

  /** The same move on the ids of the piles. */
  function MovedIds(ids: seq<seq<Id>>, t: nat, moved: seq<Id>, strategy: ListStrategy, draws: Draws, pos: nat): (r: seq<seq<Id>>)
    requires t < |ids|
    ensures |r| == |ids|
    ensures forall i :: 0 <= i < |ids| && i != t ==> r[i] == WithoutIds(ids[i], Elements(moved))
    ensures r[t] == Inserted(WithoutIds(ids[t], Elements(moved)), moved, strategy, draws, pos)
  {
    var m := Elements(moved);
    seq(|ids|, i requires 0 <= i < |ids| =>
      if i == t then Inserted(WithoutIds(ids[t], m), moved, strategy, draws, pos)
      else WithoutIds(ids[i], m))
  }

  /** The ids of every pile. */
  function IdsOfAll(contents: seq<seq<MutableCard>>): (r: seq<seq<Id>>)
    ensures |r| == |contents| && forall i :: 0 <= i < |contents| ==> r[i] == IdsOf(contents[i])
  {
    seq(|contents|, i requires 0 <= i < |contents| => IdsOf(contents[i]))
  }

  function WithoutAll(contents: seq<seq<MutableCard>>, ids: set<Id>): (r: seq<seq<MutableCard>>)
    ensures |r| == |contents| && forall i :: 0 <= i < |contents| ==> r[i] == Without(contents[i], ids)
  {
    seq(|contents|, i requires 0 <= i < |contents| => Without(contents[i], ids))
  }

  /** The shop stock after `shop.remove` of each id in turn. */
  function EmptiedAll(stock: seq<MutableCard?>, ids: seq<Id>): (r: seq<MutableCard?>)
    ensures |r| == |stock|
  {
    if ids == [] then stock
    else Shop.Emptied(EmptiedAll(stock, ids[..|ids| - 1]), ids[|ids| - 1])
  }

  /** Emptying the slot of one card does not move the first slot of another. */
  lemma {:induction false} FirstSlotStable(stock: seq<MutableCard?>, e: Id, d: Id)
    requires e != d
    ensures Shop.FirstSlot(Shop.Emptied(stock, e), d) == Shop.FirstSlot(stock, d)
  {
    var s' := Shop.Emptied(stock, e);
    match Shop.FirstSlot(stock, d) {
      case None =>
        assert forall i :: 0 <= i < |s'| ==> s'[i] == null || s'[i] == stock[i];
      case Some(i) =>
        assert forall j :: 0 <= j < |s'| ==> s'[j] == null || s'[j] == stock[j];
        Shop.FirstSlotIs(s', d, i);
    }
  }

  lemma {:induction false} FirstSlotStableAll(stock: seq<MutableCard?>, ids: seq<Id>, d: Id)
    requires d !in ids
    ensures Shop.FirstSlot(EmptiedAll(stock, ids), d) == Shop.FirstSlot(stock, d)
  {
    if ids != [] {
      var n := |ids| - 1;
      FirstSlotStableAll(stock, ids[..n], d);
      FirstSlotStable(EmptiedAll(stock, ids[..n]), ids[n], d);
    }
  }

  /**
   * Removing distinct cards from the shop empties, for each of them, the
   * first slot that held it.
   */
  lemma {:induction false} EmptiedAllEmpties(stock: seq<MutableCard?>, ids: seq<Id>)
    requires Distinct(ids)
    ensures forall d, i :: d in ids && Shop.FirstSlot(stock, d) == Some(i) ==> EmptiedAll(stock, ids)[i] == null
  {
    if ids != [] {
      var n := |ids| - 1;
      var before := EmptiedAll(stock, ids[..n]);
      EmptiedAllEmpties(stock, ids[..n]);
      FirstSlotStableAll(stock, ids[..n], ids[n]);
      forall d, i | d in ids && Shop.FirstSlot(stock, d) == Some(i)
        ensures EmptiedAll(stock, ids)[i] == null
      {
        if d != ids[n] {
          assert d in ids[..n];
          assert before[i] == null;
        }
      }
    }
  }

  /** The first index of a pile with the given id, and whether a second one has it too. */
  function MatchingPiles(piles: seq<MutablePile>, id: Id): (r: seq<nat>)
    ensures forall k :: 0 <= k < |r| ==> r[k] < |piles| && piles[r[k]].id == id
    ensures forall j :: 0 <= j < |piles| && piles[j].id == id ==> j in r
    ensures forall a, b :: 0 <= a < b < |r| ==> r[a] < r[b]
  {
    if piles == [] then []
    else
      var n := |piles| - 1;
      MatchingPiles(piles[..n], id) + (if piles[n].id == id then [n] else [])
  }

  /** `single { it.id == id }`: the one pile with that id; none when no pile or more than one has it. */
  function SinglePile(piles: seq<MutablePile>, id: Id): (r: Option<nat>)
    ensures r.Some? ==> r.value < |piles| && piles[r.value].id == id
    ensures r.Some? ==> forall j :: 0 <= j < |piles| && j != r.value ==> piles[j].id != id
    ensures r.None? ==> (forall j :: 0 <= j < |piles| ==> piles[j].id != id)
                        || exists a, b :: 0 <= a < b < |piles| && piles[a].id == id && piles[b].id == id
  {
    var m := MatchingPiles(piles, id);
    if |m| == 1 then Some(m[0])
    else
      assert |m| >= 2 ==> m[0] < m[1] < |piles| && piles[m[0]].id == id && piles[m[1]].id == id;
      None
  }

  /** `isOwned`: the card is indexed to one of the owned piles. */
  predicate IsOwned(card: MutableCard, index: map<Id, MutablePile>, owned: seq<MutablePile>)
  {
    card.id in index && index[card.id] in owned
  }

  /** The cards of a move that were not owned before it, in order: those whose init actions run. */
  function Unowned(cards: seq<MutableCard>, index: map<Id, MutablePile>, owned: seq<MutablePile>): (r: seq<MutableCard>)
    ensures forall k :: 0 <= k < |r| ==> r[k] in cards && !IsOwned(r[k], index, owned)
    ensures forall k :: 0 <= k < |cards| && !IsOwned(cards[k], index, owned) ==> cards[k] in r
  {
    if cards == [] then []
    else (if IsOwned(cards[0], index, owned) then [] else [cards[0]]) + Unowned(cards[1..], index, owned)
  }

  /** The target pile of a move on the ids: the moved ids and its own others, none twice, its others in order. */
  lemma {:induction false} MovedTargetFacts(s: seq<Id>, moved: seq<Id>, strategy: ListStrategy, draws: Draws, pos: nat)
    requires Distinct(s) && Distinct(moved)
    ensures forall x :: x in Inserted(WithoutIds(s, Elements(moved)), moved, strategy, draws, pos) <==> x in s || x in moved
    ensures Distinct(Inserted(WithoutIds(s, Elements(moved)), moved, strategy, draws, pos))
    ensures Keep(Inserted(WithoutIds(s, Elements(moved)), moved, strategy, draws, pos), Elements(moved))
            == WithoutIds(s, Elements(moved))
  {
    var m := Elements(moved);
    var w := WithoutIds(s, m);
    WithoutIdsFacts(s, m);
    InsertedFacts(w, moved, strategy, draws, pos);
    assert forall k :: 0 <= k < |w| ==> w[k] in w;
    InsertedKeepsOrder(w, moved, strategy, draws, pos);
    InsertedDistinct(w, moved, strategy, draws, pos);
    var r := Inserted(w, moved, strategy, draws, pos);
    forall x
      ensures x in r <==> x in s || x in moved
    {
      assert x in r <==> x in multiset(r);
      assert x in w <==> x in multiset(w);
      assert x in moved <==> x in multiset(moved);
    }
  }

  /** What each pile holds after a move on the ids, and that no pile holds an id twice. */
  lemma {:induction false} MovedIdsFacts(ids: seq<seq<Id>>, t: nat, moved: seq<Id>, strategy: ListStrategy, draws: Draws, pos: nat)
    requires t < |ids| && Distinct(moved) && forall i :: 0 <= i < |ids| ==> Distinct(ids[i])
    ensures forall i, x :: 0 <= i < |ids| ==>
              (x in MovedIds(ids, t, moved, strategy, draws, pos)[i] <==> (x in ids[i] && x !in moved) || (i == t && x in moved))
    ensures forall i :: 0 <= i < |ids| ==> Distinct(MovedIds(ids, t, moved, strategy, draws, pos)[i])
    ensures Keep(MovedIds(ids, t, moved, strategy, draws, pos)[t], Elements(moved)) == WithoutIds(ids[t], Elements(moved))
  {
    var m := Elements(moved);
    var ids' := MovedIds(ids, t, moved, strategy, draws, pos);
    forall i | 0 <= i < |ids|
      ensures forall x :: x in ids'[i] <==> (x in ids[i] && x !in moved) || (i == t && x in moved)
      ensures Distinct(ids'[i])
    {
      if i == t {
        MovedTargetFacts(ids[t], moved, strategy, draws, pos);
      } else {
        WithoutIdsFacts(ids[i], m);
      }
    }
    MovedTargetFacts(ids[t], moved, strategy, draws, pos);
  }

  /**
   * A move keeps the index consistent.  Afterwards each moved card is in
   * the target pile and in no other, and the cards the target pile already
   * held keep their relative order.
   */
  lemma {:induction false} MoveKeepsIndex(piles: seq<MutablePile>, ids: seq<seq<Id>>, index: map<Id, MutablePile>, t: nat,
                                          moved: seq<Id>, strategy: ListStrategy, draws: Draws, pos: nat)
    requires IndexConsistent(piles, ids, index) && t < |piles| && Distinct(moved)
    ensures IndexConsistent(piles, MovedIds(ids, t, moved, strategy, draws, pos), Redirect(index, Elements(moved), piles[t]))
    ensures forall x :: x in moved ==> x in MovedIds(ids, t, moved, strategy, draws, pos)[t]
    ensures forall x, i :: x in moved && 0 <= i < |ids| && i != t ==> x !in MovedIds(ids, t, moved, strategy, draws, pos)[i]
    ensures Keep(MovedIds(ids, t, moved, strategy, draws, pos)[t], Elements(moved)) == WithoutIds(ids[t], Elements(moved))
  {
    var m := Elements(moved);
    var ids' := MovedIds(ids, t, moved, strategy, draws, pos);
    var index' := Redirect(index, m, piles[t]);
    MovedIdsFacts(ids, t, moved, strategy, draws, pos);
    forall i, k | 0 <= i < |ids'| && 0 <= k < |ids'[i]|
      ensures ids'[i][k] in index' && index'[ids'[i][k]] == piles[i]
    {
      var x := ids'[i][k];
      assert x in ids'[i];
      if x !in m {
        assert x in ids[i];
        var k' :| 0 <= k' < |ids[i]| && ids[i][k'] == x;
      }
    }
    forall i, id | 0 <= i < |piles| && id in index' && index'[id] == piles[i]
      ensures id in ids'[i]
    {
      if id in m {
        assert piles[t] == piles[i];
      } else {
        assert id in ids[i];
      }
    }
  }

  /** Taking the cards out and then inserting them into the target pile is the move. */
  lemma MovedContentsIs(c0: seq<seq<MutableCard>>, t: nat, cards: seq<MutableCard>, strategy: ListStrategy,
                        draws: Draws, pos: nat)
    requires t < |c0|
    ensures var w := WithoutAll(c0, IdSet(cards));
            w[t := Inserted(w[t], cards, strategy, draws, pos)] == MovedContents(c0, t, cards, strategy, draws, pos)
  {
  }

  /** After the redirect every moved card's id points to the target. */
  lemma RedirectCovers(index: map<Id, MutablePile>, cards: seq<MutableCard>, to: MutablePile)
    ensures forall k :: 0 <= k < |cards| ==>
              cards[k].id in Redirect(index, IdSet(cards), to) && Redirect(index, IdSet(cards), to)[cards[k].id] == to
  {
    forall k | 0 <= k < |cards|
      ensures cards[k].id in IdSet(cards)
    {
      assert IdsOf(cards)[k] == cards[k].id;
    }
  }

  /** The ids of the piles after a move are the move on the ids. */
  lemma {:induction false} IdsOfMoved(contents: seq<seq<MutableCard>>, t: nat, cards: seq<MutableCard>, strategy: ListStrategy,
                                      draws: Draws, pos: nat)
    requires t < |contents|
    ensures IdSet(cards) == Elements(IdsOf(cards))
    ensures IdsOfAll(MovedContents(contents, t, cards, strategy, draws, pos))
            == MovedIds(IdsOfAll(contents), t, IdsOf(cards), strategy, draws, pos)
  {
    var m := IdSet(cards);
    assert m == Elements(IdsOf(cards));
    var f := (c: MutableCard) => c.id;
    var before := IdsOfAll(contents);
    var after := IdsOfAll(MovedContents(contents, t, cards, strategy, draws, pos));
    var moved := MovedIds(before, t, IdsOf(cards), strategy, draws, pos);
    forall i | 0 <= i < |contents|
      ensures after[i] == moved[i]
    {
      IdsOfWithout(contents[i], m);
      if i == t {
        var w := Without(contents[t], m);
        InsertedMap(w, cards, f, strategy, draws, pos);
        IdsOfIsMap(w, f);
        IdsOfIsMap(cards, f);
        IdsOfIsMap(Inserted(w, cards, strategy, draws, pos), f);
        assert after[t] == IdsOf(Inserted(w, cards, strategy, draws, pos));
        assert IdsOf(w) == WithoutIds(before[t], m);
        assert moved[t] == Inserted(WithoutIds(before[t], m), IdsOf(cards), strategy, draws, pos);
      }
    }
  }

  lemma IdsOfIsMap(s: seq<MutableCard>, f: MutableCard -> Id)
    requires forall c :: f(c) == c.id
    ensures IdsOf(s) == Map(s, f)
  {
  }
}
