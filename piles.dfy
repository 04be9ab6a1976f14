/**
 * Piles: an identified, ordered group of cards (the hand, the deck, the
 * discard pile, the street, the jail, the graveyard).
 */
module Piles {
  import opened Ids
  import opened Cards

  /** The ids of a sequence of cards, in order (ids never change, so this reads nothing). */
  function IdsOf(cards: seq<MutableCard>): (r: seq<Id>)
    ensures |r| == |cards|
    ensures forall i :: 0 <= i < |cards| ==> r[i] == cards[i].id
  {
    if cards == [] then [] else [cards[0].id] + IdsOf(cards[1..])
  }

  /** The value snapshots of a sequence of cards, in order. */
  function DataOf(cards: seq<MutableCard>): (r: seq<CardData>)
    reads set c | c in cards
    ensures |r| == |cards|
    ensures forall i :: 0 <= i < |cards| ==> r[i] == cards[i].Data()
  {
    if cards == [] then [] else [cards[0].Data()] + DataOf(cards[1..])
  }

  /** One more card of a sequence adds its snapshot at the end. */
  lemma DataOfPrefixSnoc(cards: seq<MutableCard>, i: nat)
    requires i < |cards|
    ensures DataOf(cards[..i + 1]) == DataOf(cards[..i]) + [cards[i].Data()]
  {
    var a, b := DataOf(cards[..i + 1]), DataOf(cards[..i]) + [cards[i].Data()];
    assert forall k :: 0 <= k <= i ==> a[k] == b[k];
  }

  class MutablePile {
    const id: Id
    var cards: seq<MutableCard>

    /** The internal constructor: the given id and cards. */
    constructor (id: Id, cards: seq<MutableCard>)
      ensures this.id == id && this.cards == cards
    {
      this.id := id;
      this.cards := cards;
    }

    /** The public constructor: the given cards (empty by default) under a new id. */
    static method Create(cards: seq<MutableCard>, ids: Uuids) returns (p: MutablePile)
      modifies ids
      ensures fresh(p)
      ensures p.id == old(ids.next) && p.cards == cards
      ensures ids.next == old(ids.next) + 1
    {
      var id := ids.Fresh();
      p := new MutablePile(id, cards);
    }

    /**
     * `copy()`: a new pile with the same id holding a copy of every card, in
     * order; each copy keeps the card's id and values and is a new object, so
     * changing the copy leaves this pile and its cards alone.
     */
    method Copy() returns (p: MutablePile)
      ensures fresh(p)
      ensures p.id == id
      ensures |p.cards| == |cards| && IdsOf(p.cards) == IdsOf(cards)
      ensures forall i :: 0 <= i < |p.cards| ==> fresh(p.cards[i])
      ensures DataOf(p.cards) == old(DataOf(cards))
    {
      var copies: seq<MutableCard> := [];
      var i := 0;
      while i < |cards|
        invariant 0 <= i <= |cards|
        invariant |copies| == i
        invariant forall k :: 0 <= k < i ==> fresh(copies[k])
        invariant forall k :: 0 <= k < i ==> copies[k].Data() == cards[k].Data()
      {
        var c := cards[i];
        var d := c.Copy(c.id, c.vpBase, c.vpPassive, c.counter, c.upgrades);
        copies := copies + [d];
        i := i + 1;
      }
      p := new MutablePile(id, copies);
    }
  }
}
