/**
 * The mutable state of one game: the counters, the shop, the six piles, the
 * blueprints and buildings, the history log, and the index from card id to
 * the pile holding the card.  The index is kept consistent with the piles
 * by every operation that moves cards.
 */
module GameStates {
  import opened Wrappers
  import opened Ids
  import opened Cards
  import opened Buildings
  import opened Piles
  import opened ListStrategies
  import opened GameChanges
  import opened GameIndex
  import Shop

  datatype GameError =
    | /** `single` found no pile, or more than one, with the target's id. */ NoSuchPile
    | /** The entry to insert before is not in the history (`add(-1, …)` throws). */ NotInHistory

  /** `coerceAtLeast(lo)`. */
  function AtLeast(v: int, lo: int): (r: int)
    ensures r >= lo && r >= v && (r == v || r == lo)
  {
    if v < lo then lo else v
  }

  /** `coerceAtMost(hi)`. */
  function AtMost(v: int, hi: int): (r: int)
    ensures r <= hi && r <= v && (r == v || r == hi)
  {
    if v > hi then hi else v
  }

  /** The hand size setter: never below one, and never smaller than it already is. */
  function GrownHandSize(v: int, current: int): (r: int)
    ensures r >= 1 && r >= current && r >= v
    ensures r == v || r == current || r == 1
  {
    AtLeast(v, if current > 1 then current else 1)
  }

  /** `sumOf { it.vpTotal }`. */
  function SumVp(cards: seq<CardData>): int
  {
    if cards == [] then 0 else Cards.VpTotal(cards[0]) + SumVp(cards[1..])
  }

  lemma {:induction false} SumVpConcat(a: seq<CardData>, b: seq<CardData>)
    ensures SumVp(a + b) == SumVp(a) + SumVp(b)
  {
    if a == [] {
      assert a + b == b;
    } else {
      assert (a + b)[1..] == a[1..] + b;
      SumVpConcat(a[1..], b);
    }
  }

  /** Cards whose totals are never negative never add up to a negative score. */
  lemma {:induction false} SumVpNonNegative(cards: seq<CardData>)
    requires forall k :: 0 <= k < |cards| ==> Cards.VpTotal(cards[k]) >= 0
    ensures SumVp(cards) >= 0
  {
    if cards != [] {
      SumVpNonNegative(cards[1..]);
    }
  }

  /** `isGameOver` on a history: its last entry is the game-over entry. */
  predicate IsOver(h: seq<GameStateChange>)
  {
    h != [] && h[|h| - 1].GameOver?
  }

  /** The history once the game is known to have started. */
  function Opened(h: seq<GameStateChange>, started: bool): seq<GameStateChange>
  {
    if started then h else h + [GameStarted]
  }

  /** The entry to insert before is given but cannot be found, so the insertion fails. */
  predicate Rejected(h: seq<GameStateChange>, started: bool, insertBefore: Option<GameStateChange>)
  {
    !IsOver(h) && insertBefore.Some? && insertBefore.value !in Opened(h, started)
  }

  /** The history after `apply(change, insertBefore)`. */
  function Logged(h: seq<GameStateChange>, started: bool, change: GameStateChange, insertBefore: Option<GameStateChange>)
    : (r: seq<GameStateChange>)
    ensures IsOver(h) ==> r == h
    ensures !IsOver(h) ==>
              multiset(r) == multiset(Opened(h, started)) + if Rejected(h, started, insertBefore) then multiset{} else multiset{change}
  {
    if IsOver(h) then h
    else
      var o := Opened(h, started);
      match insertBefore
      case None => o + [change]
      case Some(b) =>
        var i := IndexOf(o, b);
        if i < 0 then o
        else
          assert multiset(InsertAt(o, i, change)) == multiset(o) + multiset{change} by { InsertAtSplits(o, i, change); }
          InsertAt(o, i, change)
  }

  /**
   * Applying a change to a finished game logs nothing.  Otherwise the game
   * is marked as started if it was not, and the change goes at the end;
   * when the entry to insert before is missing only the start is logged.
   */
  lemma LoggedAppends(h: seq<GameStateChange>, started: bool, change: GameStateChange, insertBefore: Option<GameStateChange>)
    ensures IsOver(h) ==> Logged(h, started, change, insertBefore) == h
    ensures !IsOver(h) && insertBefore == None ==> Logged(h, started, change, insertBefore) == Opened(h, started) + [change]
    ensures Rejected(h, started, insertBefore) ==> Logged(h, started, change, insertBefore) == Opened(h, started)
  {
  }

  /**
   * An insertion puts the change right before the first occurrence of the
   * entry given, with everything else kept in order.
   */
  lemma LoggedInserts(h: seq<GameStateChange>, started: bool, change: GameStateChange, b: GameStateChange)
    requires !IsOver(h) && !Rejected(h, started, Some(b))
    ensures var o := Opened(h, started);
            var i := IndexOf(o, b);
            var r := Logged(h, started, change, Some(b));
            0 <= i < |o| && r[..i] == o[..i] && r[i] == change && r[i + 1..] == o[i..] && r[i + 1] == b
            && multiset(r) == multiset(o) + multiset{change}
  {
    var o := Opened(h, started);
    InsertAtSplits(o, IndexOf(o, b), change);
  }

  /**
   * When no other entry of the history equals the one at `k`, inserting
   * before that entry puts the change exactly at `k`: there the lookup by
   * value and the lookup of that very entry agree.
   */
  lemma LoggedInsertsAt(h: seq<GameStateChange>, started: bool, change: GameStateChange, k: nat)
    requires !IsOver(h) && k < |Opened(h, started)|
    requires forall j :: 0 <= j < |Opened(h, started)| && j != k ==> Opened(h, started)[j] != Opened(h, started)[k]
    ensures Logged(h, started, change, Some(Opened(h, started)[k])) == InsertAt(Opened(h, started), k, change)
  {
    var o := Opened(h, started);
    var i := IndexOf(o, o[k]);
    assert o[i] == o[k];
  }

  /** The history only grows, and a game that had not started has its start logged first. */
  lemma {:induction false} LoggedGrows(h: seq<GameStateChange>, started: bool, change: GameStateChange,
                                       insertBefore: Option<GameStateChange>)
    ensures |Logged(h, started, change, insertBefore)| >= |h|
    ensures !IsOver(h) && !started ==> Logged(h, started, change, insertBefore) != []
    ensures !IsOver(h) && !started && insertBefore == None ==> Logged(h, started, change, insertBefore)[..|h| + 1] == h + [GameStarted]
  {
    if !IsOver(h) && !started && insertBefore == None {
      assert (h + [GameStarted] + [change])[..|h| + 1] == h + [GameStarted];
    }
  }

  /** A game-over entry appended to a running game ends it. */
  lemma GameOverEnds(h: seq<GameStateChange>, started: bool)
    requires !IsOver(h)
    ensures IsOver(Logged(h, started, GameOver, None))
    ensures forall c, b :: Logged(Logged(h, started, GameOver, None), true, c, b) == Logged(h, started, GameOver, None)
  {
  }

  /**
   * `MutableList.insert`: the cards go in as a block at the front, one by
   * one at the back, or one by one at an index drawn among the list's size
   * plus one positions.
   */
  method InsertInto(pile: MutablePile, cards: seq<MutableCard>, strategy: ListStrategy, random: RandomSource)
    modifies pile, random
    ensures pile.cards == Inserted(old(pile.cards), cards, strategy, random.draws, old(random.position))
    ensures random.position == old(random.position) + DrawsTaken(cards, strategy)
  {
    match strategy {
      case Front => InsertFront(pile, cards);
      case Back => InsertBack(pile, cards);
      case Random => InsertRandom(pile, cards, random);
    }
  }

  /** The front strategy: each card goes in after the ones inserted before it, so the block keeps its order. */
  method InsertFront(pile: MutablePile, cards: seq<MutableCard>)
    modifies pile
    ensures pile.cards == cards + old(pile.cards)
  {
    var i := 0;
    while i < |cards|
      invariant 0 <= i <= |cards|
      invariant pile.cards == cards[..i] + old(pile.cards)
    {
      assert InsertAt(pile.cards, i, cards[i]) == cards[..i + 1] + old(pile.cards);
      pile.cards := InsertAt(pile.cards, i, cards[i]);
      i := i + 1;
    }
    assert cards[..i] == cards;
  }

  /** The back strategy: each card is appended in turn. */
  method InsertBack(pile: MutablePile, cards: seq<MutableCard>)
    modifies pile
    ensures pile.cards == old(pile.cards) + cards
  {
    var i := 0;
    while i < |cards|
      invariant 0 <= i <= |cards|
      invariant pile.cards == old(pile.cards) + cards[..i]
    {
      assert old(pile.cards) + cards[..i + 1] == old(pile.cards) + cards[..i] + [cards[i]];
      pile.cards := pile.cards + [cards[i]];
      i := i + 1;
    }
    assert cards[..i] == cards;
  }

  /** The random strategy: each card goes to an index drawn among the pile's size plus one positions. */
  method InsertRandom(pile: MutablePile, cards: seq<MutableCard>, random: RandomSource)
    modifies pile, random
    ensures pile.cards == RandomInserted(old(pile.cards), cards, random.draws, old(random.position))
    ensures random.position == old(random.position) + |cards|
  {
    ghost var goal := RandomInserted(old(pile.cards), cards, random.draws, random.position);
    var i := 0;
    while i < |cards|
      invariant 0 <= i <= |cards|
      invariant random.position == old(random.position) + i
      invariant goal == RandomInserted(pile.cards, cards[i..], random.draws, random.position)
    {
      assert cards[i..][1..] == cards[i + 1..];
      var index := random.NextInt(|pile.cards| + 1);
      pile.cards := InsertAt(pile.cards, index, cards[i]);
      i := i + 1;
    }
  }

  class MutableGameState {
    const random: RandomSource
    var numTurns: int
    var turn: int
    var cash: int
    var influence: int
    var luck: int
    var vp: int
    var handSize: int
    const shop: Shop.MutableShop
    const deck: MutablePile
    const hand: MutablePile
    const street: MutablePile
    const discard: MutablePile
    const jail: MutablePile
    const graveyard: MutablePile
    var blueprints: seq<Blueprint>
    var buildings: seq<MutableBuilding>
    var history: seq<GameStateChange>
    var cardPiles: map<Id, MutablePile>

    /** Every pile, in the order the index is built from. */
    function AllPiles(): seq<MutablePile>
    {
      [hand, deck, discard, street, jail, graveyard]
    }

    /** The piles whose cards the player owns. */
    function OwnedPiles(): seq<MutablePile>
    {
      [hand, deck, discard, street]
    }

    /** The cards of every pile, in the order of `AllPiles`. */
    function Contents(): seq<seq<MutableCard>>
      reads hand, deck, discard, street, jail, graveyard
    {
      [hand.cards, deck.cards, discard.cards, street.cards, jail.cards, graveyard.cards]
    }

    /** `getOwnedCards()`, pile after pile. */
    function OwnedCards(): seq<MutableCard>
      reads hand, deck, discard, street
    {
      hand.cards + deck.cards + discard.cards + street.cards
    }

    /** `allCards`: the owned cards, then the jail, then the graveyard. */
    function AllCards(): seq<MutableCard>
      reads hand, deck, discard, street, jail, graveyard
    {
      OwnedCards() + jail.cards + graveyard.cards
    }

    /** The index agrees with the piles, and the shop draws from the game's generator. */
    ghost predicate Valid()
      reads this, hand, deck, discard, street, jail, graveyard, shop
    {
      IndexConsistent(AllPiles(), IdsOfAll(Contents()), cardPiles) && shop.random == random && shop.Valid()
    }

    /** `pileFor`: the pile the index holds for the card's id. */
    function PileFor(id: Id): Option<MutablePile>
      reads this
    {
      if id in cardPiles then Some(cardPiles[id]) else None
    }

    function LastTurnIndex(): int
      reads this
    {
      numTurns - 1
    }

    predicate HasGameStarted()
      reads this, hand, deck, discard, street
    {
      !(turn == 0 && history == [] && AllPlacedIn(OwnedCards(), cardPiles, deck))
    }

    predicate IsGameOver()
      reads this
    {
      IsOver(history)
    }

    predicate IsGameInProgress()
      reads this, hand, deck, discard, street
    {
      HasGameStarted() && !IsGameOver()
    }

    /** The index finds a card exactly in the pile that holds it. */
    lemma PileForIsHolder(id: Id)
      requires Valid()
      ensures forall i :: 0 <= i < |AllPiles()| ==> (PileFor(id) == Some(AllPiles()[i]) <==> id in IdsOf(Contents()[i]))
      ensures PileFor(id).Some? ==> PileFor(id).value in AllPiles()
    {
      assert forall i :: 0 <= i < |AllPiles()| ==> IdsOfAll(Contents())[i] == IdsOf(Contents()[i]);
    }

    /**
     * Under a consistent index, the game has not started exactly when no
     * turn has passed, nothing is logged, and every owned card is still in
     * the deck, that is, the hand, the discard pile and the street are empty.
     */
    lemma StartedIff()
      requires IndexConsistent(AllPiles(), IdsOfAll(Contents()), cardPiles)
      ensures HasGameStarted() <==> !(turn == 0 && history == [] && hand.cards == [] && discard.cards == [] && street.cards == [])
    {
      AllCardsInSecond(AllPiles(), Contents(), cardPiles);
      assert OwnedCards() == Contents()[0] + Contents()[1] + Contents()[2] + Contents()[3];
    }

    /**
     * The internal constructor: the values as given, and the index built by
     * walking the piles in order, each card's id pointing to its pile.
     */
    constructor (random: RandomSource, numTurns: int, turn: int, cash: int, influence: int, luck: int, vp: int,
                 handSize: int, shop: Shop.MutableShop, deck: MutablePile, hand: MutablePile, street: MutablePile,
                 discard: MutablePile, jail: MutablePile, graveyard: MutablePile, blueprints: seq<Blueprint>,
                 buildings: seq<MutableBuilding>, history: seq<GameStateChange>)
      ensures this.random == random && this.numTurns == numTurns && this.turn == turn && this.cash == cash
      ensures this.influence == influence && this.luck == luck && this.vp == vp && this.handSize == handSize
      ensures this.shop == shop && this.deck == deck && this.hand == hand && this.street == street
      ensures this.discard == discard && this.jail == jail && this.graveyard == graveyard
      ensures this.blueprints == blueprints && this.buildings == buildings && this.history == history
      ensures cardPiles == PileIndex(AllPiles(), IdsOfAll(Contents()))
    {
      assert PileIds([hand, deck, discard, street, jail, graveyard]) == IdsOfAll([hand.cards, deck.cards, discard.cards, street.cards, jail.cards, graveyard.cards]);
      this.random := random;
      this.numTurns := numTurns;
      this.turn := turn;
      this.cash := cash;
      this.influence := influence;
      this.luck := luck;
      this.vp := vp;
      this.handSize := handSize;
      this.shop := shop;
      this.deck := deck;
      this.hand := hand;
      this.street := street;
      this.discard := discard;
      this.jail := jail;
      this.graveyard := graveyard;
      this.blueprints := blueprints;
      this.buildings := buildings;
      this.history := history;
      var index := BuildIndex([hand, deck, discard, street, jail, graveyard]);
      this.cardPiles := index;
    }

    /** Any value below one more than the current turn is raised to it. */
    method SetNumTurns(value: int)
      modifies this`numTurns
      ensures numTurns == AtLeast(value, turn + 1)
      ensures turn <= LastTurnIndex()
    {
      numTurns := AtLeast(value, turn + 1);
    }

    /** Any value past the last turn is lowered to it. */
    method SetTurn(value: int)
      modifies this`turn
      ensures turn == AtMost(value, LastTurnIndex())
      ensures turn <= LastTurnIndex()
    {
      turn := AtMost(value, LastTurnIndex());
    }

    method SetCash(value: int)
      modifies this`cash
      ensures cash == AtLeastZero(value)
    {
      cash := AtLeastZero(value);
    }

    method SetInfluence(value: int)
      modifies this`influence
      ensures influence == AtLeastZero(value)
    {
      influence := AtLeastZero(value);
    }

    method SetLuck(value: int)
      modifies this`luck
      ensures luck == AtLeastZero(value)
    {
      luck := AtLeastZero(value);
    }

    method SetHandSize(value: int)
      modifies this`handSize
      ensures handSize == GrownHandSize(value, old(handSize))
    {
      handSize := GrownHandSize(value, handSize);
    }

    /** `onBoardChanged`, without the passive actions it runs first: the score is the owned cards' total vp. */
    method OnBoardChanged()
      modifies this`vp
      ensures vp == SumVp(DataOf(OwnedCards()))
      ensures vp == SumVp(DataOf(hand.cards)) + SumVp(DataOf(deck.cards)) + SumVp(DataOf(discard.cards))
                    + SumVp(DataOf(street.cards))
    {
      var owned := OwnedCards();
      var total := TotalVp(owned);
      ghost var data := DataOf(owned);
      vp := total;
      assert DataOf(owned) == data;
      OwnedVpByPile(hand.cards, deck.cards, discard.cards, street.cards);
    }

    /** The piles hold the given contents, pile by pile. */
    ghost predicate Holds(c: seq<seq<MutableCard>>)
      reads hand, deck, discard, street, jail, graveyard
    {
      |c| == |AllPiles()| && forall l :: 0 <= l < |AllPiles()| ==> AllPiles()[l].cards == c[l]
    }

    lemma HoldsIsContents(c: seq<seq<MutableCard>>)
      ensures Holds(c) <==> Contents() == c
    {
      if Holds(c) {
        assert forall l :: 0 <= l < 6 ==> Contents()[l] == c[l];
      }
    }

    /**
     * The part of `move(cards, …)` that takes each card out of its pile and
     * the shop and points its id at the target pile.
     */
    method Detach(cards: seq<MutableCard>, pileTo: MutablePile)
      requires IndexConsistent(AllPiles(), IdsOfAll(Contents()), cardPiles) && Distinct(IdsOf(cards))
      modifies this`cardPiles, hand, deck, discard, street, jail, graveyard, shop`stock
      ensures Holds(WithoutAll(old(Contents()), IdSet(cards)))
      ensures cardPiles == Redirect(old(cardPiles), IdSet(cards), pileTo)
      ensures shop.stock == EmptiedAll(old(shop.stock), IdsOf(cards))
    {
      ghost var c0 := Contents();
      ghost var idx0 := cardPiles;
      var i := 0;
      assert IdSet(cards[..0]) == {};
      assert WithoutAll(c0, {}) == c0 by {
        forall l | 0 <= l < |c0|
          ensures Without(c0[l], {}) == c0[l]
        {
          WithoutNothing(c0[l]);
        }
      }
      HoldsIsContents(c0);
      while i < |cards|
        invariant 0 <= i <= |cards|
        invariant Holds(WithoutAll(c0, IdSet(cards[..i])))
        invariant cardPiles == Redirect(idx0, IdSet(cards[..i]), pileTo)
        invariant shop.stock == EmptiedAll(old(shop.stock), IdsOf(cards[..i]))
      {
        DetachNext(cards, i, pileTo, c0, idx0, old(shop.stock));
        i := i + 1;
      }
      assert cards[..i] == cards;
    }

    /** One turn of the loop in `Detach`: the next card leaves its pile and the shop. */
    method DetachNext(cards: seq<MutableCard>, i: nat, pileTo: MutablePile, ghost c0: seq<seq<MutableCard>>,
                      ghost idx0: map<Id, MutablePile>, ghost stock0: seq<MutableCard?>)
      requires IndexConsistent(AllPiles(), IdsOfAll(c0), idx0) && Distinct(IdsOf(cards)) && i < |cards|
      requires Holds(WithoutAll(c0, IdSet(cards[..i])))
      requires cardPiles == Redirect(idx0, IdSet(cards[..i]), pileTo)
      requires shop.stock == EmptiedAll(stock0, IdsOf(cards[..i]))
      modifies this`cardPiles, hand, deck, discard, street, jail, graveyard, shop`stock
      ensures Holds(WithoutAll(c0, IdSet(cards[..i + 1])))
      ensures cardPiles == Redirect(idx0, IdSet(cards[..i + 1]), pileTo)
      ensures shop.stock == EmptiedAll(stock0, IdsOf(cards[..i + 1]))
    {
      NextIdFresh(cards, i);
      IdSetSnoc(cards, i);
      DetachPrepares(AllPiles(), c0, idx0, IdSet(cards[..i]), cards[i].id, pileTo);
      DetachOne(cards[i], pileTo, WithoutAll(c0, IdSet(cards[..i])), WithoutAll(c0, IdSet(cards[..i + 1])));
    }

    /**
     * `remove(card)` followed by pointing the card's id at the target pile:
     * the card leaves the pile its id is indexed to, and the first shop
     * slot holding it is emptied.
     */
    method DetachOne(card: MutableCard, pileTo: MutablePile, ghost w: seq<seq<MutableCard>>, ghost w': seq<seq<MutableCard>>)
      requires Holds(w) && forall a, b :: 0 <= a < b < |AllPiles()| ==> AllPiles()[a] != AllPiles()[b]
      requires card.id in cardPiles ==> forall l :: 0 <= l < |AllPiles()| && AllPiles()[l] == cardPiles[card.id] ==>
                 w' == w[l := Without(w[l], {card.id})]
      requires card.id in cardPiles ==> cardPiles[card.id] in AllPiles()
      requires card.id !in cardPiles ==> w' == w
      modifies this`cardPiles, hand, deck, discard, street, jail, graveyard, shop`stock
      ensures Holds(w')
      ensures cardPiles == old(cardPiles)[card.id := pileTo]
      ensures shop.stock == Shop.Emptied(old(shop.stock), card.id)
    {
      if card.id in cardPiles {
        var pileFrom := cardPiles[card.id];
        cardPiles := cardPiles - {card.id};
        pileFrom.cards := Without(pileFrom.cards, {card.id});
      }
      shop.Remove(card.id);
      cardPiles := cardPiles[card.id := pileTo];
    }

    /**
     * `move(cards, toPile, listStrategy)`: every card leaves its pile and
     * the shop and goes into the game's pile with the target's id, placed
     * by the strategy.  The result is the cards that were not owned before,
     * whose init actions then run.
     */
    method Move(cards: seq<MutableCard>, toPile: MutablePile, strategy: ListStrategy)
      returns (r: Result<seq<MutableCard>, GameError>)
      requires Valid() && Distinct(IdsOf(cards))
      modifies this`cardPiles, hand, deck, discard, street, jail, graveyard, shop`stock, random
      ensures Valid()
      ensures SinglePile(AllPiles(), toPile.id).None? ==>
                r == Err(NoSuchPile) && Contents() == old(Contents()) && cardPiles == old(cardPiles)
                && shop.stock == old(shop.stock) && random.position == old(random.position)
      ensures SinglePile(AllPiles(), toPile.id).Some? ==>
                var t := SinglePile(AllPiles(), toPile.id).value;
                r == Ok(Unowned(cards, old(cardPiles), OwnedPiles()))
                && Contents() == MovedContents(old(Contents()), t, cards, strategy, random.draws, old(random.position))
                && cardPiles == Redirect(old(cardPiles), IdSet(cards), AllPiles()[t])
                && shop.stock == EmptiedAll(old(shop.stock), IdsOf(cards))
                && random.position == old(random.position) + DrawsTaken(cards, strategy)
      ensures SinglePile(AllPiles(), toPile.id).Some? ==>
                forall k :: 0 <= k < |cards| ==> PileFor(cards[k].id) == Some(AllPiles()[SinglePile(AllPiles(), toPile.id).value])
      ensures SinglePile(AllPiles(), toPile.id).Some? ==>
                forall d, i :: d in IdsOf(cards) && Shop.FirstSlot(old(shop.stock), d) == Some(i) ==> shop.stock[i] == null
    {
      var unowned := Unowned(cards, cardPiles, OwnedPiles());
      var t := SinglePile(AllPiles(), toPile.id);
      if t.None? {
        return Err(NoSuchPile);
      }
      MoveTo(cards, t.value, strategy);
      r := Ok(unowned);
    }

    /** The body of `move` once the target is found: the cards go to the pile at place `t`. */
    method MoveTo(cards: seq<MutableCard>, t: nat, strategy: ListStrategy)
      requires Valid() && Distinct(IdsOf(cards)) && t < 6
      modifies this`cardPiles, hand, deck, discard, street, jail, graveyard, shop`stock, random
      ensures Valid()
      ensures Contents() == MovedContents(old(Contents()), t, cards, strategy, random.draws, old(random.position))
      ensures cardPiles == Redirect(old(cardPiles), IdSet(cards), AllPiles()[t])
      ensures shop.stock == EmptiedAll(old(shop.stock), IdsOf(cards))
      ensures random.position == old(random.position) + DrawsTaken(cards, strategy)
      ensures forall k :: 0 <= k < |cards| ==> PileFor(cards[k].id) == Some(AllPiles()[t])
      ensures forall d, i :: d in IdsOf(cards) && Shop.FirstSlot(old(shop.stock), d) == Some(i) ==> shop.stock[i] == null
    {
      ghost var c0 := Contents();
      ghost var idx0 := cardPiles;
      ghost var pos0 := random.position;
      Detach(cards, AllPiles()[t]);
      ghost var w := WithoutAll(c0, IdSet(cards));
      InsertIntoPile(t, cards, strategy, w);
      MovedContentsIs(c0, t, cards, strategy, random.draws, pos0);
      HoldsIsContents(MovedContents(c0, t, cards, strategy, random.draws, pos0));
      MoveKeepsValid(c0, idx0, t, cards, strategy, pos0);
      RedirectCovers(idx0, cards, AllPiles()[t]);
      EmptiedAllEmpties(old(shop.stock), IdsOf(cards));
    }

    /** `pileTo.cards.insert(cards, listStrategy, random)` on the pile at place `t`; the other piles keep their cards. */
    method InsertIntoPile(t: nat, cards: seq<MutableCard>, strategy: ListStrategy, ghost w: seq<seq<MutableCard>>)
      requires t < 6 && Holds(w) && Distinct(AllPiles())
      modifies hand, deck, discard, street, jail, graveyard, random
      ensures Holds(w[t := Inserted(w[t], cards, strategy, random.draws, old(random.position))])
      ensures random.position == old(random.position) + DrawsTaken(cards, strategy)
    {
      var pileTo := AllPiles()[t];
      assert pileTo == hand || pileTo == deck || pileTo == discard || pileTo == street || pileTo == jail || pileTo == graveyard;
      InsertInto(pileTo, cards, strategy, random);
      forall l | 0 <= l < 6
        ensures AllPiles()[l].cards == w[t := pileTo.cards][l]
      {
        if l != t {
          assert AllPiles()[l] != pileTo;
        }
      }
    }

    /** The state after the cards have moved to the pile at place `t` is valid again. */
    lemma MoveKeepsValid(c0: seq<seq<MutableCard>>, idx0: map<Id, MutablePile>, t: nat, cards: seq<MutableCard>,
                         strategy: ListStrategy, pos0: nat)
      requires IndexConsistent(AllPiles(), IdsOfAll(c0), idx0) && Distinct(IdsOf(cards)) && t < 6
      requires Contents() == MovedContents(c0, t, cards, strategy, random.draws, pos0)
      requires cardPiles == Redirect(idx0, IdSet(cards), AllPiles()[t])
      requires shop.random == random && shop.Valid()
      ensures Valid()
    {
      IdsOfMoved(c0, t, cards, strategy, random.draws, pos0);
      MoveKeepsIndex(AllPiles(), IdsOfAll(c0), idx0, t, IdsOf(cards), strategy, random.draws, pos0);
    }

    /**
     * `apply(change, insertBefore)`, without the change's own effect on the
     * state: the history is logged as `Logged` says, and afterwards the game
     * has started whatever happened.
     */
    method Apply(change: GameStateChange, insertBefore: Option<GameStateChange>) returns (r: Result<(), GameError>)
      modifies this`history
      ensures history == Logged(old(history), old(HasGameStarted()), change, insertBefore)
      ensures r.Err? <==> Rejected(old(history), old(HasGameStarted()), insertBefore)
      ensures r.Err? ==> r.error == NotInHistory
      ensures HasGameStarted()
    {
      ghost var started := HasGameStarted();
      LoggedGrows(history, started, change, insertBefore);
      if IsOver(history) {
        return Ok(());
      }
      if !HasGameStarted() {
        history := history + [GameStarted];
      }
      match insertBefore {
        case None =>
          history := history + [change];
        case Some(b) =>
          var i := IndexOf(history, b);
          if i < 0 {
            return Err(NotInHistory);
          }
          history := InsertAt(history, i, change);
      }
      r := Ok(());
    }

    /**
     * `copy()`: a new state with its own generator in the same position, a
     * shop drawing from it, copies of every pile and building, and the same
     * blueprints and history.  The copy's index is rebuilt from its piles
     * and finds every card in the pile at the same place as before.
     */
    method Copy() returns (c: MutableGameState)
      requires Valid()
      ensures fresh(c) && fresh(c.random) && fresh(c.shop)
      ensures fresh(c.hand) && fresh(c.deck) && fresh(c.discard) && fresh(c.street) && fresh(c.jail) && fresh(c.graveyard)
      ensures c.Valid()
      ensures c.random.draws == random.draws && c.random.position == random.position
      ensures c.numTurns == numTurns && c.turn == turn && c.cash == cash && c.influence == influence
      ensures c.luck == luck && c.vp == vp && c.handSize == handSize
      ensures c.shop.allCards == shop.allCards && c.shop.tier == shop.tier
      ensures c.shop.stock == shop.stock && c.shop.exclusions == shop.exclusions
      ensures Duplicates(hand, c.hand) && Duplicates(deck, c.deck) && Duplicates(discard, c.discard)
      ensures Duplicates(street, c.street) && Duplicates(jail, c.jail) && Duplicates(graveyard, c.graveyard)
      ensures FreshCards(c.hand) && FreshCards(c.deck) && FreshCards(c.discard) && FreshCards(c.street)
      ensures FreshCards(c.jail) && FreshCards(c.graveyard)
      ensures forall id, i :: 0 <= i < 6 ==> (c.PileFor(id) == Some(c.AllPiles()[i]) <==> PileFor(id) == Some(AllPiles()[i]))
      ensures c.blueprints == blueprints && c.history == history
      ensures BuildingsData(c.buildings) == BuildingsData(buildings)
      ensures forall b :: b in c.buildings ==> fresh(b)
    {
      var rng := random.Copy();
      var shopCopy := shop.CopyWith(rng);
      c := CopyOnto(rng, shopCopy);
    }

    /** The rest of `copy()`: copies of the piles and buildings, and a new state holding them and the given parts. */
    method CopyOnto(rng: RandomSource, shopCopy: Shop.MutableShop)
      returns (c: MutableGameState)
      requires Valid() && shopCopy.random == rng && shopCopy.Valid()
      ensures fresh(c) && c.random == rng && c.shop == shopCopy
      ensures fresh(c.hand) && fresh(c.deck) && fresh(c.discard) && fresh(c.street) && fresh(c.jail) && fresh(c.graveyard)
      ensures c.Valid()
      ensures c.numTurns == numTurns && c.turn == turn && c.cash == cash && c.influence == influence
      ensures c.luck == luck && c.vp == vp && c.handSize == handSize
      ensures Duplicates(hand, c.hand) && Duplicates(deck, c.deck) && Duplicates(discard, c.discard)
      ensures Duplicates(street, c.street) && Duplicates(jail, c.jail) && Duplicates(graveyard, c.graveyard)
      ensures FreshCards(c.hand) && FreshCards(c.deck) && FreshCards(c.discard) && FreshCards(c.street)
      ensures FreshCards(c.jail) && FreshCards(c.graveyard)
      ensures forall id, i :: 0 <= i < 6 ==> (c.PileFor(id) == Some(c.AllPiles()[i]) <==> PileFor(id) == Some(AllPiles()[i]))
      ensures c.blueprints == blueprints && c.history == history
      ensures BuildingsData(c.buildings) == BuildingsData(buildings)
      ensures forall b :: b in c.buildings ==> fresh(b)
    {
      var h, d, di, st, j, g := CopyPiles();
      var buildingCopies := CopyBuildings(buildings);
      c := new MutableGameState(rng, numTurns, turn, cash, influence, luck, vp, handSize, shopCopy, d, h,
                                st, di, j, g, blueprints, buildingCopies, history);
      CopyIsValid(c);
      PileForMatches(c);
    }

    /** `deck.copy()`, `hand.copy()` and the rest: a new pile per pile, each a duplicate. */
    method CopyPiles() returns (h: MutablePile, d: MutablePile, di: MutablePile, st: MutablePile, j: MutablePile,
                                g: MutablePile)
      ensures fresh(h) && fresh(d) && fresh(di) && fresh(st) && fresh(j) && fresh(g)
      ensures Duplicates(hand, h) && Duplicates(deck, d) && Duplicates(discard, di)
      ensures Duplicates(street, st) && Duplicates(jail, j) && Duplicates(graveyard, g)
      ensures FreshCards(h) && FreshCards(d) && FreshCards(di) && FreshCards(st) && FreshCards(j) && FreshCards(g)
      ensures Distinct([h, d, di, st, j, g])
    {
      d, h, st := CopyThree(deck, hand, street);
      di, j, g := CopyThree(discard, jail, graveyard);
      DistinctSix(h, d, di, st, j, g);
    }

    /** Each pile of `c` holds the ids the pile of this state in the same place holds. */
    ghost predicate SameIds(c: MutableGameState)
      reads hand, deck, discard, street, jail, graveyard, c.hand, c.deck, c.discard, c.street, c.jail, c.graveyard
    {
      IdsOf(c.hand.cards) == IdsOf(hand.cards) && IdsOf(c.deck.cards) == IdsOf(deck.cards)
      && IdsOf(c.discard.cards) == IdsOf(discard.cards) && IdsOf(c.street.cards) == IdsOf(street.cards)
      && IdsOf(c.jail.cards) == IdsOf(jail.cards) && IdsOf(c.graveyard.cards) == IdsOf(graveyard.cards)
    }

    lemma SameIdsIdsOfAll(c: MutableGameState)
      requires SameIds(c)
      ensures IdsOfAll(c.Contents()) == IdsOfAll(Contents())
    {
      var a, b := IdsOfAll(c.Contents()), IdsOfAll(Contents());
      forall i | 0 <= i < 6
        ensures a[i] == b[i]
      {
        if i == 0 {
        } else if i == 1 {
        } else if i == 2 {
        } else if i == 3 {
        } else if i == 4 {
        } else {
        }
      }
    }

    /** The ids a valid state's piles hold find each card in the pile at the same place in a state holding the same ids. */
    lemma PileForMatches(c: MutableGameState)
      requires Valid() && c.Valid()
      requires SameIds(c)
      ensures forall id, i :: 0 <= i < 6 ==> (c.PileFor(id) == Some(c.AllPiles()[i]) <==> PileFor(id) == Some(AllPiles()[i]))
    {
      SameIdsIdsOfAll(c);
      forall id
        ensures forall i :: 0 <= i < 6 ==> (c.PileFor(id) == Some(c.AllPiles()[i]) <==> PileFor(id) == Some(AllPiles()[i]))
      {
        IndexesAgree(AllPiles(), c.AllPiles(), IdsOfAll(Contents()), cardPiles, c.cardPiles, id);
      }
    }

    /** A state built from copies of a valid state's piles, holding the same ids, is valid. */
    lemma CopyIsValid(c: MutableGameState)
      requires Valid()
      requires SameIds(c) && Distinct(c.AllPiles())
      requires c.cardPiles == PileIndex(c.AllPiles(), IdsOfAll(c.Contents()))
      requires c.shop.random == c.random && c.shop.Valid()
      ensures c.Valid()
    {
      SameIdsIdsOfAll(c);
      ConsistentIsDistinct(AllPiles(), IdsOfAll(Contents()), cardPiles);
      DistinctIndexConsistent(c.AllPiles(), IdsOfAll(c.Contents()));
    }
  }

  /** `init`: walk the piles in order and point each card's id at its pile. */
  method BuildIndex(piles: seq<MutablePile>) returns (index: map<Id, MutablePile>)
    ensures index == PileIndex(piles, PileIds(piles))
  {
    ghost var ids := PileIds(piles);
    index := map[];
    var i := 0;
    while i < |piles|
      invariant 0 <= i <= |piles|
      invariant index == PileIndex(piles[..i], ids[..i])
    {
      index := IndexPile(index, piles[i]);
      assert piles[..i + 1][..i] == piles[..i] && ids[..i + 1][..i] == ids[..i];
      i := i + 1;
    }
    assert piles[..i] == piles && ids[..i] == ids;
  }

  /** The inner loop of `init`: each card of one pile points at that pile. */
  method IndexPile(index0: map<Id, MutablePile>, pile: MutablePile) returns (index: map<Id, MutablePile>)
    ensures index == PointAll(index0, IdsOf(pile.cards), pile)
  {
    var cs := pile.cards;
    ghost var ids := IdsOf(cs);
    index := index0;
    var k := 0;
    while k < |cs|
      invariant 0 <= k <= |cs|
      invariant index == PointAll(index0, ids[..k], pile)
    {
      assert ids[..k + 1][..k] == ids[..k] && ids[..k + 1][k] == cs[k].id;
      index := index[cs[k].id := pile];
      k := k + 1;
    }
    assert ids[..k] == ids;
  }

  /** The ids of the cards of each pile. */
  function PileIds(piles: seq<MutablePile>): (r: seq<seq<Id>>)
    reads set p | p in piles
    ensures |r| == |piles| && forall i :: 0 <= i < |piles| ==> r[i] == IdsOf(piles[i].cards)
  {
    seq(|piles|, i requires 0 <= i < |piles| reads piles => IdsOf(piles[i].cards))
  }

  /** `sumOf { it.vpTotal }` over a list of cards. */
  method TotalVp(cards: seq<MutableCard>) returns (total: int)
    ensures total == SumVp(DataOf(cards))
  {
    total := 0;
    var i := 0;
    while i < |cards|
      invariant 0 <= i <= |cards|
      invariant total == SumVp(DataOf(cards[..i]))
    {
      DataOfPrefixSnoc(cards, i);
      SumVpConcat(DataOf(cards[..i]), [cards[i].Data()]);
      total := total + Cards.VpTotal(cards[i].Data());
      i := i + 1;
    }
    assert cards[..i] == cards;
  }

  /** The score of the owned cards is the sum of the scores of the owned piles. */
  lemma OwnedVpByPile(hand: seq<MutableCard>, deck: seq<MutableCard>, discard: seq<MutableCard>, street: seq<MutableCard>)
    ensures SumVp(DataOf(hand + deck + discard + street))
            == SumVp(DataOf(hand)) + SumVp(DataOf(deck)) + SumVp(DataOf(discard)) + SumVp(DataOf(street))
  {
    DataOfConcat(hand, deck);
    DataOfConcat(hand + deck, discard);
    DataOfConcat(hand + deck + discard, street);
    SumVpConcat(DataOf(hand), DataOf(deck));
    SumVpConcat(DataOf(hand) + DataOf(deck), DataOf(discard));
    SumVpConcat(DataOf(hand) + DataOf(deck) + DataOf(discard), DataOf(street));
  }

  /** Every card of the pile is a new object. */
  twostate predicate FreshCards(new p: MutablePile)
    reads p
  {
    forall k :: 0 <= k < |p.cards| ==> fresh(p.cards[k])
  }

  lemma DistinctSix<T>(a: T, b: T, c: T, d: T, e: T, f: T)
    requires a != b && a != c && a != d && a != e && a != f
    requires b != c && b != d && b != e && b != f
    requires c != d && c != e && c != f
    requires d != e && d != f && e != f
    ensures Distinct([a, b, c, d, e, f])
  {
    var s := [a, b, c, d, e, f];
    forall i, j | 0 <= i < j < 6
      ensures s[i] != s[j]
    {
    }
  }

  /** Three piles copied in turn, each into a new pile of new cards. */
  method CopyThree(p: MutablePile, q: MutablePile, r: MutablePile) returns (p': MutablePile, q': MutablePile, r': MutablePile)
    ensures fresh(p') && fresh(q') && fresh(r') && p' != q' && q' != r' && p' != r'
    ensures Duplicates(p, p') && Duplicates(q, q') && Duplicates(r, r')
    ensures FreshCards(p') && FreshCards(q') && FreshCards(r')
  {
    p' := p.Copy();
    q' := q.Copy();
    r' := r.Copy();
  }

  /** A pile with the same id holding cards with the same ids and values, in order. */
  ghost predicate Duplicates(p: MutablePile, q: MutablePile)
    reads p, q, set c | c in p.cards, set c | c in q.cards
  {
    q.id == p.id && IdsOf(q.cards) == IdsOf(p.cards) && DataOf(q.cards) == DataOf(p.cards)
  }

  /** `buildings.map { it.copy() }`: a new building object per building, with the same values. */
  method CopyBuildings(buildings: seq<MutableBuilding>) returns (copies: seq<MutableBuilding>)
    ensures BuildingsData(copies) == BuildingsData(buildings)
    ensures forall b :: b in copies ==> fresh(b)
  {
    copies := [];
    var i := 0;
    while i < |buildings|
      invariant 0 <= i <= |buildings|
      invariant |copies| == i
      invariant forall k :: 0 <= k < i ==> fresh(copies[k]) && copies[k].Data() == buildings[k].Data()
    {

      var b := buildings[i];
      var d := b.Copy(b.id, b.vpBase, b.counter, b.isActivated);
      copies := copies + [d];
      i := i + 1;
    }
    assert BuildingsData(copies) == BuildingsData(buildings);
  }

  lemma DataOfConcat(a: seq<MutableCard>, b: seq<MutableCard>)
    ensures DataOf(a + b) == DataOf(a) + DataOf(b)
  {
    assert forall k :: 0 <= k < |a + b| ==> DataOf(a + b)[k] == (DataOf(a) + DataOf(b))[k];
  }
}
