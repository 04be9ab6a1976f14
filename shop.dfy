/**
 * The shop: a tiered stock of cards restocked at random, weighted by the
 * tier and rarity frequencies of the game data, never offering the same
 * template twice in one restock.
 *
 * Templates are identified by their index into `allCards`, which stands for
 * the reference identity (`===`) the restock uses.
 */
module Shop {
  import opened Wrappers
  import opened Ids
  import opened Cards
  import Piles

  /** An exclusion rule added by a card effect: templates it accepts are never stocked. */
  type Exclusion = CardTemplate -> bool

  datatype ShopError =
    | /** `require(possibleNewStock.size >= numCardsToStock)` failed. */ NotEnoughCards
    | /** `uberStock.random` on an empty list throws. */ EmptyUberStock

  function Repeat(x: nat, n: nat): (r: seq<nat>)
    ensures |r| == n && forall i :: 0 <= i < n ==> r[i] == x
  {
    if n == 0 then [] else Repeat(x, n - 1) + [x]
  }

  /** `removeAll { it === x }`. */
  function RemoveAll(s: seq<nat>, x: nat): (r: seq<nat>)
    ensures forall y :: y in r <==> y in s && y != x
  {
    if s == [] then []
    else if s[0] == x then RemoveAll(s[1..], x)
    else [s[0]] + RemoveAll(s[1..], x)
  }

  /** The templates in a list, each counted once. */
  function Distinct(s: seq<nat>): set<nat>
  {
    set x | x in s
  }

  /**
   * The templates `count` draws from the uber stock pick: each draw takes the
   * element at a random index and then removes every copy of it.  The flag is
   * false when the uber stock ran out before `count` draws.
   */
  function Picks(uber: seq<nat>, count: nat, draws: Draws, pos: nat): (r: (seq<nat>, bool))
    decreases count
  {
    if count == 0 then ([], true)
    else if uber == [] then ([], false)
    else
      var t := uber[draws(pos, |uber|)];
      var rest := Picks(RemoveAll(uber, t), count - 1, draws, pos + 1);
      ([t] + rest.0, rest.1)
  }

  /**
   * The draws never take more than asked, take exactly that many when they
   * succeed, take only templates of the uber stock, and never the same
   * template twice.
   */
  lemma {:induction false} PicksFacts(uber: seq<nat>, count: nat, draws: Draws, pos: nat)
    ensures var r := Picks(uber, count, draws, pos);
            && |r.0| <= count
            && (r.1 ==> |r.0| == count)
            && (forall i :: 0 <= i < |r.0| ==> r.0[i] in uber)
            && (forall i, j :: 0 <= i < j < |r.0| ==> r.0[i] != r.0[j])
    decreases count
  {
    if count > 0 && uber != [] {
      var t := uber[draws(pos, |uber|)];
      PicksFacts(RemoveAll(uber, t), count - 1, draws, pos + 1);
    }
  }

  /** Removing every copy of a present template leaves one template fewer. */
  lemma {:induction false} RemoveAllDistinct(s: seq<nat>, x: nat)
    requires x in s
    ensures Distinct(RemoveAll(s, x)) == Distinct(s) - {x}
    ensures |Distinct(RemoveAll(s, x))| == |Distinct(s)| - 1
  {
    assert Distinct(RemoveAll(s, x)) == Distinct(s) - {x};
  }

  /**
   * The draws fill every slot exactly when the uber stock holds at least
   * that many different templates; otherwise they take all of them.
   */
  lemma {:induction false} PicksSucceedIff(uber: seq<nat>, count: nat, draws: Draws, pos: nat)
    ensures Picks(uber, count, draws, pos).1 <==> |Distinct(uber)| >= count
    ensures |Picks(uber, count, draws, pos).0| == if count <= |Distinct(uber)| then count else |Distinct(uber)|
    decreases count
  {
    if count == 0 {
    } else if uber == [] {
      assert Distinct(uber) == {};
    } else {
      var t := uber[draws(pos, |uber|)];
      RemoveAllDistinct(uber, t);
      PicksSucceedIff(RemoveAll(uber, t), count - 1, draws, pos + 1);
    }
  }

  /** One draw: the template at the drawn index, then the draws from what is left without it. */
  lemma PicksStep(uber: seq<nat>, count: nat, draws: Draws, pos: nat)
    requires count > 0 && uber != []
    ensures var t := uber[draws(pos, |uber|)];
            var rest := Picks(RemoveAll(uber, t), count - 1, draws, pos + 1);
            Picks(uber, count, draws, pos).0 == [t] + rest.0 && Picks(uber, count, draws, pos).1 == rest.1
  {
  }

  /** The loop's view of the draws: after taking one more, the rest are the draws from what is left. */
  lemma DrawAdvances(goal: (seq<nat>, bool), picked: seq<nat>, left: seq<nat>, count: nat, draws: Draws, pos: nat, t: nat)
    requires count > 0 && left != [] && t == left[draws(pos, |left|)]
    requires goal.0 == picked + Picks(left, count, draws, pos).0 && goal.1 == Picks(left, count, draws, pos).1
    ensures goal.0 == (picked + [t]) + Picks(RemoveAll(left, t), count - 1, draws, pos + 1).0
    ensures goal.1 == Picks(RemoveAll(left, t), count - 1, draws, pos + 1).1
  {
    var rest := Picks(RemoveAll(left, t), count - 1, draws, pos + 1);
    PicksStep(left, count, draws, pos);
    assert picked + ([t] + rest.0) == (picked + [t]) + rest.0;
  }

  predicate NotExcluded(exclusions: seq<Exclusion>, t: CardTemplate)
  {
    forall i :: 0 <= i < |exclusions| ==> !exclusions[i](t)
  }

  /** The filter `restock` hands on: the caller's filter, and no exclusion matching. */
  function Combined(filter: CardTemplate -> bool, exclusions: seq<Exclusion>): (f: CardTemplate -> bool)
    ensures forall t :: f(t) <==> filter(t) && NotExcluded(exclusions, t)
  {
    (t: CardTemplate) => filter(t) && NotExcluded(exclusions, t)
  }

  /** The filter an upgrade restocks with: templates of exactly the new tier. */
  function OfTier(tier: int): (f: CardTemplate -> bool)
    ensures forall t :: f(t) <==> t.tier == tier
  {
    (t: CardTemplate) => t.tier == tier
  }

  /** A template the shop may offer at the given tier: it costs something, is not above the tier and passes the filter. */
  predicate Eligible(t: CardTemplate, tier: int, filter: CardTemplate -> bool)
  {
    t.cost > 0 && t.tier <= tier && filter(t)
  }

  /** The first stock slot holding the card with the given id. */
  function FirstSlot(stock: seq<MutableCard?>, id: Id): (r: Option<nat>)
    ensures r.None? <==> forall i :: 0 <= i < |stock| ==> stock[i] == null || stock[i].id != id
    ensures r.Some? ==> r.value < |stock| && stock[r.value] != null && stock[r.value].id == id
    ensures r.Some? ==> forall j :: 0 <= j < r.value ==> stock[j] == null || stock[j].id != id
  {
    if stock == [] then None
    else if stock[0] != null && stock[0].id == id then Some(0)
    else match FirstSlot(stock[1..], id)
      case None => None
      case Some(k) => Some(k + 1)
  }

  /**
   * The stock after `remove`: the first slot holding the card with that id
   * is emptied; a stock without the card is unchanged.
   */
  function Emptied(stock: seq<MutableCard?>, id: Id): (r: seq<MutableCard?>)
    ensures |r| == |stock|
    ensures forall k :: 0 <= k < |stock| && FirstSlot(stock, id) != Some(k) ==> r[k] == stock[k]
    ensures FirstSlot(stock, id).Some? ==> r[FirstSlot(stock, id).value] == null
  {
    match FirstSlot(stock, id)
    case None => stock
    case Some(i) => stock[i := null]
  }

  class MutableShop {
    const random: RandomSource
    const allCards: seq<CardTemplate>
    const shopSizes: seq<int>
    const tierFrequencies: seq<int>
    const rarityFrequencies: seq<int>
    var tier: int
    var stock: seq<MutableCard?>
    var exclusions: seq<Exclusion>

    /**
     * The game data the shop relies on: there is a first tier, every
     * template's tier and rarity index the frequency lists, and every
     * template's upgrade names are known.
     */
    predicate GameDataValid()
    {
      |shopSizes| > 0
      && forall i :: 0 <= i < |allCards| ==>
           allCards[i].tier < |tierFrequencies| && allCards[i].rarity < |rarityFrequencies| && Instantiable(allCards[i])
    }

    ghost predicate Valid()
      reads this`tier
    {
      GameDataValid() && 0 <= tier < |shopSizes|
    }

    predicate Indices(possible: seq<nat>)
    {
      forall k :: 0 <= k < |possible| ==> possible[k] < |allCards|
    }

    /** How often a template is repeated in the uber stock: tier frequency times rarity frequency, none when negative. */
    function Copies(i: nat): nat
      requires GameDataValid() && i < |allCards|
    {
      var w := tierFrequencies[allCards[i].tier] * rarityFrequencies[allCards[i].rarity];
      if w < 0 then 0 else w
    }

    /** Every possible template repeated by its weight, in order. */
    function UberStock(possible: seq<nat>): (r: seq<nat>)
      requires GameDataValid() && Indices(possible)
      ensures forall x :: x in r <==> x in possible && Copies(x) > 0
      ensures forall k :: 0 <= k < |r| ==> r[k] < |allCards|
    {
      if possible == [] then []
      else
        var last := possible[|possible| - 1];
        UberStock(possible[..|possible| - 1]) + Repeat(last, Copies(last))
    }

    /** `filterAllCards`: the indices of the eligible templates at the given tier, in order. */
    function FilterAllCards(tier: int, filter: CardTemplate -> bool): (r: seq<nat>)
      ensures Indices(r)
      ensures forall x :: x in r <==> 0 <= x < |allCards| && Eligible(allCards[x], tier, filter)
      ensures forall i, j :: 0 <= i < j < |r| ==> r[i] < r[j]
    {
      EligibleBelow(|allCards|, tier, filter)
    }

    function EligibleBelow(n: nat, tier: int, filter: CardTemplate -> bool): (r: seq<nat>)
      requires n <= |allCards|
      ensures forall k :: 0 <= k < |r| ==> r[k] < n
      ensures forall x :: x in r <==> 0 <= x < n && Eligible(allCards[x], tier, filter)
      ensures forall i, j :: 0 <= i < j < |r| ==> r[i] < r[j]
    {
      if n == 0 then []
      else if Eligible(allCards[n - 1], tier, filter) then EligibleBelow(n - 1, tier, filter) + [n - 1]
      else EligibleBelow(n - 1, tier, filter)
    }

    /**
     * The state a restock leaves when it got past the full-shop check, from
     * the stock it starts filling (`base`), the templates it may pick from,
     * and the random position and id counter it started with.
     */
    ghost predicate RestockedFrom(base: seq<MutableCard?>, possible: seq<nat>, r: Result<bool, ShopError>,
                                  pos: nat, next: nat, ids: Uuids)
      requires Valid() && Indices(possible)
      reads this, random, ids, stock
    {
      var n := shopSizes[tier] - |base|;
      if |possible| < n then
        r == Err(NotEnoughCards) && stock == base && random.position == pos && ids.next == next
      else
        Filled(base, Picks(UberStock(possible), if n < 0 then 0 else n, random.draws, pos), r, pos, next, ids)
    }

    /**
     * The state after the draws `picks` were stocked onto `base`: one new card
     * per drawn template, in order, with consecutive new ids; the result says
     * whether the draws ran to the end.
     */
    ghost predicate Filled(base: seq<MutableCard?>, picks: (seq<nat>, bool), r: Result<bool, ShopError>,
                           pos: nat, next: nat, ids: Uuids)
      requires GameDataValid()
      reads this, random, ids, stock
    {
      && (forall k :: 0 <= k < |picks.0| ==> picks.0[k] < |allCards|)
      && r == (if picks.1 then Ok(true) else Err(EmptyUberStock))
      && |stock| == |base| + |picks.0| && stock[..|base|] == base
      && random.position == pos + |picks.0| && ids.next == next + |picks.0|
      && forall k :: 0 <= k < |picks.0| ==>
           stock[|base| + k] != null && stock[|base| + k].Data() == Instantiated(allCards[picks.0[k]], next + k)
    }

    /** The internal constructor stores its arguments as given. */
    constructor (random: RandomSource, allCards: seq<CardTemplate>, shopSizes: seq<int>, tierFrequencies: seq<int>,
                 rarityFrequencies: seq<int>, tier: int, stock: seq<MutableCard?>, exclusions: seq<Exclusion>)
      ensures this.random == random && this.allCards == allCards && this.shopSizes == shopSizes
      ensures this.tierFrequencies == tierFrequencies && this.rarityFrequencies == rarityFrequencies
      ensures this.tier == tier && this.stock == stock && this.exclusions == exclusions
    {
      this.random := random;
      this.allCards := allCards;
      this.shopSizes := shopSizes;
      this.tierFrequencies := tierFrequencies;
      this.rarityFrequencies := rarityFrequencies;
      this.tier := tier;
      this.stock := stock;
      this.exclusions := exclusions;
    }

    /** The public constructor: tier 0, no stock, no exclusions, then a full restock from every template that costs something. */
    static method Create(random: RandomSource, allCards: seq<CardTemplate>, shopSizes: seq<int>, tierFrequencies: seq<int>,
                         rarityFrequencies: seq<int>, ids: Uuids) returns (shop: MutableShop, r: Result<bool, ShopError>)
      requires |shopSizes| > 0
      requires forall i :: 0 <= i < |allCards| ==>
                 allCards[i].tier < |tierFrequencies| && allCards[i].rarity < |rarityFrequencies| && Instantiable(allCards[i])
      modifies random, ids
      ensures fresh(shop) && shop.Valid() && shop.random == random && shop.allCards == allCards
      ensures shop.tier == 0 && shop.exclusions == []
      ensures shop.RestockedFrom([], shop.FilterAllCards(0, _ => true), r, old(random.position), old(ids.next), ids)
    {
      shop := new MutableShop(random, allCards, shopSizes, tierFrequencies, rarityFrequencies, 0, [], []);
      r := shop.HandleRestock(true, shop.FilterAllCards(0, _ => true), ids);
    }

    /**
     * `handleRestock`: an incremental restock of a full shop changes nothing
     * and returns false.  Otherwise a full restock first throws away the
     * whole stock, null slots included; then, unless there are fewer possible
     * templates than empty slots, the slots are filled with new cards from
     * the weighted draws.
     */
    method HandleRestock(restockAll: bool, possible: seq<nat>, ids: Uuids) returns (r: Result<bool, ShopError>)
      requires Valid() && Indices(possible)
      modifies this`stock, random, ids
      ensures Valid() && tier == old(tier) && exclusions == old(exclusions)
      ensures !restockAll && |old(stock)| == shopSizes[tier] ==>
                r == Ok(false) && stock == old(stock) && random.position == old(random.position) && ids.next == old(ids.next)
      ensures restockAll || |old(stock)| != shopSizes[tier] ==>
                RestockedFrom(if restockAll then [] else old(stock), possible, r, old(random.position), old(ids.next), ids)
      ensures forall k :: 0 <= k < |stock| && stock[k] !in old(stock) ==> stock[k] != null && fresh(stock[k])
    {
      if !restockAll && |stock| == shopSizes[tier] {
        return Ok(false);
      }
      if restockAll {
        stock := [];
      }
      r := RestockOnto(possible, ids);
    }

    /**
     * The part of `handleRestock` after the full shop check and the throw
     * away: the empty slots of the current stock are filled from the draws,
     * unless there are fewer possible templates than empty slots.
     */
    method RestockOnto(possible: seq<nat>, ids: Uuids) returns (r: Result<bool, ShopError>)
      requires Valid() && Indices(possible)
      modifies this`stock, random, ids
      ensures Valid() && tier == old(tier) && exclusions == old(exclusions)
      ensures RestockedFrom(old(stock), possible, r, old(random.position), old(ids.next), ids)
      ensures |old(stock)| <= |stock| && stock[..|old(stock)|] == old(stock)
      ensures forall k :: |old(stock)| <= k < |stock| ==> stock[k] != null && fresh(stock[k])
    {
      var n := shopSizes[tier] - |stock|;
      if |possible| < n {
        return Err(NotEnoughCards);
      }
      var uber := BuildUberStock(possible);
      r := FillStock(uber, if n < 0 then 0 else n, ids);
    }

    /** The uber stock, built by repeating every possible template by its weight. */
    method BuildUberStock(possible: seq<nat>) returns (uber: seq<nat>)
      requires GameDataValid() && Indices(possible)
      ensures uber == UberStock(possible)
    {
      uber := [];
      var i := 0;
      while i < |possible|
        invariant 0 <= i <= |possible|
        invariant uber == UberStock(possible[..i])
      {
        var card := possible[i];
        var j := 0;
        while j < Copies(card)
          invariant 0 <= j <= Copies(card)
          invariant uber == UberStock(possible[..i]) + Repeat(card, j)
        {
          uber := uber + [card];
          j := j + 1;
        }
        assert possible[..i + 1][..i] == possible[..i];
        i := i + 1;
      }
      assert possible[..i] == possible;
    }

    /**
     * The `repeat(numCardsToStock)` loop: draws `count` templates from the
     * uber stock and appends a new card of each.  The draws only touch the
     * generator and the new cards only the stock and the id counter, so the
     * draws are taken first and the cards made after, in draw order; when
     * the uber stock runs out, the cards of the earlier draws are stocked
     * all the same.
     */
    method FillStock(uber: seq<nat>, count: nat, ids: Uuids) returns (r: Result<bool, ShopError>)
      requires Valid() && forall x :: x in uber ==> x < |allCards|
      modifies this`stock, random, ids
      ensures Valid() && tier == old(tier) && exclusions == old(exclusions)
      ensures Filled(old(stock), Picks(uber, count, random.draws, old(random.position)), r,
                     old(random.position), old(ids.next), ids)
      ensures forall k :: |old(stock)| <= k < |stock| ==> stock[k] != null && fresh(stock[k])
    {
      var picked, ok := Draw(uber, count);
      PicksFacts(uber, count, random.draws, old(random.position));
      StockAll(picked, ids);
      r := if ok then Ok(true) else Err(EmptyUberStock);
    }

    /** The draws of one restock: each takes a random element of what is left, then removes every copy of it. */
    method Draw(uber: seq<nat>, count: nat) returns (picked: seq<nat>, ok: bool)
      modifies random
      ensures (picked, ok) == Picks(uber, count, random.draws, old(random.position))
      ensures random.position == old(random.position) + |picked|
    {
      ghost var goal := Picks(uber, count, random.draws, random.position);
      picked := [];
      var left := uber;
      var n := count;
      while n > 0
        invariant random.position == old(random.position) + |picked|
        invariant goal.0 == picked + Picks(left, n, random.draws, random.position).0
        invariant goal.1 == Picks(left, n, random.draws, random.position).1
      {
        if left == [] {
          assert picked + [] == picked;
          return picked, false;
        }
        var t := DrawOne(goal, picked, left, n);
        left := RemoveAll(left, t);
        picked := picked + [t];
        n := n - 1;
      }
      assert picked + [] == picked;
      ok := true;
    }

    /** One draw of `Draw`: a random element of what is left. */
    method DrawOne(ghost goal: (seq<nat>, bool), picked: seq<nat>, left: seq<nat>, n: nat) returns (t: nat)
      requires n > 0 && left != []
      requires goal.0 == picked + Picks(left, n, random.draws, random.position).0
      requires goal.1 == Picks(left, n, random.draws, random.position).1
      modifies random
      ensures random.position == old(random.position) + 1
      ensures goal.0 == (picked + [t]) + Picks(RemoveAll(left, t), n - 1, random.draws, random.position).0
      ensures goal.1 == Picks(RemoveAll(left, t), n - 1, random.draws, random.position).1
    {
      ghost var at := random.position;
      var j := random.NextInt(|left|);
      t := left[j];
      DrawAdvances(goal, picked, left, n, random.draws, at, t);
    }

    /** `stock.add(template.instantiate())` for each drawn template, in order. */
    method StockAll(picked: seq<nat>, ids: Uuids)
      requires Valid() && forall k :: 0 <= k < |picked| ==> picked[k] < |allCards|
      modifies this`stock, ids
      ensures |stock| == |old(stock)| + |picked| && stock[..|old(stock)|] == old(stock)
      ensures ids.next == old(ids.next) + |picked|
      ensures forall k :: 0 <= k < |picked| ==>
                stock[|old(stock)| + k] != null && fresh(stock[|old(stock)| + k])
                && stock[|old(stock)| + k].Data() == Instantiated(allCards[picked[k]], old(ids.next) + k)
      ensures forall k :: |old(stock)| <= k < |stock| ==> stock[k] != null && fresh(stock[k])
    {
      var templates := TemplatesAt(picked);
      var made := InstantiateAll(templates, ids);
      stock := stock + made;
      StockIsBasePlus(old(stock), made);
      MadeAreInstantiated(old(stock), made, picked, old(ids.next));
    }

    /** The templates at the drawn indices, in draw order. */
    function TemplatesAt(picked: seq<nat>): (r: seq<CardTemplate>)
      requires GameDataValid() && forall k :: 0 <= k < |picked| ==> picked[k] < |allCards|
      ensures |r| == |picked| && forall k :: 0 <= k < |picked| ==> r[k] == allCards[picked[k]] && Instantiable(r[k])
    {
      seq(|picked|, k requires 0 <= k < |picked| => allCards[picked[k]])
    }

    lemma MadeAreInstantiated(base: seq<MutableCard?>, made: seq<MutableCard>, picked: seq<nat>, next: nat)
      requires GameDataValid() && forall k :: 0 <= k < |picked| ==> picked[k] < |allCards|
      requires Piles.DataOf(made) == InstantiatedAll(TemplatesAt(picked), next)
      ensures forall k :: 0 <= k < |picked| ==>
                (base + made)[|base| + k] != null && (base + made)[|base| + k].Data() == Instantiated(allCards[picked[k]], next + k)
    {
      StockIsBasePlus(base, made);
    }

    /** `restock`: restocks from the eligible templates that pass the filter and match no exclusion. */
    method Restock(restockAll: bool, filter: CardTemplate -> bool, ids: Uuids) returns (r: Result<bool, ShopError>)
      requires Valid()
      modifies this`stock, random, ids
      ensures Valid() && tier == old(tier) && exclusions == old(exclusions)
      ensures !restockAll && |old(stock)| == shopSizes[tier] ==>
                r == Ok(false) && stock == old(stock) && random.position == old(random.position) && ids.next == old(ids.next)
      ensures restockAll || |old(stock)| != shopSizes[tier] ==>
                RestockedFrom(if restockAll then [] else old(stock), FilterAllCards(tier, Combined(filter, exclusions)),
                              r, old(random.position), old(ids.next), ids)
      ensures forall k :: 0 <= k < |stock| && stock[k] !in old(stock) ==> stock[k] != null && fresh(stock[k])
    {
      r := HandleRestock(restockAll, FilterAllCards(tier, Combined(filter, exclusions)), ids);
    }

    /** `addExclusion`. */
    method AddExclusion(exclusion: Exclusion)
      modifies this`exclusions
      ensures exclusions == old(exclusions) + [exclusion]
      ensures tier == old(tier) && stock == old(stock)
    {
      exclusions := exclusions + [exclusion];
    }

    /** `remove`: empties the first slot holding the card with that id, if any; every other slot is kept. */
    method Remove(cardId: Id)
      modifies this`stock
      ensures stock == Emptied(old(stock), cardId)
    {
      var i := 0;
      while i < |stock|
        invariant 0 <= i <= |stock| && stock == old(stock)
        invariant forall j :: 0 <= j < i ==> stock[j] == null || stock[j].id != cardId
      {
        if stock[i] != null && stock[i].id == cardId {
          FirstSlotIs(stock, cardId, i);
          assert Emptied(stock, cardId) == stock[i := null];
          stock := stock[i := null];
          return;
        }
        i := i + 1;
      }
    }

    /**
     * `upgrade`: false at the top tier; otherwise the tier goes up by one
     * and the shop is restocked incrementally with templates of the new tier
     * only.  A stock already as large as the new tier allows is left as it
     * is and the upgrade still succeeds.  A restock error propagates after
     * the tier has changed.
     */
    method Upgrade(ids: Uuids) returns (r: Result<bool, ShopError>)
      requires Valid()
      modifies this`tier, this`stock, random, ids
      ensures Valid() && exclusions == old(exclusions)
      ensures old(tier) >= |shopSizes| - 1 ==>
                r == Ok(false) && tier == old(tier) && stock == old(stock) && random.position == old(random.position)
                && ids.next == old(ids.next)
      ensures old(tier) < |shopSizes| - 1 ==> tier == old(tier) + 1 && (r.Ok? ==> r.value)
      ensures old(tier) < |shopSizes| - 1 && |old(stock)| == shopSizes[tier] ==>
                r == Ok(true) && stock == old(stock) && random.position == old(random.position) && ids.next == old(ids.next)
      ensures old(tier) < |shopSizes| - 1 && |old(stock)| != shopSizes[tier] ==>
                RestockedFrom(old(stock), FilterAllCards(tier, Combined(OfTier(old(tier) + 1), exclusions)),
                              if r.Ok? then Ok(true) else r, old(random.position), old(ids.next), ids)
    {
      if tier >= |shopSizes| - 1 {
        return Ok(false);
      }
      tier := tier + 1;
      r := Restock(false, OfTier(tier), ids);
      if r.Ok? {
        r := Ok(true);
      }
    }

    /**
     * `copy(random)`: a shop drawing from the given generator, at the same
     * tier, with copies of the stock and exclusion lists holding the same
     * cards and rules.
     */
    method CopyWith(rng: RandomSource) returns (s: MutableShop)
      ensures fresh(s) && s.random == rng
      ensures s.allCards == allCards && s.shopSizes == shopSizes
      ensures s.tierFrequencies == tierFrequencies && s.rarityFrequencies == rarityFrequencies
      ensures s.tier == tier && s.stock == stock && s.exclusions == exclusions
      ensures Valid() ==> s.Valid()
    {
      s := new MutableShop(rng, allCards, shopSizes, tierFrequencies, rarityFrequencies, tier, stock, exclusions);
    }

    /** `copy()` with its default argument: an independent generator in the same state. */
    method Copy() returns (s: MutableShop)
      ensures fresh(s) && fresh(s.random)
      ensures s.random.draws == random.draws && s.random.position == random.position
      ensures s.allCards == allCards && s.shopSizes == shopSizes
      ensures s.tierFrequencies == tierFrequencies && s.rarityFrequencies == rarityFrequencies
      ensures s.tier == tier && s.stock == stock && s.exclusions == exclusions
    {
      var rng := random.Copy();
      s := CopyWith(rng);
    }
  }

  /** Where the slots of `base + made` come from. */
  /** The values of the cards made from `templates` in turn, with ids counting up from `next`. */
  function InstantiatedAll(templates: seq<CardTemplate>, next: nat): (r: seq<CardData>)
    requires forall k :: 0 <= k < |templates| ==> Instantiable(templates[k])
    ensures |r| == |templates| && forall k :: 0 <= k < |templates| ==> r[k] == Instantiated(templates[k], next + k)
  {
    seq(|templates|, k requires 0 <= k < |templates| => Instantiated(templates[k], next + k))
  }

  lemma InstantiatedAllSnoc(templates: seq<CardTemplate>, i: nat, next: nat)
    requires i < |templates| && forall k :: 0 <= k < |templates| ==> Instantiable(templates[k])
    ensures InstantiatedAll(templates[..i + 1], next) == InstantiatedAll(templates[..i], next) + [Instantiated(templates[i], next + i)]
  {
    assert forall k :: 0 <= k < i ==> templates[..i + 1][k] == templates[..i][k];
  }

  /** `template.instantiate()` for each template in turn: a new card per template, each taking the next id. */
  method InstantiateAll(templates: seq<CardTemplate>, ids: Uuids) returns (made: seq<MutableCard>)
    requires forall k :: 0 <= k < |templates| ==> Instantiable(templates[k])
    modifies ids
    ensures ids.next == old(ids.next) + |templates|
    ensures forall k :: 0 <= k < |made| ==> fresh(made[k])
    ensures Piles.DataOf(made) == InstantiatedAll(templates, old(ids.next))
  {
    made := [];
    var i := 0;
    while i < |templates|
      invariant 0 <= i <= |templates|
      invariant ids.next == old(ids.next) + i
      invariant forall k :: 0 <= k < |made| ==> fresh(made[k])
      invariant Piles.DataOf(made) == InstantiatedAll(templates[..i], old(ids.next))
      invariant |made| == i
    {
      var c := InstantiateNext(templates, i, made, ids, old(ids.next));
      made := made + [c];
      i := i + 1;
    }
    assert templates[..i] == templates;
  }

  /** One turn of the loop in `InstantiateAll`: the card for the template at `i`, to go after `made`. */
  method InstantiateNext(templates: seq<CardTemplate>, i: nat, made: seq<MutableCard>, ids: Uuids, ghost next: nat)
    returns (c: MutableCard)
    requires i < |templates| && forall k :: 0 <= k < |templates| ==> Instantiable(templates[k])
    requires ids.next == next + i
    requires Piles.DataOf(made) == InstantiatedAll(templates[..i], next)
    modifies ids
    ensures ids.next == next + i + 1
    ensures fresh(c)
    ensures Piles.DataOf(made + [c]) == InstantiatedAll(templates[..i + 1], next)
  {
    ghost var before := Piles.DataOf(made);
    var card := MutableCard.FromTemplate(templates[i], ids);
    assert Piles.DataOf(made) == before;
    c := card.value;
    ghost var d := c.Data();
    assert d == Instantiated(templates[i], next + i);
    DataOfSnoc(made, c);
    InstantiatedAllSnoc(templates, i, next);
  }

  lemma DataOfSnoc(made: seq<MutableCard>, card: MutableCard)
    ensures Piles.DataOf(made + [card]) == Piles.DataOf(made) + [card.Data()]
  {
    assert forall k :: 0 <= k < |made| ==> (made + [card])[k] == made[k];
  }

  lemma StockIsBasePlus(base: seq<MutableCard?>, made: seq<MutableCard>)
    ensures (base + made)[..|base|] == base
    ensures forall k :: 0 <= k < |made| ==> (base + made)[|base| + k] == made[k]
    ensures forall k :: |base| <= k < |base| + |made| ==> (base + made)[k] == made[k - |base|]
  {
  }

  lemma {:induction false} FirstSlotIs(stock: seq<MutableCard?>, id: Id, i: nat)
    requires i < |stock| && stock[i] != null && stock[i].id == id
    requires forall j :: 0 <= j < i ==> stock[j] == null || stock[j].id != id
    ensures FirstSlot(stock, id) == Some(i)
  {
  }

  /**
   * Every template a restock stocks is eligible at the shop's tier, passes
   * the caller's filter, matches no exclusion and is stocked only once.
   */
  lemma {:induction false} RestockPicksEligible(shop: MutableShop, tier: int, filter: CardTemplate -> bool,
                                                exclusions: seq<Exclusion>, count: nat, draws: Draws, pos: nat)
    requires shop.GameDataValid()
    ensures var p := Picks(shop.UberStock(shop.FilterAllCards(tier, Combined(filter, exclusions))), count, draws, pos).0;
            forall k :: 0 <= k < |p| ==>
              p[k] < |shop.allCards| && shop.allCards[p[k]].cost > 0 && shop.allCards[p[k]].tier <= tier
              && filter(shop.allCards[p[k]]) && NotExcluded(exclusions, shop.allCards[p[k]])
              && forall j :: 0 <= j < |p| && j != k ==> p[j] != p[k]
  {
    var f := Combined(filter, exclusions);
    var possible := shop.FilterAllCards(tier, f);
    var p := Picks(shop.UberStock(possible), count, draws, pos).0;
    PicksFacts(shop.UberStock(possible), count, draws, pos);
    forall k | 0 <= k < |p|
      ensures p[k] < |shop.allCards| && Eligible(shop.allCards[p[k]], tier, f)
    {
      assert p[k] in shop.UberStock(possible);
    }
  }

  /**
   * A restock that succeeds fills the shop to its size for the tier (a
   * stock already past that size is left as it was).
   */
  lemma {:induction false} SuccessfulRestockFills(shop: MutableShop, base: seq<MutableCard?>, possible: seq<nat>,
                                                  r: Result<bool, ShopError>, pos: nat, next: nat, ids: Uuids)
    requires shop.Valid() && shop.Indices(possible)
    requires shop.RestockedFrom(base, possible, r, pos, next, ids) && r.Ok?
    ensures |shop.stock| == if |base| <= shop.shopSizes[shop.tier] then shop.shopSizes[shop.tier] else |base|
  {
    var n := shop.shopSizes[shop.tier] - |base|;
    PicksFacts(shop.UberStock(possible), if n < 0 then 0 else n, shop.random.draws, pos);
  }
}
