/**
 * The console's type-to-jump search over a card list: the list is sorted by
 * name once, and a search prefix picks the index of the card to jump to.
 */
module CardSearch {
  import opened Wrappers
  import opened Text
  import opened Sorting
  import Cards

  function NameOf(t: Cards.CardTemplate): string
  {
    t.name
  }

  /** The searcher holds its cards sorted by name. */
  datatype CardSearcher = CardSearcher(cards: seq<Cards.CardTemplate>)

  /** `CardSearcher(cards)`: the same cards, in name order. */
  function NewCardSearcher(templates: seq<Cards.CardTemplate>): (s: CardSearcher)
    ensures multiset(s.cards) == multiset(templates)
    ensures SortedByName(s.cards, NameOf)
  {
    SortByNameSorted(templates, NameOf);
    CardSearcher(SortByName(templates, NameOf))
  }

  /** The card at `i` is a match of the prefix ignoring case. */
  predicate StartsAt(cards: seq<Cards.CardTemplate>, i: nat, prefix: string)
    requires i < |cards|
  {
    StartsWithIgnoreCase(cards[i].name, prefix)
  }

  /** The card at `i` has a lowercased name below the prefix, compared case-sensitively. */
  predicate BelowAt(cards: seq<Cards.CardTemplate>, i: nat, prefix: string)
    requires i < |cards|
  {
    StrLess(LowerStr(cards[i].name), prefix)
  }

  /** The first card from `from` on whose name starts with the prefix. */
  function FirstStarting(cards: seq<Cards.CardTemplate>, prefix: string, from: nat): (r: Option<nat>)
    requires from <= |cards|
    ensures r.Some? ==> from <= r.value < |cards| && StartsAt(cards, r.value, prefix)
                        && forall j :: from <= j < r.value ==> !StartsAt(cards, j, prefix)
    ensures r.None? ==> forall j :: from <= j < |cards| ==> !StartsAt(cards, j, prefix)
    decreases |cards| - from
  {
    if from == |cards| then None
    else if StartsAt(cards, from, prefix) then Some(from)
    else FirstStarting(cards, prefix, from + 1)
  }

  /** The last card before `upTo` whose lowercased name is below the prefix. */
  function LastBelow(cards: seq<Cards.CardTemplate>, prefix: string, upTo: nat): (r: Option<nat>)
    requires upTo <= |cards|
    ensures r.Some? ==> r.value < upTo && BelowAt(cards, r.value, prefix)
                        && forall j :: r.value < j < upTo ==> !BelowAt(cards, j, prefix)
    ensures r.None? ==> forall j :: 0 <= j < upTo ==> !BelowAt(cards, j, prefix)
  {
    if upTo == 0 then None
    else if BelowAt(cards, upTo - 1, prefix) then Some(upTo - 1)
    else LastBelow(cards, prefix, upTo - 1)
  }

  /**
   * `search`: the first card whose name starts with the prefix ignoring
   * case; failing that, the last card whose lowercased name is below the
   * prefix; failing that, 0.  The card found is located again with `indexOf`.
   */
  function Search(s: CardSearcher, prefix: string): (r: nat)
    ensures r == 0 || r < |s.cards|
  {
    match FirstStarting(s.cards, prefix, 0)
    case Some(i) => IndexOf(s.cards, s.cards[i])
    case None =>
      match LastBelow(s.cards, prefix, |s.cards|)
      case Some(i) => IndexOf(s.cards, s.cards[i])
      case None => 0
  }

  /** When some name starts with the prefix, the search lands on the first such card. */
  lemma SearchFindsFirstMatch(s: CardSearcher, prefix: string, i: nat)
    requires i < |s.cards| && StartsAt(s.cards, i, prefix)
    ensures Search(s, prefix) <= i && StartsAt(s.cards, Search(s, prefix), prefix)
    ensures forall j :: 0 <= j < Search(s, prefix) ==> !StartsAt(s.cards, j, prefix)
  {
    var f := FirstStarting(s.cards, prefix, 0).value;
    var r := IndexOf(s.cards, s.cards[f]);
    assert s.cards[r] == s.cards[f];
    assert StartsAt(s.cards, r, prefix);
  }

  /**
   * When no name starts with the prefix, the search lands on a copy of the
   * last card whose lowercased name is below the prefix (the first copy of it).
   */
  lemma SearchFallsBackToLastBelow(s: CardSearcher, prefix: string, i: nat)
    requires forall j :: 0 <= j < |s.cards| ==> !StartsAt(s.cards, j, prefix)
    requires i < |s.cards| && BelowAt(s.cards, i, prefix)
    requires forall j :: i < j < |s.cards| ==> !BelowAt(s.cards, j, prefix)
    ensures Search(s, prefix) <= i && s.cards[Search(s, prefix)] == s.cards[i]
    ensures forall j :: 0 <= j < Search(s, prefix) ==> s.cards[j] != s.cards[i]
  {
    var l := LastBelow(s.cards, prefix, |s.cards|);
    assert l.Some? by {
      assert BelowAt(s.cards, i, prefix);
    }
    assert l.value == i;
  }

  /** With neither kind of card, the search gives 0. */
  lemma SearchDefaultsToZero(s: CardSearcher, prefix: string)
    requires forall j :: 0 <= j < |s.cards| ==> !StartsAt(s.cards, j, prefix) && !BelowAt(s.cards, j, prefix)
    ensures Search(s, prefix) == 0
  {
  }

  /** An empty prefix matches every name, so a search for it lands on the first card. */
  lemma EmptyPrefixFindsFirst(s: CardSearcher)
    ensures Search(s, "") == 0
  {
    if s.cards != [] {
      assert StartsAt(s.cards, 0, "");
    }
  }
}
