/**
 * The console's list of blueprints: sorted by name or by total build cost,
 * TAB switches between the two orders, and while sorted by name typing
 * letters jumps to the first blueprint matching what was typed.
 */
module BuildingListViews {
  import opened Wrappers
  import opened Text
  import opened Sorting
  import opened Buildings

  /** The two orders, in declaration order. */
  datatype SortingOrder = Cost | Name

  function Ordinal(o: SortingOrder): nat
  {
    match o
    case Cost => 0
    case Name => 1
  }

  function FromOrdinal(n: nat): SortingOrder
    requires n < 2
  {
    if n == 0 then Cost else Name
  }

  /** `next`: the order after this one, wrapping round after the last. */
  function Next(o: SortingOrder): (r: SortingOrder)
    ensures r != o
    ensures Ordinal(r) == (Ordinal(o) + 1) % 2
  {
    FromOrdinal((Ordinal(o) + 1) % 2)
  }

  /** With two orders, `next` twice is where it started. */
  lemma NextTwice(o: SortingOrder)
    ensures Next(Next(o)) == o
  {
  }

  function BlueprintName(b: Blueprint): string
  {
    b.name
  }

  /** The cost the list sorts by: cash plus influence. */
  function TotalCost(b: Blueprint): int
  {
    b.buildCost.cash + b.buildCost.influence
  }

  /** The keys the view reacts to. */
  datatype Key = CharKey(code: char) | Backspace | Tab | OtherKey

  class BuildingListView {
    var sortingOrder: SortingOrder
    const blueprints: seq<Blueprint>
    var searchPrefix: string
    var currIndex: int
    var shouldRefreshCommands: bool
    /** The blueprint searcher over the blueprints the player has built: a prefix to a blueprint, or none. */
    const search: string -> Option<Blueprint>

    /** The blueprints are kept in name order throughout. */
    ghost predicate Valid()
      reads this
    {
      SortedByName(blueprints, BlueprintName)
    }

    constructor (data: seq<Blueprint>, sortingOrder: SortingOrder, search: string -> Option<Blueprint>)
      ensures Valid()
      ensures multiset(blueprints) == multiset(data)
      ensures this.sortingOrder == sortingOrder && searchPrefix == "" && this.search == search
    {
      SortByNameSorted(data, BlueprintName);
      this.sortingOrder := sortingOrder;
      blueprints := SortByName(data, BlueprintName);
      searchPrefix := "";
      currIndex := 0;
      shouldRefreshCommands := true;
      this.search := search;
    }

    /**
     * `createCommands`: the blueprints in cost order or in name order, one
     * command per blueprint.
     */
    function Commands(): (r: seq<Blueprint>)
      reads this
      requires Valid()
      ensures multiset(r) == multiset(blueprints) && |r| == |blueprints|
      ensures sortingOrder == Cost ==> SortedByCost(r, TotalCost)
      ensures sortingOrder == Name ==> r == blueprints && SortedByName(r, BlueprintName)
    {
      match sortingOrder
      case Cost =>
        SortByCostSorted(blueprints, TotalCost);
        SortByCost(blueprints, TotalCost)
      case Name => blueprints
    }

    /**
     * `handleAdditionalKeys`.  Sorted by name, a letter or a space extends
     * the search prefix (lowercased) and moves the cursor to the blueprint
     * the searcher finds, or to 0 when it finds none; BACKSPACE drops the
     * last character of the prefix.  TAB, in either order, switches to the
     * other order, clears the prefix, puts the cursor at 0 and asks for the
     * commands to be rebuilt.  Any other key is not handled and changes nothing.
     */
    method HandleAdditionalKeys(key: Key) returns (handled: bool)
      modifies this`sortingOrder, this`searchPrefix, this`currIndex, this`shouldRefreshCommands
      ensures old(sortingOrder) == Name && key.CharKey? && (IsLetter(key.code) || key.code == ' ') ==>
                handled && sortingOrder == Name && shouldRefreshCommands == old(shouldRefreshCommands)
                && searchPrefix == old(searchPrefix) + [Lower(key.code)]
                && currIndex == (match search(searchPrefix)
                                 case Some(b) => IndexOf(blueprints, b)
                                 case None => 0)
      ensures old(sortingOrder) == Name && key == Backspace ==>
                handled && sortingOrder == Name && currIndex == old(currIndex)
                && shouldRefreshCommands == old(shouldRefreshCommands)
                && searchPrefix == (if old(searchPrefix) == [] then [] else old(searchPrefix)[..|old(searchPrefix)| - 1])
      ensures key == Tab ==>
                handled && currIndex == 0 && sortingOrder == Next(old(sortingOrder)) && searchPrefix == ""
                && shouldRefreshCommands
      ensures !handled <==> key.OtherKey? || (key.CharKey? && !(old(sortingOrder) == Name && (IsLetter(key.code) || key.code == ' ')))
                            || (key == Backspace && old(sortingOrder) != Name)
      ensures !handled ==> unchanged(this)
    {
      if sortingOrder == Name && key.CharKey? && (IsLetter(key.code) || key.code == ' ') {
        searchPrefix := searchPrefix + [Lower(key.code)];
        match search(searchPrefix) {
          case Some(found) => currIndex := IndexOf(blueprints, found);
          case None => currIndex := 0;
        }
        handled := true;
      } else if sortingOrder == Name && key == Backspace {
        if searchPrefix != [] {
          searchPrefix := searchPrefix[..|searchPrefix| - 1];
        }
        handled := true;
      } else if key == Tab {
        currIndex := 0;
        sortingOrder := Next(sortingOrder);
        searchPrefix := "";
        shouldRefreshCommands := true;
        handled := true;
      } else {
        handled := false;
      }
    }
  }
}
