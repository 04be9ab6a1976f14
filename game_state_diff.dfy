/**
 * The change report shown after a player action: the history entries logged
 * between two snapshots of a game, tidied up (single-card group moves read
 * as single moves, a card bouncing between piles reported only where it
 * ended up), then one line per reportable entry, then one line per game
 * resource that changed.
 */
module GameStateDiffs {
  import opened Wrappers
  import opened Ids
  import opened Text
  import opened ListStrategies
  import opened GameChanges
  import Cards
  import Buildings

  /** Which of the two snapshots a pile is described in. */
  datatype Stage = Before | After

  /**
   * What the report reads of one game state.  The piles are given by id;
   * `pileOf` is `pileFor` by card id; `stockIds` are the ids of the cards
   * on the shop's shelves and `remaining` is how many more copies of a
   * template the shop can still sell.
   */
  datatype Snapshot = Snapshot(
    history: seq<GameStateChange>,
    handSize: int, cash: int, influence: int, luck: int, vp: int,
    deck: Id, hand: Id, discard: Id, graveyard: Id, discardSize: nat,
    pileOf: map<Id, Id>, ownedPiles: set<Id>,
    blueprints: seq<Buildings.Blueprint>,
    stockIds: set<Id>, stockHasEmptySlot: bool,
    remaining: Cards.CardTemplate -> int)

  /** The describer's wording of piles, resources and upgrades. */
  datatype Describer = Describer(
    pile: (Stage, Id) -> string,
    cash: nat -> string, influence: nat -> string, luck: nat -> string, vp: nat -> string,
    upgradeTitle: Cards.UpgradeType -> string)

  /** What makes a report throw. */
  datatype ReportError =
    | /** `count!!` on a draw whose count was never filled in. */ MissingDrawCount
    | UnexpectedCardProperty
    | UnexpectedBuildingProperty
    | /** `before.blueprints[index]` out of range. */ NoSuchBlueprint

  // ---------------------------------------------------------------------------
  // The diff itself

  /** `changes`: `after.history.drop(before.history.size)`. */
  function Changes(before: Snapshot, after: Snapshot): (r: seq<GameStateChange>)
    ensures |r| == if |before.history| <= |after.history| then |after.history| - |before.history| else 0
    ensures forall k :: 0 <= k < |r| ==> r[k] == after.history[|before.history| + k]
  {
    if |before.history| <= |after.history| then after.history[|before.history|..] else []
  }

  /** `hasNoChanges`. */
  predicate HasNoChanges(before: Snapshot, after: Snapshot)
  {
    Changes(before, after) == []
  }

  /** There is nothing to report exactly when the later history is no longer than the earlier one. */
  lemma NoChangesIff(before: Snapshot, after: Snapshot)
    ensures HasNoChanges(before, after) <==> |after.history| <= |before.history|
  {
    if |before.history| < |after.history| {
      assert |Changes(before, after)| > 0;
    }
  }

  /** When the earlier history is a prefix of the later one, the changes are exactly what was logged in between. */
  lemma ChangesCompleteHistory(before: Snapshot, after: Snapshot)
    requires |before.history| <= |after.history| && after.history[..|before.history|] == before.history
    ensures before.history + Changes(before, after) == after.history
  {
    assert after.history[..|before.history|] + after.history[|before.history|..] == after.history;
  }

  // ---------------------------------------------------------------------------
  // Normalising and merging moves

  /** A group move of exactly one card reads better as a single move. */
  function Normalised(c: GameStateChange): GameStateChange
  {
    if c.MoveCards? && |c.cards| == 1 then MoveCard(c.cards[0], c.intoPile, c.listStrategy) else c
  }

  /** The loop over the indices of the change list, rewriting single-card group moves in place. */
  method Normalise(changes: seq<GameStateChange>) returns (r: seq<GameStateChange>)
    ensures |r| == |changes|
    ensures forall k :: 0 <= k < |r| ==> r[k] == Normalised(changes[k])
  {
    r := changes;
    var i := 0;
    while i < |r|
      invariant 0 <= i <= |r| == |changes|
      invariant forall k :: 0 <= k < i ==> r[k] == Normalised(changes[k])
      invariant forall k :: i <= k < |r| ==> r[k] == changes[k]
    {
      var change := r[i];
      if change.MoveCards? && |change.cards| == 1 {
        r := r[i := MoveCard(change.cards[0], change.intoPile, change.listStrategy)];
      }
      i := i + 1;
    }
  }

  /**
   * After normalising, no group move of one card is left; each became the
   * single move of that card to the same pile with the same strategy, and
   * every other entry is unchanged.
   */
  lemma NormalisedFacts(c: GameStateChange)
    ensures !(Normalised(c).MoveCards? && |Normalised(c).cards| == 1)
    ensures c.MoveCards? && |c.cards| == 1 ==> Normalised(c) == MoveCard(c.cards[0], c.intoPile, c.listStrategy)
    ensures !(c.MoveCards? && |c.cards| == 1) ==> Normalised(c) == c
  {
  }

  /** The single moves of `card` among `cs`, in order. */
  function MovesOf(cs: seq<GameStateChange>, card: CardRef): (r: seq<GameStateChange>)
    ensures forall k :: 0 <= k < |r| ==> r[k].MoveCard? && r[k].card == card
  {
    if cs == [] then []
    else (if cs[0].MoveCard? && cs[0].card == card then [cs[0]] else []) + MovesOf(cs[1..], card)
  }

  /** The entries that are not single moves, in order. */
  function OtherEntries(cs: seq<GameStateChange>): (r: seq<GameStateChange>)
    ensures forall k :: 0 <= k < |r| ==> !r[k].MoveCard?
  {
    if cs == [] then [] else (if cs[0].MoveCard? then [] else [cs[0]]) + OtherEntries(cs[1..])
  }

  /** A move is transient when the same card moves again later. */
  predicate Transient(c: GameStateChange, later: seq<GameStateChange>)
  {
    c.MoveCard? && MovesOf(later, c.card) != []
  }

  /** The change list with every transient move removed (`removeAll` of all but the last move of each card). */
  function WithoutTransientMoves(cs: seq<GameStateChange>): seq<GameStateChange>
  {
    if cs == [] then [] else (if Transient(cs[0], cs[1..]) then [] else [cs[0]]) + WithoutTransientMoves(cs[1..])
  }

  /** Merging leaves every entry other than a single move in place, in its order. */
  lemma {:induction false} MergeKeepsOthers(cs: seq<GameStateChange>)
    ensures OtherEntries(WithoutTransientMoves(cs)) == OtherEntries(cs)
  {
    if cs != [] {
      var head := if Transient(cs[0], cs[1..]) then [] else [cs[0]];
      MergeKeepsOthers(cs[1..]);
      OtherEntriesConcat(head, WithoutTransientMoves(cs[1..]));
    }
  }

  /** After merging, a card that moved has exactly one move left, its last one; a card that did not move has none. */
  lemma {:induction false} MergeKeepsLastMove(cs: seq<GameStateChange>, card: CardRef)
    ensures var m := MovesOf(cs, card);
            MovesOf(WithoutTransientMoves(cs), card) == if m == [] then [] else [m[|m| - 1]]
  {
    if cs != [] {
      var head := if Transient(cs[0], cs[1..]) then [] else [cs[0]];
      MergeKeepsLastMove(cs[1..], card);
      MovesOfConcat(head, WithoutTransientMoves(cs[1..]), card);
      var m, rest := MovesOf(cs, card), MovesOf(cs[1..], card);
      if cs[0].MoveCard? && cs[0].card == card {
        assert m == [cs[0]] + rest;
      } else {
        assert m == rest;
      }
    }
  }

  lemma {:induction false} MovesOfConcat(a: seq<GameStateChange>, b: seq<GameStateChange>, card: CardRef)
    ensures MovesOf(a + b, card) == MovesOf(a, card) + MovesOf(b, card)
  {
    if a == [] {
      assert a + b == b;
    } else {
      assert (a + b)[1..] == a[1..] + b;
      MovesOfConcat(a[1..], b, card);
    }
  }

  lemma {:induction false} OtherEntriesConcat(a: seq<GameStateChange>, b: seq<GameStateChange>)
    ensures OtherEntries(a + b) == OtherEntries(a) + OtherEntries(b)
  {
    if a == [] {
      assert a + b == b;
    } else {
      assert (a + b)[1..] == a[1..] + b;
      OtherEntriesConcat(a[1..], b);
    }
  }

  // ---------------------------------------------------------------------------
  // The lines of the report

  /** `reportLine`: a newline before every line but the first, and "- " in front of each. */
  function ReportLine(sb: string, message: string): (r: string)
  {
    (if sb != "" then sb + "\n" else sb) + "- " + message
  }

  /** The report after `reportLine` was called with each message in turn. */
  function RenderOnto(sb: string, messages: seq<string>): string
    decreases |messages|
  {
    if messages == [] then sb
    else ReportLine(RenderOnto(sb, messages[..|messages| - 1]), messages[|messages| - 1])
  }

  /** Every message with its "- " prefix. */
  function Dashed(messages: seq<string>): (r: seq<string>)
    ensures |r| == |messages| && forall k :: 0 <= k < |r| ==> r[k] == "- " + messages[k]
  {
    seq(|messages|, k requires 0 <= k < |messages| => "- " + messages[k])
  }

  /**
   * The report written from nothing is the messages, each prefixed "- ",
   * joined by single newlines: none before the first line, none after the last.
   */
  lemma {:induction false} RenderIsJoin(messages: seq<string>)
    ensures RenderOnto("", messages) == Join(Dashed(messages), "\n")
    ensures RenderOnto("", messages) == "" <==> messages == []
    decreases |messages|
  {
    if messages != [] {
      var init := messages[..|messages| - 1];
      RenderIsJoin(init);
      assert Dashed(messages)[..|messages| - 1] == Dashed(init);
      var s := RenderOnto("", init);
      assert RenderOnto("", messages) == (if s != "" then s + "\n" else s) + "- " + messages[|messages| - 1];
    }
  }

  lemma {:induction false} RenderOntoConcat(sb: string, a: seq<string>, b: seq<string>)
    ensures RenderOnto(RenderOnto(sb, a), b) == RenderOnto(sb, a + b)
    decreases |b|
  {
    if b == [] {
      assert a + b == a;
    } else {
      RenderOntoConcat(sb, a, b[..|b| - 1]);
      assert (a + b)[..|a + b| - 1] == a + b[..|b| - 1];
    }
  }

  /** `ListStrategy.toDesc()`. */
  function ToDesc(strategy: ListStrategy): string
  {
    match strategy
    case Front => "to the front of"
    case Back => "into"
    case Random => "randomly into"
  }

  /** The three strategies read differently. */
  lemma ToDescDistinct(a: ListStrategy, b: ListStrategy)
    ensures ToDesc(a) == ToDesc(b) <==> a == b
  {
    if a != b {
      assert ToDesc(a)[..2] != ToDesc(b)[..2] || |ToDesc(a)| != |ToDesc(b)|;
    }
  }

  /** The line for an amount: none for zero, else the gain or the loss wording of its size. */
  function SignLines(amount: int, gain: nat -> string, loss: nat -> string): (r: seq<string>)
  {
    if amount > 0 then [gain(amount)] else if amount < 0 then [loss(-amount)] else []
  }

  lemma SignLinesFacts(amount: int, gain: nat -> string, loss: nat -> string)
    ensures SignLines(amount, gain, loss) == [] <==> amount == 0
    ensures amount > 0 ==> SignLines(amount, gain, loss) == [gain(amount)]
    ensures amount < 0 ==> SignLines(amount, gain, loss) == [loss(-amount)]
  {
  }

  /** `pileFor(card)` in a snapshot. */
  function PileOf(s: Snapshot, card: CardRef): Option<Id>
  {
    if card.id in s.pileOf then Some(s.pileOf[card.id]) else None
  }

  /** `reportIfLastShopCard`: the card came off the shelves and the shop has no more copies of it to sell. */
  function LastShopCardLines(card: CardRef, b: Snapshot, a: Snapshot): seq<string>
  {
    if card.id in b.stockIds && a.remaining(card.template) == 0 then
      ["The shop will not sell any more copied of " + card.template.name + "."]
    else []
  }

  /** The `reportIfLastShopCard` lines of each card in turn. */
  function LastShopCardsLines(cards: seq<CardRef>, b: Snapshot, a: Snapshot): seq<string>
  {
    if cards == [] then [] else LastShopCardLines(cards[0], b, a) + LastShopCardsLines(cards[1..], b, a)
  }

  /** The report of a single move. */
  function MoveCardLines(card: CardRef, into: Id, strategy: ListStrategy, b: Snapshot, a: Snapshot, d: Describer): seq<string>
  {
    var title := card.template.name;
    if into == a.graveyard then [title + " was removed from the game."]
    else
      var to := d.pile(After, into);
      var moved := match PileOf(b, card)
        case Some(from) =>
          if from != into then [title + " was moved from " + d.pile(Before, from) + " " + ToDesc(strategy) + " " + to + "."]
          else []
        case None => [title + " was created and moved " + ToDesc(strategy) + " " + to + "."];
      moved + LastShopCardLines(card, b, a)
  }

  /** A single move into the pile the card is already in says nothing about the move itself. */
  lemma MoveWithinPileQuiet(card: CardRef, into: Id, strategy: ListStrategy, b: Snapshot, a: Snapshot, d: Describer)
    requires into != a.graveyard && PileOf(b, card) == Some(into)
    ensures MoveCardLines(card, into, strategy, b, a, d) == LastShopCardLines(card, b, a)
  {
  }

  /** `groupBy { pileFor(it) }`: the keys in order of first appearance. */
  function GroupKeys(cards: seq<CardRef>, b: Snapshot): (r: seq<Option<Id>>)
    decreases |cards|
  {
    if cards == [] then []
    else
      var keys := GroupKeys(cards[..|cards| - 1], b);
      var key := PileOf(b, cards[|cards| - 1]);
      if key in keys then keys else keys + [key]
  }

  /** The group keys are distinct, and they are exactly the piles the cards came from. */
  lemma {:induction false} GroupKeysFacts(cards: seq<CardRef>, b: Snapshot)
    ensures Distinct(GroupKeys(cards, b))
    ensures forall key :: key in GroupKeys(cards, b) <==> exists k :: 0 <= k < |cards| && PileOf(b, cards[k]) == key
    decreases |cards|
  {
    if cards != [] {
      var init := cards[..|cards| - 1];
      GroupKeysFacts(init, b);
      assert forall k :: 0 <= k < |init| ==> init[k] == cards[k];
      var last := |cards| - 1;
      forall key | key in GroupKeys(cards, b)
        ensures exists k :: 0 <= k < |cards| && PileOf(b, cards[k]) == key
      {
        if key !in GroupKeys(init, b) {
          assert PileOf(b, cards[last]) == key;
        } else {
          var k :| 0 <= k < |init| && PileOf(b, init[k]) == key;
          assert PileOf(b, cards[k]) == key;
        }
      }
    }
  }

  /** The cards of one group, in order. */
  function Group(cards: seq<CardRef>, b: Snapshot, key: Option<Id>): (r: seq<CardRef>)
    ensures forall k :: 0 <= k < |r| ==> r[k] in cards && PileOf(b, r[k]) == key
  {
    if cards == [] then []
    else (if PileOf(b, cards[0]) == key then [cards[0]] else []) + Group(cards[1..], b, key)
  }

  /** The report of one group of a group move: a count line for several cards, the single move otherwise. */
  function GroupLines(key: Option<Id>, group: seq<CardRef>, into: Id, strategy: ListStrategy, b: Snapshot, a: Snapshot,
                      d: Describer): seq<string>
  {
    var to := d.pile(After, into);
    if |group| > 1 then
      var header := match key
        case Some(from) =>
          NatToString(|group|) + " cards moved from " + d.pile(Before, from) + " " + ToDesc(strategy) + " " + to + "."
        case None => NatToString(|group|) + " cards were created and moved " + ToDesc(strategy) + " " + to + ".";
      [header] + LastShopCardsLines(group, b, a)
    else if |group| == 1 then MoveCardLines(group[0], into, strategy, b, a, d)
    else []
  }

  /** The groups in key order, skipping the group already in the target pile. */
  function GroupsLines(keys: seq<Option<Id>>, cards: seq<CardRef>, into: Id, strategy: ListStrategy, b: Snapshot, a: Snapshot,
                       d: Describer): seq<string>
  {
    if keys == [] then []
    else
      (if keys[0] == Some(into) then [] else GroupLines(keys[0], Group(cards, b, keys[0]), into, strategy, b, a, d))
      + GroupsLines(keys[1..], cards, into, strategy, b, a, d)
  }

  /** The report of a group move. */
  function MoveCardsLines(cards: seq<CardRef>, into: Id, strategy: ListStrategy, b: Snapshot, a: Snapshot, d: Describer): seq<string>
  {
    if into == a.graveyard then [NatToString(|cards|) + " cards were removed from the game."]
    else GroupsLines(GroupKeys(cards, b), cards, into, strategy, b, a, d)
  }

  /** The lines of an amount added to a card or a building. */
  function AmountLines(name: string, kind: int, amount: int, d: Describer): seq<string>
    requires 0 <= kind < 3
  {
    if kind == 0 then
      SignLines(amount, (n: nat) => name + " added " + NatToString(n) + " counter(s).",
                        (n: nat) => name + " removed " + NatToString(n) + " counter(s).")
    else if kind == 1 then
      SignLines(amount, (n: nat) => name + " added " + d.vp(n) + ".", (n: nat) => name + " lost " + d.vp(n) + ".")
    else
      SignLines(amount, (n: nat) => name + " increased by " + d.vp(n) + ".", (n: nat) => name + " decreased by " + d.vp(n) + ".")
  }

  /** `report(change)` for every kind of entry, as dispatched by `reportTo`. */
  function ChangeLines(c: GameStateChange, b: Snapshot, a: Snapshot, d: Describer): Result<seq<string>, ReportError>
  {
    match c
    case ShuffleDiscardIntoDeck =>
      Ok([Capitalize(d.pile(Before, b.discard)) + " (" + NatToString(b.discardSize) + ") was reshuffled into "
          + d.pile(After, a.deck) + " to refill it."])
    case Draw(count) =>
      if count.None? then Err(MissingDrawCount)
      else if count.value > 1 then
        Ok([IntToString(count.value) + " cards were drawn from " + d.pile(Before, b.deck) + " into " + d.pile(After, a.hand) + "."])
      else if count.value == 1 then
        Ok(["A card was drawn from " + d.pile(Before, b.deck) + " into " + d.pile(After, a.hand) + "."])
      else Ok([])
    case MoveCards(cards, into, strategy) => Ok(MoveCardsLines(cards, into, strategy, b, a, d))
    case MoveCard(card, into, strategy) => Ok(MoveCardLines(card, into, strategy, b, a, d))
    case Shuffle(pile) => Ok([Capitalize(d.pile(After, pile)) + " was shuffled."])
    case AddCardAmount(property, card, amount) =>
      if !(card.id in a.pileOf && a.pileOf[card.id] in a.ownedPiles) then Ok([])
      else
        (match property
         case CardCounter => Ok(AmountLines(card.template.name, 0, amount, d))
         case CardVp => Ok(AmountLines(card.template.name, 1, amount, d))
         case CardVpPassive => Ok(AmountLines(card.template.name, 2, amount, d))
         case CardOtherProperty => Err(UnexpectedCardProperty))
    case UpgradeCard(card, upgrade) =>
      Ok([card.template.name + " was upgraded, adding: " + d.upgradeTitle(upgrade) + "."])
    case AddBuildingAmount(property, blueprint, amount) =>
      (match property
       case BuildingCounter => Ok(AmountLines(blueprint.name, 0, amount, d))
       case BuildingVp => Ok(AmountLines(blueprint.name, 1, amount, d))
       case BuildingVpPassive => Ok(AmountLines(blueprint.name, 2, amount, d))
       case BuildingOtherProperty => Err(UnexpectedBuildingProperty))
    case AddEffect(desc, warningExpr) =>
      Ok(["You added the following effect onto the street:\n  " + (if desc.Some? then desc.value else warningExpr)])
    case RestockShop =>
      Ok(["The shop was restocked." + (if a.stockHasEmptySlot then " Due to supply issues, some shelves are empty." else "")])
    case UpgradeShop => Ok(["The shop was upgraded."])
    case AddBlueprint(blueprint) => Ok(["You added the following blueprint: " + blueprint.name + "."])
    case Build(index) =>
      if 0 <= index < |b.blueprints| then Ok([b.blueprints[index].name + " was built."]) else Err(NoSuchBlueprint)
    case GameStarted => Ok([])
    case Play => Ok([])
    case AddGameAmount => Ok([])
    case SetGameData => Ok([])
    case Activate => Ok([])
    case EndTurn => Ok([])
    case GameOver => Ok([])
    case AddShopExclusion(_) => Ok([])
  }

  /**
   * Markers, plays, activations, turn ends, game amounts, game data and shop
   * exclusions are never reported on their own.
   */
  lemma SilentChanges(c: GameStateChange, b: Snapshot, a: Snapshot, d: Describer)
    requires c.GameStarted? || c.Play? || c.AddGameAmount? || c.SetGameData? || c.Activate? || c.EndTurn? || c.GameOver?
             || c.AddShopExclusion?
    ensures ChangeLines(c, b, a, d) == Ok([])
  {
  }

  /** A draw of no card reports nothing, a draw whose count was never set throws, any other draw gives one line. */
  lemma DrawLines(count: Option<int>, b: Snapshot, a: Snapshot, d: Describer)
    ensures count == Some(0) ==> ChangeLines(Draw(count), b, a, d) == Ok([])
    ensures count.None? <==> ChangeLines(Draw(count), b, a, d).Err?
    ensures count.Some? && count.value > 0 ==> |ChangeLines(Draw(count), b, a, d).value| == 1
  {
  }

  /** Amounts added to a card the player does not own are not reported. */
  lemma UnownedCardQuiet(property: CardProperty, card: CardRef, amount: int, b: Snapshot, a: Snapshot, d: Describer)
    requires !(card.id in a.pileOf && a.pileOf[card.id] in a.ownedPiles)
    ensures ChangeLines(AddCardAmount(property, card, amount), b, a, d) == Ok([])
  {
  }

  /** The lines of the entries in order; the first entry that throws ends the report. */
  function ChangesLines(cs: seq<GameStateChange>, b: Snapshot, a: Snapshot, d: Describer): Result<seq<string>, ReportError>
    decreases |cs|
  {
    if cs == [] then Ok([])
    else
      match ChangesLines(cs[..|cs| - 1], b, a, d)
      case Err(e) => Err(e)
      case Ok(lines) =>
        match ChangeLines(cs[|cs| - 1], b, a, d)
        case Err(e) => Err(e)
        case Ok(more) => Ok(lines + more)
  }

  /** The aggregate lines: hand size as before and after, then cash, influence, luck and vp by their difference. */
  function ResourceLines(b: Snapshot, a: Snapshot, d: Describer): seq<string>
  {
    var handSize := SignLines(a.handSize - b.handSize,
                              (_: nat) => "Your hand size grew from " + IntToString(b.handSize) + " to " + IntToString(a.handSize) + " cards.",
                              (_: nat) => "Your hand size shrunk from " + IntToString(b.handSize) + " to " + IntToString(a.handSize) + " cards.");
    handSize
    + SignLines(a.cash - b.cash, (n: nat) => "You earned " + d.cash(n) + ".", (n: nat) => "You spent " + d.cash(n) + ".")
    + SignLines(a.influence - b.influence, (n: nat) => "You earned " + d.influence(n) + ".", (n: nat) => "You spent " + d.influence(n) + ".")
    + SignLines(a.luck - b.luck, (n: nat) => "You earned " + d.luck(n) + ".", (n: nat) => "You spent " + d.luck(n) + ".")
    + SignLines(a.vp - b.vp, (n: nat) => "You gained " + d.vp(n) + ".", (n: nat) => "You lost " + d.vp(n) + ".")
  }

  /** Two snapshots alike in every resource give no aggregate line at all. */
  lemma SameResourcesQuiet(b: Snapshot, a: Snapshot, d: Describer)
    requires a.handSize == b.handSize && a.cash == b.cash && a.influence == b.influence && a.luck == b.luck && a.vp == b.vp
    ensures ResourceLines(b, a, d) == []
  {
  }

  /** The entries the report goes through: the changes, normalised, with transient moves merged away. */
  function ReportedChanges(b: Snapshot, a: Snapshot): seq<GameStateChange>
  {
    var changes := Changes(b, a);
    WithoutTransientMoves(seq(|changes|, k requires 0 <= k < |changes| => Normalised(changes[k])))
  }

  /** The report's lines, or what it throws; the resource lines always close a report, and make up all of it when nothing else is reported. */
  function ReportMessages(b: Snapshot, a: Snapshot, d: Describer): (r: Result<seq<string>, ReportError>)
    ensures r.Err? <==> ChangesLines(ReportedChanges(b, a), b, a, d).Err?
    ensures r.Ok? ==> |r.value| >= |ResourceLines(b, a, d)|
                      && r.value[|r.value| - |ResourceLines(b, a, d)|..] == ResourceLines(b, a, d)
    ensures ReportedChanges(b, a) == [] ==> r == Ok(ResourceLines(b, a, d))
  {
    match ChangesLines(ReportedChanges(b, a), b, a, d)
    case Err(e) => Err(e)
    case Ok(lines) => Ok(lines + ResourceLines(b, a, d))
  }

  /**
   * `reportTo`: normalise the change list in place, remove the transient
   * moves, report each entry and then the resources, and hand the text to
   * the logger only when it is not empty.  `logged` is what the logger got.
   */
  method ReportTo(b: Snapshot, a: Snapshot, d: Describer) returns (r: Result<Option<string>, ReportError>)
    ensures ReportMessages(b, a, d).Err? ==> r == Err(ReportMessages(b, a, d).error)
    ensures ReportMessages(b, a, d).Ok? ==>
              var text := Join(Dashed(ReportMessages(b, a, d).value), "\n");
              r == Ok(if ReportMessages(b, a, d).value == [] then None else Some(text))
  {
    var raw := Changes(b, a);
    var changes := Normalise(raw);
    assert changes == seq(|raw|, k requires 0 <= k < |raw| => Normalised(raw[k]));
    changes := WithoutTransientMoves(changes);
    var report := "";
    ghost var lines: seq<string> := [];
    var i := 0;
    while i < |changes|
      invariant 0 <= i <= |changes|
      invariant ChangesLines(changes[..i], b, a, d) == Ok(lines)
      invariant report == RenderOnto("", lines)
    {
      assert changes[..i + 1][..i] == changes[..i];
      var more := ChangeLines(changes[i], b, a, d);
      if more.Err? {
        ChangesLinesErr(changes, i, b, a, d);
        return Err(more.error);
      }
      RenderOntoConcat("", lines, more.value);
      report := RenderOnto(report, more.value);
      lines := lines + more.value;
      i := i + 1;
    }
    assert changes[..i] == changes;
    RenderOntoConcat("", lines, ResourceLines(b, a, d));
    report := RenderOnto(report, ResourceLines(b, a, d));
    lines := lines + ResourceLines(b, a, d);
    RenderIsJoin(lines);
    if report != "" {
      r := Ok(Some(report));
    } else {
      r := Ok(None);
    }
  }

  /** An entry that throws makes the whole list throw the same error. */
  lemma {:induction false} ChangesLinesErr(cs: seq<GameStateChange>, i: nat, b: Snapshot, a: Snapshot, d: Describer)
    requires i < |cs| && ChangesLines(cs[..i], b, a, d).Ok? && ChangeLines(cs[i], b, a, d).Err?
    ensures ChangesLines(cs, b, a, d) == Err(ChangeLines(cs[i], b, a, d).error)
    decreases |cs| - i
  {
    var e := ChangeLines(cs[i], b, a, d).error;
    assert cs[..i + 1][..i] == cs[..i];
    assert ChangesLines(cs[..i + 1], b, a, d) == Err(e);
    ChangesLinesErrExtends(cs, i + 1, b, a, d, e);
  }

  lemma {:induction false} ChangesLinesErrExtends(cs: seq<GameStateChange>, j: nat, b: Snapshot, a: Snapshot, d: Describer,
                                                  e: ReportError)
    requires j <= |cs| && ChangesLines(cs[..j], b, a, d) == Err(e)
    ensures ChangesLines(cs, b, a, d) == Err(e)
    decreases |cs| - j
  {
    if j == |cs| {
      assert cs[..j] == cs;
    } else {
      assert cs[..j + 1][..j] == cs[..j];
      ChangesLinesErrExtends(cs, j + 1, b, a, d, e);
    }
  }
}
