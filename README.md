# Racketeer core, modelled in Dafny

This project models the core of *racketeer*, a deck-building card game with a terminal front end, and proves properties of that model. The game is scripted in a small Lisp-like language called *limp*. The project covers three parts:

- **limp.** The scripting `Environment` with its three stacks of scopes: methods, variables and type converters. It also covers the converter registry and the built-ins `single`, `index-of`, `join-to-string` and `max`.
- **The game model.** Cards, buildings and piles as mutable objects. The shop and how it restocks. The `GameState`: its clamped resources, its six piles, the index from card to pile, `move`, `apply` and `copy`. The card runner's action queue. `GameStateDiff`, which reports what changed between two snapshots. The script methods `game-set!` and `dbg`.
- **The console.** The unlock settings and the lists of unlocks. The card searcher's type-to-jump. The scripting view's editor: it closes strings and parentheses automatically and keeps a history of actions. The building list's sort orders and prefix search. What every view shares: the ENTER rule, the name a crash report is filed under, and the lazily rebuilt list of commands.

Every piece of state that the Kotlin code updates in place is a Dafny `class`. Each method of such a class states the whole new state in terms of the old one. What the code only computes, such as lookups, conversions, report lines and sort orders, is written as functions, with lemmas about them.

Randomness is a `Draws` oracle: `draws(position, bound)` is below `bound`, and the random source counts how many draws it has handed out. So a shuffle, a random insertion or a shop restock is a function of the position where it starts. The interpreter behind quoted expressions is an oracle too: `eval(expr, it)`. Only its `Stub(value)` case, which a value-to-expression converter produces, is fixed. That case evaluates to the value.

Module layout: `wrappers`, `text`, `sorting` and `ids` hold shared helpers. The `limp_*` files hold the scripting language. `cards`, `buildings`, `piles`, `shop`, `list_strategy`, `game_index`, `game_state`, `game_changes`, `card_runner`, `game_state_diff`, `game_set` and `dbg` hold the game. `unlocks`, `card_searcher`, `scripting_view`, `building_list_view` and `view` hold the console.

Where a test and the code disagree, the model follows the code. `GameMethodsTest.kt` expects `game-set! 'vp 5` to set the score, but `GameSetMethod.kt` throws "read-only" for `vp`. `VpIsReadOnly` states the code's behaviour.

## Model

| member | source | states |
|---|---|---|
| LimpEnvironment.Lookup | limp/src/commonMain/kotlin/dev/bitspittle/limp/Environment.kt:63-75 | a name resolves to the binding in the innermost scope that has it, and to nothing exactly when no scope binds it |
| LimpEnvironment.LookupPastEmptyFrames | limp/src/commonMain/kotlin/dev/bitspittle/limp/Environment.kt:49-53 | pushing empty scopes never changes what a name resolves to |
| LimpEnvironment.LookupTopBinding | limp/src/commonMain/kotlin/dev/bitspittle/limp/Environment.kt:31-37 | a binding stored in the innermost scope is what the name then resolves to, whatever the outer scopes hold |
| LimpEnvironment.LookupOtherName | limp/src/commonMain/kotlin/dev/bitspittle/limp/Environment.kt:31-37 | storing one name leaves the resolution of every other name unchanged |
| LimpEnvironment.ConvertThrough | limp/src/commonMain/kotlin/dev/bitspittle/limp/Environment.kt:83-86 | the converter lookup gives the first non-null conversion, scanning from the innermost scope outward, and gives none exactly when every registered converter for the class declines |
| LimpEnvironment.TryConvert | limp/src/commonMain/kotlin/dev/bitspittle/limp/Environment.kt:78-87 | a value that already is an instance of the class comes back unchanged; otherwise the scoped converters decide |
| LimpEnvironment.ExpectConvert | limp/src/commonMain/kotlin/dev/bitspittle/limp/Environment.kt:97-99 | succeeds exactly when `tryConvert` finds a value, with that value, and otherwise fails with the cannot-convert error |
| LimpEnvironment.ConvertPastEmptyFrame | limp/src/commonMain/kotlin/dev/bitspittle/limp/Environment.kt:49-53 | an empty innermost scope does not change any conversion |
| LimpEnvironment.Environment.constructor | limp/src/commonMain/kotlin/dev/bitspittle/limp/Environment.kt:7-13 | a new environment has exactly the ground scope, empty, on all three stacks |
| LimpEnvironment.Environment.PushScope | limp/src/commonMain/kotlin/dev/bitspittle/limp/Environment.kt:49-53 | each stack grows by one empty scope and nothing else changes |
| LimpEnvironment.Environment.PopScope | limp/src/commonMain/kotlin/dev/bitspittle/limp/Environment.kt:55-61 | popping the ground scope fails and changes nothing; otherwise each stack loses exactly its innermost scope |
| LimpEnvironment.Environment.AddMethod | limp/src/commonMain/kotlin/dev/bitspittle/limp/Environment.kt:15-21 | succeeds exactly when the innermost scope has no method of that name, which then maps the name to the method; on failure nothing changes; the other two stacks never change |
| LimpEnvironment.Environment.StoreValue | limp/src/commonMain/kotlin/dev/bitspittle/limp/Environment.kt:31-37 | the same rule for variables: a duplicate in the innermost scope is rejected, otherwise the innermost scope gains the binding |
| LimpEnvironment.Environment.AddConverter | limp/src/commonMain/kotlin/dev/bitspittle/limp/Environment.kt:23-29 | succeeds exactly when the innermost scope has no converter of the same kind, and then registers it under its target class |
| LimpEnvironment.Environment.ExpectMethod | limp/src/commonMain/kotlin/dev/bitspittle/limp/Environment.kt:89-91 | succeeds exactly when `getMethod` finds the name, with that method, and otherwise fails with no-such-method |
| LimpEnvironment.Environment.ExpectValue | limp/src/commonMain/kotlin/dev/bitspittle/limp/Environment.kt:93-95 | succeeds exactly when `loadValue` finds the name, with that value, and otherwise fails with no-such-variable |
| LimpEnvironment.Environment.RunBlock | limp/src/commonMain/kotlin/dev/bitspittle/limp/Environment.kt:39-47 | a block run inside a scope leaves the depth and every outer scope as they were, whether it completes or throws |
| LimpEnvironment.Environment.Scoped | limp/src/commonMain/kotlin/dev/bitspittle/limp/Environment.kt:39-47 | `scoped` restores all three stacks exactly, including when the block throws, because the scope is popped in `finally` |
| LimpConverters.Registered | limp/src/commonMain/kotlin/dev/bitspittle/limp/Converter.kt:13-16 | registration fails exactly when a converter of the same kind is already present; otherwise the target class maps to the new converter and every other class keeps its converter |
| LimpConverters.Convert | limp/src/commonMain/kotlin/dev/bitspittle/limp/Converter.kt:18-20 | a class with no converter gives nothing; otherwise that converter's result |
| LimpConverters.RegisterTwiceFails | limp/src/commonMain/kotlin/dev/bitspittle/limp/Converter.kt:13-16 | a second converter of the same kind is always rejected |
| LimpConverters.LaterRegistrationReplaces | limp/src/commonMain/kotlin/dev/bitspittle/limp/Converter.kt:13-20 | after a registration, conversion to its class uses the new converter and conversion to any other class is unchanged |
| LimpConverters.Converters.Register | limp/src/commonMain/kotlin/dev/bitspittle/limp/Converter.kt:13-16 | the registry changes exactly as `Registered` says, and is unchanged when registration is refused |
| LimpMethods.Single | limp/src/commonMain/kotlin/dev/bitspittle/limp/methods/collection/SingleMethod.kt:14-33 | `single` fails with the list conversion's error, then with the predicate conversion's error; an item it returns is an item of the converted list |
| LimpMethods.SingleInvoke | limp/src/commonMain/kotlin/dev/bitspittle/limp/methods/collection/SingleMethod.kt:14-33 | `single` converts its list and predicate in the caller's scopes, tests each item in a scope of its own, and leaves the environment as it found it; the result is the value of the single-match scan |
| LimpMethods.SelectSingle | limp/src/commonMain/kotlin/dev/bitspittle/limp/methods/collection/SingleMethod.kt:28-32 | the loop over the items computes exactly the single-match scan, one fresh scope per item |
| LimpMethods.SingleFromCounts | limp/src/commonMain/kotlin/dev/bitspittle/limp/methods/collection/SingleMethod.kt:28-32 | the scan's outcome depends only on how many items match: exactly one gives that item, none gives no-matching-element, two or more give more-than-one-match |
| LimpMethods.SingleFromNone | limp/src/commonMain/kotlin/dev/bitspittle/limp/methods/collection/SingleMethod.kt:28-32 | with no match seen yet: no match fails, exactly one gives the matching item, more fail |
| LimpMethods.SingleFromFound | limp/src/commonMain/kotlin/dev/bitspittle/limp/methods/collection/SingleMethod.kt:28-32 | once a match is seen, any further match fails and no further match keeps it |
| LimpMethods.SinglePlaceholder | limp/src/commonMain/kotlin/dev/bitspittle/limp/methods/collection/SingleMethod.kt:23-26 | with the placeholder as predicate, every item matches, so `single` succeeds exactly on a one-item list |
| LimpMethods.AllTrueMatches | limp/src/commonMain/kotlin/dev/bitspittle/limp/methods/collection/SingleMethod.kt:28-32 | an always-true predicate matches every item, in order |
| LimpMethods.IndexOfFirstFrom | limp/src/commonMain/kotlin/dev/bitspittle/limp/methods/collection/IndexOfMethod.kt:14-17 | the first non-null item that satisfies the predicate, or -1 when there is none; an error is an error of some item's test |
| Wrappers.IndexOf | limp/src/commonMain/kotlin/dev/bitspittle/limp/methods/collection/IndexOfMethod.kt:18-20 | Kotlin `indexOf`, shared by `index-of`, the card searcher, the building list and `apply`: the first position holding an equal value, or -1 exactly when it does not occur |
| LimpMethods.IndexOf | limp/src/commonMain/kotlin/dev/bitspittle/limp/methods/collection/IndexOfMethod.kt:9-21 | `index-of` fails as the list conversion fails and stays within the list's bounds; a needle that converts to an expression gives the first non-null item satisfying it, a conversion to anything else is refused, and a needle with no conversion is looked up with plain `indexOf` |
| LimpMethods.FormatAll | limp/src/commonMain/kotlin/dev/bitspittle/limp/methods/text/JoinToStringMethod.kt:13-17 | each item is shown through the format expression, one string per item |
| LimpMethods.Separator | limp/src/commonMain/kotlin/dev/bitspittle/limp/methods/text/JoinToStringMethod.kt:11 | the `separator` option converted to a string, ", " when the option is absent |
| LimpMethods.JoinToString | limp/src/commonMain/kotlin/dev/bitspittle/limp/methods/text/JoinToStringMethod.kt:8-18 | a failed list, separator, format or per-item conversion fails the call with its error; without a format the items' shown forms are joined with the separator; with one, the call succeeds exactly when the format converts and every item formats, and the formatted values are joined with the separator |
| LimpMethods.JoinToStringShort | limp/src/commonMain/kotlin/dev/bitspittle/limp/methods/text/JoinToStringMethod.kt:13-17 | a list of at most one item ignores the separator |
| LimpMethods.JoinToStringFront | limp/src/commonMain/kotlin/dev/bitspittle/limp/methods/text/JoinToStringMethod.kt:17 | a list of two or more items joins to the first item's text, then the separator, then the rest joined |
| LimpMethods.Max | limp/src/commonMain/kotlin/dev/bitspittle/limp/methods/math/MaxMethod.kt:9-14 | succeeds exactly when both arguments convert to integers; the result is one of them and not below either; a failed conversion of either argument is reported as such, the first argument's first |
| LimpMethods.MaxCommutative | limp/src/commonMain/kotlin/dev/bitspittle/limp/methods/math/MaxMethod.kt:13 | `max a b` equals `max b a` |
| LimpValues.ApplyConverter | limp/src/commonMain/kotlin/dev/bitspittle/limp/Converter.kt:5-7 | the placeholder converter accepts exactly the placeholder and yields its default; a value-to-expression converter accepts exactly instances of its source class and wraps them as a stub expression |
| Cards.ParseUpgrade | model/src/commonMain/kotlin/dev/bitspittle/racketeer/model/card/Card.kt:29-31 | an upgrade name parses, ignoring case, to the upgrade whose name it is, and fails exactly when it names none |
| Cards.ParseUpgrades | model/src/commonMain/kotlin/dev/bitspittle/racketeer/model/card/Card.kt:29-31 | a template's upgrade list parses exactly when every name in it does |
| Cards.ParseUpgradesContents | model/src/commonMain/kotlin/dev/bitspittle/racketeer/model/card/Card.kt:29-31 | the parsed set holds exactly the upgrades named in the list |
| Cards.TemplateFlags | model/src/commonMain/kotlin/dev/bitspittle/racketeer/model/card/Card.kt:79-81 | a card built from a template is dexterous exactly when one of the template's upgrade names is CASH, ignoring case |
| Cards.AtLeastZero | model/src/commonMain/kotlin/dev/bitspittle/racketeer/model/card/Card.kt:41-44 | the setters clamp at zero: the result is the value when it is not negative, else zero |
| Cards.CompareInt | model/src/commonMain/kotlin/dev/bitspittle/racketeer/model/card/Card.kt:70-76 | an integer comparison whose sign is the order of its arguments |
| Cards.CompareCards | model/src/commonMain/kotlin/dev/bitspittle/racketeer/model/card/Card.kt:70-76 | two cards compare equal exactly when all five keys agree: the templates compare equal, and the total victory points, the number of upgrades, the counter and the id are equal |
| Cards.DistinctIdsNeverEqual | model/src/commonMain/kotlin/dev/bitspittle/racketeer/model/card/Card.kt:70-76 | two cards with different ids never compare equal |
| Cards.CompareCardsAntisymmetric | model/src/commonMain/kotlin/dev/bitspittle/racketeer/model/card/Card.kt:70-76 | swapping the cards flips the sign of the comparison, given that the template comparison does |
| Cards.Instantiated | model/src/commonMain/kotlin/dev/bitspittle/racketeer/model/card/Card.kt:27-33 | a fresh card has the template, the given id, the template's victory points and a zero counter |
| Cards.MutableCard.FromTemplate | model/src/commonMain/kotlin/dev/bitspittle/racketeer/model/card/Card.kt:27-33 | instantiating succeeds exactly for a template whose upgrades parse, takes the next id and yields a fresh card with the instantiated data |
| Cards.MutableCard.Clone | model/src/commonMain/kotlin/dev/bitspittle/racketeer/model/card/Card.kt:36 | a clone has the same data as its original under a new id |
| Cards.MutableCard.SetVpBase | model/src/commonMain/kotlin/dev/bitspittle/racketeer/model/card/Card.kt:41-44 | sets the base victory points, clamped at zero, and changes nothing else |
| Cards.MutableCard.SetVpPassive | model/src/commonMain/kotlin/dev/bitspittle/racketeer/model/card/Card.kt:49-52 | sets the passive victory points, clamped at zero, and changes nothing else |
| Cards.MutableCard.SetCounter | model/src/commonMain/kotlin/dev/bitspittle/racketeer/model/card/Card.kt:57-60 | sets the counter, clamped at zero, and changes nothing else |
| Cards.MutableCard.Copy | model/src/commonMain/kotlin/dev/bitspittle/racketeer/model/card/Card.kt:62-68 | `copy` gives a fresh card with the template and exactly the fields asked for |
| Buildings.CompareBuildings | model/src/commonMain/kotlin/dev/bitspittle/racketeer/model/building/Building.kt:60-63 | buildings compare by blueprint first and by id to break ties |
| Buildings.CompareBuildingsZero | model/src/commonMain/kotlin/dev/bitspittle/racketeer/model/building/Building.kt:60-63 | two buildings compare equal exactly when their blueprints compare equal and their ids are the same |
| Buildings.MutableBuilding.FromBlueprint | model/src/commonMain/kotlin/dev/bitspittle/racketeer/model/building/Building.kt:27 | a building made from a blueprint takes the next id, starts with zero points and counter, and is not activated |
| Buildings.MutableBuilding.SetVpBase | model/src/commonMain/kotlin/dev/bitspittle/racketeer/model/building/Building.kt:39-42 | sets the base victory points, clamped at zero, and changes nothing else |
| Buildings.MutableBuilding.SetVpPassive | model/src/commonMain/kotlin/dev/bitspittle/racketeer/model/building/Building.kt:47-50 | sets the passive victory points, clamped at zero, and changes nothing else |
| Buildings.MutableBuilding.SetCounter | model/src/commonMain/kotlin/dev/bitspittle/racketeer/model/building/Building.kt:55-58 | sets the counter, clamped at zero, and changes nothing else |
| Buildings.MutableBuilding.SetActivated | model/src/commonMain/kotlin/dev/bitspittle/racketeer/model/building/Building.kt:25 | changes the activated flag only |
| Buildings.MutableBuilding.Copy | model/src/commonMain/kotlin/dev/bitspittle/racketeer/model/building/Building.kt:29-34 | `copy` gives a fresh building with the blueprint and the passive points kept and the other fields as asked |
| Piles.MutablePile.Create | model/src/commonMain/kotlin/dev/bitspittle/racketeer/model/pile/Pile.kt:21 | a new pile takes the next id and holds exactly the given cards |
| Piles.MutablePile.Copy | model/src/commonMain/kotlin/dev/bitspittle/racketeer/model/pile/Pile.kt:22 | a copy keeps the pile's id and holds fresh cards with the same ids and data, in the same order |
| Ids.RandomSource.NextInt | model/src/commonMain/kotlin/dev/bitspittle/racketeer/model/shop/Shop.kt:65 | a draw is below its bound, is the oracle's value at the current position, and advances the position by one |
| Ids.RandomSource.Copy | model/src/commonMain/kotlin/dev/bitspittle/racketeer/model/shop/Shop.kt:105 | a copied random source continues the same sequence from the same position |
| CardRunner.RunBlock | model/src/commonMain/kotlin/dev/bitspittle/racketeer/model/card/CardRunner.kt:9-17 | a block either finishes with one queued action per step, or stops at a step that throws or starts a nested run; the queue never outgrows the block |
| CardRunner.NestedStartFails | model/src/commonMain/kotlin/dev/bitspittle/racketeer/model/card/CardRunner.kt:10 | starting a run while one is in progress fails, and the actions queued before it are kept |
| CardRunner.EnqueueStep | model/src/commonMain/kotlin/dev/bitspittle/racketeer/model/card/CardRunner.kt:11-13 | each enqueue step appends its action to the queue |
| CardRunner.Runner.WithActionQueue | model/src/commonMain/kotlin/dev/bitspittle/racketeer/model/card/CardRunner.kt:9-17 | a nested run is refused without side effects; otherwise the block runs against a fresh queue and the runner is idle again afterwards, whether the block finished or threw |
| Shop.PicksFacts | model/src/commonMain/kotlin/dev/bitspittle/racketeer/model/shop/Shop.kt:64-68 | the restock draws at most the requested number of templates, all from the uber stock and no two the same, and exactly that number when it succeeds |
| Shop.PicksSucceedIff | model/src/commonMain/kotlin/dev/bitspittle/racketeer/model/shop/Shop.kt:64-68 | drawing succeeds exactly when the uber stock holds at least as many distinct templates as requested, and otherwise draws every distinct one |
| Shop.RemoveAllDistinct | model/src/commonMain/kotlin/dev/bitspittle/racketeer/model/shop/Shop.kt:66 | removing a drawn template leaves one fewer distinct template |
| Shop.RemoveAll | model/src/commonMain/kotlin/dev/bitspittle/racketeer/model/shop/Shop.kt:66 | removes every copy of the template and nothing else |
| Shop.Combined | model/src/commonMain/kotlin/dev/bitspittle/racketeer/model/shop/Shop.kt:78-82 | a template is eligible exactly when it passes the extra filter and no exclusion applies to it |
| Shop.OfTier | model/src/commonMain/kotlin/dev/bitspittle/racketeer/model/shop/Shop.kt:101 | the upgrade filter accepts exactly the templates of the new tier |
| Shop.FirstSlot | model/src/commonMain/kotlin/dev/bitspittle/racketeer/model/shop/Shop.kt:86-94 | the first stock slot holding the card, or none when no slot does |
| Shop.Emptied | model/src/commonMain/kotlin/dev/bitspittle/racketeer/model/shop/Shop.kt:86-94 | `remove` empties only the first slot holding the card and leaves every other slot as it was |
| Shop.MutableShop.UberStock | model/src/commonMain/kotlin/dev/bitspittle/racketeer/model/shop/Shop.kt:59-62 | the uber stock holds exactly the possible templates that have a positive frequency |
| Shop.MutableShop.BuildUberStock | model/src/commonMain/kotlin/dev/bitspittle/racketeer/model/shop/Shop.kt:59-62 | the loop that fills the uber stock computes exactly `UberStock` |
| Shop.MutableShop.FilterAllCards | model/src/commonMain/kotlin/dev/bitspittle/racketeer/model/shop/Shop.kt:73-76 | exactly the templates with a positive cost, a tier not above the shop's and accepted by the filter, in the game's order |
| Shop.MutableShop.Create | model/src/commonMain/kotlin/dev/bitspittle/racketeer/model/shop/Shop.kt:27-38 | a new shop starts at tier 0 with no exclusions and is restocked from every eligible template |
| Shop.MutableShop.HandleRestock | model/src/commonMain/kotlin/dev/bitspittle/racketeer/model/shop/Shop.kt:43-71 | an incremental restock of a full shop fails and changes nothing; otherwise the stock is cleared if asked and then topped up to the tier's size by fresh cards drawn from the uber stock |
| Shop.MutableShop.Draw | model/src/commonMain/kotlin/dev/bitspittle/racketeer/model/shop/Shop.kt:64-68 | the draw loop picks exactly the templates `Picks` describes and consumes one random draw per pick |
| Shop.MutableShop.Restock | model/src/commonMain/kotlin/dev/bitspittle/racketeer/model/shop/Shop.kt:78-82 | `restock` is `handleRestock` over the templates that pass both the filter and every exclusion |
| Shop.MutableShop.AddExclusion | model/src/commonMain/kotlin/dev/bitspittle/racketeer/model/shop/Shop.kt:84 | the exclusion is appended and nothing else changes |
| Shop.MutableShop.Remove | model/src/commonMain/kotlin/dev/bitspittle/racketeer/model/shop/Shop.kt:86-94 | the stock becomes `Emptied` of the card |
| Shop.MutableShop.Upgrade | model/src/commonMain/kotlin/dev/bitspittle/racketeer/model/shop/Shop.kt:96-103 | at the top tier nothing changes and the result is false; otherwise the tier goes up by one and the new slot is restocked from the new tier's templates |
| Shop.MutableShop.Copy | model/src/commonMain/kotlin/dev/bitspittle/racketeer/model/shop/Shop.kt:105-114 | a copy has its own random source continuing the same sequence, and the same stock and exclusions |
| Shop.RestockPicksEligible | model/src/commonMain/kotlin/dev/bitspittle/racketeer/model/shop/Shop.kt:73-82 | every card a restock draws is eligible: positive cost, allowed tier, accepted by the filter and by every exclusion |
| Shop.SuccessfulRestockFills | model/src/commonMain/kotlin/dev/bitspittle/racketeer/model/shop/Shop.kt:50-68 | after a successful restock the stock has exactly the tier's size, unless it was already larger |
| Shop.InstantiateAll | model/src/commonMain/kotlin/dev/bitspittle/racketeer/model/shop/Shop.kt:67 | the loop instantiates every picked template in order under consecutive fresh ids |
| ListStrategies.InsertedFacts | model/src/commonMain/kotlin/dev/bitspittle/racketeer/model/game/GameState.kt:217-226 | an insertion adds exactly the cards, as a multiset; FRONT puts them first and BACK puts them last |
| ListStrategies.InsertedKeepsOrder | model/src/commonMain/kotlin/dev/bitspittle/racketeer/model/game/GameState.kt:217-226 | every strategy, RANDOM included, keeps the order of the cards already in the pile |
| ListStrategies.InsertedDistinct | model/src/commonMain/kotlin/dev/bitspittle/racketeer/model/game/GameState.kt:217-226 | inserting cards that are not already there keeps the pile free of duplicates |
| ListStrategies.RandomInsertedFacts | model/src/commonMain/kotlin/dev/bitspittle/racketeer/model/game/GameState.kt:221-224 | a random insertion draws one position per card, adds exactly those cards and keeps the old cards in order |
| ListStrategies.InsertedMap | model/src/commonMain/kotlin/dev/bitspittle/racketeer/model/game/GameState.kt:217-226 | inserting and then taking ids equals taking ids and then inserting |
| ListStrategies.InsertAt | model/src/commonMain/kotlin/dev/bitspittle/racketeer/model/game/GameState.kt:222 | `add(index, card)`: the card lands at the index, with the elements before it kept and the rest shifted by one |
| GameIndex.PileIndexAt | model/src/commonMain/kotlin/dev/bitspittle/racketeer/model/game/GameState.kt:208-215 | the initial card-to-pile index maps every card to the pile that holds it, and nothing else |
| GameIndex.DistinctIndexConsistent | model/src/commonMain/kotlin/dev/bitspittle/racketeer/model/game/GameState.kt:208-215 | for distinct piles with no card in two places, the index built at construction agrees with the piles' contents |
| GameIndex.MoveKeepsIndex | model/src/commonMain/kotlin/dev/bitspittle/racketeer/model/game/GameState.kt:253-278 | after a move the index still agrees with the contents: the moved cards are in the target pile and in no other |
| GameIndex.MovedIdsFacts | model/src/commonMain/kotlin/dev/bitspittle/racketeer/model/game/GameState.kt:260-267 | a move takes the cards out of every pile they were in, puts them only in the target, and leaves every other card where it was |
| GameIndex.SinglePile | model/src/commonMain/kotlin/dev/bitspittle/racketeer/model/game/GameState.kt:259 | the target pile is found only when exactly one pile has its id |
| GameIndex.Unowned | model/src/commonMain/kotlin/dev/bitspittle/racketeer/model/game/GameState.kt:255 | the cards `move` returns are exactly those that were not in an owned pile beforehand |
| GameIndex.AllCardsInSecond | model/src/commonMain/kotlin/dev/bitspittle/racketeer/model/game/GameState.kt:85 | every owned card is in the deck exactly when the hand, the discard and the street are empty |
| GameIndex.EmptiedAllEmpties | model/src/commonMain/kotlin/dev/bitspittle/racketeer/model/game/GameState.kt:263-266 | every moved card that was on sale leaves its shop slot empty |
| GameStates.AtLeast | model/src/commonMain/kotlin/dev/bitspittle/racketeer/model/game/GameState.kt:151-154 | the clamped value is the value when it is at least the bound, else the bound |
| GameStates.AtMost | model/src/commonMain/kotlin/dev/bitspittle/racketeer/model/game/GameState.kt:159-162 | the clamped value is the value when it is at most the bound, else the bound |
| GameStates.GrownHandSize | model/src/commonMain/kotlin/dev/bitspittle/racketeer/model/game/GameState.kt:203-206 | the hand size set by a script never shrinks and never drops below 1 |
| GameStates.MutableGameState.SetNumTurns | model/src/commonMain/kotlin/dev/bitspittle/racketeer/model/game/GameState.kt:151-154 | the number of turns is at least one more than the current turn, so the current turn stays at most the last turn index |
| GameStates.MutableGameState.SetTurn | model/src/commonMain/kotlin/dev/bitspittle/racketeer/model/game/GameState.kt:159-162 | the turn is clamped to the last turn index |
| GameStates.MutableGameState.SetCash | model/src/commonMain/kotlin/dev/bitspittle/racketeer/model/game/GameState.kt:169-172 | the cash is clamped at zero |
| GameStates.MutableGameState.SetInfluence | model/src/commonMain/kotlin/dev/bitspittle/racketeer/model/game/GameState.kt:177-180 | the influence is clamped at zero |
| GameStates.MutableGameState.SetLuck | model/src/commonMain/kotlin/dev/bitspittle/racketeer/model/game/GameState.kt:187-190 | the luck is clamped at zero |
| GameStates.MutableGameState.SetHandSize | model/src/commonMain/kotlin/dev/bitspittle/racketeer/model/game/GameState.kt:203-206 | the hand size becomes `GrownHandSize` |
| GameStates.MutableGameState.PileForIsHolder | model/src/commonMain/kotlin/dev/bitspittle/racketeer/model/game/GameState.kt:228 | `pileFor` names a pile exactly when the card is in that pile |
| GameStates.MutableGameState.StartedIff | model/src/commonMain/kotlin/dev/bitspittle/racketeer/model/game/GameState.kt:85 | the game has started unless it is on turn 0, has no history and holds every owned card in the deck |
| GameStates.MutableGameState.OnBoardChanged | model/src/commonMain/kotlin/dev/bitspittle/racketeer/model/game/GameState.kt:237-248 | the score becomes the sum of the victory points of the owned cards, pile by pile |
| GameStates.TotalVp | model/src/commonMain/kotlin/dev/bitspittle/racketeer/model/game/GameState.kt:243 | the summing loop computes exactly `SumVp` |
| GameStates.SumVpNonNegative | model/src/commonMain/kotlin/dev/bitspittle/racketeer/model/game/GameState.kt:243 | because every card's victory points are clamped at zero, so is the score |
| GameStates.MutableGameState.Move | model/src/commonMain/kotlin/dev/bitspittle/racketeer/model/game/GameState.kt:253-278 | `move` fails, changing nothing, unless exactly one pile has the target's id; otherwise the cards leave their piles and the shop, enter the target by the strategy and point to it, and the result lists the cards that were not owned before |
| GameStates.MutableGameState.MoveTo | model/src/commonMain/kotlin/dev/bitspittle/racketeer/model/game/GameState.kt:259-278 | the body of `move` once the target is known: the whole new contents, the new index, the emptied shop slots and the random draws taken |
| GameStates.MutableGameState.Detach | model/src/commonMain/kotlin/dev/bitspittle/racketeer/model/game/GameState.kt:263-266 | the loop removes each card from its pile and the shop and points it at the target |
| GameStates.InsertInto | model/src/commonMain/kotlin/dev/bitspittle/racketeer/model/game/GameState.kt:217-226 | the pile becomes the insertion given by the strategy, and the random source advances by the draws it took |
| GameStates.InsertRandom | model/src/commonMain/kotlin/dev/bitspittle/racketeer/model/game/GameState.kt:221-224 | the random-insertion loop computes exactly `RandomInserted` and takes one draw per card |
| GameStates.LoggedAppends | model/src/commonMain/kotlin/dev/bitspittle/racketeer/model/game/GameState.kt:318-334 | after game over the history no longer changes; otherwise a change is appended, or refused when the entry it must precede is missing |
| GameStates.Logged | model/src/commonMain/kotlin/dev/bitspittle/racketeer/model/game/GameState.kt:318-334 | a finished game's history is unchanged; otherwise the start of the game is logged if it was not, and the change is logged exactly once unless the insertion is refused, with nothing else lost |
| GameStates.LoggedInserts | model/src/commonMain/kotlin/dev/bitspittle/racketeer/model/game/GameState.kt:327-331 | a change logged before an existing entry lands just before the first entry equal to it, with everything else kept |
| GameStates.LoggedInsertsAt | model/src/commonMain/kotlin/dev/bitspittle/racketeer/model/game/GameState.kt:327-331 | when no other entry equals the one at a position, inserting before it puts the change exactly at that position, as the lookup of that very entry does |
| GameStates.LoggedGrows | model/src/commonMain/kotlin/dev/bitspittle/racketeer/model/game/GameState.kt:318-334 | the history never shrinks, and a game that had not started has its start logged first |
| GameStates.GameOverEnds | model/src/commonMain/kotlin/dev/bitspittle/racketeer/model/game/GameState.kt:319 | once game over is logged, every later change is ignored |
| GameStates.MutableGameState.Apply | model/src/commonMain/kotlin/dev/bitspittle/racketeer/model/game/GameState.kt:318-334 | `apply` changes the history exactly as `Logged` says and fails exactly when the insertion point is missing; afterwards the game has started |
| GameStates.MutableGameState.Copy | model/src/commonMain/kotlin/dev/bitspittle/racketeer/model/game/GameState.kt:285-309 | a copy has fresh piles holding fresh cards with the same ids and data, a random source continuing the same sequence, the same resources and history, and the same card-to-pile placement |
| GameStateDiffs.Changes | model/src/commonMain/kotlin/dev/bitspittle/racketeer/model/game/GameStateDiff.kt:14 | the changes are the entries the later history has beyond the earlier one |
| GameStateDiffs.NoChangesIff | model/src/commonMain/kotlin/dev/bitspittle/racketeer/model/game/GameStateDiff.kt:17 | there are no changes exactly when the later history is no longer than the earlier one |
| GameStateDiffs.ChangesCompleteHistory | model/src/commonMain/kotlin/dev/bitspittle/racketeer/model/game/GameStateDiff.kt:14 | when the earlier history is a prefix of the later one, the changes complete it |
| GameStateDiffs.Normalise | model/src/commonMain/kotlin/dev/bitspittle/racketeer/model/game/GameStateDiff.kt:200-208 | each multi-card move of a single card is rewritten as a single-card move, and nothing else changes |
| GameStateDiffs.NormalisedFacts | model/src/commonMain/kotlin/dev/bitspittle/racketeer/model/game/GameStateDiff.kt:200-208 | no one-card multi-move survives normalising, and every other entry is left as it was |
| GameStateDiffs.MergeKeepsLastMove | model/src/commonMain/kotlin/dev/bitspittle/racketeer/model/game/GameStateDiff.kt:211-218 | merging transient moves keeps only the last move of each card |
| GameStateDiffs.MergeKeepsOthers | model/src/commonMain/kotlin/dev/bitspittle/racketeer/model/game/GameStateDiff.kt:211-218 | merging keeps every entry that is not a single-card move, in order |
| GameStateDiffs.RenderIsJoin | model/src/commonMain/kotlin/dev/bitspittle/racketeer/model/game/GameStateDiff.kt:285-287 | the report is the messages, each after a dash, on separate lines, and it is empty exactly when there are no messages |
| GameStateDiffs.ToDescDistinct | model/src/commonMain/kotlin/dev/bitspittle/racketeer/model/game/GameStateDiff.kt:28-34 | the three strategies have three different descriptions |
| GameStateDiffs.SignLinesFacts | model/src/commonMain/kotlin/dev/bitspittle/racketeer/model/game/GameStateDiff.kt:147-170 | an amount gives no line when it is zero, a gain line when positive and a loss line for its magnitude when negative |
| GameStateDiffs.MoveWithinPileQuiet | model/src/commonMain/kotlin/dev/bitspittle/racketeer/model/game/GameStateDiff.kt:89-109 | a card moved into the pile it was already in is reported only through the last-shop rule |
| GameStateDiffs.GroupKeysFacts | model/src/commonMain/kotlin/dev/bitspittle/racketeer/model/game/GameStateDiff.kt:63-87 | multi-card moves are grouped by source pile, each pile once |
| GameStateDiffs.SilentChanges | model/src/commonMain/kotlin/dev/bitspittle/racketeer/model/game/GameStateDiff.kt:220-243 | the changes the report ignores, shop exclusions included since no branch names them, add no lines |
| GameStateDiffs.DrawLines | model/src/commonMain/kotlin/dev/bitspittle/racketeer/model/game/GameStateDiff.kt:42-54 | a draw of zero cards is silent, one with no count is an error, and any positive draw reports one line |
| GameStateDiffs.UnownedCardQuiet | model/src/commonMain/kotlin/dev/bitspittle/racketeer/model/game/GameStateDiff.kt:116-141 | an amount added to a card outside the owned piles is not reported |
| GameStateDiffs.SameResourcesQuiet | model/src/commonMain/kotlin/dev/bitspittle/racketeer/model/game/GameStateDiff.kt:248-282 | equal resources before and after add no summary lines |
| GameStateDiffs.ChangesLinesErr | model/src/commonMain/kotlin/dev/bitspittle/racketeer/model/game/GameStateDiff.kt:220-243 | the first entry that fails to describe itself aborts the whole report with its error |
| GameStateDiffs.ReportTo | model/src/commonMain/kotlin/dev/bitspittle/racketeer/model/game/GameStateDiff.kt:198-288 | `reportTo` fails exactly as collecting the messages fails; otherwise it hands the logger the joined report, or nothing when there are no messages |
| GameStateDiffs.ReportMessages | model/src/commonMain/kotlin/dev/bitspittle/racketeer/model/game/GameStateDiff.kt:199-283 | the report fails exactly when reporting some change fails; the resource lines always close it, and make up all of it when no change is reported |
| GameSetMethods.ToProperty | scripting/src/commonMain/kotlin/dev/bitspittle/racketeer/scripting/methods/game/GameSetMethod.kt:16 | a label names the property whose script name it is, or none at all |
| GameSetMethods.LiteralAssigns | scripting/src/commonMain/kotlin/dev/bitspittle/racketeer/scripting/methods/game/GameSetMethod.kt:35-45 | `game-set!` with a literal gives that value to the named property |
| GameSetMethods.ExpressionSeesCurrent | scripting/src/commonMain/kotlin/dev/bitspittle/racketeer/scripting/methods/game/GameSetMethod.kt:35-38 | an expression is evaluated with `$it` bound to the property's current value |
| GameSetMethods.VpIsReadOnly | scripting/src/commonMain/kotlin/dev/bitspittle/racketeer/scripting/methods/game/GameSetMethod.kt:29-32 | setting `vp` fails as read-only, whatever the value |
| GameSetMethods.UnknownLabelFails | scripting/src/commonMain/kotlin/dev/bitspittle/racketeer/scripting/methods/game/GameSetMethod.kt:15-16 | a label that names no property fails as unknown |
| GameSetMethods.GameSet | scripting/src/commonMain/kotlin/dev/bitspittle/racketeer/scripting/methods/game/GameSetMethod.kt:13-48 | on success exactly the named property is set, through its clamping setter, and the result is Unit; on failure nothing changes |
| DbgMethods.DbgLine | scripting/src/commonMain/kotlin/dev/bitspittle/racketeer/scripting/methods/system/DbgMethod.kt:14-21 | every line starts with `[DBG] ` and ends with the shown value |
| DbgMethods.DbgLineMessage | scripting/src/commonMain/kotlin/dev/bitspittle/racketeer/scripting/methods/system/DbgMethod.kt:16-19 | a message that is not blank goes between the prefix and the value, followed by a colon; a missing or blank message is left out |
| DbgMethods.Dbg | scripting/src/commonMain/kotlin/dev/bitspittle/racketeer/scripting/methods/system/DbgMethod.kt:11-24 | `dbg` returns its argument unchanged and fails exactly when the message option does not convert to a string |
| DbgMethods.DbgWithoutMessage | scripting/src/commonMain/kotlin/dev/bitspittle/racketeer/scripting/methods/system/DbgMethod.kt:11-24 | with no message, the line is the prefix and the shown value |
| DbgMethods.DbgWithMessage | scripting/src/commonMain/kotlin/dev/bitspittle/racketeer/scripting/methods/system/DbgMethod.kt:16-19 | with a message, the line is prefix, message, colon and value |
| Unlocks.UnlockSettings.Flag | console/src/main/kotlin/dev/bitspittle/racketeer/console/command/commands/system/unlock/UnlockUtils.kt:7-27 | exactly the feedback, buildings and discord unlocks have a handler |
| Unlocks.UnlockSettings.UnhandledIsLocked | console/src/main/kotlin/dev/bitspittle/racketeer/console/command/commands/system/unlock/UnlockUtils.kt:29-33 | an unlock without a handler is never unlocked |
| Unlocks.UnlockSettings.Unlock | console/src/main/kotlin/dev/bitspittle/racketeer/console/command/commands/system/unlock/UnlockUtils.kt:37-44 | `unlock` reports a change exactly when the unlock was handled and still locked, then sets it, touches no other unlock, and otherwise changes nothing |
| Unlocks.UnlockSettings.UnlockTwice | console/src/main/kotlin/dev/bitspittle/racketeer/console/command/commands/system/unlock/UnlockUtils.kt:37-44 | a second unlock of the same id never reports a change |
| Unlocks.UnlockSettings.Locked | console/src/main/kotlin/dev/bitspittle/racketeer/console/command/commands/system/unlock/UnlockUtils.kt:35 | `locked` keeps, in order, exactly the unlocks that are still locked and within the victory-point cutoff |
| Unlocks.UnlockSettings.LockedDefaultCutoff | console/src/main/kotlin/dev/bitspittle/racketeer/console/command/commands/system/unlock/UnlockUtils.kt:35 | with the default cutoff `Int.MAX_VALUE`, an unlock is listed exactly when it is still locked |
| Unlocks.UnlockSettings.UnlockedNotLocked | console/src/main/kotlin/dev/bitspittle/racketeer/console/command/commands/system/unlock/UnlockUtils.kt:35 | an unlocked entry is never in the locked list |
| CardSearch.NewCardSearcher | console/src/main/kotlin/dev/bitspittle/racketeer/console/utils/CardSearcher.kt:6-7 | the searcher holds the same cards, sorted by name |
| CardSearch.FirstStarting | console/src/main/kotlin/dev/bitspittle/racketeer/console/utils/CardSearcher.kt:10-14 | the first card whose name starts with the prefix, ignoring case |
| CardSearch.LastBelow | console/src/main/kotlin/dev/bitspittle/racketeer/console/utils/CardSearcher.kt:15-18 | the last card whose lowercased name sorts below the prefix |
| CardSearch.Search | console/src/main/kotlin/dev/bitspittle/racketeer/console/utils/CardSearcher.kt:9-21 | the search always lands on 0 or on a position of the sorted card list |
| CardSearch.SearchFindsFirstMatch | console/src/main/kotlin/dev/bitspittle/racketeer/console/utils/CardSearcher.kt:9-21 | when any name starts with the prefix, the search lands on the first such card |
| CardSearch.SearchFallsBackToLastBelow | console/src/main/kotlin/dev/bitspittle/racketeer/console/utils/CardSearcher.kt:15-20 | otherwise it lands on the first copy of the last card sorting below the prefix |
| CardSearch.SearchDefaultsToZero | console/src/main/kotlin/dev/bitspittle/racketeer/console/utils/CardSearcher.kt:20 | with neither kind of card, the search gives 0 |
| CardSearch.EmptyPrefixFindsFirst | console/src/main/kotlin/dev/bitspittle/racketeer/console/utils/CardSearcher.kt:9-21 | an empty prefix lands on the first card |
| ScriptingViews.SuffixQuoteIffInString | console/src/main/kotlin/dev/bitspittle/racketeer/console/view/views/admin/ScriptingView.kt:179-184 | the automatic suffix starts with a closing quote exactly when the input ends inside a string |
| ScriptingViews.SuffixCloses | console/src/main/kotlin/dev/bitspittle/racketeer/console/view/views/admin/ScriptingView.kt:160-184 | input followed by its suffix ends outside any string with no parenthesis left open, unless the input ends in a lone backslash |
| ScriptingViews.BalancedNoSuffix | console/src/main/kotlin/dev/bitspittle/racketeer/console/view/views/admin/ScriptingView.kt:179-184 | balanced input gets no suffix |
| ScriptingViews.AutoClose | console/src/main/kotlin/dev/bitspittle/racketeer/console/view/views/admin/ScriptingView.kt:160-184 | the automatic suffix holds only closers: one quote when the input ends inside a string, then one `)` per paren left open |
| ScriptingViews.EscapeSwallows | console/src/main/kotlin/dev/bitspittle/racketeer/console/view/views/admin/ScriptingView.kt:174 | a backslash and the character after it do not affect the scan |
| ScriptingViews.PlainParenCount | console/src/main/kotlin/dev/bitspittle/racketeer/console/view/views/admin/ScriptingView.kt:161-177 | outside strings, the scan counts opening minus closing parentheses |
| ScriptingViews.DanglingSwallowsQuote | console/src/main/kotlin/dev/bitspittle/racketeer/console/view/views/admin/ScriptingView.kt:174 | the one case the suffix does not close: a trailing backslash escapes the quote the suffix adds |
| ScriptingViews.KeepLast | console/src/main/kotlin/dev/bitspittle/racketeer/console/view/views/admin/ScriptingView.kt:235-239 | the history keeps the last page of actions |
| ScriptingViews.ScriptingCommandType | console/src/main/kotlin/dev/bitspittle/racketeer/console/view/views/admin/ScriptingView.kt:45 | the editor's command is disabled exactly while editing or when disabled, and is a warning otherwise |
| ScriptingViews.ScriptingView.constructor | console/src/main/kotlin/dev/bitspittle/racketeer/console/view/views/admin/ScriptingView.kt:54-67 | the view pushes two frames on each of the method, variable and converter stacks (its own frame, then the user's; both start empty here because the game-state refresh of the user frame is left out), starts in editing mode and has an empty history |
| ScriptingViews.ScriptingView.OnEscRequested | console/src/main/kotlin/dev/bitspittle/racketeer/console/view/views/admin/ScriptingView.kt:283-286 | leaving the view drops the top two frames of every stack; with two frames the second pop fails after the first, with one nothing changes and the pop fails |
| ScriptingViews.ScriptingView.ClearEditor | console/src/main/kotlin/dev/bitspittle/racketeer/console/view/views/admin/ScriptingView.kt:105-116 | clearing empties the history and the last result and replaces the top frame of every stack by an empty one, keeping the outer frames; at the ground frame the pop fails and the stacks stay |
| ScriptingViews.ScriptingView.HandleInputChanged | console/src/main/kotlin/dev/bitspittle/racketeer/console/view/views/admin/ScriptingView.kt:160-184 | the loop's suffix is exactly `AutoClose` of the input |
| ScriptingViews.ScriptingView.RecordAction | console/src/main/kotlin/dev/bitspittle/racketeer/console/view/views/admin/ScriptingView.kt:235-239 | the action is appended and only the last page is kept |
| ScriptingViews.ScriptingView.HandleInputEntered | console/src/main/kotlin/dev/bitspittle/racketeer/console/view/views/admin/ScriptingView.kt:222-249 | the input plus its suffix is evaluated; on success it is recorded, the result is shown unless it is Unit, and the suffix is cleared; on failure nothing of the view changes |
| ScriptingViews.ScriptingView.HandleAdditionalKeys | console/src/main/kotlin/dev/bitspittle/racketeer/console/view/views/admin/ScriptingView.kt:251-264 | TAB toggles editing mode and is handled; other keys are handled only while editing |
| BuildingListViews.Next | console/src/main/kotlin/dev/bitspittle/racketeer/console/view/views/game/buildings/BuildingListView.kt:23-25 | the next order differs from the current one and wraps round after the last |
| BuildingListViews.BuildingListView.constructor | console/src/main/kotlin/dev/bitspittle/racketeer/console/view/views/game/buildings/BuildingListView.kt:28 | the view holds the blueprints sorted by name, starts with an empty prefix and keeps the requested order |
| BuildingListViews.BuildingListView.Commands | console/src/main/kotlin/dev/bitspittle/racketeer/console/view/views/game/buildings/BuildingListView.kt:33-41 | the commands list every blueprint once, in cost order or in name order |
| BuildingListViews.BuildingListView.HandleAdditionalKeys | console/src/main/kotlin/dev/bitspittle/racketeer/console/view/views/game/buildings/BuildingListView.kt:43-60 | in name order a letter or space extends the lowercased prefix and jumps to the searched blueprint, or to 0; BACKSPACE drops a character; TAB switches order, clears the prefix and resets the cursor; other keys change nothing and are not handled |
| Sorting.SortByNameSorted | console/src/main/kotlin/dev/bitspittle/racketeer/console/view/views/game/buildings/BuildingListView.kt:28 | sorting by name gives a sequence in name order |
| Sorting.SortByName | console/src/main/kotlin/dev/bitspittle/racketeer/console/view/views/game/buildings/BuildingListView.kt:28 | sorting by name keeps exactly the same elements |
| Sorting.SortByCostSorted | console/src/main/kotlin/dev/bitspittle/racketeer/console/view/views/game/buildings/BuildingListView.kt:37-38 | sorting by cost gives a sequence in cost order |
| Sorting.SortByCost | console/src/main/kotlin/dev/bitspittle/racketeer/console/view/views/game/buildings/BuildingListView.kt:37-38 | sorting by cost keeps exactly the same elements |
| Views.EnterRule | console/src/main/kotlin/dev/bitspittle/racketeer/console/view/View.kt:173-180 | only a blocked command consumes ENTER without running; disabled and hidden ones do not consume it |
| Views.HandleEnter | console/src/main/kotlin/dev/bitspittle/racketeer/console/view/View.kt:171-185 | ENTER runs a runnable command exactly once, logs the line for an exception instead of letting it escape, and is handled unless the command is disabled or hidden |
| Views.ErrorLine | console/src/main/kotlin/dev/bitspittle/racketeer/console/view/View.kt:141 | an exception's message is logged as it is, and one without a message is logged with its class name |
| Views.SlugCharacters | console/src/main/kotlin/dev/bitspittle/racketeer/console/view/View.kt:150-157 | a crash report's command slug holds only lowercase letters, digits and underscores |
| Views.SlugUnderscores | console/src/main/kotlin/dev/bitspittle/racketeer/console/view/View.kt:150-157 | the slug never has two underscores in a row, nor one at either end |
| Views.Slug | console/src/main/kotlin/dev/bitspittle/racketeer/console/view/View.kt:150-157 | the command slug is never longer than the command's title |
| Views.CollapseFacts | console/src/main/kotlin/dev/bitspittle/racketeer/console/view/View.kt:153 | collapsing leaves no two underscores in a row and makes no new characters |
| Views.TrimStart | console/src/main/kotlin/dev/bitspittle/racketeer/console/view/View.kt:154 | trimming the front leaves a suffix that does not start with an underscore |
| Views.TrimEnd | console/src/main/kotlin/dev/bitspittle/racketeer/console/view/View.kt:154 | trimming the back leaves a prefix that does not end with an underscore |
| Views.View.Commands | console/src/main/kotlin/dev/bitspittle/racketeer/console/view/View.kt:30-45 | the first access builds the commands at the initial index; after `refreshCommands` they are rebuilt with the cursor the view picks from the old one; otherwise nothing changes |
| Views.View.RefreshCommands | console/src/main/kotlin/dev/bitspittle/racketeer/console/view/View.kt:54-56 | `refreshCommands` only marks the commands stale |

## Left out

- The limp parser and evaluator are not part of this model. Quoted expressions are evaluated by an oracle `eval`, and only the stubs made by a value-to-expression converter have a fixed value.
- The placeholder, value-to-expression and host converters are not shown in the source. Their behaviour is fixed as `ApplyConverter` says, and host conversions are an oracle.
- `GameStateChange.applyTo` and the change types' own code are not part of this model. `apply` only logs the change, and game changes are a datatype with the fields the diff report reads.
- The enqueuers, effects and actions triggered in `onBoardChanged` and `move` are left out: they run card scripts.
- `canActivate` and the building activation rules are left out; they depend on scripts.
- The text of the report lines comes from a `Describer` oracle. The model fixes which lines are produced and in what order, not their wording.
- The public `GameState` constructor from game data, with its initial shuffles, is left out. So is `GameDataValid`, the check that game data is consistent, which the shop assumes.
- Cards.MutableCard: `isVeteran` is left out, because the upgrade type in the source has no VETERAN value.
- GameStates.Logged / GameStates.MutableGameState.Apply: the entry to insert before is looked up by value. The source's `indexOf` uses the change classes' own equality, and for changes compared by identity it finds that very object. When an earlier entry is equal but is a different object, the source inserts later than the model. When only an equal copy is in the history, the source throws where the model inserts. `GameStateChange.kt` is not part of this model. `LoggedInsertsAt` shows that the two lookups agree when no other entry is equal.
- GameStates.LoggedInserts: "the first entry equal to it" is a lookup by value, not by identity, as the previous line says.
- GameStates.MutableGameState.Move: the single-card overload of `move` is left out; it forwards to the list form.
- GameStates.MutableGameState.Move: requires the moved cards to have distinct ids. The source also accepts a list holding a card twice: it removes that card twice, the second time finding nothing, and inserts it twice into the target pile.
- Text: letter tests, lowercasing and ignore-case comparison are restricted to ASCII. Kotlin's Unicode case mapping is wider.
- Kotlin `Int` overflow is not modelled: integers are unbounded.
- Randomness is the `Draws` oracle. A draw is below its bound; the model does not say which value it takes.
- A card template's identity (`===` in the shop) is its index in the game's card list.
- The page size of the scripting view's history is a parameter; its constant is not part of this model.
- GameSetMethods.ToProperty: the script names of the properties are assumed to be the lowercase, dashed enum names (`hand-size`). The `toEnum` helper is not part of this model.
- GameStateDiffs.MergeKeepsLastMove: merging transient moves is modelled with equality on change values, not the reference identity the source uses.
- Sorting.SortByName and Sorting.SortByCost are insertion sorts that place equal keys in input order. Stability itself is not proved.
- ScriptingViews.ScriptingView.constructor / ScriptingViews.ScriptingView.HandleInputEntered: the `setValuesFrom` refresh of the user frame (EnvironmentUtils.kt), which stores the seven variables `$shop-tier`, `$deck`, `$hand`, `$street`, `$discard`, `$jail` and `$shop` and adds the method `$owned`, is not modelled, neither on entering the view (ScriptingView.kt:279) nor before each evaluation (ScriptingView.kt:224); so the constructor's user frame is empty here where the source's holds those bindings, and HandleInputEntered leaves the scope untouched. Whatever the evaluator itself binds while running the input is not modelled either.
- ScriptingViews.ScriptingView.HandleInputEntered: storing `$last` into the scope in overwrite mode is left out; only the history, the suffix and the result line are modelled.
- The value stringifier and the text-tree completion of the scripting view are left out.
- Snapshot commands, cursor movement with UP and DOWN, and screen rendering are left out.
- The building list's blueprint searcher is an oracle from prefix to blueprint. Its implementation is not part of this model.
- BuildingListViews.BuildingListView: the cursor is a plain field. The clamping of the shared commands section is not modelled here.
- Unlocks.UnlockSettings: an unlock record is reduced to its id and its victory points.
- Views.HandleEnter: uploading a crash report, and the view-name part of its file name, are left out; only the command slug is modelled.
- The game's change recording and summary log around `reportTo` are left out.
- ScriptingViews.SuffixCloses requires the input not to end in a lone backslash. `DanglingSwallowsQuote` shows that then the closing quote of the suffix stays inside the string.
- Unlocks.UnlockSettings.Flag follows `UnlockUtils.kt`, which handles a "feedback" unlock that `Settings.kt` does not list.
