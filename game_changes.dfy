/**
 * The entries of a game's history log.  Only the fields that the game state
 * and the change report read are kept; a card is recorded by its id and its
 * template, a pile by its id.
 */
module GameChanges {
  import opened Wrappers
  import opened Ids
  import opened ListStrategies
  import Cards
  import Buildings

  /** A card as a history entry refers to it: its id and its (immutable) template. */
  datatype CardRef = CardRef(id: Id, template: Cards.CardTemplate)

  datatype CardProperty = CardCounter | CardVp | CardVpPassive | CardOtherProperty

  datatype BuildingProperty = BuildingCounter | BuildingVp | BuildingVpPassive | BuildingOtherProperty

  datatype GameStateChange =
    | GameStarted
    | ShuffleDiscardIntoDeck
    | /** The count is filled in when the draw is applied. */ Draw(count: Option<int>)
    | Play
    | MoveCards(cards: seq<CardRef>, intoPile: Id, listStrategy: ListStrategy)
    | MoveCard(card: CardRef, intoPile: Id, listStrategy: ListStrategy)
    | Shuffle(pile: Id)
    | AddCardAmount(cardProperty: CardProperty, card: CardRef, amount: int)
    | UpgradeCard(card: CardRef, upgradeType: Cards.UpgradeType)
    | AddBuildingAmount(buildingProperty: BuildingProperty, building: Buildings.Blueprint, amount: int)
    | AddGameAmount
    | SetGameData
    | AddEffect(desc: Option<string>, warningExpr: string)
    | /** A new shop exclusion; the report has no branch for it. */ AddShopExclusion(exclusionDesc: string)
    | RestockShop
    | UpgradeShop
    | AddBlueprint(blueprint: Buildings.Blueprint)
    | Build(blueprintIndex: int)
    | Activate
    | EndTurn
    | GameOver
}
