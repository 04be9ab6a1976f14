/**
 * The script method `game-set! 'property value`: the property is named by
 * an identifier; the value is an Int literal, or a quoted expression that is
 * evaluated with `$it` bound to the property's current value.  The new value
 * goes through the game state's clamping setter.
 */
module GameSetMethods {
  import opened Wrappers
  import opened LimpValues
  import opened LimpEnvironment
  import opened LimpMethods
  import GameStates
  import Cards

  /** The game properties a script can name. */
  datatype GameProperty = CashProperty | InfluenceProperty | LuckProperty | HandSizeProperty | VpProperty

  /** The spelling of a property in a script. */
  function PropertyName(p: GameProperty): string
  {
    match p
    case CashProperty => "cash"
    case InfluenceProperty => "influence"
    case LuckProperty => "luck"
    case HandSizeProperty => "hand-size"
    case VpProperty => "vp"
  }

  /** `identifier.toEnum(GameProperty.values())`: the property of that spelling, if any. */
  function ToProperty(name: string): (r: Option<GameProperty>)
    ensures r.Some? ==> PropertyName(r.value) == name
    ensures r.None? ==> forall p :: PropertyName(p) != name
  {
    if name == "cash" then Some(CashProperty)
    else if name == "influence" then Some(InfluenceProperty)
    else if name == "luck" then Some(LuckProperty)
    else if name == "hand-size" then Some(HandSizeProperty)
    else if name == "vp" then Some(VpProperty)
    else None
  }

  datatype GameSetError =
    | /** The label names no game property. */ UnknownProperty(propertyName: string)
    | /** vp is computed from the board and cannot be assigned. */ ReadOnlyProperty
    | /** A conversion or the evaluation of the update failed. */ ScriptError(error: Error)

  /** While the update is converted, one extra frame lets an Int stand for the expression that yields it. */
  function UpdateFrames(frames: seq<Option<map<ClassTag, Converter>>>): seq<Option<map<ClassTag, Converter>>>
  {
    frames + [Some(map[ExprClass := ValueToExprConverter(IntClass)])]
  }

  /** The current value of an assignable property. */
  function Current(p: GameProperty, cash: int, influence: int, luck: int, handSize: int): int
    requires p != VpProperty
  {
    match p
    case CashProperty => cash
    case InfluenceProperty => influence
    case LuckProperty => luck
    case HandSizeProperty => handSize
  }

  /**
   * The property `game-set!` assigns and the value it hands to that
   * property's setter, or what it throws, in the order the method checks:
   * the label, then the conversion of the update, then read-only vp, then
   * the evaluation of the update with `$it` bound.
   */
  function Assignment(frames: seq<Option<map<ClassTag, Converter>>>, property: Wrapped, update: Wrapped,
                      cash: int, influence: int, luck: int, handSize: int, eval: Eval, host: Host)
    : (r: Result<(GameProperty, int), GameSetError>)
    ensures r.Ok? ==> r.value.0 != VpProperty
  {
    match ExpectExpr(frames, property, host)
    case Err(e) => Err(ScriptError(e))
    case Ok(id) =>
      if !id.Identifier? then Err(ScriptError(CannotConvert(property, ExprClass)))
      else
        match ToProperty(id.name)
        case None => Err(UnknownProperty(id.name))
        case Some(p) =>
          match ExpectExpr(UpdateFrames(frames), update, host)
          case Err(e) => Err(ScriptError(e))
          case Ok(expr) =>
            if p == VpProperty then Err(ReadOnlyProperty)
            else
              match Evaluate(eval, expr, IntV(Current(p, cash, influence, luck, handSize)))
              case Err(e) => Err(ScriptError(e))
              case Ok(v) =>
                match ExpectInt(frames + [None], v, host)
                case Err(e) => Err(ScriptError(e))
                case Ok(n) => Ok((p, n))
  }

  /** A literal Int is assigned as it is, whatever the converters already in scope. */
  lemma LiteralAssigns(frames: seq<Option<map<ClassTag, Converter>>>, p: GameProperty, value: int,
                       cash: int, influence: int, luck: int, handSize: int, eval: Eval, host: Host)
    requires p != VpProperty
    ensures Assignment(frames, ExprV(Identifier(PropertyName(p))), IntV(value), cash, influence, luck, handSize, eval, host)
            == Ok((p, value))
  {
    var top := UpdateFrames(frames)[|UpdateFrames(frames)| - 1];
    assert Has(top, ExprClass);
    assert ExpectExpr(UpdateFrames(frames), IntV(value), host) == Ok(Stub(IntV(value)));
  }

  /** A quoted expression is evaluated with `$it` bound to the property's current value, and its Int result assigned. */
  lemma ExpressionSeesCurrent(frames: seq<Option<map<ClassTag, Converter>>>, p: GameProperty, e: Expr, result: int,
                              cash: int, influence: int, luck: int, handSize: int, eval: Eval, host: Host)
    requires p != VpProperty && !e.Stub?
    requires eval(e, IntV(Current(p, cash, influence, luck, handSize))) == Ok(IntV(result))
    ensures Assignment(frames, ExprV(Identifier(PropertyName(p))), ExprV(e), cash, influence, luck, handSize, eval, host)
            == Ok((p, result))
  {
  }

  /** Naming vp fails as read-only once the update converts, so any literal Int is refused. */
  lemma VpIsReadOnly(frames: seq<Option<map<ClassTag, Converter>>>, value: int,
                     cash: int, influence: int, luck: int, handSize: int, eval: Eval, host: Host)
    ensures Assignment(frames, ExprV(Identifier("vp")), IntV(value), cash, influence, luck, handSize, eval, host)
            == Err(ReadOnlyProperty)
  {
    var top := UpdateFrames(frames)[|UpdateFrames(frames)| - 1];
    assert Has(top, ExprClass);
    assert ExpectExpr(UpdateFrames(frames), IntV(value), host) == Ok(Stub(IntV(value)));
  }

  /** A label that names no property fails before the update is looked at. */
  lemma UnknownLabelFails(frames: seq<Option<map<ClassTag, Converter>>>, name: string, update: Wrapped,
                          cash: int, influence: int, luck: int, handSize: int, eval: Eval, host: Host)
    requires forall p :: PropertyName(p) != name
    ensures Assignment(frames, ExprV(Identifier(name)), update, cash, influence, luck, handSize, eval, host)
            == Err(UnknownProperty(name))
  {
    assert PropertyName(CashProperty) != name && PropertyName(InfluenceProperty) != name;
    assert PropertyName(LuckProperty) != name && PropertyName(HandSizeProperty) != name;
    assert PropertyName(VpProperty) != name;
  }

  /** The value of property `p` after the assignment `a`, given its value before: set through `p`'s setter, or untouched. */
  function AssignedTo(a: Result<(GameProperty, int), GameSetError>, p: GameProperty, before: int): int
  {
    if a.Ok? && a.value.0 == p then
      (if p == HandSizeProperty then GameStates.GrownHandSize(a.value.1, before) else Cards.AtLeastZero(a.value.1))
    else before
  }

  /** The `when` that hands the new value to the named property's clamping setter. */
  method Store(g: GameStates.MutableGameState, p: GameProperty, value: int)
    requires p != VpProperty
    modifies g`cash, g`influence, g`luck, g`handSize
    ensures g.cash == AssignedTo(Ok((p, value)), CashProperty, old(g.cash))
    ensures g.influence == AssignedTo(Ok((p, value)), InfluenceProperty, old(g.influence))
    ensures g.luck == AssignedTo(Ok((p, value)), LuckProperty, old(g.luck))
    ensures g.handSize == AssignedTo(Ok((p, value)), HandSizeProperty, old(g.handSize))
  {
    match p
    case CashProperty => g.SetCash(value);
    case InfluenceProperty => g.SetInfluence(value);
    case LuckProperty => g.SetLuck(value);
    case HandSizeProperty => g.SetHandSize(value);
  }

  /**
   * `GameSetMethod.invoke`: the assignment goes through the named property's
   * setter, every other property keeps its value, and the method returns
   * Unit; on an error nothing changes.
   */
  method GameSet(g: GameStates.MutableGameState, frames: seq<Option<map<ClassTag, Converter>>>, property: Wrapped,
                 update: Wrapped, eval: Eval, host: Host) returns (r: Result<Wrapped, GameSetError>)
    modifies g`cash, g`influence, g`luck, g`handSize
    ensures var a := Assignment(frames, property, update, old(g.cash), old(g.influence), old(g.luck), old(g.handSize), eval, host);
            && r == (if a.Ok? then Ok(UnitV) else Err(a.error))
            && g.cash == AssignedTo(a, CashProperty, old(g.cash))
            && g.influence == AssignedTo(a, InfluenceProperty, old(g.influence))
            && g.luck == AssignedTo(a, LuckProperty, old(g.luck))
            && g.handSize == AssignedTo(a, HandSizeProperty, old(g.handSize))
  {
    var a := Assignment(frames, property, update, g.cash, g.influence, g.luck, g.handSize, eval, host);
    if a.Err? {
      return Err(a.error);
    }
    Store(g, a.value.0, a.value.1);
    r := Ok(UnitV);
  }
}
