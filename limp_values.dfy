/**
 * The values the limp interpreter passes around (a Kotlin `Any` wrapped in a
 * `Value`), the runtime classes a conversion can target, the converters, the
 * method descriptors and the errors the environment and the built-in methods
 * raise.  The parser and the evaluator are not part of this model: a quoted
 * expression is evaluated by an oracle `eval`, except that a stub expression
 * evaluates to the value it holds.
 */
module LimpValues {
  import opened Wrappers
  import Text

  /** A parsed, quoted expression.  Only the stub form is interpreted here. */
  datatype Expr =
    | Stub(value: Wrapped)
    | Identifier(name: string)
    | Compound(source: string)

  /** A runtime value.  `NullV` only ever occurs as an element of a list. */
  datatype Wrapped =
    | IntV(i: int)
    | StrV(s: string)
    | BoolV(b: bool)
    | ListV(items: seq<Wrapped>)
    | UnitV
    | ExprV(e: Expr)
    | PlaceholderV
    | HostV(kind: string, handle: nat)
    | NullV

  /** Kotlin `KClass` values used as conversion targets.  `AnyClass` is `Any::class`. */
  datatype ClassTag =
    | IntClass | StringClass | BoolClass | ListClass | UnitClass | ExprClass
    | PlaceholderClass | HostClass(name: string) | NullClass | AnyClass

  function ClassOf(v: Wrapped): ClassTag
  {
    match v
    case IntV(_) => IntClass
    case StrV(_) => StringClass
    case BoolV(_) => BoolClass
    case ListV(_) => ListClass
    case UnitV => UnitClass
    case ExprV(_) => ExprClass
    case PlaceholderV => PlaceholderClass
    case HostV(k, _) => HostClass(k)
    case NullV => NullClass
  }

  /** `toClass.isInstance(value)`: null is an instance of nothing, every other value is an `Any`. */
  predicate IsInstance(v: Wrapped, c: ClassTag)
  {
    v != NullV && (c == AnyClass || ClassOf(v) == c)
  }

  /**
   * The converters the model knows.  `PlaceholderConverter(d)` turns the `_`
   * placeholder into `d`; `ValueToExprConverter(c)` turns an instance of `c`
   * into a stub expression holding it; every other converter of the program is
   * a `HostConverter` whose behaviour is given by an oracle.
   */
  datatype Converter =
    | PlaceholderConverter(default: Wrapped)
    | ValueToExprConverter(fromClass: ClassTag)
    | HostConverter(kind: string, target: ClassTag)

  /** The Kotlin class of a converter object (`converter::class`). */
  datatype ConverterKind = PlaceholderKind | ValueToExprKind | HostKind(kind: string)

  function KindOf(c: Converter): ConverterKind
  {
    match c
    case PlaceholderConverter(_) => PlaceholderKind
    case ValueToExprConverter(_) => ValueToExprKind
    case HostConverter(k, _) => HostKind(k)
  }

  /** `converters.values.none { it::class == kind }`. */
  predicate NoneOfKind(converters: map<ClassTag, Converter>, kind: ConverterKind)
  {
    forall t :: t in converters ==> KindOf(converters[t]) != kind
  }

  /** `converter.toClass`. */
  function ToClass(c: Converter): ClassTag
  {
    match c
    case PlaceholderConverter(d) => ClassOf(d)
    case ValueToExprConverter(_) => ExprClass
    case HostConverter(_, t) => t
  }

  /** `converter.convert(value)`; `host` gives the result of every converter not modelled here. */
  function ApplyConverter(c: Converter, v: Wrapped, host: (Converter, Wrapped) -> Option<Wrapped>): (r: Option<Wrapped>)
    ensures c.PlaceholderConverter? ==> (r.Some? <==> v == PlaceholderV)
    ensures c.PlaceholderConverter? && r.Some? ==> r.value == c.default
    ensures c.ValueToExprConverter? ==> (r.Some? <==> IsInstance(v, c.fromClass))
    ensures c.ValueToExprConverter? && r.Some? ==> r.value == ExprV(Stub(v))
  {
    match c
    case PlaceholderConverter(d) => if v == PlaceholderV then Some(d) else None
    case ValueToExprConverter(from) => if IsInstance(v, from) then Some(ExprV(Stub(v))) else None
    case HostConverter(_, _) => host(c, v)
  }

  /** A method descriptor as registered in an environment. */
  datatype Method = Method(name: string, numArgs: nat, consumeRest: bool)

  datatype Error =
    | DuplicateMethod(methodName: string)
    | DuplicateVariable(variableName: string)
    | DuplicateConverter(converterKind: ConverterKind)
    | GroundFrame
    | NoSuchMethod(missingMethod: string)
    | NoSuchVariable(missingVariable: string)
    | CannotConvert(value: Wrapped, target: ClassTag)
    | NoMatchingElement
    | MoreThanOneMatch
    | Raised(message: string)

  /**
   * `evaluator.extend(mapOf("$it" to it)).evaluate(env, e)`: a stub evaluates
   * to its value; every other expression is evaluated by the oracle.
   */
  function Evaluate(eval: (Expr, Wrapped) -> Result<Wrapped, Error>, e: Expr, it: Wrapped): (r: Result<Wrapped, Error>)
    ensures e.Stub? ==> r == Ok(e.value)
  {
    if e.Stub? then Ok(e.value) else eval(e, it)
  }

  /** Kotlin's `toString` of a value; `hostShow` gives the text of values of the host program. */
  function Show(v: Wrapped, hostShow: Wrapped -> string): string
    decreases v, 1
  {
    match v
    case IntV(i) => Text.IntToString(i)
    case StrV(s) => s
    case BoolV(b) => if b then "true" else "false"
    case ListV(items) => "[" + Text.Join(ShowAll(items, hostShow), ", ") + "]"
    case UnitV => "kotlin.Unit"
    case NullV => "null"
    case _ => hostShow(v)
  }

  function ShowAll(items: seq<Wrapped>, hostShow: Wrapped -> string): (r: seq<string>)
    ensures |r| == |items|
    ensures forall i :: 0 <= i < |items| ==> r[i] == Show(items[i], hostShow)
    decreases items, 0
  {
    if items == [] then [] else [Show(items[0], hostShow)] + ShowAll(items[1..], hostShow)
  }
}
