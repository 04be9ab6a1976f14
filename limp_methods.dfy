/**
 * The built-in limp methods `single`, `index-of`, `join-to-string` and `max`.
 * Arguments arrive already evaluated, as the interpreter hands them over;
 * quoted predicates and formats are evaluated per item with `$it` bound.
 */
module LimpMethods {
  import opened Wrappers
  import opened LimpValues
  import opened LimpEnvironment
  import Text

  type Host = (Converter, Wrapped) -> Option<Wrapped>
  type Eval = (Expr, Wrapped) -> Result<Wrapped, Error>

  /** `expectConvert<List<Any>>`: the items of the list the value converts to. */
  function ExpectList(frames: seq<Option<map<ClassTag, Converter>>>, v: Wrapped, host: Host): (r: Result<seq<Wrapped>, Error>)
    ensures IsInstance(v, ListClass) ==> r == Ok(v.items)
  {
    match ExpectConvert(frames, v, ListClass, host)
    case Ok(ListV(items)) => Ok(items)
    case Ok(_) => Err(CannotConvert(v, ListClass))
    case Err(e) => Err(e)
  }

  /** `expectConvert<Expr>`. */
  function ExpectExpr(frames: seq<Option<map<ClassTag, Converter>>>, v: Wrapped, host: Host): (r: Result<Expr, Error>)
    ensures v.ExprV? ==> r == Ok(v.e)
  {
    match ExpectConvert(frames, v, ExprClass, host)
    case Ok(ExprV(e)) => Ok(e)
    case Ok(_) => Err(CannotConvert(v, ExprClass))
    case Err(e) => Err(e)
  }

  /** `expectConvert<Boolean>`. */
  function ExpectBool(frames: seq<Option<map<ClassTag, Converter>>>, v: Wrapped, host: Host): (r: Result<bool, Error>)
    ensures v.BoolV? ==> r == Ok(v.b)
  {
    match ExpectConvert(frames, v, BoolClass, host)
    case Ok(BoolV(b)) => Ok(b)
    case Ok(_) => Err(CannotConvert(v, BoolClass))
    case Err(e) => Err(e)
  }

  /** `expectConvert<Int>`. */
  function ExpectInt(frames: seq<Option<map<ClassTag, Converter>>>, v: Wrapped, host: Host): (r: Result<int, Error>)
    ensures v.IntV? ==> r == Ok(v.i)
  {
    match ExpectConvert(frames, v, IntClass, host)
    case Ok(IntV(i)) => Ok(i)
    case Ok(_) => Err(CannotConvert(v, IntClass))
    case Err(e) => Err(e)
  }

  /** `expectConvert<String>`. */
  function ExpectString(frames: seq<Option<map<ClassTag, Converter>>>, v: Wrapped, host: Host): (r: Result<string, Error>)
    ensures v.StrV? ==> r == Ok(v.s)
  {
    match ExpectConvert(frames, v, StringClass, host)
    case Ok(StrV(s)) => Ok(s)
    case Ok(_) => Err(CannotConvert(v, StringClass))
    case Err(e) => Err(e)
  }

  /** The predicate applied to one item: evaluate with `$it` bound, then convert the result to a boolean. */
  function Test(frames: seq<Option<map<ClassTag, Converter>>>, pred: Expr, item: Wrapped, eval: Eval, host: Host): Result<bool, Error>
  {
    match Evaluate(eval, pred, item)
    case Ok(v) => ExpectBool(frames, v, host)
    case Err(e) => Err(e)
  }

  // ---------------------------------------------------------------- single

  /** The placeholder `_` given as the predicate of `single` stands for the constant `true`. */
  const AlwaysTrue: Wrapped := ExprV(Stub(BoolV(true)))

  /** The converter frames while `single` converts its predicate: one frame holding the placeholder converter. */
  function PredicateFrames(frames: seq<Option<map<ClassTag, Converter>>>): seq<Option<map<ClassTag, Converter>>>
  {
    frames + [Some(map[ExprClass := PlaceholderConverter(AlwaysTrue)])]
  }

  /**
   * Kotlin's `single { }` over `items[from..]`, `found` being the match seen
   * so far: the items are tested in order, an error stops the scan, a second
   * match fails at once and the end of the list without a match fails.
   */
  function SingleFrom(frames: seq<Option<map<ClassTag, Converter>>>, pred: Expr, items: seq<Wrapped>, from: nat,
                      found: Option<Wrapped>, eval: Eval, host: Host): (r: Result<Wrapped, Error>)
    requires from <= |items|
    ensures r.Ok? ==> found == Some(r.value) || r.value in items
    decreases |items| - from
  {
    if from == |items| then
      if found.Some? then Ok(found.value) else Err(NoMatchingElement)
    else
      match Test(frames, pred, items[from], eval, host)
      case Err(e) => Err(e)
      case Ok(true) => if found.Some? then Err(MoreThanOneMatch) else SingleFrom(frames, pred, items, from + 1, Some(items[from]), eval, host)
      case Ok(false) => SingleFrom(frames, pred, items, from + 1, found, eval, host)
  }

  /** The result of `single` as a function of the converter frames at the call. */
  function Single(frames: seq<Option<map<ClassTag, Converter>>>, list: Wrapped, pred: Wrapped, eval: Eval, host: Host): (r: Result<Wrapped, Error>)
    ensures ExpectList(frames, list, host).Err? ==> r == Err(ExpectList(frames, list, host).error)
    ensures ExpectList(frames, list, host).Ok? && ExpectExpr(PredicateFrames(frames), pred, host).Err? ==>
              r == Err(ExpectExpr(PredicateFrames(frames), pred, host).error)
    ensures r.Ok? ==> ExpectList(frames, list, host).Ok? && r.value in ExpectList(frames, list, host).value
  {
    match ExpectList(frames, list, host)
    case Err(e) => Err(e)
    case Ok(items) =>
      match ExpectExpr(PredicateFrames(frames), pred, host)
      case Err(e) => Err(e)
      case Ok(p) => SingleFrom(frames + [None], p, items, 0, None, eval, host)
  }

  /** The positions in `items[from..]` whose test gives `true`, when every test gives a result. */
  function MatchesFrom(frames: seq<Option<map<ClassTag, Converter>>>, pred: Expr, items: seq<Wrapped>, from: nat,
                       eval: Eval, host: Host): (r: seq<nat>)
    requires from <= |items|
    ensures forall k :: 0 <= k < |r| ==> from <= r[k] < |items|
    decreases |items| - from
  {
    if from == |items| then []
    else if Test(frames, pred, items[from], eval, host) == Ok(true) then [from] + MatchesFrom(frames, pred, items, from + 1, eval, host)
    else MatchesFrom(frames, pred, items, from + 1, eval, host)
  }

  /**
   * With a predicate that never fails, `single` gives the one matching item
   * when there is exactly one, and otherwise fails with no match or with more
   * than one match.
   */
  lemma SingleFromCounts(frames: seq<Option<map<ClassTag, Converter>>>, pred: Expr, items: seq<Wrapped>,
                         from: nat, found: Option<Wrapped>, eval: Eval, host: Host)
    requires from <= |items|
    requires forall k :: from <= k < |items| ==> Test(frames, pred, items[k], eval, host).Ok?
    ensures var m := MatchesFrom(frames, pred, items, from, eval, host);
            var r := SingleFrom(frames, pred, items, from, found, eval, host);
            && (found.None? && |m| == 1 ==> r == Ok(items[m[0]]))
            && (found.Some? && |m| == 0 ==> r == Ok(found.value))
            && (found.None? && |m| == 0 ==> r == Err(NoMatchingElement))
            && (|m| + (if found.Some? then 1 else 0) >= 2 ==> r == Err(MoreThanOneMatch))
  {
    if found.Some? {
      SingleFromFound(frames, pred, items, from, found.value, eval, host);
    } else {
      SingleFromNone(frames, pred, items, from, eval, host);
    }
  }

  /** With a match already seen, the scan keeps it when nothing else matches and fails on any further match. */
  lemma {:induction false} SingleFromFound(frames: seq<Option<map<ClassTag, Converter>>>, pred: Expr, items: seq<Wrapped>,
                                           from: nat, found: Wrapped, eval: Eval, host: Host)
    requires from <= |items|
    requires forall k :: from <= k < |items| ==> Test(frames, pred, items[k], eval, host).Ok?
    ensures var m := MatchesFrom(frames, pred, items, from, eval, host);
            var r := SingleFrom(frames, pred, items, from, Some(found), eval, host);
            r == if |m| == 0 then Ok(found) else Err(MoreThanOneMatch)
    decreases |items| - from
  {
    if from < |items| && Test(frames, pred, items[from], eval, host) == Ok(false) {
      SingleFromFound(frames, pred, items, from + 1, found, eval, host);
    }
  }

  /** With no match seen yet, the scan succeeds on exactly one match. */
  lemma {:induction false} SingleFromNone(frames: seq<Option<map<ClassTag, Converter>>>, pred: Expr, items: seq<Wrapped>,
                                          from: nat, eval: Eval, host: Host)
    requires from <= |items|
    requires forall k :: from <= k < |items| ==> Test(frames, pred, items[k], eval, host).Ok?
    ensures var m := MatchesFrom(frames, pred, items, from, eval, host);
            var r := SingleFrom(frames, pred, items, from, None, eval, host);
            r == if |m| == 0 then Err(NoMatchingElement) else if |m| == 1 then Ok(items[m[0]]) else Err(MoreThanOneMatch)
    decreases |items| - from
  {
    if from < |items| {
      var m := MatchesFrom(frames, pred, items, from + 1, eval, host);
      if Test(frames, pred, items[from], eval, host) == Ok(true) {
        assert MatchesFrom(frames, pred, items, from, eval, host) == [from] + m;
        assert SingleFrom(frames, pred, items, from, None, eval, host)
               == SingleFrom(frames, pred, items, from + 1, Some(items[from]), eval, host);
        SingleFromFound(frames, pred, items, from + 1, items[from], eval, host);
      } else {
        assert MatchesFrom(frames, pred, items, from, eval, host) == m;
        assert SingleFrom(frames, pred, items, from, None, eval, host) == SingleFrom(frames, pred, items, from + 1, None, eval, host);
        SingleFromNone(frames, pred, items, from + 1, eval, host);
      }
    }
  }

  /** `single` with the placeholder as predicate succeeds exactly on a one-element list, giving its element. */
  lemma {:induction false} SinglePlaceholder(frames: seq<Option<map<ClassTag, Converter>>>, items: seq<Wrapped>, eval: Eval, host: Host)
    ensures |items| == 1 ==> Single(frames, ListV(items), PlaceholderV, eval, host) == Ok(items[0])
    ensures |items| == 0 ==> Single(frames, ListV(items), PlaceholderV, eval, host) == Err(NoMatchingElement)
    ensures |items| >= 2 ==> Single(frames, ListV(items), PlaceholderV, eval, host) == Err(MoreThanOneMatch)
  {
    var pf := PredicateFrames(frames);
    assert pf[|pf| - 1] == Some(map[ExprClass := PlaceholderConverter(AlwaysTrue)]);
    assert ExpectExpr(pf, PlaceholderV, host) == Ok(Stub(BoolV(true)));
    var inner := frames + [None];
    var p := Stub(BoolV(true));
    forall k | 0 <= k < |items|
      ensures Test(inner, p, items[k], eval, host) == Ok(true)
    {
    }
    AllTrueMatches(inner, p, items, 0, eval, host);
    SingleFromCounts(inner, p, items, 0, None, eval, host);
  }

  lemma {:induction false} AllTrueMatches(frames: seq<Option<map<ClassTag, Converter>>>, pred: Expr, items: seq<Wrapped>,
                                          from: nat, eval: Eval, host: Host)
    requires from <= |items|
    requires forall k :: from <= k < |items| ==> Test(frames, pred, items[k], eval, host) == Ok(true)
    ensures |MatchesFrom(frames, pred, items, from, eval, host)| == |items| - from
    ensures from < |items| ==> MatchesFrom(frames, pred, items, from, eval, host)[0] == from
    decreases |items| - from
  {
    if from < |items| {
      AllTrueMatches(frames, pred, items, from + 1, eval, host);
    }
  }

  /** The predicate argument converted inside a scope that holds the placeholder converter. */
  method ConvertPredicate(env: Environment, pred: Wrapped, host: Host) returns (p: Result<Expr, Error>)
    requires env.Valid()
    modifies env
    ensures env.Valid()
    ensures env.methods == old(env.methods) && env.variables == old(env.variables) && env.converters == old(env.converters)
    ensures p == ExpectExpr(PredicateFrames(old(env.converters)), pred, host)
  {
    env.PushScope();
    var added := env.AddConverter(PlaceholderConverter(AlwaysTrue));
    assert added == Completed;
    assert env.converters == PredicateFrames(old(env.converters));
    p := ExpectExpr(env.converters, pred, host);
    var popped := env.PopScope();
    assert popped == Completed;
  }

  /** One item tested inside a scope of its own. */
  method TestInScope(env: Environment, p: Expr, item: Wrapped, eval: Eval, host: Host) returns (t: Result<bool, Error>)
    requires env.Valid()
    modifies env
    ensures env.Valid()
    ensures env.methods == old(env.methods) && env.variables == old(env.variables) && env.converters == old(env.converters)
    ensures t == Test(old(env.converters) + [None], p, item, eval, host)
  {
    env.PushScope();
    t := Test(env.converters, p, item, eval, host);
    var popped := env.PopScope();
    assert popped == Completed;
  }

  /** One step of `single`: the test of the next item decides how the scan goes on. */
  lemma SingleFromStep(frames: seq<Option<map<ClassTag, Converter>>>, p: Expr, items: seq<Wrapped>, i: nat,
                       found: Option<Wrapped>, t: Result<bool, Error>, eval: Eval, host: Host)
    requires i < |items| && t == Test(frames, p, items[i], eval, host)
    ensures t.Err? ==> SingleFrom(frames, p, items, i, found, eval, host) == Err(t.error)
    ensures t == Ok(true) && found.Some? ==> SingleFrom(frames, p, items, i, found, eval, host) == Err(MoreThanOneMatch)
    ensures t == Ok(true) && found.None? ==>
              SingleFrom(frames, p, items, i, found, eval, host) == SingleFrom(frames, p, items, i + 1, Some(items[i]), eval, host)
    ensures t == Ok(false) ==> SingleFrom(frames, p, items, i, found, eval, host) == SingleFrom(frames, p, items, i + 1, found, eval, host)
  {
  }

  /** Kotlin's `single { }` over the items, each test run in a scope of its own. */
  method SelectSingle(env: Environment, p: Expr, items: seq<Wrapped>, eval: Eval, host: Host) returns (r: Result<Wrapped, Error>)
    requires env.Valid()
    modifies env
    ensures env.Valid()
    ensures env.methods == old(env.methods) && env.variables == old(env.variables) && env.converters == old(env.converters)
    ensures r == SingleFrom(old(env.converters) + [None], p, items, 0, None, eval, host)
  {
    ghost var frames := env.converters;
    var found: Option<Wrapped> := None;
    var i := 0;
    while i < |items|
      invariant 0 <= i <= |items|
      invariant env.Valid()
      invariant env.methods == old(env.methods) && env.variables == old(env.variables) && env.converters == frames
      invariant SingleFrom(frames + [None], p, items, 0, None, eval, host) == SingleFrom(frames + [None], p, items, i, found, eval, host)
      decreases |items| - i
    {
      var t := TestInScope(env, p, items[i], eval, host);
      SingleFromStep(frames + [None], p, items, i, found, t, eval, host);
      if t.Err? {
        return Err(t.error);
      }
      if t.value {
        if found.Some? {
          return Err(MoreThanOneMatch);
        }
        found := Some(items[i]);
      }
      i := i + 1;
    }
    r := if found.Some? then Ok(found.value) else Err(NoMatchingElement);
  }

  /**
   * `single` as the interpreter runs it: the predicate is converted inside a
   * scope holding the placeholder converter, and each item is tested inside a
   * scope of its own; the environment is as before afterwards.
   */
  method SingleInvoke(env: Environment, list: Wrapped, pred: Wrapped, eval: Eval, host: Host) returns (r: Result<Wrapped, Error>)
    requires env.Valid()
    modifies env
    ensures env.Valid()
    ensures env.methods == old(env.methods) && env.variables == old(env.variables) && env.converters == old(env.converters)
    ensures r == Single(old(env.converters), list, pred, eval, host)
  {
    var listed := ExpectList(env.converters, list, host);
    if listed.Err? {
      return Err(listed.error);
    }
    var p := ConvertPredicate(env, pred, host);
    if p.Err? {
      return Err(p.error);
    }
    r := SelectSingle(env, p.value, listed.value, eval, host);
  }

  // ------------------------------------------------------------- index-of

  /** Kotlin's `indexOfFirst { item != null && test(item) }` over `items[from..]`. */
  function IndexOfFirstFrom(frames: seq<Option<map<ClassTag, Converter>>>, pred: Expr, items: seq<Wrapped>, from: nat,
                            eval: Eval, host: Host): (r: Result<int, Error>)
    requires from <= |items|
    ensures r.Ok? ==> r.value == -1 || from <= r.value < |items|
    ensures r.Ok? && r.value >= 0 ==> items[r.value] != NullV && Test(frames, pred, items[r.value], eval, host) == Ok(true)
    ensures r.Ok? ==> forall k :: from <= k < |items| && (r.value == -1 || k < r.value) ==>
                        items[k] == NullV || Test(frames, pred, items[k], eval, host) == Ok(false)
    ensures r.Err? ==> exists k :: from <= k < |items| && items[k] != NullV && Test(frames, pred, items[k], eval, host) == Err(r.error)
    decreases |items| - from
  {
    if from == |items| then Ok(-1)
    else if items[from] == NullV then IndexOfFirstFrom(frames, pred, items, from + 1, eval, host)
    else match Test(frames, pred, items[from], eval, host)
      case Err(e) => Err(e)
      case Ok(true) => Ok(from)
      case Ok(false) => IndexOfFirstFrom(frames, pred, items, from + 1, eval, host)
  }

  /**
   * `index-of`: with a second argument that converts to an expression, the
   * first non-null item satisfying it; otherwise the first item equal to it.
   * The result always lies in [-1, |list|).
   */
  function IndexOf(frames: seq<Option<map<ClassTag, Converter>>>, list: Wrapped, needle: Wrapped, eval: Eval, host: Host): (r: Result<int, Error>)
    ensures r.Ok? && ExpectList(frames, list, host).Ok? ==> -1 <= r.value < |ExpectList(frames, list, host).value|
    ensures ExpectList(frames, list, host).Err? ==> r == Err(ExpectList(frames, list, host).error)
    ensures ExpectList(frames, list, host).Ok? && TryConvert(frames, needle, ExprClass, host).None? ==>
              r == Ok(Wrappers.IndexOf(ExpectList(frames, list, host).value, needle))
    ensures ExpectList(frames, list, host).Ok? && TryConvert(frames, needle, ExprClass, host).Some?
            && TryConvert(frames, needle, ExprClass, host).value.ExprV? ==>
              r == IndexOfFirstFrom(frames, TryConvert(frames, needle, ExprClass, host).value.e, ExpectList(frames, list, host).value, 0, eval, host)
    ensures ExpectList(frames, list, host).Ok? && TryConvert(frames, needle, ExprClass, host).Some?
            && !TryConvert(frames, needle, ExprClass, host).value.ExprV? ==>
              r == Err(CannotConvert(needle, ExprClass))
  {
    match ExpectList(frames, list, host)
    case Err(e) => Err(e)
    case Ok(items) =>
      match TryConvert(frames, needle, ExprClass, host)
      case Some(ExprV(p)) => IndexOfFirstFrom(frames, p, items, 0, eval, host)
      case Some(other) => Err(CannotConvert(needle, ExprClass))
      case None => Ok(Wrappers.IndexOf(items, needle))
  }

  // ------------------------------------------------------- join-to-string

  const DefaultSeparator: string := ", "

  /** The format evaluated once per item, in order, with `$it` bound; the first failure stops it. */
  function FormatAll(frames: seq<Option<map<ClassTag, Converter>>>, format: Expr, items: seq<Wrapped>, eval: Eval, host: Host): (r: Result<seq<Wrapped>, Error>)
    ensures r.Ok? ==> |r.value| == |items|
    ensures r.Ok? ==> forall k :: 0 <= k < |items| ==>
                        Evaluate(eval, format, items[k]).Ok?
                        && ExpectConvert(frames, Evaluate(eval, format, items[k]).value, AnyClass, host) == Ok(r.value[k])
  {
    if items == [] then Ok([])
    else
      match Evaluate(eval, format, items[0])
      case Err(e) => Err(e)
      case Ok(v) =>
        match ExpectConvert(frames, v, AnyClass, host)
        case Err(e) => Err(e)
        case Ok(w) =>
          match FormatAll(frames, format, items[1..], eval, host)
          case Err(e) => Err(e)
          case Ok(ws) => Ok([w] + ws)
  }

  /** The `separator` option converted to a string, or ", " when it is not given. */
  function Separator(frames: seq<Option<map<ClassTag, Converter>>>, options: map<string, Wrapped>, host: Host): (r: Result<string, Error>)
    ensures "separator" !in options ==> r == Ok(DefaultSeparator)
    ensures "separator" in options && options["separator"].StrV? ==> r == Ok(options["separator"].s)
  {
    if "separator" in options then ExpectString(frames, options["separator"], host) else Ok(DefaultSeparator)
  }

  /**
   * `join-to-string`: the separator option (", " when absent), then the
   * optional format applied to each item, then the texts joined.
   */
  function JoinToString(frames: seq<Option<map<ClassTag, Converter>>>, list: Wrapped, options: map<string, Wrapped>,
                        eval: Eval, host: Host, hostShow: Wrapped -> string): (r: Result<Wrapped, Error>)
    ensures ExpectList(frames, list, host).Err? ==> r == Err(ExpectList(frames, list, host).error)
    ensures ExpectList(frames, list, host).Ok? && Separator(frames, options, host).Err? ==> r == Err(Separator(frames, options, host).error)
    ensures ExpectList(frames, list, host).Ok? && Separator(frames, options, host).Ok? && "format" !in options ==>
              r == Ok(StrV(Text.Join(ShowAll(ExpectList(frames, list, host).value, hostShow), Separator(frames, options, host).value)))
    ensures ExpectList(frames, list, host).Ok? && Separator(frames, options, host).Ok? && "format" in options ==>
              (r.Ok? <==> ExpectExpr(frames, options["format"], host).Ok?
                          && FormatAll(frames, ExpectExpr(frames, options["format"], host).value, ExpectList(frames, list, host).value, eval, host).Ok?)
    ensures ExpectList(frames, list, host).Ok? && Separator(frames, options, host).Ok? && "format" in options && r.Ok? ==>
              r == Ok(StrV(Text.Join(ShowAll(FormatAll(frames, ExpectExpr(frames, options["format"], host).value,
                                                       ExpectList(frames, list, host).value, eval, host).value, hostShow),
                                     Separator(frames, options, host).value)))
    ensures ExpectList(frames, list, host).Ok? && Separator(frames, options, host).Ok? && "format" in options
            && ExpectExpr(frames, options["format"], host).Err? ==>
              r == Err(ExpectExpr(frames, options["format"], host).error)
    ensures ExpectList(frames, list, host).Ok? && Separator(frames, options, host).Ok? && "format" in options
            && ExpectExpr(frames, options["format"], host).Ok?
            && FormatAll(frames, ExpectExpr(frames, options["format"], host).value, ExpectList(frames, list, host).value, eval, host).Err? ==>
              r == Err(FormatAll(frames, ExpectExpr(frames, options["format"], host).value, ExpectList(frames, list, host).value, eval, host).error)
  {
    match ExpectList(frames, list, host)
    case Err(e) => Err(e)
    case Ok(items) =>
      var sep := Separator(frames, options, host);
      if sep.Err? then Err(sep.error)
      else
        if "format" in options then
          match ExpectExpr(frames, options["format"], host)
          case Err(e) => Err(e)
          case Ok(f) =>
            match FormatAll(frames, f, items, eval, host)
            case Err(e) => Err(e)
            case Ok(ws) => Ok(StrV(Text.Join(ShowAll(ws, hostShow), sep.value)))
        else Ok(StrV(Text.Join(ShowAll(items, hostShow), sep.value)))
  }

  /** An empty list joins to "", and a single item is shown with no separator. */
  lemma {:induction false} JoinToStringShort(frames: seq<Option<map<ClassTag, Converter>>>, items: seq<Wrapped>, sep: string,
                                             eval: Eval, host: Host, hostShow: Wrapped -> string)
    requires |items| <= 1
    ensures JoinToString(frames, ListV(items), map["separator" := StrV(sep)], eval, host, hostShow)
            == Ok(StrV(if items == [] then "" else Show(items[0], hostShow)))
  {
  }

  /** A list of two or more items joins to the first item's text, the separator, and the rest joined. */
  lemma JoinToStringFront(frames: seq<Option<map<ClassTag, Converter>>>, x: Wrapped, rest: seq<Wrapped>, sep: string,
                          eval: Eval, host: Host, hostShow: Wrapped -> string)
    requires rest != []
    ensures var options := map["separator" := StrV(sep)];
            JoinToString(frames, ListV(rest), options, eval, host, hostShow).Ok?
            && JoinToString(frames, ListV(rest), options, eval, host, hostShow).value.StrV?
            && JoinToString(frames, ListV([x] + rest), options, eval, host, hostShow)
               == Ok(StrV(Show(x, hostShow) + sep + JoinToString(frames, ListV(rest), options, eval, host, hostShow).value.s))
  {
    var options := map["separator" := StrV(sep)];
    assert Separator(frames, options, host) == Ok(sep);
    assert ExpectList(frames, ListV(rest), host) == Ok(rest);
    assert ExpectList(frames, ListV([x] + rest), host) == Ok([x] + rest);
    assert ShowAll([x] + rest, hostShow) == [Show(x, hostShow)] + ShowAll(rest, hostShow);
    Text.JoinFront(Show(x, hostShow), ShowAll(rest, hostShow), sep);
  }

  // ------------------------------------------------------------------ max

  /** `max`: both arguments converted to Int, then the larger. */
  function Max(frames: seq<Option<map<ClassTag, Converter>>>, a: Wrapped, b: Wrapped, host: Host): (r: Result<Wrapped, Error>)
    ensures r.Ok? <==> ExpectInt(frames, a, host).Ok? && ExpectInt(frames, b, host).Ok?
    ensures r.Ok? ==> r.value.IntV? && r.value.i >= ExpectInt(frames, a, host).value && r.value.i >= ExpectInt(frames, b, host).value
    ensures r.Ok? ==> r.value.i == ExpectInt(frames, a, host).value || r.value.i == ExpectInt(frames, b, host).value
    ensures ExpectInt(frames, a, host).Err? ==> r == Err(ExpectInt(frames, a, host).error)
    ensures ExpectInt(frames, a, host).Ok? && ExpectInt(frames, b, host).Err? ==> r == Err(ExpectInt(frames, b, host).error)
  {
    match ExpectInt(frames, a, host)
    case Err(e) => Err(e)
    case Ok(x) =>
      match ExpectInt(frames, b, host)
      case Err(e) => Err(e)
      case Ok(y) => Ok(IntV(if x >= y then x else y))
  }

  /** `max` is commutative wherever both arguments convert. */
  lemma MaxCommutative(frames: seq<Option<map<ClassTag, Converter>>>, a: Wrapped, b: Wrapped, host: Host)
    requires ExpectInt(frames, a, host).Ok? && ExpectInt(frames, b, host).Ok?
    ensures Max(frames, a, b, host) == Max(frames, b, a, host)
  {
  }
}
