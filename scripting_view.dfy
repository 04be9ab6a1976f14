/**
 * The admin script editor: as the player types, it works out the text that
 * would close every open string and parenthesis; on ENTER it evaluates the
 * input with that text appended and keeps a bounded list of what was run.
 * The view owns two environment scopes while it is open.
 */
module ScriptingViews {
  import opened Wrappers
  import opened LimpValues
  import LimpEnvironment
  import opened Views

  /** The scan's variables: parens opened minus parens closed outside strings, and whether a string is open. */
  datatype ScanState = ScanState(openedParens: int, inString: bool)

  const Start: ScanState := ScanState(0, false)

  /**
   * The `while` loop of `doHandleInputChanged`, run on `s` from `st`: parens
   * count only outside strings, a quote toggles the string, and a backslash
   * swallows the character after it (or nothing, at the end).
   */
  function Run(st: ScanState, s: string): ScanState
    decreases |s|
  {
    if s == [] then st
    else if s[0] == '\\' then (if |s| >= 2 then Run(st, s[2..]) else st)
    else Run(Step(st, s[0]), s[1..])
  }

  /** One character other than a backslash. */
  function Step(st: ScanState, c: char): ScanState
  {
    if c == '(' then (if st.inString then st else st.(openedParens := st.openedParens + 1))
    else if c == ')' then (if st.inString then st else st.(openedParens := st.openedParens - 1))
    else if c == '"' then st.(inString := !st.inString)
    else st
  }

  /** The input ends on a backslash the scan had nothing left to swallow for. */
  predicate Dangling(s: string)
    decreases |s|
  {
    if s == [] then false
    else if s[0] == '\\' then |s| == 1 || Dangling(s[2..])
    else Dangling(s[1..])
  }

  function Repeat(c: char, n: nat): (r: string)
    ensures |r| == n && forall i :: 0 <= i < n ==> r[i] == c
  {
    if n == 0 then [] else [c] + Repeat(c, n - 1)
  }

  /** `inputSuffix`: a quote when a string is open, then one `)` per paren left open. */
  function Suffix(st: ScanState): string
  {
    (if st.inString then "\"" else "") + Repeat(')', if st.openedParens > 0 then st.openedParens else 0)
  }

  /** The suffix holds only closers: at most one quote, then one `)` per paren left open. */
  function AutoClose(input: string): (r: string)
    ensures forall i :: 0 <= i < |r| ==> r[i] == '"' || r[i] == ')'
    ensures |r| == (if Run(Start, input).inString then 1 else 0) + (if Run(Start, input).openedParens > 0 then Run(Start, input).openedParens else 0)
  {
    Suffix(Run(Start, input))
  }

  /** The suffix starts with a quote exactly when the input ends inside a string. */
  lemma SuffixQuoteIffInString(input: string)
    ensures var r := AutoClose(input); (|r| > 0 && r[0] == '"') <==> Run(Start, input).inString
  {
  }

  /** Balanced parens with every string closed give no suffix at all. */
  lemma BalancedNoSuffix(input: string)
    requires Run(Start, input).openedParens <= 0 && !Run(Start, input).inString
    ensures AutoClose(input) == ""
  {
  }

  /** An escaped character is neither counted nor toggles the string. */
  lemma EscapeSwallows(st: ScanState, c: char, rest: string)
    ensures Run(st, ['\\', c] + rest) == Run(st, rest)
  {
    assert (['\\', c] + rest)[2..] == rest;
  }

  /** The number of times `c` occurs in `s`. */
  function Count(s: string, c: char): nat
  {
    if s == [] then 0 else (if s[0] == c then 1 else 0) + Count(s[1..], c)
  }

  /** Without quotes or backslashes, the scan counts opening minus closing parens and never enters a string. */
  lemma {:induction false} PlainParenCount(st: ScanState, s: string)
    requires !st.inString
    requires forall i :: 0 <= i < |s| ==> s[i] != '"' && s[i] != '\\'
    ensures Run(st, s) == ScanState(st.openedParens + Count(s, '(') - Count(s, ')'), false)
    decreases |s|
  {
    if s != [] {
      PlainParenCount(Step(st, s[0]), s[1..]);
    }
  }

  /** Scanning a concatenation continues from where the first part left off, unless it ends on a dangling backslash. */
  lemma {:induction false} RunConcat(st: ScanState, a: string, b: string)
    requires !Dangling(a)
    ensures Run(st, a + b) == Run(Run(st, a), b)
    decreases |a|
  {
    if a == [] {
      assert a + b == b;
    } else if a[0] == '\\' {
      assert (a + b)[2..] == a[2..] + b;
      RunConcat(st, a[2..], b);
    } else {
      assert (a + b)[1..] == a[1..] + b;
      RunConcat(Step(st, a[0]), a[1..], b);
    }
  }

  lemma {:induction false} RunClosing(n: nat, st: ScanState)
    requires !st.inString
    ensures Run(st, Repeat(')', n)) == ScanState(st.openedParens - n, false)
    decreases n
  {
    if n > 0 {
      assert Repeat(')', n)[1..] == Repeat(')', n - 1);
      RunClosing(n - 1, Step(st, ')'));
    }
  }

  /**
   * Appending the suffix closes what the input left open: the string is no
   * longer open and no paren is left open, as long as the input does not end
   * on a dangling backslash.
   */
  lemma SuffixCloses(input: string)
    requires !Dangling(input)
    ensures !Run(Start, input + AutoClose(input)).inString
    ensures Run(Start, input + AutoClose(input)).openedParens <= 0
  {
    var st := Run(Start, input);
    RunConcat(Start, input, AutoClose(input));
    var quote := if st.inString then "\"" else "";
    var n := if st.openedParens > 0 then st.openedParens else 0;
    assert !Dangling(quote);
    RunConcat(st, quote, Repeat(')', n));
    var afterQuote := Run(st, quote);
    assert !afterQuote.inString && afterQuote.openedParens == st.openedParens;
    RunClosing(n, afterQuote);
  }

  /** A dangling backslash swallows the closing quote: the input `"\` is still inside a string after its suffix. */
  lemma DanglingSwallowsQuote()
    ensures Run(Start, "\"\\").inString && AutoClose("\"\\") == "\""
    ensures Run(Start, "\"\\" + AutoClose("\"\\")).inString
  {
    assert "\"\\"[1..] == "\\";
    assert Run(Start, "\"\\") == ScanState(0, true);
    assert AutoClose("\"\\") == "\"" + Repeat(')', 0);
    var both := "\"\\" + "\"";
    assert both[0] == '"' && both[1..] == "\\\"" && both[1..][2..] == "";
    assert Run(ScanState(0, true), both[1..]) == ScanState(0, true);
    assert Run(Start, both) == Run(ScanState(0, true), both[1..]);
  }

  /** The last `n` entries of `s`, or all of them when there are fewer. */
  function KeepLast(s: seq<string>, n: nat): (r: seq<string>)
    ensures |r| == if |s| <= n then |s| else n
    ensures r == s[|s| - |r|..]
  {
    if |s| <= n then s else s[|s| - n..]
  }

  /** An editor command is disabled while the editor has the focus or its own condition holds, a warning otherwise. */
  function ScriptingCommandType(inEditingMode: bool, isDisabled: bool): (t: CommandType)
    ensures t == Disabled || t == Warning
    ensures t == Disabled <==> inEditingMode || isDisabled
  {
    if inEditingMode || isDisabled then Disabled else Warning
  }

  /** The keys the editor reacts to; every other key is `OtherKey`. */
  datatype EditorKey = Tab | Up | Down | OtherKey

  class ScriptingView {
    var inEditingMode: bool
    var inputSuffix: string
    var previousActions: seq<string>
    var lastResultLog: Option<string>
    /** The environment of the game context, shared with the rest of the console. */
    const env: LimpEnvironment.Environment
    /** `Constants.PAGE_SIZE`. */
    const pageSize: nat

    ghost predicate Valid()
      reads this
    {
      |previousActions| <= pageSize
    }

    /** `onEnteringView`: one scope for the editor's own methods and one for the user's. */
    constructor (env: LimpEnvironment.Environment, pageSize: nat)
      requires env.Valid()
      modifies env
      ensures Valid() && this.env == env && this.pageSize == pageSize
      ensures env.Valid() && env.Depth() == old(env.Depth()) + 2
      ensures env.methods == old(env.methods) + [None, None]
      ensures env.variables == old(env.variables) + [None, None]
      ensures env.converters == old(env.converters) + [None, None]
      ensures inEditingMode && inputSuffix == "" && previousActions == [] && lastResultLog == None
    {
      this.env := env;
      this.pageSize := pageSize;
      inEditingMode := true;
      inputSuffix := "";
      previousActions := [];
      lastResultLog := None;
      new;
      env.PushScope();
      env.PushScope();
      assert env.methods == old(env.methods) + [None, None];
      assert env.variables == old(env.variables) + [None, None];
    }

    /**
     * `onEscRequested`: the two scopes of the view are popped again.  With
     * only two frames the second pop fails after the first has happened,
     * and with only the ground frame the first pop fails and nothing changes.
     */
    method OnEscRequested() returns (r: LimpEnvironment.Outcome)
      requires env.Valid()
      modifies env
      ensures env.Valid()
      ensures old(env.Depth()) > 2 ==> r == LimpEnvironment.Completed && env.Depth() == old(env.Depth()) - 2
      ensures old(env.Depth()) > 2 ==>
                env.methods == old(env.methods)[..old(env.Depth()) - 2]
                && env.variables == old(env.variables)[..old(env.Depth()) - 2]
                && env.converters == old(env.converters)[..old(env.Depth()) - 2]
      ensures old(env.Depth()) == 2 ==>
                r.Threw? && env.methods == old(env.methods)[..1]
                && env.variables == old(env.variables)[..1] && env.converters == old(env.converters)[..1]
      ensures old(env.Depth()) == 1 ==>
                r.Threw? && env.methods == old(env.methods) && env.variables == old(env.variables)
                && env.converters == old(env.converters)
    {
      r := env.PopScope();
      if r.Threw? {
        return;
      }
      r := env.PopScope();
    }

    /** "Clear editor": the history is forgotten and the user's scope is replaced by an empty one. */
    method ClearEditor() returns (r: LimpEnvironment.Outcome)
      requires env.Valid()
      modifies this`previousActions, this`lastResultLog, env
      ensures env.Valid() && previousActions == [] && lastResultLog == None
      ensures old(env.Depth()) > 1 ==> r == LimpEnvironment.Completed && env.Depth() == old(env.Depth())
      ensures old(env.Depth()) > 1 ==>
                env.methods == old(env.methods)[..old(env.Depth()) - 1] + [None]
                && env.variables == old(env.variables)[..old(env.Depth()) - 1] + [None]
                && env.converters == old(env.converters)[..old(env.Depth()) - 1] + [None]
      ensures old(env.Depth()) == 1 ==>
                r.Threw? && env.methods == old(env.methods) && env.variables == old(env.variables)
                && env.converters == old(env.converters)
    {
      previousActions := [];
      lastResultLog := None;
      r := env.PopScope();
      if r.Threw? {
        return;
      }
      env.PushScope();
    }

    /** `doHandleInputChanged`: the scan loop, then the suffix it implies. */
    method HandleInputChanged(input: string)
      modifies this`inputSuffix
      ensures inputSuffix == AutoClose(input)
    {
      var openCount := 0;
      var inString := false;
      var i := 0;
      while i < |input|
        invariant 0 <= i <= |input|
        invariant Run(ScanState(openCount, inString), input[i..]) == Run(Start, input)
      {
        var c := input[i];
        assert input[i..][0] == c;
        if c == '\\' {
          if i + 1 < |input| {
            assert input[i..][2..] == input[i + 2..];
            i := i + 2;
          } else {
            i := i + 1;
            assert input[i..] == [];
          }
        } else {
          assert input[i..][1..] == input[i + 1..];
          if c == '(' {
            if !inString { openCount := openCount + 1; }
          } else if c == ')' {
            if !inString { openCount := openCount - 1; }
          } else if c == '"' {
            inString := !inString;
          }
          i := i + 1;
        }
      }
      inputSuffix := (if inString then "\"" else "") + Repeat(')', if openCount > 0 then openCount else 0);
    }

    /** `previousActions.add`, then `removeFirst` while the list is longer than a page. */
    method RecordAction(action: string)
      modifies this`previousActions
      ensures previousActions == KeepLast(old(previousActions) + [action], pageSize)
      ensures Valid()
    {
      previousActions := previousActions + [action];
      ghost var all := previousActions;
      while |previousActions| > pageSize
        invariant |previousActions| <= |all| && previousActions == all[|all| - |previousActions|..]
        invariant |all| <= pageSize ==> previousActions == all
        invariant |all| > pageSize ==> |previousActions| >= pageSize
        decreases |previousActions|
      {
        previousActions := previousActions[1..];
      }
    }

    /**
     * `doHandleInputEntered`: the input is evaluated with the suffix
     * appended.  When the evaluation throws nothing here changes; otherwise
     * the evaluated text is recorded, a non-Unit result is remembered for
     * display, and the suffix is cleared.
     */
    method HandleInputEntered(input: string, eval: string -> Result<Wrapped, Error>, show: Wrapped -> string)
      returns (evaluated: string, r: Result<Wrapped, Error>)
      modifies this`previousActions, this`lastResultLog, this`inputSuffix
      ensures evaluated == input + old(inputSuffix) && r == eval(evaluated)
      ensures r.Err? ==> previousActions == old(previousActions) && lastResultLog == old(lastResultLog)
                         && inputSuffix == old(inputSuffix)
      ensures r.Ok? ==> previousActions == KeepLast(old(previousActions) + [evaluated], pageSize)
                        && lastResultLog == (if r.value == UnitV then None else Some("$last = " + show(r.value)))
                        && inputSuffix == ""
    {
      evaluated := input + inputSuffix;
      r := eval(evaluated);
      if r.Err? {
        return;
      }
      RecordAction(evaluated);
      lastResultLog := None;
      if r.value != UnitV {
        lastResultLog := Some("$last = " + show(r.value));
      }
      inputSuffix := "";
    }

    /** `handleAdditionalKeys`: TAB moves the focus; while editing every key is swallowed. */
    method HandleAdditionalKeys(key: EditorKey) returns (handled: bool)
      modifies this`inEditingMode
      ensures key == Tab ==> handled && inEditingMode == !old(inEditingMode)
      ensures key != Tab ==> handled == old(inEditingMode) && inEditingMode == old(inEditingMode)
    {
      if key == Tab {
        inEditingMode := !inEditingMode;
        return true;
      }
      handled := inEditingMode;
    }
  }
}
