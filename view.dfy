/**
 * What every console view shares: the ENTER rule for the command under the
 * cursor, the name a crash report is filed under, and the lazily rebuilt
 * list of commands.
 */
module Views {
  import opened Wrappers
  import opened Text

  /** The command types the views distinguish. */
  datatype CommandType = Normal | Warning | Disabled | Hidden | Blocked

  /** ENTER runs a command unless it is disabled, hidden or blocked. */
  predicate RunsOnEnter(t: CommandType)
  {
    t != Disabled && t != Hidden && t != Blocked
  }

  /** ENTER counts as handled unless the command is disabled or hidden: a blocked command swallows it. */
  predicate HandlesEnter(t: CommandType)
  {
    t != Disabled && t != Hidden
  }

  /** The command rule in full: only a blocked command is handled without running. */
  lemma EnterRule(t: CommandType)
    ensures RunsOnEnter(t) ==> HandlesEnter(t)
    ensures HandlesEnter(t) && !RunsOnEnter(t) <==> t == Blocked
    ensures !HandlesEnter(t) <==> t == Disabled || t == Hidden
  {
  }

  /** How running a command ended: it returned, or it threw an exception with an optional message. */
  datatype InvokeOutcome = Returned | Threw(message: Option<string>, className: string)

  /** The line `runUnsafeCode` logs for an exception. */
  function ErrorLine(message: Option<string>, className: string): (line: string)
    ensures message.Some? ==> line == message.value
  {
    if message.Some? then message.value else "Code threw exception without a message: " + className
  }

  /** A menu command: its title, its type, and how many times it has been run. */
  class MenuCommand {
    const title: string
    const commandType: CommandType
    var invocations: nat

    constructor (title: string, commandType: CommandType)
      ensures this.title == title && this.commandType == commandType && invocations == 0
    {
      this.title := title;
      this.commandType := commandType;
      invocations := 0;
    }

    method Invoke()
      modifies this`invocations
      ensures invocations == old(invocations) + 1
    {
      invocations := invocations + 1;
    }
  }

  /**
   * `handleKey(ENTER)`: a runnable command is run exactly once, inside
   * `runUnsafeCode`, so an exception is logged instead of escaping and the
   * key still counts as handled.  `outcome` is how the command's own code ends.
   */
  method HandleEnter(cmd: MenuCommand, outcome: InvokeOutcome) returns (handled: bool, logged: Option<string>)
    modifies cmd`invocations
    ensures handled == HandlesEnter(cmd.commandType)
    ensures cmd.invocations == old(cmd.invocations) + (if RunsOnEnter(cmd.commandType) then 1 else 0)
    ensures logged == if RunsOnEnter(cmd.commandType) && outcome.Threw? then Some(ErrorLine(outcome.message, outcome.className))
                      else None
  {
    logged := None;
    if RunsOnEnter(cmd.commandType) {
      cmd.Invoke();
      if outcome.Threw? {
        logged := Some(ErrorLine(outcome.message, outcome.className));
      }
      handled := true;
    } else {
      handled := cmd.commandType == Blocked;
    }
  }

  // ---------------------------------------------------------------------------
  // The crash report's command slug

  /** Letters and digits stay, everything else becomes an underscore. */
  function SlugChar(c: char): char
  {
    if IsLetterOrDigit(c) then c else '_'
  }

  function MapSlugChars(s: string): (r: string)
    ensures |r| == |s| && forall i :: 0 <= i < |s| ==> r[i] == SlugChar(s[i])
  {
    if s == [] then [] else [SlugChar(s[0])] + MapSlugChars(s[1..])
  }

  /** `replace(Regex("__+"), "_")`: every run of underscores becomes a single one. */
  function Collapse(s: string): (r: string)
    ensures |r| <= |s|
  {
    if |s| >= 2 && s[0] == '_' && s[1] == '_' then Collapse(s[1..])
    else if s == [] then []
    else [s[0]] + Collapse(s[1..])
  }

  /** `trim('_')` at the front. */
  function TrimStart(s: string): (r: string)
    ensures |r| <= |s| && r == s[|s| - |r|..]
    ensures r == [] || r[0] != '_'
  {
    if s != [] && s[0] == '_' then TrimStart(s[1..]) else s
  }

  /** `trim('_')` at the back. */
  function TrimEnd(s: string): (r: string)
    ensures |r| <= |s| && r == s[..|r|]
    ensures r == [] || r[|r| - 1] != '_'
  {
    if s != [] && s[|s| - 1] == '_' then TrimEnd(s[..|s| - 1]) else s
  }

  /** The command part of a crash report's file name. */
  function Slug(title: string): (r: string)
    ensures |r| <= |title|
  {
    LowerStr(TrimEnd(TrimStart(Collapse(MapSlugChars(title)))))
  }

  predicate SlugSafe(c: char)
  {
    ('a' <= c <= 'z') || IsDigit(c) || c == '_'
  }

  predicate NoDoubleUnderscore(s: string)
  {
    forall i :: 0 <= i < |s| - 1 ==> !(s[i] == '_' && s[i + 1] == '_')
  }

  lemma {:induction false} CollapseFacts(s: string)
    ensures NoDoubleUnderscore(Collapse(s))
    ensures forall i :: 0 <= i < |Collapse(s)| ==> Collapse(s)[i] in s
    ensures s != [] ==> Collapse(s) != [] && Collapse(s)[0] == s[0]
    decreases |s|
  {
    if |s| >= 2 && s[0] == '_' && s[1] == '_' {
      CollapseFacts(s[1..]);
      forall i | 0 <= i < |Collapse(s)| ensures Collapse(s)[i] in s {
        assert Collapse(s)[i] in s[1..];
      }
    } else if s != [] {
      CollapseFacts(s[1..]);
      var r := Collapse(s);
      var t := Collapse(s[1..]);
      assert r == [s[0]] + t;
      forall i | 0 <= i < |r| ensures r[i] in s {
        if i > 0 {
          assert r[i] == t[i - 1];
          assert t[i - 1] in s[1..];
        }
      }
      if t != [] && s[0] == '_' {
        assert t[0] == s[1];
      }
    }
  }

  /** The slug has only lowercase letters, digits and underscores. */
  lemma SlugCharacters(title: string)
    ensures forall i :: 0 <= i < |Slug(title)| ==> SlugSafe(Slug(title)[i])
  {
    var m := MapSlugChars(title);
    var c := Collapse(m);
    var t := TrimEnd(TrimStart(c));
    CollapseFacts(m);
    forall i | 0 <= i < |t| ensures IsLetterOrDigit(t[i]) || t[i] == '_' {
      var k := |c| - |TrimStart(c)| + i;
      assert t[i] == c[k];
      assert c[k] in m;
    }
  }

  lemma NoDoubleUnderscoreSlice(s: string, lo: nat, hi: nat)
    requires NoDoubleUnderscore(s) && lo <= hi <= |s|
    ensures NoDoubleUnderscore(s[lo..hi])
  {
    forall i | 0 <= i < hi - lo - 1 ensures !(s[lo..hi][i] == '_' && s[lo..hi][i + 1] == '_') {
      assert s[lo..hi][i] == s[lo + i] && s[lo..hi][i + 1] == s[lo + i + 1];
    }
  }

  /** Lowercasing leaves underscores where they are and makes none. */
  lemma LowerKeepsUnderscores(s: string)
    ensures forall i :: 0 <= i < |s| ==> (LowerStr(s)[i] == '_' <==> s[i] == '_')
  {
    forall i | 0 <= i < |s| ensures LowerStr(s)[i] == '_' <==> s[i] == '_' {
      assert LowerStr(s)[i] == Lower(s[i]);
      assert !IsLetter('_');
    }
  }

  /** Trimming keeps the underscores apart and takes them off both ends. */
  lemma TrimFacts(c: string)
    requires NoDoubleUnderscore(c)
    ensures NoDoubleUnderscore(TrimEnd(TrimStart(c)))
    ensures var t := TrimEnd(TrimStart(c)); t != [] ==> t[0] != '_' && t[|t| - 1] != '_'
  {
    var front := TrimStart(c);
    var t := TrimEnd(front);
    NoDoubleUnderscoreSlice(c, |c| - |front|, |c|);
    NoDoubleUnderscoreSlice(front, 0, |t|);
    if t != [] {
      assert t[0] == front[0];
    }
  }

  lemma LowerFacts(t: string)
    requires NoDoubleUnderscore(t)
    requires t != [] ==> t[0] != '_' && t[|t| - 1] != '_'
    ensures NoDoubleUnderscore(LowerStr(t))
    ensures LowerStr(t) != [] ==> LowerStr(t)[0] != '_' && LowerStr(t)[|t| - 1] != '_'
  {
    LowerKeepsUnderscores(t);
  }

  /** The slug has no two underscores in a row and none at either end. */
  lemma SlugUnderscores(title: string)
    ensures NoDoubleUnderscore(Slug(title))
    ensures Slug(title) != [] ==> Slug(title)[0] != '_' && Slug(title)[|Slug(title)| - 1] != '_'
  {
    var c := Collapse(MapSlugChars(title));
    CollapseFacts(MapSlugChars(title));
    TrimFacts(c);
    LowerFacts(TrimEnd(TrimStart(c)));
  }

  // ---------------------------------------------------------------------------
  // The lazily rebuilt commands

  /** The commands on screen and the cursor over them. */
  datatype CommandsSection = CommandsSection(commands: seq<MenuCommand>, currIndex: int)

  class View {
    var shouldRefreshCommands: bool
    var section: Option<CommandsSection>
    const initialCurrIndex: int

    /** Once built, there is always a section to show. */
    ghost predicate Valid()
      reads this
    {
      !shouldRefreshCommands ==> section.Some?
    }

    constructor (initialCurrIndex: int)
      ensures Valid() && shouldRefreshCommands && section.None? && this.initialCurrIndex == initialCurrIndex
    {
      shouldRefreshCommands := true;
      section := None;
      this.initialCurrIndex := initialCurrIndex;
    }

    /** `refreshCommands`: only marks the commands stale; they are rebuilt on the next access. */
    method RefreshCommands()
      modifies this`shouldRefreshCommands
      ensures shouldRefreshCommands
    {
      shouldRefreshCommands := true;
    }

    /**
     * The `commandsSection` getter.  `created` is what `createCommands` gives
     * now and `cursor` is `refreshCursorPosition`; the first build starts at
     * the initial index, a rebuild at the position `cursor` picks from the old
     * one, and an access with fresh commands changes nothing.
     */
    method Commands(created: seq<MenuCommand>, cursor: int -> int) returns (cs: CommandsSection)
      requires Valid()
      modifies this`shouldRefreshCommands, this`section
      ensures Valid() && !shouldRefreshCommands && section == Some(cs)
      ensures old(shouldRefreshCommands) ==>
                cs == CommandsSection(created, if old(section).Some? then cursor(old(section).value.currIndex) else initialCurrIndex)
      ensures !old(shouldRefreshCommands) ==> section == old(section)
    {
      if shouldRefreshCommands {
        shouldRefreshCommands := false;
        match section
        case Some(old_cs) => section := Some(CommandsSection(created, cursor(old_cs.currIndex)));
        case None => section := Some(CommandsSection(created, initialCurrIndex));
      }
      cs := section.value;
    }
  }
}
