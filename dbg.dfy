/**
 * The script method `dbg value --msg text`: it logs the value, with an
 * optional message in front, and passes the value through unchanged so it
 * can sit in the middle of an expression.  The log line is returned; the
 * game service that prints it is not part of this model.
 */
module DbgMethods {
  import opened Wrappers
  import opened LimpValues
  import opened LimpMethods
  import Text

  /** The line `dbg` logs for a value shown as `shown`. */
  function DbgLine(message: Option<string>, shown: string): (line: string)
    ensures |line| >= 6 && line[..6] == "[DBG] "
    ensures |line| >= |shown| && line[|line| - |shown|..] == shown
  {
    var middle := if message.Some? && !Text.IsBlank(message.value) then message.value + ": " else "";
    assert ("[DBG] " + middle + shown)[|"[DBG] " + middle|..] == shown;
    "[DBG] " + middle + shown
  }

  /** A message that is not blank is set off from the value by ": "; a missing or blank one adds nothing. */
  lemma DbgLineMessage(message: Option<string>, shown: string)
    ensures message.Some? && !Text.IsBlank(message.value) ==> DbgLine(message, shown) == "[DBG] " + message.value + ": " + shown
    ensures (message.None? || Text.IsBlank(message.value)) ==> DbgLine(message, shown) == "[DBG] " + shown
  {
  }

  /** What one call gives back: the value it passes through and the line it logged. */
  datatype Logged = Logged(result: Wrapped, line: string)

  /** `DbgMethod.invoke`: the `msg` option must convert to a string; the value is shown with `toString`. */
  function Dbg(frames: seq<Option<map<ClassTag, Converter>>>, value: Wrapped, options: map<string, Wrapped>,
               host: Host, hostShow: Wrapped -> string): (r: Result<Logged, Error>)
    ensures r.Ok? ==> r.value.result == value
    ensures r.Ok? ==> |r.value.line| >= 6 && r.value.line[..6] == "[DBG] "
    ensures r.Err? <==> "msg" in options && ExpectString(frames, options["msg"], host).Err?
  {
    if "msg" in options then
      match ExpectString(frames, options["msg"], host)
      case Err(e) => Err(e)
      case Ok(m) => Ok(Logged(value, DbgLine(Some(m), Show(value, hostShow))))
    else Ok(Logged(value, DbgLine(None, Show(value, hostShow))))
  }

  /** Without `--msg` the line is the tag followed by the value's text. */
  lemma DbgWithoutMessage(frames: seq<Option<map<ClassTag, Converter>>>, value: Wrapped, options: map<string, Wrapped>,
                          host: Host, hostShow: Wrapped -> string)
    requires "msg" !in options
    ensures Dbg(frames, value, options, host, hostShow) == Ok(Logged(value, "[DBG] " + Show(value, hostShow)))
  {
  }

  /** A string `--msg` that is not blank sits between the tag and the value. */
  lemma DbgWithMessage(frames: seq<Option<map<ClassTag, Converter>>>, value: Wrapped, options: map<string, Wrapped>,
                       host: Host, hostShow: Wrapped -> string)
    requires "msg" in options && options["msg"].StrV? && !Text.IsBlank(options["msg"].s)
    ensures Dbg(frames, value, options, host, hostShow)
            == Ok(Logged(value, "[DBG] " + options["msg"].s + ": " + Show(value, hostShow)))
  {
    DbgLineMessage(Some(options["msg"].s), Show(value, hostShow));
  }
}
