/**
 * The lexical environment of the limp interpreter: three parallel stacks of
 * frames, one each for methods, variables and converters.  A frame is created
 * lazily, so an empty frame is `None` until something is stored into it.  The
 * bottom frame is the ground frame and is never popped.
 */
module LimpEnvironment {
  import opened Wrappers
  import opened LimpValues

  /** A frame holds bindings only once something was stored into it. */
  predicate Has<K, V>(frame: Option<map<K, V>>, k: K)
  {
    frame.Some? && k in frame.value
  }

  /** The map a frame stands for: an absent frame is an empty map. */
  function Contents<K, V>(frame: Option<map<K, V>>): map<K, V>
  {
    if frame.Some? then frame.value else map[]
  }

  /**
   * The binding of `k` in the innermost frame that has one (the reversed scan
   * of `getMethod`/`loadValue`), or `None` when no frame does.
   */
  function Lookup<K, V>(frames: seq<Option<map<K, V>>>, k: K): (r: Option<V>)
    ensures r.None? <==> forall i :: 0 <= i < |frames| ==> !Has(frames[i], k)
    ensures r.Some? ==> exists i :: 0 <= i < |frames| && Has(frames[i], k) && frames[i].value[k] == r.value
                                   && forall j :: i < j < |frames| ==> !Has(frames[j], k)
    decreases |frames|
  {
    if frames == [] then None
    else if Has(frames[|frames| - 1], k) then Some(frames[|frames| - 1].value[k])
    else Lookup(frames[..|frames| - 1], k)
  }

  /** `n` frames pushed and not yet written to. */
  function EmptyFrames<K, V>(n: nat): (r: seq<Option<map<K, V>>>)
    ensures |r| == n
  {
    if n == 0 then [] else EmptyFrames(n - 1) + [None]
  }

  /** Frames pushed on top and still empty hide nothing. */
  lemma {:induction false} LookupPastEmptyFrames<K, V>(frames: seq<Option<map<K, V>>>, n: nat, k: K)
    ensures Lookup(frames + EmptyFrames(n), k) == Lookup(frames, k)
    decreases n
  {
    if n == 0 {
      assert frames + EmptyFrames(n) == frames;
    } else {
      var longer := frames + EmptyFrames(n);
      assert longer == (frames + EmptyFrames(n - 1)) + [None];
      assert longer[..|longer| - 1] == frames + EmptyFrames(n - 1);
      LookupPastEmptyFrames(frames, n - 1, k);
    }
  }

  /** A binding in the top frame shadows every outer binding of the same name. */
  lemma {:induction false} LookupTopBinding<K, V>(below: seq<Option<map<K, V>>>, top: map<K, V>, k: K, v: V)
    ensures Lookup(below + [Some(top[k := v])], k) == Some(v)
  {
  }

  /** Storing one name leaves the lookup of every other name as it was. */
  lemma {:induction false} LookupOtherName<K, V>(below: seq<Option<map<K, V>>>, top: Option<map<K, V>>, k: K, v: V, other: K)
    requires other != k
    ensures Lookup(below + [Some(Contents(top)[k := v])], other) == Lookup(below + [top], other)
  {
    var after := below + [Some(Contents(top)[k := v])];
    var before := below + [top];
    assert after[..|after| - 1] == below;
    assert before[..|before| - 1] == below;
  }

  /**
   * The conversion of `v` to `toClass` through the converter frames: the
   * innermost frame holding a converter for `toClass` whose result is not
   * `None` decides; frames whose converter gives `None` are passed over.
   */
  function ConvertThrough(frames: seq<Option<map<ClassTag, Converter>>>, toClass: ClassTag, v: Wrapped,
                          host: (Converter, Wrapped) -> Option<Wrapped>): (r: Option<Wrapped>)
    ensures r.None? <==> forall i :: 0 <= i < |frames| && Has(frames[i], toClass) ==>
                                       ApplyConverter(frames[i].value[toClass], v, host).None?
    ensures r.Some? ==> exists i :: 0 <= i < |frames| && Has(frames[i], toClass)
                                   && ApplyConverter(frames[i].value[toClass], v, host) == r
                                   && forall j :: i < j < |frames| && Has(frames[j], toClass) ==>
                                                    ApplyConverter(frames[j].value[toClass], v, host).None?
    decreases |frames|
  {
    if frames == [] then None
    else
      var top := frames[|frames| - 1];
      var here := if Has(top, toClass) then ApplyConverter(top.value[toClass], v, host) else None;
      if here.Some? then here else ConvertThrough(frames[..|frames| - 1], toClass, v, host)
  }

  /**
   * `tryConvert`: a value that already is an instance of the target class is
   * returned unchanged without consulting any converter.
   */
  function TryConvert(frames: seq<Option<map<ClassTag, Converter>>>, v: Wrapped, toClass: ClassTag,
                      host: (Converter, Wrapped) -> Option<Wrapped>): (r: Option<Wrapped>)
    ensures IsInstance(v, toClass) ==> r == Some(v)
    ensures !IsInstance(v, toClass) ==> r == ConvertThrough(frames, toClass, v, host)
  {
    if IsInstance(v, toClass) then Some(v) else ConvertThrough(frames, toClass, v, host)
  }

  /** `expectConvert`: fails exactly where `tryConvert` gives `None`. */
  function ExpectConvert(frames: seq<Option<map<ClassTag, Converter>>>, v: Wrapped, toClass: ClassTag,
                         host: (Converter, Wrapped) -> Option<Wrapped>): (r: Result<Wrapped, Error>)
    ensures r.Ok? <==> TryConvert(frames, v, toClass, host).Some?
    ensures r.Ok? ==> r.value == TryConvert(frames, v, toClass, host).value
    ensures r.Err? ==> r.error == CannotConvert(v, toClass)
  {
    var t := TryConvert(frames, v, toClass, host);
    if t.Some? then Ok(t.value) else Err(CannotConvert(v, toClass))
  }

  /** An empty converter frame on top changes no conversion. */
  lemma {:induction false} ConvertPastEmptyFrame(frames: seq<Option<map<ClassTag, Converter>>>, toClass: ClassTag, v: Wrapped,
                                                 host: (Converter, Wrapped) -> Option<Wrapped>)
    ensures ConvertThrough(frames + [None], toClass, v, host) == ConvertThrough(frames, toClass, v, host)
  {
    var longer := frames + [None];
    assert longer[..|longer| - 1] == frames;
  }

  /** A statement of a block run inside `scoped`; `Nested` is a block with a `scoped` of its own. */
  datatype Op =
    | Store(name: string, value: Wrapped)
    | Define(definition: Method)
    | Register(registered: Converter)
    | Raise(message: string)
    | Nested(body: seq<Op>)

  /** The outcome of a block: it completed, or it threw. */
  datatype Outcome = Completed | Threw(error: Error)

  class Environment {
    var methods: seq<Option<map<string, Method>>>
    var variables: seq<Option<map<string, Wrapped>>>
    var converters: seq<Option<map<ClassTag, Converter>>>

    /** The three stacks move together and the ground frame is always there. */
    ghost predicate Valid()
      reads this
    {
      |methods| == |variables| == |converters| >= 1
    }

    function Depth(): nat
      reads this
    {
      |methods|
    }

    /** Every stack starts with one empty ground frame. */
    constructor ()
      ensures Valid() && Depth() == 1
      ensures methods == [None] && variables == [None] && converters == [None]
    {
      methods := [None];
      variables := [None];
      converters := [None];
    }

    /** Each stack gains one empty frame. */
    method PushScope()
      requires Valid()
      modifies this
      ensures Valid() && Depth() == old(Depth()) + 1
      ensures methods == old(methods) + [None]
      ensures variables == old(variables) + [None]
      ensures converters == old(converters) + [None]
    {
      methods := methods + [None];
      variables := variables + [None];
      converters := converters + [None];
    }

    /** Popping the ground frame is refused; otherwise each stack loses exactly its top frame. */
    method PopScope() returns (r: Outcome)
      requires Valid()
      modifies this
      ensures Valid()
      ensures r == Completed <==> old(Depth()) > 1
      ensures r.Threw? ==> r.error == GroundFrame && unchanged(this)
      ensures r == Completed ==> (methods == old(methods)[..old(Depth()) - 1]
                                  && variables == old(variables)[..old(Depth()) - 1]
                                  && converters == old(converters)[..old(Depth()) - 1])
    {
      if |methods| <= 1 {
        return Threw(GroundFrame);
      }
      methods := methods[..|methods| - 1];
      variables := variables[..|variables| - 1];
      converters := converters[..|converters| - 1];
      r := Completed;
    }

    /**
     * Refused when the top frame already defines the name; a binding of the
     * same name further out does not block it.  On success only the top frame
     * of the method stack changes, gaining the method.
     */
    method AddMethod(m: Method) returns (r: Outcome)
      requires Valid()
      modifies this
      ensures Valid()
      ensures r == Completed <==> !Has(old(methods[|methods| - 1]), m.name)
      ensures r.Threw? ==> r.error == DuplicateMethod(m.name) && unchanged(this)
      ensures r == Completed ==>
        methods == old(methods[..|methods| - 1]) + [Some(Contents(old(methods[|methods| - 1]))[m.name := m])]
      ensures variables == old(variables) && converters == old(converters)
    {
      var top := methods[|methods| - 1];
      if Has(top, m.name) {
        return Threw(DuplicateMethod(m.name));
      }
      methods := methods[..|methods| - 1] + [Some(Contents(top)[m.name := m])];
      r := Completed;
    }

    /** As `AddMethod`, for the variable stack. */
    method StoreValue(name: string, value: Wrapped) returns (r: Outcome)
      requires Valid()
      modifies this
      ensures Valid()
      ensures r == Completed <==> !Has(old(variables[|variables| - 1]), name)
      ensures r.Threw? ==> r.error == DuplicateVariable(name) && unchanged(this)
      ensures r == Completed ==>
        variables == old(variables[..|variables| - 1]) + [Some(Contents(old(variables[|variables| - 1]))[name := value])]
      ensures methods == old(methods) && converters == old(converters)
    {
      var top := variables[|variables| - 1];
      if Has(top, name) {
        return Threw(DuplicateVariable(name));
      }
      variables := variables[..|variables| - 1] + [Some(Contents(top)[name := value])];
      r := Completed;
    }

    /**
     * Refused when the top frame already holds a converter of the same Kotlin
     * class (whatever its target); otherwise the converter is stored in the
     * top frame under its target class, replacing any converter for that target.
     */
    method AddConverter(c: Converter) returns (r: Outcome)
      requires Valid()
      modifies this
      ensures Valid()
      ensures r == Completed <==> NoneOfKind(Contents(old(converters[|converters| - 1])), KindOf(c))
      ensures r.Threw? ==> r.error == DuplicateConverter(KindOf(c)) && unchanged(this)
      ensures r == Completed ==>
        converters == old(converters[..|converters| - 1]) + [Some(Contents(old(converters[|converters| - 1]))[ToClass(c) := c])]
      ensures methods == old(methods) && variables == old(variables)
    {
      var top := Contents(converters[|converters| - 1]);
      if !NoneOfKind(top, KindOf(c)) {
        return Threw(DuplicateConverter(KindOf(c)));
      }
      converters := converters[..|converters| - 1] + [Some(top[ToClass(c) := c])];
      r := Completed;
    }

    function GetMethod(name: string): Option<Method>
      reads this
    {
      Lookup(methods, name)
    }

    function LoadValue(name: string): Option<Wrapped>
      reads this
    {
      Lookup(variables, name)
    }

    /** `expectMethod`: fails exactly where `getMethod` gives `None`. */
    function ExpectMethod(name: string): (r: Result<Method, Error>)
      reads this
      ensures r.Ok? <==> GetMethod(name).Some?
      ensures r.Ok? ==> r.value == GetMethod(name).value
      ensures r.Err? ==> r.error == NoSuchMethod(name)
    {
      var m := GetMethod(name);
      if m.Some? then Ok(m.value) else Err(NoSuchMethod(name))
    }

    /** `expectValue`: fails exactly where `loadValue` gives `None`. */
    function ExpectValue(name: string): (r: Result<Wrapped, Error>)
      reads this
      ensures r.Ok? <==> LoadValue(name).Some?
      ensures r.Ok? ==> r.value == LoadValue(name).value
      ensures r.Err? ==> r.error == NoSuchVariable(name)
    {
      var v := LoadValue(name);
      if v.Some? then Ok(v.value) else Err(NoSuchVariable(name))
    }

    /** Runs the statements in order, stopping at the first one that throws. */
    method RunBlock(ops: seq<Op>) returns (r: Outcome)
      requires Valid()
      modifies this
      ensures Valid() && Depth() == old(Depth())
      ensures methods[..Depth() - 1] == old(methods[..Depth() - 1])
      ensures variables[..Depth() - 1] == old(variables[..Depth() - 1])
      ensures converters[..Depth() - 1] == old(converters[..Depth() - 1])
      decreases ops, 0
    {
      var i := 0;
      r := Completed;
      while i < |ops|
        invariant 0 <= i <= |ops|
        invariant Valid() && Depth() == old(Depth())
        invariant methods[..Depth() - 1] == old(methods[..Depth() - 1])
        invariant variables[..Depth() - 1] == old(variables[..Depth() - 1])
        invariant converters[..Depth() - 1] == old(converters[..Depth() - 1])
      {
        match ops[i] {
          case Store(name, value) =>
            r := StoreValue(name, value);
          case Define(m) =>
            r := AddMethod(m);
          case Register(c) =>
            r := AddConverter(c);
          case Raise(message) =>
            r := Threw(Raised(message));
          case Nested(body) =>
            r := Scoped(body);
        }
        if r.Threw? {
          return;
        }
        i := i + 1;
      }
    }

    /**
     * `scoped`: runs the block in a fresh frame and pops that frame again
     * whether the block completes or throws, so every binding made inside is
     * gone afterwards and the stacks are exactly as before.
     */
    method Scoped(body: seq<Op>) returns (r: Outcome)
      requires Valid()
      modifies this
      ensures Valid()
      ensures methods == old(methods) && variables == old(variables) && converters == old(converters)
      decreases body, 1
    {
      PushScope();
      r := RunBlock(body);
      var popped := PopScope();
      assert popped == Completed;
    }
  }
}
