/**
 * The stand-alone converter registry: one converter per target class, and at
 * most one converter of each Kotlin class.
 */
module LimpConverters {
  import opened Wrappers
  import opened LimpValues

  /** The registry after `register`: `None` when it refuses, otherwise the new mapping. */
  function Registered(registered: map<ClassTag, Converter>, c: Converter): (r: Option<map<ClassTag, Converter>>)
    ensures r.None? <==> exists t :: t in registered && KindOf(registered[t]) == KindOf(c)
    ensures r.Some? ==> ToClass(c) in r.value && r.value[ToClass(c)] == c
    ensures r.Some? ==> r.value.Keys == registered.Keys + {ToClass(c)}
    ensures r.Some? ==> forall t :: t in registered && t != ToClass(c) ==> r.value[t] == registered[t]
  {
    if NoneOfKind(registered, KindOf(c)) then Some(registered[ToClass(c) := c]) else None
  }

  /** `convert`: the result of the converter keyed by the target class, `None` when there is none. */
  function Convert(registered: map<ClassTag, Converter>, v: Wrapped, toClass: ClassTag,
                   host: (Converter, Wrapped) -> Option<Wrapped>): (r: Option<Wrapped>)
    ensures toClass !in registered ==> r.None?
    ensures toClass in registered ==> r == ApplyConverter(registered[toClass], v, host)
  {
    if toClass in registered then ApplyConverter(registered[toClass], v, host) else None
  }

  /**
   * Registering a second converter of a Kotlin class already present fails,
   * whatever target either of them has.
   */
  lemma {:induction false} RegisterTwiceFails(registered: map<ClassTag, Converter>, c: Converter, d: Converter)
    requires KindOf(c) == KindOf(d)
    requires Registered(registered, c).Some?
    ensures Registered(Registered(registered, c).value, d).None?
  {
    var after := Registered(registered, c).value;
    assert ToClass(c) in after && KindOf(after[ToClass(c)]) == KindOf(d);
  }

  /**
   * A later converter of another Kotlin class for the same target replaces
   * the earlier one; conversions to other targets are untouched.
   */
  lemma {:induction false} LaterRegistrationReplaces(registered: map<ClassTag, Converter>, c: Converter, v: Wrapped,
                                                     toClass: ClassTag, host: (Converter, Wrapped) -> Option<Wrapped>)
    requires Registered(registered, c).Some?
    ensures Convert(Registered(registered, c).value, v, ToClass(c), host) == ApplyConverter(c, v, host)
    ensures toClass != ToClass(c) ==>
              Convert(Registered(registered, c).value, v, toClass, host) == Convert(registered, v, toClass, host)
  {
  }

  class Converters {
    var registered: map<ClassTag, Converter>

    /** Distinct registered converters are of distinct Kotlin classes. */
    ghost predicate Valid()
      reads this
    {
      forall s, t :: s in registered && t in registered && s != t ==> KindOf(registered[s]) != KindOf(registered[t])
    }

    constructor ()
      ensures Valid() && registered == map[]
    {
      registered := map[];
    }

    /** `register`: refused when a converter of the same Kotlin class is registered. */
    method Register(c: Converter) returns (ok: bool)
      requires Valid()
      modifies this
      ensures Valid()
      ensures ok <==> Registered(old(registered), c).Some?
      ensures registered == if ok then Registered(old(registered), c).value else old(registered)
    {
      var next := Registered(registered, c);
      if next.None? {
        return false;
      }
      registered := next.value;
      ok := true;
    }
  }
}
