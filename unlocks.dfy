/**
 * Unlock bookkeeping on the console side: each unlock the player can earn
 * is backed by one flag of the user's settings, and only the ids with a
 * handler ("feedback", "buildings", "discord") can ever be unlocked.
 */
module Unlocks {
  import opened Wrappers

  /** An unlock as the score model describes it: its id and the victory points that earn it. */
  datatype Unlock = Unlock(id: string, vp: int)

  /** Kotlin's `Int.MAX_VALUE`, the default cutoff of `locked`. */
  const IntMaxValue: int := 0x7FFF_FFFF

  /** The ids that have a settings handler. */
  predicate Handled(id: string)
  {
    id == "feedback" || id == "buildings" || id == "discord"
  }

  /** `Settings.Unlocks`: one flag per handled unlock. */
  class UnlockSettings {
    var feedback: bool
    var buildings: bool
    var discord: bool

    constructor (feedback: bool, buildings: bool, discord: bool)
      ensures this.feedback == feedback && this.buildings == buildings && this.discord == discord
    {
      this.feedback := feedback;
      this.buildings := buildings;
      this.discord := discord;
    }

    /** The handler's `get` for `id`, or nothing when `id` has no handler. */
    function Flag(id: string): (r: Option<bool>)
      reads this
      ensures r.Some? <==> Handled(id)
    {
      if id == "feedback" then Some(feedback)
      else if id == "buildings" then Some(buildings)
      else if id == "discord" then Some(discord)
      else None
    }

    /** `isUnlocked`: the flag of a handled id; an id without a handler is never unlocked. */
    predicate IsUnlocked(u: Unlock)
      reads this
    {
      Flag(u.id) == Some(true)
    }

    lemma UnhandledIsLocked(u: Unlock)
      requires !Handled(u.id)
      ensures !IsUnlocked(u)
    {
    }

    /**
     * `unlock`: true exactly when the id has a handler whose flag was false,
     * and then only that flag becomes true; otherwise nothing changes.
     */
    method Unlock(u: Unlock) returns (changed: bool)
      modifies this
      ensures changed <==> old(Flag(u.id)) == Some(false)
      ensures changed ==> Flag(u.id) == Some(true)
      ensures forall id :: id != u.id ==> Flag(id) == old(Flag(id))
      ensures !changed ==> unchanged(this)
      ensures IsUnlocked(u) <==> Handled(u.id)
    {
      changed := false;
      if u.id == "feedback" {
        if !feedback { feedback := true; changed := true; }
      } else if u.id == "buildings" {
        if !buildings { buildings := true; changed := true; }
      } else if u.id == "discord" {
        if !discord { discord := true; changed := true; }
      }
    }

    /**
     * Unlocking twice: the first call may or may not change a flag, the
     * second returns false and changes nothing.
     */
    method UnlockTwice(u: Unlock) returns (first: bool, second: bool)
      modifies this
      ensures !second
      ensures first <==> old(Flag(u.id)) == Some(false)
    {
      first := Unlock(u);
      second := Unlock(u);
    }

    /** `locked(vpCutoff)`: the unlocks not yet unlocked that cost at most the cutoff, in their order. */
    function Locked(unlocks: seq<Unlock>, vpCutoff: int): (r: seq<Unlock>)
      reads this
      ensures |r| <= |unlocks|
      ensures forall x :: x in r <==> x in unlocks && !IsUnlocked(x) && x.vp <= vpCutoff
    {
      if unlocks == [] then []
      else
        var rest := Locked(unlocks[1..], vpCutoff);
        assert forall x :: x in unlocks <==> x == unlocks[0] || x in unlocks[1..];
        if !IsUnlocked(unlocks[0]) && unlocks[0].vp <= vpCutoff then [unlocks[0]] + rest else rest
    }

    /** Filtering keeps order: the locked unlocks of a concatenation are those of each part, one after the other. */
    lemma {:induction false} LockedConcat(a: seq<Unlock>, b: seq<Unlock>, vpCutoff: int)
      ensures Locked(a + b, vpCutoff) == Locked(a, vpCutoff) + Locked(b, vpCutoff)
    {
      if a == [] {
        assert a + b == b;
      } else {
        assert (a + b)[1..] == a[1..] + b;
        LockedConcat(a[1..], b, vpCutoff);
      }
    }

    /** Under the default cutoff, every unlock whose points fit in a Kotlin `Int` is listed exactly when it is still locked. */
    lemma LockedDefaultCutoff(unlocks: seq<Unlock>)
      requires forall k :: 0 <= k < |unlocks| ==> unlocks[k].vp <= IntMaxValue
      ensures forall k :: 0 <= k < |unlocks| ==> (unlocks[k] in Locked(unlocks, IntMaxValue) <==> !IsUnlocked(unlocks[k]))
    {
    }

    /** Once unlocked, an unlock is in no `locked` list, whatever the cutoff. */
    lemma UnlockedNotLocked(unlocks: seq<Unlock>, vpCutoff: int, u: Unlock)
      requires IsUnlocked(u)
      ensures u !in Locked(unlocks, vpCutoff)
    {
    }
  }
}
