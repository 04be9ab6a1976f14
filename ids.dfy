/**
 * Sources of identity and chance.  `uuid4()` is modelled as a counter that
 * never hands out the same id twice; `Random` as a fixed sequence of draws
 * of which each call consumes the next one.
 */
module Ids {
  type Id = nat

  class Uuids {
    var next: nat

    constructor ()
      ensures next == 0
    {
      next := 0;
    }

    /** A new id, larger than every id handed out before. */
    method Fresh() returns (id: Id)
      modifies this
      ensures id == old(next) && next == old(next) + 1
    {
      id := next;
      next := next + 1;
    }
  }

  /**
   * The draws of a random number generator: `draws(k, bound)` is what the
   * k-th call of `nextInt(bound)` returns, always in [0, bound).
   */
  type Draws = f: (nat, nat) -> nat | forall k: nat, bound: nat :: 0 < bound ==> f(k, bound) < bound
    witness (k: nat, bound: nat) => 0

  /** A random number generator: a fixed sequence of draws and how many of them were taken. */
  class RandomSource {
    const draws: Draws
    var position: nat

    constructor (draws: Draws, position: nat)
      ensures this.draws == draws && this.position == position
    {
      this.draws := draws;
      this.position := position;
    }

    /** `nextInt(bound)`: Kotlin demands a positive bound; the draw is in [0, bound). */
    method NextInt(bound: nat) returns (r: nat)
      requires bound > 0
      modifies this
      ensures r == draws(old(position), bound) && r < bound
      ensures position == old(position) + 1
    {
      r := draws(position, bound);
      position := position + 1;
    }

    /** `copy()`: an independent generator that will produce the same draws. */
    method Copy() returns (c: RandomSource)
      ensures fresh(c) && c.draws == draws && c.position == position
    {
      c := new RandomSource(draws, position);
    }
  }
}
