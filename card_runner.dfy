/**
 * The card runner: a guard that lets one block of card actions run at a time.
 * A block is modelled as the sequence of steps it takes against the queue:
 * enqueueing an action, starting another block (a nested `withActionQueue`
 * from inside the block), or throwing.
 */
module CardRunner {

  datatype Step = Enqueue(action: nat) | StartNested(inner: seq<Step>) | Throw(message: string)

  datatype RunOutcome =
    | Finished
    | /** `require(cardQueue == null)` failed: a block is already running. */ AlreadyRunning
    | Thrown(message: string)

  /** The action queue a running block enqueues into. */
  class CardQueue {
    var actions: seq<nat>

    constructor ()
      ensures actions == []
    {
      actions := [];
    }

    method Enqueue(action: nat)
      modifies this
      ensures actions == old(actions) + [action]
    {
      actions := actions + [action];
    }
  }

  /**
   * What running `block` on a fresh queue comes to: the actions enqueued
   * before it stopped, and how it stopped.  A nested start always fails,
   * because the outer block's queue is still set, and that failure leaves
   * the outer block.
   */
  function RunBlock(block: seq<Step>): (r: (seq<nat>, RunOutcome))
    ensures r.1 != Finished ==> exists i :: 0 <= i < |block| && !block[i].Enqueue?
    ensures r.1 == Finished ==> (forall i :: 0 <= i < |block| ==> block[i].Enqueue?) && |r.0| == |block|
    ensures r.1 != AlreadyRunning ==> r.1.Thrown? || r.1 == Finished
    ensures |r.0| <= |block|
  {
    if block == [] then ([], Finished)
    else match block[0]
      case Enqueue(a) =>
        var rest := RunBlock(block[1..]);
        assert forall i :: 1 <= i < |block| ==> block[i] == block[1..][i - 1];
        ([a] + rest.0, rest.1)
      case StartNested(_) => ([], AlreadyRunning)
      case Throw(m) => ([], Thrown(m))
  }

  /** A block that starts another block before any other non-enqueue step fails as already running. */
  lemma {:induction false} NestedStartFails(block: seq<Step>, k: nat)
    requires k < |block| && block[k].StartNested?
    requires forall i :: 0 <= i < k ==> block[i].Enqueue?
    ensures RunBlock(block).1 == AlreadyRunning
    ensures |RunBlock(block).0| == k
  {
    if k > 0 {
      assert forall i :: 0 <= i < k - 1 ==> block[1..][i] == block[i + 1];
      NestedStartFails(block[1..], k - 1);
    }
  }

  /** Running from an enqueue step on: the action joins the queue, and the rest runs from the next step. */
  lemma EnqueueStep(block: seq<Step>, i: nat, before: seq<nat>)
    requires i < |block| && block[i].Enqueue?
    ensures RunBlock(block[i..]).1 == RunBlock(block[i + 1..]).1
    ensures before + RunBlock(block[i..]).0 == (before + [block[i].action]) + RunBlock(block[i + 1..]).0
  {
    assert block[i..][1..] == block[i + 1..];
  }

  class Runner {
    /** The queue of the block that is running, if any. */
    var cardQueue: CardQueue?

    /** Nothing is running initially. */
    constructor ()
      ensures cardQueue == null
    {
      cardQueue := null;
    }

    /**
     * `withActionQueue`: refused while another block runs; otherwise runs the
     * block against a new queue, and whether it finishes or throws, the
     * runner is free again afterwards.  `queue` is the queue the block used.
     */
    method WithActionQueue(block: seq<Step>) returns (r: RunOutcome, queue: CardQueue?)
      modifies this
      ensures old(cardQueue) != null ==> r == AlreadyRunning && queue == null && cardQueue == old(cardQueue)
      ensures old(cardQueue) == null ==> cardQueue == null && queue != null && fresh(queue)
      ensures old(cardQueue) == null ==> r == RunBlock(block).1 && queue.actions == RunBlock(block).0
    {
      if cardQueue != null {
        return AlreadyRunning, null;
      }
      queue := new CardQueue();
      cardQueue := queue;
      r := Finished;
      var i := 0;
      assert block[i..] == block;
      assert queue.actions + RunBlock(block).0 == RunBlock(block).0;
      while i < |block| && r == Finished
        invariant 0 <= i <= |block|
        invariant cardQueue == queue
        invariant r == Finished ==> RunBlock(block) == (queue.actions + RunBlock(block[i..]).0, RunBlock(block[i..]).1)
        invariant r != Finished ==> RunBlock(block) == (queue.actions, r)
        decreases |block| - i
      {
        ghost var before := queue.actions;
        match block[i] {
          case Enqueue(a) =>
            queue.Enqueue(a);
            EnqueueStep(block, i, before);
          case StartNested(inner) =>
            // The nested call meets a running queue and is refused, and the
            // failure leaves this block.
            var nested, _ := WithActionQueue(inner);
            r := nested;
            assert queue.actions + [] == queue.actions;
          case Throw(m) =>
            r := Thrown(m);
            assert queue.actions + [] == queue.actions;
        }
        i := i + 1;
      }
      if r == Finished {
        assert block[i..] == [];
      }
      cardQueue := null;
    }
  }
}
