/**
 * The work queue (ConcurrentQueue in main.cpp) without its mutex and
 * condition variable: a first-in first-out queue of work items.
 */
module WorkQueues {
  import opened GameTree

  class ConcurrentQueue {
    /** The queued items, oldest first. */
    var items: seq<WorkItem>

    constructor ()
      ensures items == []
    {
      items := [];
    }

    /** push: appends at the back. */
    method Push(value: WorkItem)
      modifies this
      ensures items == old(items) + [value]
    {
      items := items + [value];
    }

    /**
     * try_pop: on an empty queue reports failure and leaves both the queue
     * and `value` as they were; otherwise removes and returns the front item.
     */
    method TryPop(value: WorkItem) returns (ok: bool, popped: WorkItem)
      modifies this
      ensures ok <==> old(items) != []
      ensures ok ==> popped == old(items)[0] && items == old(items)[1..]
      ensures !ok ==> popped == value && items == old(items)
    {
      if items == [] {
        return false, value;
      }
      popped := items[0];
      items := items[1..];
      ok := true;
    }

    /** empty: whether no item is queued. */
    method Empty() returns (r: bool)
      ensures r <==> |items| == 0
    {
      r := items == [];
    }
  }

  /** One call on the queue, as a value. */
  datatype QueueOp = PushOp(value: WorkItem) | TryPopOp

  /** The items pushed by `ops`, in order. */
  function Pushed(ops: seq<QueueOp>): (r: seq<WorkItem>)
    ensures |r| <= |ops|
  {
    if ops == [] then []
    else match ops[0]
      case PushOp(x) => [x] + Pushed(ops[1..])
      case TryPopOp => Pushed(ops[1..])
  }

  /**
   * Runs `ops` against a queue holding `items`: a push step is the ensures
   * of Push, a pop step the ensures of TryPop (RunOps below shows the
   * methods produce exactly this); gives the items left and the items the successful
   * pops returned, in order.
   */
  function Replay(items: seq<WorkItem>, ops: seq<QueueOp>): (r: (seq<WorkItem>, seq<WorkItem>))
    decreases |ops|
  {
    if ops == [] then (items, [])
    else match ops[0]
      case PushOp(x) => Replay(items + [x], ops[1..])
      case TryPopOp =>
        if items == [] then Replay(items, ops[1..])
        else
          var (left, out) := Replay(items[1..], ops[1..]);
          (left, [items[0]] + out)
  }

  /**
   * FIFO discipline over any history of calls: the items popped, followed
   * by the items still queued, are exactly the items initially queued
   * followed by the items pushed, in push order; none is lost, duplicated
   * or reordered.
   */
  lemma {:induction false} FifoOrder(items: seq<WorkItem>, ops: seq<QueueOp>)
    ensures Replay(items, ops).1 + Replay(items, ops).0 == items + Pushed(ops)
    decreases |ops|
  {
    if ops != [] {
      match ops[0]
      case PushOp(x) =>
        FifoOrder(items + [x], ops[1..]);
        assert items + [x] + Pushed(ops[1..]) == items + ([x] + Pushed(ops[1..]));
      case TryPopOp =>
        if items == [] {
          FifoOrder(items, ops[1..]);
        } else {
          FifoOrder(items[1..], ops[1..]);
          var (left, out) := Replay(items[1..], ops[1..]);
          assert [items[0]] + out + left == [items[0]] + (out + left);
          assert [items[0]] + items[1..] == items;
        }
    }
  }

  /**
   * Performs `ops` on `q` through Push and TryPop; the queue ends as Replay
   * says and the successful pops return what Replay says, so FifoOrder
   * holds of any run of the methods.
   */
  method RunOps(q: ConcurrentQueue, ops: seq<QueueOp>) returns (out: seq<WorkItem>)
    modifies q
    ensures q.items == Replay(old(q.items), ops).0
    ensures out == Replay(old(q.items), ops).1
    ensures out + q.items == old(q.items) + Pushed(ops)
  {
    ghost var start := q.items;
    out := [];
    for i := 0 to |ops|
      invariant Replay(q.items, ops[i..]).0 == Replay(start, ops).0
      invariant out + Replay(q.items, ops[i..]).1 == Replay(start, ops).1
    {
      assert ops[i..][1..] == ops[i + 1..];
      match ops[i]
      case PushOp(x) =>
        q.Push(x);
      case TryPopOp =>
        var ok, popped := q.TryPop(DefaultWorkItem());
        if ok {
          assert out + [popped] + Replay(q.items, ops[i + 1..]).1 == out + ([popped] + Replay(q.items, ops[i + 1..]).1);
          out := out + [popped];
        }
    }
    assert ops[|ops|..] == [];
    FifoOrder(start, ops);
  }
}
