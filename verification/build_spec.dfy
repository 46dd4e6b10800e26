/**
 * The tree build as a function of its state (worker_thread and
 * buildTreeMultithreaded in main.cpp, run by one worker): the arena of
 * nodes, the state cache, the node-id counter and the work queue.
 */
module BuildSpec {
  import opened GameStates
  import opened GameTree

  /** Everything the build reads and writes. */
  datatype BuildState = BuildState(
    nodes: seq<GameTreeNode>,       // the tree, indexed by handle
    stateCache: map<GameState, int>, // global_state_cache: expanded state -> id of its node
    nodeId: int,                     // global_node_id: the last id handed out
    queue: seq<WorkItem>)            // work_queue, oldest first

  /** The state main() prepares: a root node with id 1, the counter at 1, nothing cached or queued. */
  function Fresh(root: GameState): (st: BuildState)
    ensures |st.nodes| == 1 && st.nodes[0].state == root && st.nodes[0].id == 1 && st.nodes[0].children == []
    ensures st.nodeId == 1 && st.stateCache == map[] && st.queue == []
  {
    BuildState([GameTreeNode(root, [], 1)], map[], 1, [])
  }

  /** buildTreeMultithreaded's seeding: queue the root node with its own state. */
  function Seed(st: BuildState): (r: BuildState)
    requires st.nodes != []
    ensures r.nodes == st.nodes && r.stateCache == st.stateCache && r.nodeId == st.nodeId
    ensures r.queue == st.queue + [WorkItem(0, st.nodes[0].state)]
  {
    st.(queue := st.queue + [WorkItem(0, st.nodes[0].state)])
  }

  /**
   * Whether processing `task` expands its state: the item names a node,
   * the state is not terminal, and no node has claimed the state yet.
   */
  predicate Claims(st: BuildState, task: WorkItem) {
    && 0 <= task.parentNode < |st.nodes|
    && !task.currentState.IsTerminal()
    && task.currentState !in st.stateCache
  }

  /** The new nodes for the states `next`, with ids following `lastId`. */
  function ChildNodes(next: seq<GameState>, lastId: int): (r: seq<GameTreeNode>)
    ensures |r| == |next|
    ensures forall j :: 0 <= j < |r| ==> r[j] == GameTreeNode(next[j], [], lastId + 1 + j)
  {
    seq(|next|, j requires 0 <= j < |next| => GameTreeNode(next[j], [], lastId + 1 + j))
  }

  /** The handles `first`, `first + 1`, ..., of `count` consecutive nodes. */
  function ChildHandles(first: Handle, count: nat): (r: seq<Handle>)
    ensures |r| == count
    ensures forall j :: 0 <= j < count ==> r[j] == first + j
  {
    seq(count, j => first + j)
  }

  /** One work item per new node, pairing the node at `first + j` with its state. */
  function ChildItems(next: seq<GameState>, first: Handle): (r: seq<WorkItem>)
    ensures |r| == |next|
    ensures forall j :: 0 <= j < |r| ==> r[j] == WorkItem(first + j, next[j])
  {
    seq(|next|, j requires 0 <= j < |next| => WorkItem(first + j, next[j]))
  }

  lemma ChildNodesSnoc(next: seq<GameState>, lastId: int, j: nat)
    requires j < |next|
    ensures ChildNodes(next[..j + 1], lastId)
         == ChildNodes(next[..j], lastId) + [GameTreeNode(next[j], [], lastId + 1 + j)]
  {
  }

  lemma ChildItemsSnoc(next: seq<GameState>, first: Handle, j: nat)
    requires j < |next|
    ensures ChildItems(next[..j + 1], first) == ChildItems(next[..j], first) + [WorkItem(first + j, next[j])]
  {
  }

  /**
   * The expansion of a claimed state: the state is recorded against the
   * id of node `task.parentNode`, one child node per successor gets the
   * next id, a work item is queued per child, and the children are
   * attached to the node in pair-index order.
   */
  function Expand(st: BuildState, task: WorkItem): (r: BuildState)
    requires Claims(st, task) && task.currentState.sequence != []
  {
    var h, s := task.parentNode, task.currentState;
    var next := NextStates(s);
    var first := |st.nodes|;
    var children := ChildHandles(first, |next|);
    BuildState(
      (st.nodes + ChildNodes(next, st.nodeId))[h := st.nodes[h].(children := children)],
      st.stateCache[s := st.nodes[h].id],
      st.nodeId + |next|,
      st.queue + ChildItems(next, first))
  }

  /**
   * The processing of one popped work item: a null node, a terminal state
   * or a state already in the cache leaves everything as it is; any other
   * state is expanded.
   */
  function Process(st: BuildState, task: WorkItem): (r: BuildState)
    requires task.currentState.sequence != []
    ensures !Claims(st, task) ==> r == st
    ensures |r.nodes| >= |st.nodes|
    ensures forall k :: 0 <= k < |st.nodes| ==> r.nodes[k].state == st.nodes[k].state && r.nodes[k].id == st.nodes[k].id
    ensures st.stateCache.Keys <= r.stateCache.Keys
    ensures forall t :: t in st.stateCache ==> r.stateCache[t] == st.stateCache[t]
  {
    if !(0 <= task.parentNode < |st.nodes|) then st
    else if task.currentState.IsTerminal() then st
    else if task.currentState in st.stateCache then st
    else Expand(st, task)
  }

  /** Whether every queued state holds at least one token. */
  predicate QueueStatesNonEmpty(queue: seq<WorkItem>) {
    forall i :: 0 <= i < |queue| ==> queue[i].currentState.sequence != []
  }

  function Fact(n: nat): (r: nat)
    ensures r >= 1
  {
    if n == 0 then 1 else n * Fact(n - 1)
  }

  /**
   * A bound on the work left: each queued state of length L counts L!,
   * which exceeds the (L - 1) * (L - 1)! its expansion can queue.
   */
  function QueueWeight(queue: seq<WorkItem>): nat {
    if queue == [] then 0 else Fact(|queue[0].currentState.sequence|) + QueueWeight(queue[1..])
  }

  lemma {:induction false} QueueWeightAppend(a: seq<WorkItem>, b: seq<WorkItem>)
    ensures QueueWeight(a + b) == QueueWeight(a) + QueueWeight(b)
    decreases |a|
  {
    if a == [] {
      assert a + b == b;
    } else {
      assert (a + b)[0] == a[0];
      assert (a + b)[1..] == a[1..] + b;
      QueueWeightAppend(a[1..], b);
    }
  }

  lemma {:induction false} ChildItemsWeight(next: seq<GameState>, first: Handle, len: nat)
    requires forall j :: 0 <= j < |next| ==> |next[j].sequence| == len
    ensures QueueWeight(ChildItems(next, first)) == |next| * Fact(len)
    decreases |next|
  {
    if next != [] {
      assert ChildItems(next, first)[1..] == ChildItems(next[1..], first + 1);
      ChildItemsWeight(next[1..], first + 1, len);
    }
  }

  /**
   * The items one expansion queues weigh less than the item it consumed,
   * and every state they carry still holds a token.
   */
  lemma ExpansionWeight(s: GameState, first: Handle)
    requires |s.sequence| >= 2
    ensures QueueWeight(ChildItems(NextStates(s), first)) < Fact(|s.sequence|)
    ensures QueueStatesNonEmpty(ChildItems(NextStates(s), first))
  {
    var len := |s.sequence|;
    ChildItemsWeight(NextStates(s), first, len - 1);
    assert Fact(len) == len * Fact(len - 1);
    assert (len - 1) * Fact(len - 1) < len * Fact(len - 1);
  }

  /**
   * One pass of the worker loop: pop the oldest item, if any, and process
   * it. The work left strictly decreases whenever an item was popped.
   */
  function Step(st: BuildState): (r: BuildState)
    requires QueueStatesNonEmpty(st.queue)
    ensures QueueStatesNonEmpty(r.queue)
    ensures st.queue != [] ==> QueueWeight(r.queue) < QueueWeight(st.queue)
    ensures st.queue == [] ==> r == st
    ensures |r.nodes| >= |st.nodes|
    ensures forall k :: 0 <= k < |st.nodes| ==> r.nodes[k].state == st.nodes[k].state && r.nodes[k].id == st.nodes[k].id
    ensures st.stateCache.Keys <= r.stateCache.Keys
    ensures forall t :: t in st.stateCache ==> r.stateCache[t] == st.stateCache[t]
  {
    if st.queue == [] then st
    else
      var task, rest := st.queue[0], st.queue[1..];
      var popped := st.(queue := rest);
      if Claims(popped, task) then
        ExpansionWeight(task.currentState, |st.nodes|);
        QueueWeightAppend(rest, ChildItems(NextStates(task.currentState), |st.nodes|));
        Process(popped, task)
      else
        Process(popped, task)
  }

  /** The worker loop run until the queue is drained. */
  function Drain(st: BuildState): (r: BuildState)
    requires QueueStatesNonEmpty(st.queue)
    ensures r.queue == []
    ensures |r.nodes| >= |st.nodes|
    ensures forall k :: 0 <= k < |st.nodes| ==> r.nodes[k].state == st.nodes[k].state && r.nodes[k].id == st.nodes[k].id
    ensures st.stateCache.Keys <= r.stateCache.Keys
    ensures forall t :: t in st.stateCache ==> r.stateCache[t] == st.stateCache[t]
    decreases QueueWeight(st.queue)
  {
    if st.queue == [] then st else Drain(Step(st))
  }

  /** The tree the program builds for an initial state. */
  function BuiltTree(root: GameState): (r: BuildState)
    requires root.sequence != []
    ensures r.queue == []
  {
    Drain(Seed(Fresh(root)))
  }
}
