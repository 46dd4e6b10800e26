/**
 * The tree builder as the program runs it with a single worker: the
 * shared node counter, state cache and work queue of main.cpp become the
 * fields of one object, and the node tree is an arena of nodes indexed
 * by handle. Every method is proved to leave the object in the state the
 * matching function of BuildSpec describes.
 */
module TreeBuilders {
  import opened GameStates
  import opened GameTree
  import opened WorkQueues
  import opened BuildSpec

  class TreeBuilder {
    /** The tree, indexed by handle; node 0 is the root. */
    var nodes: seq<GameTreeNode>
    /** global_state_cache: each expanded state, mapped to the id of the node that expanded it. */
    var globalStateCache: map<GameState, int>
    /** global_node_id: the last id handed out. */
    var globalNodeId: int
    /** work_queue. */
    const workQueue: ConcurrentQueue

    /** The whole build state, as BuildSpec sees it. */
    ghost function State(): BuildState
      reads this, workQueue
    {
      BuildState(nodes, globalStateCache, globalNodeId, workQueue.items)
    }

    /** main(): a root node with id 1 for `root`, the counter at 1, an empty cache and queue. */
    constructor (root: GameState)
      ensures fresh(workQueue)
      ensures State() == Fresh(root)
    {
      nodes := [GameTreeNode(root, [], 1)];
      globalStateCache := map[];
      globalNodeId := 1;
      workQueue := new ConcurrentQueue();
    }

    /** worker_thread's handling of one popped work item. */
    method ProcessItem(task: WorkItem)
      requires task.currentState.sequence != []
      modifies this, workQueue
      ensures State() == Process(old(State()), task)
    {
      if !(0 <= task.parentNode < |nodes|) {
        return;
      }
      var currentState := task.currentState;
      if currentState.IsTerminal() {
        return;
      }
      if currentState in globalStateCache {
        return;
      }
      globalStateCache := globalStateCache[currentState := nodes[task.parentNode].id];

      var nextStates := GenerateNextStates(currentState);
      var children := AddChildren(nextStates);
      nodes := nodes[task.parentNode := nodes[task.parentNode].(children := children)];
    }

    /**
     * worker_thread's child loop: a node with the next id for every state of
     * `nextStates`, and a work item queued for it; gives the new handles.
     */
    method AddChildren(nextStates: seq<GameState>) returns (children: seq<Handle>)
      modifies this`nodes, this`globalNodeId, workQueue
      ensures children == ChildHandles(old(|nodes|), |nextStates|)
      ensures nodes == old(nodes) + ChildNodes(nextStates, old(globalNodeId))
      ensures globalNodeId == old(globalNodeId) + |nextStates|
      ensures workQueue.items == old(workQueue.items) + ChildItems(nextStates, old(|nodes|))
    {
      var first := |nodes|;
      children := [];
      for j := 0 to |nextStates|
        invariant nodes == old(nodes) + ChildNodes(nextStates[..j], old(globalNodeId))
        invariant children == ChildHandles(first, j)
        invariant globalNodeId == old(globalNodeId) + j
        invariant workQueue.items == old(workQueue.items) + ChildItems(nextStates[..j], first)
      {
        globalNodeId := globalNodeId + 1;
        var newId := globalNodeId;
        nodes := nodes + [GameTreeNode(nextStates[j], [], newId)];
        children := children + [|nodes| - 1];
        workQueue.Push(WorkItem(|nodes| - 1, nextStates[j]));
        ChildNodesSnoc(nextStates, old(globalNodeId), j);
        ChildItemsSnoc(nextStates, first, j);
      }
      assert nextStates[..|nextStates|] == nextStates;
    }

    /** One pass of worker_thread's loop: pop the oldest item, if any, and process it. */
    method WorkerIteration() returns (popped: bool)
      requires QueueStatesNonEmpty(workQueue.items)
      modifies this, workQueue
      ensures popped <==> old(workQueue.items) != []
      ensures State() == Step(old(State()))
    {
      var task := DefaultWorkItem();
      popped, task := workQueue.TryPop(task);
      if popped {
        ProcessItem(task);
      }
    }

    /**
     * buildTreeMultithreaded: queue the root with its own state, then let
     * the worker loop run until the queue is drained.
     */
    method BuildTree()
      requires nodes != [] && nodes[0].state.sequence != []
      requires QueueStatesNonEmpty(workQueue.items)
      modifies this, workQueue
      ensures State() == Drain(Seed(old(State())))
      ensures workQueue.items == []
    {
      workQueue.Push(WorkItem(0, nodes[0].state));
      ghost var seeded := State();
      assert seeded == Seed(old(State()));
      while true
        invariant QueueStatesNonEmpty(workQueue.items)
        invariant Drain(State()) == Drain(seeded)
        decreases QueueWeight(workQueue.items)
      {
        var empty := workQueue.Empty();
        if empty {
          break;
        }
        var _ := WorkerIteration();
      }
    }
  }
}
