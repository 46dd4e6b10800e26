/**
 * What the tree build guarantees: the invariant every worker step keeps,
 * the effect of a single step, and the shape of the finished tree.
 */
module BuildProofs {
  import opened GameStates
  import opened GameTree
  import opened BuildSpec

  /* ---------------------------------------------------------------------
   * One step
   * ------------------------------------------------------------------- */

  /**
   * Processing an item that claims its state: the cache gains exactly that
   * state, mapped to the id of the item's node; the node's children are
   * new nodes holding the successors in pair-index order, with the ids
   * that follow the counter; one work item per child is queued behind the
   * old ones; no other node changes.
   */
  lemma ExpansionEffect(st: BuildState, task: WorkItem)
    requires Claims(st, task) && task.currentState.sequence != []
    ensures var r, h, s := Process(st, task), task.parentNode, task.currentState;
      var n0, m := |st.nodes|, |s.sequence| - 1;
      && r.stateCache.Keys == st.stateCache.Keys + {s}
      && r.stateCache[s] == st.nodes[h].id
      && (forall t :: t in st.stateCache ==> r.stateCache[t] == st.stateCache[t])
      && |r.nodes| == n0 + m
      && r.nodes[h] == st.nodes[h].(children := ChildHandles(n0, m))
      && (forall k :: n0 <= k < |r.nodes| ==> r.nodes[k] == GameTreeNode(Successor(s, k - n0), [], st.nodeId + 1 + (k - n0)))
      && (forall k :: 0 <= k < n0 && k != h ==> r.nodes[k] == st.nodes[k])
      && r.nodeId == st.nodeId + m
      && r.queue == st.queue + ChildItems(NextStates(s), n0)
  {
    var r, h, s := Process(st, task), task.parentNode, task.currentState;
    var n0, m := |st.nodes|, |s.sequence| - 1;
    var next := NextStates(s);
    var grown := st.nodes + ChildNodes(next, st.nodeId);
    assert r.nodes == grown[h := st.nodes[h].(children := ChildHandles(n0, m))];
    forall k | n0 <= k < |r.nodes|
      ensures r.nodes[k] == GameTreeNode(Successor(s, k - n0), [], st.nodeId + 1 + (k - n0))
    {
      assert grown[k] == ChildNodes(next, st.nodeId)[k - n0];
    }
  }

  /** Processing an item whose state is terminal, or already cached, changes nothing. */
  lemma DuplicateOrTerminalIsNoOp(st: BuildState, task: WorkItem)
    requires task.currentState.sequence != []
    requires task.currentState.IsTerminal() || task.currentState in st.stateCache
    ensures Process(st, task) == st
  {
  }

  /* ---------------------------------------------------------------------
   * The build invariant
   * ------------------------------------------------------------------- */

  /** The first handle whose node has not been popped yet. */
  function Frontier(st: BuildState): int {
    |st.nodes| - |st.queue|
  }

  /** Ids are handed out in creation order, starting at 1, and the counter holds the last one. */
  ghost predicate IdsFollowCreation(st: BuildState) {
    && st.nodeId == |st.nodes|
    && forall k :: 0 <= k < |st.nodes| ==> st.nodes[k].id == k + 1
  }

  /** The queue holds exactly the nodes not popped yet, in creation order, each with its own state. */
  ghost predicate QueueIsFrontier(st: BuildState) {
    && |st.queue| <= |st.nodes|
    && forall j :: 0 <= j < |st.queue| ==>
         st.queue[j] == WorkItem(Frontier(st) + j, st.nodes[Frontier(st) + j].state)
  }

  ghost predicate StatesNonEmpty(st: BuildState) {
    forall k :: 0 <= k < |st.nodes| ==> st.nodes[k].state.sequence != []
  }

  ghost predicate UnpoppedAreLeaves(st: BuildState) {
    forall k :: 0 <= k < |st.nodes| && Frontier(st) <= k ==> st.nodes[k].children == []
  }

  /** Every popped node holds a terminal state or a state that some node expanded. */
  ghost predicate PoppedAreSettled(st: BuildState) {
    forall k :: 0 <= k < Frontier(st) ==>
      st.nodes[k].state.IsTerminal() || st.nodes[k].state in st.stateCache
  }

  /** Every cached state is non-terminal and held by the popped node whose id it records. */
  ghost predicate CacheNamesExpander(st: BuildState) {
    forall s :: s in st.stateCache ==>
      && 1 <= st.stateCache[s] <= Frontier(st)
      && st.nodes[st.stateCache[s] - 1].state == s
      && !s.IsTerminal()
  }

  /** Node `k` is the one the cache records for its state. */
  ghost predicate Owns(st: BuildState, k: int)
    requires 0 <= k < |st.nodes|
  {
    st.nodes[k].state in st.stateCache && st.stateCache[st.nodes[k].state] == st.nodes[k].id
  }

  /** A node has children exactly when the cache records it as its state's expander. */
  ghost predicate ExpandedIffOwner(st: BuildState) {
    forall k :: 0 <= k < |st.nodes| ==> (st.nodes[k].children != [] <==> Owns(st, k))
  }

  /**
   * The children of node `k` are a block of consecutive later handles, one
   * per successor of its state, holding the successors in pair-index order.
   */
  ghost predicate ChildBlock(st: BuildState, k: int)
    requires 0 <= k < |st.nodes|
  {
    var node := st.nodes[k];
    && |node.children| == |node.state.sequence| - 1
    && |node.children| > 0
    && k < node.children[0]
    && node.children[0] + |node.children| <= |st.nodes|
    && forall j :: 0 <= j < |node.children| ==>
         && node.children[j] == node.children[0] + j
         && st.nodes[node.children[j]].state == Successor(node.state, j)
  }

  ghost predicate ChildrenAreSuccessors(st: BuildState) {
    forall k {:trigger ChildBlock(st, k)} :: 0 <= k < |st.nodes| && st.nodes[k].children != [] ==> ChildBlock(st, k)
  }

  /** Earlier nodes have earlier blocks of children. */
  ghost predicate BlocksInHandleOrder(st: BuildState) {
    forall k1, k2 :: 0 <= k1 < k2 < |st.nodes| && st.nodes[k1].children != [] && st.nodes[k2].children != [] ==>
      st.nodes[k1].children[0] + |st.nodes[k1].children| <= st.nodes[k2].children[0]
  }

  ghost predicate Inv(st: BuildState) {
    && st.nodes != []
    && IdsFollowCreation(st)
    && QueueIsFrontier(st)
    && StatesNonEmpty(st)
    && UnpoppedAreLeaves(st)
    && PoppedAreSettled(st)
    && CacheNamesExpander(st)
    && ExpandedIffOwner(st)
    && ChildrenAreSuccessors(st)
    && BlocksInHandleOrder(st)
  }

  lemma InvQueueStatesNonEmpty(st: BuildState)
    requires Inv(st)
    ensures QueueStatesNonEmpty(st.queue)
  {
    forall i | 0 <= i < |st.queue|
      ensures st.queue[i].currentState.sequence != []
    {
      assert st.queue[i] == WorkItem(Frontier(st) + i, st.nodes[Frontier(st) + i].state);
    }
  }

  /** The seeded build satisfies the invariant. */
  lemma SeededInv(root: GameState)
    requires root.sequence != []
    ensures Inv(Seed(Fresh(root)))
  {
    var st := Seed(Fresh(root));
    assert st.queue[0] == WorkItem(0, root);
  }

  /* Popping an item that does not claim its state: only the queue changes. */

  lemma SkipKeepsQueueIsFrontier(st: BuildState)
    requires QueueIsFrontier(st) && st.queue != []
    ensures QueueIsFrontier(st.(queue := st.queue[1..]))
  {
    var r := st.(queue := st.queue[1..]);
    forall j | 0 <= j < |r.queue|
      ensures r.queue[j] == WorkItem(Frontier(r) + j, r.nodes[Frontier(r) + j].state)
    {
      assert r.queue[j] == st.queue[j + 1];
    }
  }

  lemma SkipKeepsPoppedAreSettled(st: BuildState)
    requires QueueIsFrontier(st) && PoppedAreSettled(st) && st.queue != []
    requires !Claims(st.(queue := st.queue[1..]), st.queue[0])
    ensures PoppedAreSettled(st.(queue := st.queue[1..]))
  {
    assert st.queue[0] == WorkItem(Frontier(st), st.nodes[Frontier(st)].state);
  }

  lemma SkipPreservesInv(st: BuildState)
    requires Inv(st) && st.queue != []
    requires !Claims(st.(queue := st.queue[1..]), st.queue[0])
    ensures Inv(st.(queue := st.queue[1..]))
  {
    SkipKeepsQueueIsFrontier(st);
    SkipKeepsPoppedAreSettled(st);
    var r := st.(queue := st.queue[1..]);
    forall k | 0 <= k < |r.nodes| && r.nodes[k].children != [] ensures ChildBlock(r, k) {
      assert ChildBlock(st, k);
    }
  }

  /*
   * Popping an item that claims its state: `r` is `st` after node `h`,
   * the oldest queued node, has expanded its state `s`.
   */
  ghost predicate ExpandedAt(st: BuildState, r: BuildState, h: int, s: GameState) {
    var n0 := |st.nodes|;
    && st.queue != [] && Frontier(st) == h
    && 0 <= h < n0 && st.nodes[h].state == s
    && s.sequence != [] && !s.IsTerminal() && s !in st.stateCache
    && r.stateCache == st.stateCache[s := st.nodes[h].id]
    && |r.nodes| == n0 + |s.sequence| - 1
    && r.nodes[h] == st.nodes[h].(children := ChildHandles(n0, |s.sequence| - 1))
    && (forall k :: n0 <= k < |r.nodes| ==> r.nodes[k] == GameTreeNode(Successor(s, k - n0), [], st.nodeId + 1 + (k - n0)))
    && (forall k :: 0 <= k < n0 && k != h ==> r.nodes[k] == st.nodes[k])
    && r.nodeId == st.nodeId + |s.sequence| - 1
    && r.queue == st.queue[1..] + ChildItems(NextStates(s), n0)
  }

  lemma StepExpands(st: BuildState)
    requires QueueIsFrontier(st) && QueueStatesNonEmpty(st.queue) && st.queue != []
    requires Claims(st.(queue := st.queue[1..]), st.queue[0])
    ensures ExpandedAt(st, Step(st), Frontier(st), st.queue[0].currentState)
  {
    var popped, task := st.(queue := st.queue[1..]), st.queue[0];
    var h := Frontier(st);
    assert task == WorkItem(h, st.nodes[h].state);
    assert Step(st) == Process(popped, task);
    ExpansionEffect(popped, task);
  }

  lemma ExpandKeepsIds(st: BuildState, r: BuildState, h: int, s: GameState)
    requires ExpandedAt(st, r, h, s) && IdsFollowCreation(st)
    ensures IdsFollowCreation(r)
  {
  }

  lemma ExpandKeepsQueueIsFrontier(st: BuildState, r: BuildState, h: int, s: GameState)
    requires ExpandedAt(st, r, h, s) && QueueIsFrontier(st)
    ensures QueueIsFrontier(r)
  {
    var n0 := |st.nodes|;
    assert Frontier(r) == h + 1;
    forall j | 0 <= j < |r.queue|
      ensures r.queue[j] == WorkItem(Frontier(r) + j, r.nodes[Frontier(r) + j].state)
    {
      if j < |st.queue| - 1 {
        assert r.queue[j] == st.queue[j + 1];
      } else {
        var i := j - (|st.queue| - 1);
        assert r.queue[j] == ChildItems(NextStates(s), n0)[i];
        assert Frontier(r) + j == n0 + i;
      }
    }
  }

  lemma ExpandKeepsStatesNonEmpty(st: BuildState, r: BuildState, h: int, s: GameState)
    requires ExpandedAt(st, r, h, s) && StatesNonEmpty(st)
    ensures StatesNonEmpty(r)
  {
  }

  lemma ExpandKeepsUnpoppedAreLeaves(st: BuildState, r: BuildState, h: int, s: GameState)
    requires ExpandedAt(st, r, h, s) && UnpoppedAreLeaves(st)
    ensures UnpoppedAreLeaves(r)
  {
    assert Frontier(r) == h + 1;
  }

  lemma ExpandKeepsPoppedAreSettled(st: BuildState, r: BuildState, h: int, s: GameState)
    requires ExpandedAt(st, r, h, s) && PoppedAreSettled(st)
    ensures PoppedAreSettled(r)
  {
    assert Frontier(r) == h + 1;
  }

  lemma ExpandKeepsCacheNamesExpander(st: BuildState, r: BuildState, h: int, s: GameState)
    requires ExpandedAt(st, r, h, s) && CacheNamesExpander(st) && IdsFollowCreation(st)
    ensures CacheNamesExpander(r)
  {
    assert Frontier(r) == h + 1;
  }

  lemma ExpandKeepsExpandedIffOwner(st: BuildState, r: BuildState, h: int, s: GameState)
    requires ExpandedAt(st, r, h, s)
    requires ExpandedIffOwner(st) && CacheNamesExpander(st) && IdsFollowCreation(st)
    ensures ExpandedIffOwner(r)
  {
    var n0 := |st.nodes|;
    forall k | 0 <= k < |r.nodes| ensures r.nodes[k].children != [] <==> Owns(r, k) {
      if k >= n0 {
        assert r.nodes[k].id == st.nodeId + 1 + (k - n0);
        assert r.nodes[k].state in r.stateCache ==> r.stateCache[r.nodes[k].state] <= h + 1;
      } else if k != h {
        assert r.nodes[k] == st.nodes[k];
        assert Owns(r, k) <==> Owns(st, k);
      }
    }
  }

  lemma ExpandKeepsChildrenAreSuccessors(st: BuildState, r: BuildState, h: int, s: GameState)
    requires ExpandedAt(st, r, h, s) && ChildrenAreSuccessors(st)
    ensures ChildrenAreSuccessors(r)
  {
    var n0 := |st.nodes|;
    forall k | 0 <= k < |r.nodes| && r.nodes[k].children != [] ensures ChildBlock(r, k) {
      if k == h {
        forall j | 0 <= j < |s.sequence| - 1 ensures r.nodes[r.nodes[h].children[j]].state == Successor(s, j) {
          assert r.nodes[h].children[j] == n0 + j;
        }
      } else if k < n0 {
        assert ChildBlock(st, k);
        var c := st.nodes[k].children;
        forall j | 0 <= j < |c| ensures r.nodes[c[j]].state == st.nodes[c[j]].state {
        }
      }
    }
  }

  lemma ExpandKeepsBlocksInHandleOrder(st: BuildState, r: BuildState, h: int, s: GameState)
    requires ExpandedAt(st, r, h, s)
    requires BlocksInHandleOrder(st) && ChildrenAreSuccessors(st) && UnpoppedAreLeaves(st)
    ensures BlocksInHandleOrder(r)
  {
    var n0 := |st.nodes|;
    forall k1, k2 | 0 <= k1 < k2 < |r.nodes| && r.nodes[k1].children != [] && r.nodes[k2].children != []
      ensures r.nodes[k1].children[0] + |r.nodes[k1].children| <= r.nodes[k2].children[0]
    {
      if k2 == h {
        assert ChildBlock(st, k1);
      } else if k1 == h {
        assert false;
      }
    }
  }

  lemma ExpandPreservesInv(st: BuildState)
    requires Inv(st) && st.queue != []
    requires Claims(st.(queue := st.queue[1..]), st.queue[0])
    ensures QueueStatesNonEmpty(st.queue)
    ensures Inv(Step(st))
  {
    var r, h, s := Step(st), Frontier(st), st.queue[0].currentState;
    InvQueueStatesNonEmpty(st);
    StepExpands(st);
    ExpandKeepsIds(st, r, h, s);
    ExpandKeepsQueueIsFrontier(st, r, h, s);
    ExpandKeepsStatesNonEmpty(st, r, h, s);
    ExpandKeepsUnpoppedAreLeaves(st, r, h, s);
    ExpandKeepsPoppedAreSettled(st, r, h, s);
    ExpandKeepsCacheNamesExpander(st, r, h, s);
    ExpandKeepsExpandedIffOwner(st, r, h, s);
    ExpandKeepsChildrenAreSuccessors(st, r, h, s);
    ExpandKeepsBlocksInHandleOrder(st, r, h, s);
  }

  /** Every pass of the worker loop keeps the invariant. */
  lemma StepPreservesInv(st: BuildState)
    requires Inv(st)
    ensures QueueStatesNonEmpty(st.queue)
    ensures Inv(Step(st))
  {
    InvQueueStatesNonEmpty(st);
    if st.queue != [] {
      if Claims(st.(queue := st.queue[1..]), st.queue[0]) {
        ExpandPreservesInv(st);
      } else {
        SkipPreservesInv(st);
        assert Step(st) == st.(queue := st.queue[1..]);
      }
    }
  }

  /** Running the worker loop to the end keeps the invariant. */
  lemma {:induction false} DrainPreservesInv(st: BuildState)
    requires Inv(st)
    ensures QueueStatesNonEmpty(st.queue)
    ensures Inv(Drain(st))
    decreases QueueWeight(st.queue)
  {
    StepPreservesInv(st);
    if st.queue != [] {
      DrainPreservesInv(Step(st));
    }
  }

  /* ---------------------------------------------------------------------
   * What the invariant gives
   * ------------------------------------------------------------------- */

  /** At-most-once expansion: two nodes with children never hold the same state. */
  lemma AtMostOnceExpansion(st: BuildState, k1: int, k2: int)
    requires Inv(st)
    requires 0 <= k1 < |st.nodes| && 0 <= k2 < |st.nodes|
    requires st.nodes[k1].children != [] && st.nodes[k2].children != []
    requires st.nodes[k1].state == st.nodes[k2].state
    ensures k1 == k2
  {
    assert Owns(st, k1) && Owns(st, k2);
  }

  /** Strict tree ownership: a node appears once, in the children of one node only. */
  lemma UniqueParent(st: BuildState, k1: int, j1: int, k2: int, j2: int)
    requires Inv(st)
    requires 0 <= k1 < |st.nodes| && 0 <= j1 < |st.nodes[k1].children|
    requires 0 <= k2 < |st.nodes| && 0 <= j2 < |st.nodes[k2].children|
    requires st.nodes[k1].children[j1] == st.nodes[k2].children[j2]
    ensures k1 == k2 && j1 == j2
  {
    assert ChildBlock(st, k1) && ChildBlock(st, k2);
  }

  /**
   * Once the queue is drained, every node is one of three things: a
   * terminal leaf, the one node that expanded its state (its children are
   * the successors), or a leaf whose state another node expanded.
   */
  lemma DrainedNodeKinds(st: BuildState, k: int)
    requires Inv(st) && st.queue == []
    requires 0 <= k < |st.nodes|
    ensures var node := st.nodes[k];
      || (node.state.IsTerminal() && node.children == [])
      || (Owns(st, k) && ChildBlock(st, k))
      || (node.children == [] && node.state in st.stateCache && st.stateCache[node.state] != node.id)
  {
    var node := st.nodes[k];
    if node.children != [] {
      assert ChildBlock(st, k);
    } else if !node.state.IsTerminal() {
      assert !Owns(st, k);
    }
  }

  /**
   * Once the queue is drained the cache is closed under moves: every
   * successor of an expanded state is terminal or expanded itself, and is
   * held by a child of the expanding node.
   */
  lemma DrainedCacheIsClosed(st: BuildState, s: GameState, j: nat)
    requires Inv(st) && st.queue == []
    requires s in st.stateCache && j + 1 < |s.sequence|
    ensures var k := st.stateCache[s] - 1;
      && 0 <= k < |st.nodes| && st.nodes[k].state == s
      && j < |st.nodes[k].children| && 0 <= st.nodes[k].children[j] < |st.nodes|
      && st.nodes[st.nodes[k].children[j]].state == Successor(s, j)
    ensures Successor(s, j).IsTerminal() || Successor(s, j) in st.stateCache
  {
    var k := st.stateCache[s] - 1;
    assert Owns(st, k);
    assert ChildBlock(st, k);
    var c := st.nodes[k].children[j];
    assert 0 <= c < |st.nodes| && st.nodes[c].state == Successor(s, j);
  }

  /* ---------------------------------------------------------------------
   * The finished tree covers exactly the reachable states
   * ------------------------------------------------------------------- */

  /** Whether `moves`, pair indices played in order from `s`, are all legal. */
  predicate Playable(s: GameState, moves: seq<nat>)
    decreases |moves|, 0
  {
    moves == [] ||
    (Playable(s, moves[..|moves| - 1]) && moves[|moves| - 1] + 1 < |Play(s, moves[..|moves| - 1]).sequence|)
  }

  /** The state reached from `s` by playing `moves`. */
  function Play(s: GameState, moves: seq<nat>): GameState
    requires Playable(s, moves)
    decreases |moves|, 1
  {
    if moves == [] then s
    else Successor(Play(s, moves[..|moves| - 1]), moves[|moves| - 1])
  }

  /** Every state reachable from the root is held by some node; if it is not terminal, it is expanded. */
  lemma {:induction false} ReachableStatesInTree(st: BuildState, root: GameState, moves: seq<nat>)
    requires Inv(st) && st.queue == [] && st.nodes[0].state == root
    requires Playable(root, moves)
    ensures exists k :: 0 <= k < |st.nodes| && st.nodes[k].state == Play(root, moves)
    ensures !Play(root, moves).IsTerminal() ==> Play(root, moves) in st.stateCache
    decreases |moves|
  {
    if moves == [] {
      assert st.nodes[0].state == Play(root, moves);
    } else {
      var before, j := moves[..|moves| - 1], moves[|moves| - 1];
      ReachableStatesInTree(st, root, before);
      var p := Play(root, before);
      assert !p.IsTerminal();
      DrainedCacheIsClosed(st, p, j);
      var owner := st.nodes[st.stateCache[p] - 1];
      assert ChildBlock(st, st.stateCache[p] - 1);
      assert 0 <= owner.children[j] < |st.nodes|;
    }
  }

  /** Every node holds a state reachable from `root`. */
  ghost predicate NodesReachable(st: BuildState, root: GameState) {
    forall k :: 0 <= k < |st.nodes| ==>
      exists moves :: Playable(root, moves) && Play(root, moves) == st.nodes[k].state
  }

  /** Playing one more legal move reaches the corresponding successor. */
  lemma ExtendPlay(root: GameState, moves: seq<nat>, j: nat)
    requires Playable(root, moves) && j + 1 < |Play(root, moves).sequence|
    ensures Playable(root, moves + [j]) && Play(root, moves + [j]) == Successor(Play(root, moves), j)
  {
    var longer := moves + [j];
    assert longer[..|longer| - 1] == moves;
  }

  lemma StepKeepsNodesReachable(st: BuildState, root: GameState)
    requires QueueIsFrontier(st) && QueueStatesNonEmpty(st.queue) && NodesReachable(st, root)
    ensures NodesReachable(Step(st), root)
  {
    if st.queue != [] {
      if Claims(st.(queue := st.queue[1..]), st.queue[0]) {
        var h, s := Frontier(st), st.queue[0].currentState;
        StepExpands(st);
        var r, n0 := Step(st), |st.nodes|;
        var hm: seq<nat> :| Playable(root, hm) && Play(root, hm) == st.nodes[h].state;
        forall k | 0 <= k < |r.nodes|
          ensures exists moves :: Playable(root, moves) && Play(root, moves) == r.nodes[k].state
        {
          if k < n0 {
            assert r.nodes[k].state == st.nodes[k].state;
          } else {
            ExtendPlay(root, hm, k - n0);
            assert Play(root, hm + [k - n0]) == r.nodes[k].state;
          }
        }
      } else {
        assert Step(st).nodes == st.nodes;
      }
    }
  }

  lemma {:induction false} DrainKeepsNodesReachable(st: BuildState, root: GameState)
    requires Inv(st) && NodesReachable(st, root)
    ensures QueueStatesNonEmpty(st.queue)
    ensures NodesReachable(Drain(st), root)
    decreases QueueWeight(st.queue)
  {
    StepPreservesInv(st);
    InvQueueStatesNonEmpty(st);
    StepKeepsNodesReachable(st, root);
    if st.queue != [] {
      DrainKeepsNodesReachable(Step(st), root);
    }
  }

  /**
   * The tree built for `root`: it keeps the build invariant, its root is
   * node 0 with id 1, every node holds a state reachable from the root,
   * every reachable state is held by some node, and every reachable
   * non-terminal state is expanded by exactly one node.
   */
  lemma BuiltTreeCoversReachableStates(root: GameState)
    requires root.sequence != []
    ensures var tree := BuiltTree(root);
      && Inv(tree)
      && tree.nodes[0].state == root && tree.nodes[0].id == 1
      && NodesReachable(tree, root)
      && tree.nodeId == |tree.nodes|
    ensures var tree := BuiltTree(root);
      forall moves :: Playable(root, moves) ==>
        && (exists k :: 0 <= k < |tree.nodes| && tree.nodes[k].state == Play(root, moves))
        && (!Play(root, moves).IsTerminal() ==> Play(root, moves) in tree.stateCache)
  {
    var seeded := Seed(Fresh(root));
    SeededInv(root);
    assert NodesReachable(seeded, root) by {
      assert Playable(root, []) && Play(root, []) == seeded.nodes[0].state;
    }
    DrainPreservesInv(seeded);
    DrainKeepsNodesReachable(seeded, root);
    var tree := BuiltTree(root);
    forall moves | Playable(root, moves)
      ensures && (exists k :: 0 <= k < |tree.nodes| && tree.nodes[k].state == Play(root, moves))
              && (!Play(root, moves).IsTerminal() ==> Play(root, moves) in tree.stateCache)
    {
      ReachableStatesInTree(tree, root, moves);
    }
  }
}
