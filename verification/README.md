# Game-tree builder for the pairwise-reduction game, in Dafny

This project models the game-tree construction engine of `main.cpp`, and proves properties of that model.

The game is played on a sequence of integer tokens. A move picks two adjacent tokens and replaces them with one token:

- 1 when their sum is above 7; the mover gains 2 points.
- 2 when the sum is exactly 7; the mover loses 1 point.
- 3 when the sum is below 7; the opponent loses 1 point.

After the move, the turn passes to the other player. The game ends when one token is left. The player with the higher score wins, and equal scores are a draw.

The engine builds the tree of all plays from an initial state. A work queue holds `(node, state)` items. A worker pops an item and skips it when its state is terminal or already in the state cache. Otherwise the worker does four things:

1. It records the state in the cache, mapped to the node's id.
2. It creates one child node per successor, each with the next id from a global counter.
3. It queues one item per child.
4. It attaches the children to the node.

The source runs several worker threads. The model runs one worker, so the build is one sequential loop.

Files:

- `game_state.dfy` (module `GameStates`) holds the `GameState` value and its predicates, and the transition rule as functions (`Successor`, `NextStates`). It also holds `GenerateNextStates`, a loop method that erases and inserts like the source and is proved equal to `NextStates`.
- `game_tree.dfy` (module `GameTree`) holds the `GameTreeNode` and `WorkItem` records. Nodes live in an arena: a sequence indexed by a handle, where the source uses a pointer. A handle outside the arena stands for the null pointer.
- `work_queue.dfy` (module `WorkQueues`) holds `ConcurrentQueue` as a class over a sequence, without its mutex. It also holds a replay of any history of pushes and pops, the FIFO lemma about that replay, and `RunOps`, which runs a history through the methods and is proved to match the replay.
- `build_spec.dfy` (module `BuildSpec`) is the build as a function of its state. The state is the arena, the cache, the node counter and the queue. The module has functions for processing one item, one pass of the worker loop, and the loop run until the queue is empty.
- `build_proofs.dfy` (module `BuildProofs`) holds the build invariant, the proof that every pass of the worker loop keeps it, and what the invariant gives about the finished tree:
  - every state is expanded at most once;
  - every node has one parent;
  - the cache is closed under moves;
  - every reachable state is in the tree.
- `tree_builder.dfy` (module `TreeBuilders`) holds the imperative `TreeBuilder`. Its fields are the arena, the cache, the counter and the queue object. Each method is proved to leave the object in the state that the matching `BuildSpec` function gives.

Notes on what `main.cpp` does, which the model follows:

- The code queues a work item for every child, terminal children included (`main.cpp:218`). It then drops terminal items when it pops them (`main.cpp:194`).
- The item for a child carries the child node itself (`main.cpp:218`). So `parent_node` is the node that holds `current_state`, and an expansion attaches children to the node being expanded.
- The cache maps a state to the id of that node (`main.cpp:205`).
- There is no depth field and no depth bound in `main.cpp`: the tree is built until every leaf is terminal or a repeated state.

## Model

| member | source | states |
|---|---|---|
| `GameStates.GameState.IsTerminal` | main.cpp:26-28 | The state is terminal exactly when one token is left; `Winner` and `NextStates` are stated in terms of it. |
| `GameStates.GameState.Winner` | main.cpp:26-35 | It is 1 exactly when the game is over (one token left) and player 1 is ahead. It is 2 exactly when the game is over and player 2 is ahead. It is 0 for a game still running or a tie. |
| `GameStates.GameState.Equals` | main.cpp:37-42 | The comparison of sequence, both scores and turn holds exactly when the two states are equal. So a map keyed by `GameState` deduplicates exactly as the source's cache does. |
| `GameStates.ReplacementToken` | main.cpp:56-70 | The token is 1, 2 or 3. It is 1 exactly when the sum is above 7, 2 exactly when the sum is 7, and 3 exactly when the sum is below 7. |
| `GameStates.Successor` | main.cpp:48-72 | Reducing pair `i` gives a sequence one shorter. It keeps the tokens before `i`, puts the replacement token at `i`, and shifts the tokens after the pair left by one. The turn flips. Above 7 the mover gains 2; at 7 the mover loses 1; below 7 the opponent loses 1. The other score is unchanged. |
| `GameStates.NextStates` | main.cpp:44-76 | A state of `n >= 1` tokens has exactly `n - 1` successors, each of length `n - 1`. There are none exactly when the state is terminal. The `i`-th successor reduces pair `i`, so successors are ordered by pair index. |
| `GameStates.GenerateNextStates` | main.cpp:44-76 | The loop copies the sequence, erases the pair, inserts the token and adjusts the scores. It returns exactly `NextStates(s)`. |
| `GameTree.DefaultWorkItem` | main.cpp:147 | A default work item has a null node and the default state: an empty sequence, both scores 0, player 1 to move. |
| `WorkQueues.ConcurrentQueue.Push` | main.cpp:158-162 | `push` appends the item at the back and leaves the rest of the queue as it was. |
| `WorkQueues.ConcurrentQueue.TryPop` | main.cpp:164-170 | On an empty queue, `try_pop` reports false and leaves both the queue and the out-value unchanged. Otherwise it reports true, returns the front item and removes only that item. |
| `WorkQueues.ConcurrentQueue.Empty` | main.cpp:172-175 | `empty` reports whether the queue holds no item. |
| `WorkQueues.FifoOrder` | main.cpp:152-170 | Take any history of pushes and pops. The items popped, followed by the items left, are the items first queued followed by the items pushed, in push order. No item is lost, duplicated or reordered. |
| `WorkQueues.RunOps` | main.cpp:158-170 | Performing any history of pushes and pops through `Push` and `TryPop` leaves the queue and returns the popped items exactly as `Replay` gives. So `FifoOrder` holds of the methods themselves: the popped items followed by the items left are the old items followed by the pushed ones. |
| `BuildSpec.Fresh` | main.cpp:284-286 | The initial build has one root node with the given state, id 1 and no children. The counter is at 1, and the cache and the queue are empty. |
| `BuildSpec.Seed` | main.cpp:238 | Seeding appends the item `(root, root's state)` to the queue and changes nothing else. |
| `BuildSpec.Process` | main.cpp:191-225 | An item that does not claim its state changes nothing. Such an item names no node, or its state is terminal, or its state is already cached. Any item may only add nodes, and never changes the state or id of an existing node. The cache only gains entries and never rewrites one. |
| `BuildSpec.Step` | main.cpp:188-229 | One pass of the worker loop changes nothing on an empty queue. Otherwise it strictly lowers the remaining work, measured as the sum of `L!` over queued states of length `L`. Every queued state keeps at least one token. Node states, ids and cache entries are kept. |
| `BuildSpec.Drain` | main.cpp:240-250 | The worker loop ends with an empty queue, where the source's shutdown hangs (see below). Every node existing at the start keeps its state and id. The cache keeps every entry it had. |
| `BuildSpec.BuiltTree` | main.cpp:284-290 | Building from a non-empty initial state leaves the queue empty. |
| `BuildProofs.ExpansionEffect` | main.cpp:205-224 | On expansion, the cache gains exactly the expanded state, mapped to the node's id, and other entries are unchanged. The node's children are `n - 1` new nodes holding the successors in pair-index order. Their ids follow the counter. One item per child is queued behind the old ones. The counter advances by the number of children. No other node changes. |
| `BuildProofs.DuplicateOrTerminalIsNoOp` | main.cpp:194-204 | An item whose state is terminal or already cached leaves the tree, the cache, the counter and the queue unchanged. In particular, its node gets no children. |
| `BuildProofs.StepPreservesInv` | main.cpp:186-229 | Every pass of the worker loop keeps the build invariant. Ids are 1, 2, ... in creation order, and the counter holds the last one. The queue holds exactly the unpopped nodes, in creation order, each with its own state. Cached states are non-terminal and held by the node whose id they record. A node has children exactly when it is that node. Children are consecutive later nodes holding the successors in order. |
| `BuildProofs.AtMostOnceExpansion` | main.cpp:199-206 | Two nodes that both have children never hold the same state. So each state is expanded at most once. |
| `BuildProofs.UniqueParent` | main.cpp:212-224 | A node is a child of at most one node, at one position. This is strict tree ownership. |
| `BuildProofs.DrainedNodeKinds` | main.cpp:186-231 | After the loop, every node is one of three kinds: a terminal leaf; the single node that expanded its state, with the successors as children; or a leaf whose state another node expanded. |
| `BuildProofs.DrainedCacheIsClosed` | main.cpp:201-219 | After the loop, each successor of a cached state is held by a child of the expanding node. That successor is terminal or cached itself. |
| `BuildProofs.ReachableStatesInTree` | main.cpp:209-219 | After the loop, every state reachable from the root by legal moves is held by some node. Every such non-terminal state is in the cache. |
| `BuildProofs.BuiltTreeCoversReachableStates` | main.cpp:233-257 | The finished tree keeps the invariant, and its root is node 0 with id 1. Every node holds a reachable state. Every reachable state is held by a node, and every reachable non-terminal state is in the cache, so `AtMostOnceExpansion` makes its expanding node unique. The counter equals the number of nodes. |
| `TreeBuilders.TreeBuilder.constructor` | main.cpp:284-286 | The builder starts in the initial build state for the root: one node with id 1, the counter at 1, an empty cache and an empty queue. |
| `TreeBuilders.TreeBuilder.ProcessItem` | main.cpp:191-225 | The per-item processing leaves the builder in exactly the state `Process` gives. |
| `TreeBuilders.TreeBuilder.AddChildren` | main.cpp:212-219 | The child loop appends one node per successor, with ids following the counter. It queues `(child, state)` for each child in order and returns the new handles. |
| `TreeBuilders.TreeBuilder.WorkerIteration` | main.cpp:189-228 | One pass of the worker loop pops exactly when the queue is non-empty. It leaves the builder in exactly the state `Step` gives. |
| `TreeBuilders.TreeBuilder.BuildTree` | main.cpp:233-257 | Seeding the root and running the worker loop until the queue is empty leaves the builder in exactly the state `Drain(Seed(...))` gives. |

## Left out

- Threads, `std::mutex`, `std::atomic`, the condition variable, `stop_flag`, `active_workers`, `yield` and the sleep-poll wait (main.cpp:178-184, 186-188, 226-230, 234-256) are not modelled. One worker drains the queue in a sequential loop. That behaves like the interleaving in which each popped item is processed to the end before the next pop. In other interleavings a worker can be preempted between `try_pop` (main.cpp:190) and its cache claim (main.cpp:200-205), so a later item can claim a repeated state first. Which node expands that state, which id the cache records for it, and the ids below it can then differ. That is not modelled.
- The shutdown of `buildTreeMultithreaded` is not modelled, because as written it never happens. A worker increments `active_workers` on entry (main.cpp:187) and decrements it only after its loop (main.cpp:230). That loop exits only once `stop_flag` is set (main.cpp:188). The coordinator sets `stop_flag` (main.cpp:250) only after it sees an empty queue with `active_workers == 0` (main.cpp:247). The queue can only empty after some worker has popped from it, so `active_workers` is then at least 1. The coordinator therefore polls forever, and `main` never writes its output. `BuildTree` and `Drain` stop at the empty queue, which is the evident intent.
- The `std::hash<GameState>` specialization (main.cpp:97-111) is not modelled, because only equality decides cache lookups.
- `generateRandomSequence` (main.cpp:259-269) is not modelled. The initial state is a parameter.
- JSON output (`GameState::toJsonString`, `GameTreeNode::toJsonString`, main.cpp:78-94, 121-140) is not modelled; its `winner` and `is_terminal` fields are `Winner` and `IsTerminal`.
- `main`'s timing, console output and file writing (main.cpp:271-319) are not modelled, except for the set-up of the root node and the counter.
- Integer widths are not modelled. Scores, token sums and the node counter are unbounded integers, so a 32-bit `int` overflow in the source is not captured. A play of `n` tokens changes each score by at most `2(n - 1)`.
- An empty token sequence is excluded: `NextStates`, `Process` and the build require at least one token. In the source, `generateNextStates` on an empty vector calls `reserve(size() - 1)` (main.cpp:46), which is `reserve(SIZE_MAX)`. That throws `std::length_error` before the loop runs, and uncaught in a worker thread it ends the program through `std::terminate`. The only sequence `main` builds has 14 tokens, and every move keeps at least one token. `Process` and `ProcessItem` also require a non-empty state for an item with a null node, which the source would skip before reading its state (main.cpp:191). No item with a null node is ever queued: the invariant shows that every queued handle is in the arena.
- The null-node check of the worker (main.cpp:191) is modelled as a handle outside the arena. The invariant shows that no queued item carries such a handle.
- Ownership by `unique_ptr` is modelled by the arena. `UniqueParent` states that each node has at most one parent. That every non-root node is some node's child is not stated.
- `vector::reserve` (main.cpp:46, 213) is not modelled. On a non-empty sequence it only sets capacity. On an empty one it throws, which is the case excluded above.
