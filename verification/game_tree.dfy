/**
 * The records the tree builder works with (GameTreeNode and WorkItem in
 * main.cpp). Nodes live in an arena, a sequence indexed by handle; a
 * handle stands where the source holds a pointer to a node.
 */
module GameTree {
  import opened GameStates

  /** Index of a node in the arena; a value outside the arena plays the null pointer. */
  type Handle = int

  /** The handle a default-constructed work item carries. */
  const NullHandle: Handle := -1

  /** A node of the game tree: its state, its children in order, and its id. */
  datatype GameTreeNode = GameTreeNode(state: GameState, children: seq<Handle>, id: int)

  /** A pending expansion: the node that holds `currentState`, and that state. */
  datatype WorkItem = WorkItem(parentNode: Handle, currentState: GameState)

  /** WorkItem(): a null node and the default state (empty sequence, zero scores, player 1 to move). */
  function DefaultWorkItem(): (w: WorkItem)
    ensures w.parentNode < 0
    ensures w.currentState.sequence == [] && w.currentState.isPlayer1Turn
    ensures w.currentState.player1Score == 0 && w.currentState.player2Score == 0
  {
    WorkItem(NullHandle, GameState([], 0, 0, true))
  }
}
