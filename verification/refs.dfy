/**
 * Object identities. The program links its objects through raw pointers;
 * here every pointer is the address of an object in an arena, a plain
 * number that says WHICH object is meant and nothing about its contents.
 * A node's address is not its `_id`: two nodes may share an `_id`, never an address.
 */
module Refs {

  /** Address of a `GraphNode` in the answer graph. */
  type NodeRef = nat

  /** Address of a `GraphEdge`. */
  type EdgeRef = nat

  /** Address of a `ChatLogic` controller. */
  type LogicRef = nat

  /** Address of a heap-allocated `ChatBot` object. */
  type BotAddr = nat

  /** Opaque handle of an avatar image (`wxBitmap`). */
  type ImageRef = nat
}
