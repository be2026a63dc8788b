# Chatbot answer graph: data model and bot relocation

This project models the core of a memory-management chatbot. The answer graph is made of `GraphNode`s and `GraphEdge`s. One `ChatBot` walks that graph and is owned by the node it is at; at most one node holds it. The model covers:

- the node and edge records, with their append operations and getters;
- the move-only bot and its non-owning references;
- the relocation protocol `MoveChatbotHere` / `MoveChatbotToNewNode`, which hands sole ownership of the bot from one node to another.

Pointers become addresses into an arena (module `Refs`). A `World` stores every node, edge and chat-logic controller under its address. Ownership is stated as invariants over that arena, not as memory management:

- a node owns the edges listed in its child list (`Graph.EdgesOwned`);
- a node's `unique_ptr<ChatBot>` slot owns the bot it holds (`Graph.BotInvariant`).

A non-null `unique_ptr<ChatBot>` is `GraphNode.Owned(addr, bot)`. Here `addr` is the heap object and `bot` is the state stored there. Moving the pointer keeps `addr`. Moving the bot by value into `make_unique` creates a new `addr`. This is why a controller's pointer to the bot survives `MoveChatbotToNewNode` but is rewritten by `MoveChatbotHere(ChatBot&&)`.

Modules:

- `Wrappers`: `Option`, standing for null pointers and empty `unique_ptr`s.
- `Refs`: object addresses.
- `ChatBot` (src/chatbot.h): bot state and its setters and getters.
- `GraphEdge` (src/graphedge.h): edge state, setters and keywords.
- `GraphNode` (src/graphnode.h, src/graphnode.cpp): node state and the per-node operations.
- `Graph`: the arena. Node and edge operations are called through it, and the ownership invariants are stated over it.
- `Relocation`: the relocation state machine and the invariants it preserves.

Two behaviours of the code shape the model:

- `MoveChatbotToNewNode` from a node whose slot is empty writes null into the destination, which destroys any bot held there. So the code keeps "at most one holder, and the holder is the bot's current node" (`Graph.BotInvariant`), not "exactly one". Exactly one holder (`Graph.LocatedAt`) is lost only when a move from an empty node targets the holder (`Relocation.MoveFromEmptySource`). A move that starts at the holder keeps it (`Relocation.RelocationFromHolder`), and so does a move that neither starts nor ends at the holder (`Relocation.MoveAvoidingHolderKeepsLocation`).
- The header exposes `SetChildNode`, `SetParentNode` and `AddToken`, so edges stay mutable after they are linked. These setters are modelled.

Edge pointers in a node's lists may be null: `AddEdgeToParentNode` and `AddEdgeToChildNode` append whatever pointer they are given, unchecked. The lists therefore hold `Option<EdgeRef>`, and only non-null entries own or name an edge. A `unique_ptr` passed by value is owned by nobody else. So `Graph.MoveChatbotHere` requires the incoming bot to be owned by no slot (`Graph.Unowned`), and `Graph.MoveChatbotToNewNode` requires that no bot object sits in two slots (`Graph.UniqueBots`, implied by `Graph.BotInvariant`).

## Model

| member | source | states |
|---|---|---|
| ChatBot.NewBot | src/chatbot.h:46-52 | A new bot has the image it was given (or none for the default constructor), and no current node, root node or controller. |
| ChatBot.SetCurrentNode | src/chatbot.h:69-70 | The bot records the given node as current; every other field is unchanged. |
| ChatBot.SetRootNode | src/chatbot.h:72 | Only the root reference changes. |
| ChatBot.SetChatLogicHandle | src/chatbot.h:74 | The getter returns the handle just set; nothing else changes. |
| ChatBot.GetChatLogicHandle | src/chatbot.h:76 | The controller reference, as last set by `SetChatLogicHandle`. |
| ChatBot.GetImageHandle | src/chatbot.h:78 | The avatar image the bot owns. |
| ChatBot.ChatLogicHandleRoundTrip | src/chatbot.h:74-76 | Get after set returns the last handle set, whatever was set before. |
| ChatBot.SetCurrentNodeKeepsOwnership | src/chatbot.h:27-35 | Updating the current node keeps the owned image, the root and the controller, and setting the old node back restores the bot. |
| GraphEdge.NewEdge | src/graphedge.h:36-43 | A new edge has the given id, no keywords and no parent or child. |
| GraphEdge.GetID | src/graphedge.h:43 | The edge's id; by `NewEdge`, the id given at construction. |
| GraphEdge.GetChildNode | src/graphedge.h:49 | The child reference, as last set by `SetChildNode`. |
| GraphEdge.GetKeywords | src/graphedge.h:51 | The keywords, in insertion order. |
| GraphEdge.SetChildNode | src/graphedge.h:44-49 | Afterwards `GetChildNode` returns the new child; id, parent and keywords are unchanged. |
| GraphEdge.SetParentNode | src/graphedge.h:46-47 | Only the parent reference changes. |
| GraphEdge.AddToken | src/graphedge.h:53-57 | One keyword is appended after the existing ones; nothing else changes. |
| GraphEdge.KeywordsInInsertionOrder | src/graphedge.h:50-57 | After adding any sequence of keywords, `GetKeywords` is the old list followed by exactly that sequence, and id and links are unchanged. |
| GraphEdge.LinkOrderIrrelevant | src/graphedge.h:44-49 | Setting child and parent gives the same edge in either order, and the child stays as set. |
| GraphNode.NewNode | src/graphnode.cpp:4-8 | A new node has the given id, an empty bot slot, no answers, and no child or parent edges. |
| GraphNode.FreshNodeGetters | src/graphnode.h:52-69 | Seen through its getters, a fresh node holds no bot and has no child edge at index 0; moving null into it changes nothing. |
| GraphNode.GetID | src/graphnode.h:57 | The node's id; by `NewNode`, the id given at construction. |
| GraphNode.GetNumberOfChildEdges | src/graphnode.h:59 | The length of the child-edge list, null entries included. |
| GraphNode.GetAnswers | src/graphnode.h:67 | The answers, in insertion order. |
| GraphNode.GetNumberOfParents | src/graphnode.h:69 | The length of the parent-edge list, null entries included. |
| GraphNode.GetChatBot | src/graphnode.cpp:52-55 | The address of the bot held in the slot, or null when the slot is empty. |
| GraphNode.HeldBots | src/graphnode.h:36-37 | A node holds at most one bot, and holds one exactly when `GetChatBot` is non-null. |
| GraphNode.AddToken | src/graphnode.cpp:19-22 | The answer is appended at the end, earlier answers keep their order, and the edges and bot slot are unchanged. |
| GraphNode.AnswersInInsertionOrder | src/graphnode.h:66-75 | After any sequence of `AddToken` calls, `GetAnswers` is the old answers followed by exactly those tokens. |
| GraphNode.AddEdgeToParentNode | src/graphnode.cpp:24-27 | One incoming edge pointer, null or not, is appended at the end; the parent count grows by one; child edges and everything else are untouched. |
| GraphNode.AddEdgeToChildNode | src/graphnode.cpp:29-32 | The edge pointer (null for an empty `unique_ptr`) is appended; the child count grows by exactly one; earlier edges keep their positions. |
| GraphNode.GetChildEdgeAtIndex | src/graphnode.cpp:65-74 | Unchecked indexing: the caller must pass an index inside the child list, and the result is a pointer from this node's child list. |
| GraphNode.ChildEdgeIndexAfterAppend | src/graphnode.cpp:65-74 | After an append, the new edge sits at the old count and every earlier index yields the edge it yielded before. |
| GraphNode.ChildEdgeAtIndexOrNull | src/graphnode.h:60-65 | The documented behaviour: null for an out-of-range index, otherwise the same pointer as `GetChildEdgeAtIndex`; a non-null result always comes from an in-range position. |
| GraphNode.UncheckedIndexOnFreshNode | src/graphnode.h:60-65 | On a node without edges, index 0 is outside what the unchecked body can serve, while the documented result is null. |
| GraphNode.MoveChatbotHere | src/graphnode.cpp:45-51 | The slot takes exactly the incoming pointer. A non-null bot's current node becomes this node and its other state is kept. A null pointer leaves the slot empty. The rest of the node is unchanged. |
| Graph.FreshNodesWellFormed | src/graphnode.cpp:4-8 | A graph of freshly constructed nodes and no edges has sound edge ownership, no bot, and the relocation invariant. |
| Graph.MoveChatbotHere | src/graphnode.cpp:45-51 | Called through the arena with a pointer no slot owns, only the destination node changes; edges and controllers are untouched. |
| Graph.MoveChatbotToNewNode | src/graphnode.cpp:57-61 | The destination holds what the source held, with its current node set to the destination. The source is empty unless it is the destination. No other node, edge or controller changes. |
| Graph.MoveChatbotHereFromValue | src/graphnode.cpp:36-43 | The slot owns the moved bot in a new object, and the bot's current node is this node. The bot's controller, if any, now points to that object. Other nodes and controllers are unchanged. |
| Graph.AddEdgeToChildNode | src/graphnode.cpp:29-32 | A handed-over non-null edge enters the arena, owned by this node; an empty pointer is appended as null and adds no edge; no other node changes. |
| Graph.AddEdgeToChildNodeKeepsOwnership | src/graphnode.h:31-32 | Edge ownership stays sound. A new non-null edge gets exactly one owner and position, and every other edge keeps its owner and position. |
| Graph.AddEdgeToParentNode | src/graphnode.cpp:24-27 | Registering an incoming edge changes only that node's parent list. |
| Graph.AddEdgeToParentNodeKeepsOwnership | src/graphnode.h:34-35 | Parent-edge references are non-owning: registering one leaves every edge's owner and position unchanged. |
| Graph.SetEdgeChildNode | src/graphedge.h:24-27 | Setting an edge's child changes no node, because an edge does not own its nodes. |
| Graph.SetEdgeParentNode | src/graphedge.h:46-47 | Setting an edge's parent changes no node and keeps its child. |
| Graph.AddEdgeToken | src/graphedge.h:53-57 | Adding a keyword changes no node and appends exactly that keyword. |
| Graph.UpdateEdge | src/graphedge.h:24-27 | Rewriting one edge leaves nodes, controllers and all other edges as they were. |
| Graph.EdgeUpdatePreservesOwnership | src/graphedge.h:24-27 | Edge operations keep edge ownership and the bot invariant exactly as they were. |
| Relocation.RelocationHolders | src/graphnode.cpp:57-61 | After a move, the destination holds a bot exactly when the source did; the other holders are those from before, minus source and destination. |
| Relocation.RelocationNeverDuplicates | src/chatbot.h:58-65 | The bot is never copied: every bot owned after a move was owned before, and the number of owning nodes never grows. |
| Relocation.RelocationPreservesInvariant | src/graphnode.cpp:57-61 | For any source and destination, "at most one holder, and the holder is the bot's current node" is preserved. |
| Relocation.RelocationFromHolder | src/graphnode.cpp:45-61 | Moving from the holder leaves exactly the destination holding the same bot object, with its current node set to the destination. Controllers' pointers to it still resolve. |
| Relocation.SelfMoveIsIdentity | src/graphnode.cpp:57-61 | A move to the same node empties the slot and refills it; under the invariant the graph ends as it began. |
| Relocation.MoveChatbotHereKeepsUniqueBots | src/graphnode.cpp:45-51 | Moving in a pointer no slot owns never lets two slots own the same bot object. |
| Relocation.MoveAvoidingHolderKeepsLocation | src/graphnode.cpp:57-61 | A move that neither starts nor ends at the bot's node leaves the bot where it is, alone. |
| Relocation.MoveFromEmptySource | src/graphnode.cpp:57-61 | A move from an empty node writes null into the destination: the destination's bot is destroyed and the other holders are unchanged. |
| Relocation.DiscardingBotKeepsNodes | src/chatbot.h:30-35 | Destroying the bot in a slot empties only that slot; no node is removed with it. |
| Relocation.PlacingBotEstablishesInvariant | src/graphnode.cpp:36-43 | Moving a bot by value into a graph with no other holder leaves exactly that node holding it, as the only live bot, with the controller pointing at it. Edge ownership is kept. |
| Relocation.RelocationKeepsEdgeOwnership | src/graphnode.cpp:57-61 | A relocation moves only the bot: every edge keeps its owner and position. |
| Relocation.FollowPath | src/graphnode.cpp:57-61 | Any number of successive moves leaves the set of nodes, edges and controllers unchanged. |
| Relocation.FollowPathKeepsOneBot | src/graphnode.cpp:57-61 | Along any sequence of moves that each start where the bot is, exactly the last destination holds the same bot, as its current node, and controllers still reach it. |
| Relocation.PlaceThenRelocate | src/graphnode.cpp:36-61 | Placing the bot at start-up and then moving it once leaves it alone at the second node, as the object its controller points to. Edge ownership is intact. |
| Relocation.ScenarioGraphWellFormed | src/graphnode.cpp:24-32 | A two-node graph, wired by one child append and one parent append, has sound edge ownership and no bot yet. |
| Relocation.RootToChildScenario | src/graphnode.cpp:36-61 | In that graph, the bot placed at node 0 and moved along the edge ends at node 1 alone, with the controller pointing at it. |

## Findings

| source | as written | input that shows it | evidently intended | confidence | as-written member | corrected member |
|---|---|---|---|---|---|---|
| src/graphnode.cpp:65-74 | `GetChildEdgeAtIndex` indexes `_childEdges` without a bounds check, although src/graphnode.h:60-65 documents a null result for an out-of-range index | a new node (no child edges), index 0: the vector read is out of bounds | return null when the index is outside `[0, size)` | high, not executed | GraphNode.GetChildEdgeAtIndex (its precondition), GraphNode.UncheckedIndexOnFreshNode | GraphNode.ChildEdgeAtIndexOrNull |

## Left out

- Edit distance, `ReceiveMessageFromUser` and the edge-selection algorithm are left out. `ComputeLevenshteinDistance` and `ReceiveMessageFromUser` are only declared in src/chatbot.h, and their bodies are not part of this model.
- The `ChatLogic` controller is left out except for its bot pointer. The bodies of `LoadAnswerGraphFromFile`, `AddAllTokensToElement`, root selection and message routing (src/chatlogic.h) are not part of this model. `SetChatbotHandle` is modelled as setting that pointer, as its comment says.
- The bodies in src/graphedge.cpp and src/chatbot.cpp are not part of this model. This covers the edge constructor and setters, `SetCurrentNode`, and the bot's constructors and move operations. They are modelled from their header comments. Constructors leave every reference null, and a bot move transfers the whole bot state unchanged.
- Avatar images (`wxBitmap`) are opaque handles. Loading one from a file is I/O, so the loaded handle is a parameter of `ChatBot.NewBot`.
- Destructors and heap freeing are left out. Ownership is arena membership plus an optional slot; a destroyed bot simply disappears from the slot.
- GUI code (src/chatgui.h) is left out.
- The getters `GetNumberOfChildEdges` and `GetNumberOfParents` return C++ `int` from a `size_t`. The model returns the exact length as a `nat` and does not model truncation for lists beyond `INT_MAX` entries.
- Relocation.FollowPath models repeated calls of `MoveChatbotToNewNode` along a given list of destinations. It does not model how the program chooses each destination.
