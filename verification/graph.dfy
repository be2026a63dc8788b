/**
 * The answer graph as an arena: every node, edge and chat-logic controller
 * is stored under its address, and pointers between them are addresses.
 * Ownership is stated as invariants over the arena rather than as memory
 * management: a node owns the edges in its child list, and a node's bot slot
 * owns the one bot it holds.
 */
module Graph {
  import opened Wrappers
  import opened Refs
  import ChatBot
  import GraphEdge
  import GraphNode

  /**
   * The part of a `ChatLogic` controller this model needs: its non-owned
   * pointer to the chat bot, which `MoveChatbotHere(ChatBot&&)` updates.
   */
  datatype Logic = Logic(chatBot: Option<BotAddr>)

  datatype World = World(
    nodes: map<NodeRef, GraphNode.Node>,
    edges: map<EdgeRef, GraphEdge.Edge>,
    logics: map<LogicRef, Logic>)

  /** Node `n` exists and its slot holds a bot. */
  predicate Holds(w: World, n: NodeRef)
  {
    n in w.nodes && w.nodes[n].chatBot.Some?
  }

  /** Every node whose slot holds a bot. */
  function Holders(w: World): set<NodeRef>
  {
    set n | n in w.nodes && w.nodes[n].chatBot.Some?
  }

  /** The addresses of all bot objects owned by some node. */
  function LiveBots(w: World): set<BotAddr>
  {
    set n | n in w.nodes && w.nodes[n].chatBot.Some? :: w.nodes[n].chatBot.value.addr
  }

  /**
   * The relocation invariant: at most one node holds a bot, and a held bot's
   * current node is the node holding it.
   */
  ghost predicate BotInvariant(w: World)
  {
    && (forall a, b :: Holds(w, a) && Holds(w, b) ==> a == b)
    && (forall a :: Holds(w, a) ==> w.nodes[a].chatBot.value.bot.currentNode == Some(a))
  }

  /**
   * No bot object is owned by two slots: a `unique_ptr` has a single owner
   * and a `ChatBot` cannot be copied.
   */
  ghost predicate UniqueBots(w: World)
  {
    forall a, b :: Holds(w, a) && Holds(w, b) && w.nodes[a].chatBot.value.addr == w.nodes[b].chatBot.value.addr ==> a == b
  }

  /** No slot owns the bot object at `addr`. */
  ghost predicate Unowned(w: World, addr: BotAddr)
  {
    forall n :: Holds(w, n) ==> w.nodes[n].chatBot.value.addr != addr
  }

  /** The invariant holds and the one bot is at `n`. */
  ghost predicate LocatedAt(w: World, n: NodeRef)
  {
    BotInvariant(w) && Holds(w, n)
  }

  /** Every controller's non-null bot pointer refers to a bot some node owns. */
  predicate HandlesResolve(w: World)
  {
    forall l :: l in w.logics && w.logics[l].chatBot.Some? ==> w.logics[l].chatBot.value in LiveBots(w)
  }

  /** Position `i` of node `n`'s child list holds a non-null pointer to edge `e`. */
  predicate OwnsAt(w: World, n: NodeRef, i: int, e: EdgeRef)
  {
    n in w.nodes && 0 <= i < |w.nodes[n].childEdges| && w.nodes[n].childEdges[i] == Some(e)
  }

  /**
   * Edge ownership: every owned edge exists in the arena, no edge is owned
   * twice (by two nodes or at two positions), and no edge exists without an owner.
   */
  ghost predicate EdgesOwned(w: World)
  {
    && (forall n, i, e :: OwnsAt(w, n, i, e) ==> e in w.edges)
    && (forall n, i, m, j, e :: OwnsAt(w, n, i, e) && OwnsAt(w, m, j, e) ==> n == m && i == j)
    && (forall e :: e in w.edges ==> exists n, i :: OwnsAt(w, n, i, e))
  }

  lemma HoldersMeaning(w: World)
    ensures forall n :: n in Holders(w) <==> Holds(w, n)
    ensures forall n :: Holds(w, n) ==> w.nodes[n].chatBot.value.addr in LiveBots(w)
    ensures Holders(w) == {} <==> LiveBots(w) == {}
  {
    if a :| a in LiveBots(w) {
      var n :| n in w.nodes && w.nodes[n].chatBot.Some? && w.nodes[n].chatBot.value.addr == a;
      assert n in Holders(w);
    }
    if n :| n in Holders(w) {
      assert w.nodes[n].chatBot.value.addr in LiveBots(w);
    }
  }

  /** The two readings of single ownership agree with the holders and the live bots. */
  lemma OwnershipMeaning(w: World)
    ensures forall a :: Unowned(w, a) <==> a !in LiveBots(w)
    ensures BotInvariant(w) ==> UniqueBots(w)
  {
    forall a | a in LiveBots(w)
      ensures !Unowned(w, a)
    {
      var n :| n in w.nodes && w.nodes[n].chatBot.Some? && w.nodes[n].chatBot.value.addr == a;
      assert Holds(w, n);
    }
  }

  /**
   * A graph of freshly constructed nodes, before any edge is added: edge
   * ownership holds trivially, no node holds a bot, and so the relocation
   * invariant holds.
   */
  lemma FreshNodesWellFormed(w: World)
    requires forall n :: n in w.nodes ==> w.nodes[n] == GraphNode.NewNode(GraphNode.GetID(w.nodes[n]))
    requires w.edges == map[]
    ensures EdgesOwned(w)
    ensures Holders(w) == {} && LiveBots(w) == {}
    ensures BotInvariant(w) && UniqueBots(w)
  {
    forall n, i, e
      ensures !OwnsAt(w, n, i, e)
    {
      if n in w.nodes {
        assert w.nodes[n].childEdges == [];
      }
    }
    forall n
      ensures !Holds(w, n)
    {
      if n in w.nodes {
        assert w.nodes[n].chatBot == None;
      }
    }
    HoldersMeaning(w);
  }

  /**
   * `dst->MoveChatbotHere(ptr)` called through the arena: only node `dst`
   * changes, and it changes as the node operation says. The pointer is passed
   * by value, so no slot owns the incoming bot.
   */
  function MoveChatbotHere(w: World, dst: NodeRef, incoming: Option<GraphNode.Owned>): (r: World)
    requires dst in w.nodes
    requires incoming != None ==> Unowned(w, incoming.value.addr)
    ensures r.nodes.Keys == w.nodes.Keys && r.edges == w.edges && r.logics == w.logics
    ensures forall n :: n in w.nodes && n != dst ==> r.nodes[n] == w.nodes[n]
    ensures r.nodes[dst] == GraphNode.MoveChatbotHere(w.nodes[dst], dst, incoming)
  {
    w.(nodes := w.nodes[dst := GraphNode.MoveChatbotHere(w.nodes[dst], dst, incoming)])
  }

  /**
   * `src->MoveChatbotToNewNode(dst)`. The pointer in the source slot is moved
   * into the by-value parameter, which empties the source, and then into the
   * destination. When `dst == src` the slot is emptied and refilled with the
   * same bot; when the source is empty the destination slot is overwritten
   * with null and any bot it held is destroyed.
   */
  function MoveChatbotToNewNode(w: World, src: NodeRef, dst: NodeRef): (r: World)
    requires src in w.nodes && dst in w.nodes
    requires UniqueBots(w)
    ensures r.nodes.Keys == w.nodes.Keys && r.edges == w.edges && r.logics == w.logics
    ensures forall n :: n in w.nodes && n != src && n != dst ==> r.nodes[n] == w.nodes[n]
    ensures GraphNode.GetChatBot(r.nodes[dst]) == GraphNode.GetChatBot(w.nodes[src])
    ensures src != dst ==> GraphNode.GetChatBot(r.nodes[src]) == None
    ensures Holds(r, dst) ==>
      r.nodes[dst].chatBot.value.bot == ChatBot.SetCurrentNode(w.nodes[src].chatBot.value.bot, Some(dst))
    ensures r.nodes[src].(chatBot := w.nodes[src].chatBot) == w.nodes[src]
    ensures r.nodes[dst].(chatBot := w.nodes[dst].chatBot) == w.nodes[dst]
  {
    var moved := w.nodes[src].chatBot;
    var emptied := w.(nodes := w.nodes[src := w.nodes[src].(chatBot := None)]);
    MoveChatbotHere(emptied, dst, moved)
  }

  /**
   * `dst->MoveChatbotHere(std::move(bot))`: the bot state is moved into a new
   * heap object at `addr` (fresh, as `make_unique` allocates) owned by `dst`;
   * if the bot has a controller, the controller's bot pointer now refers to
   * that object; and the bot's current node becomes `dst`. The controller must
   * exist, since the body dereferences it.
   */
  function MoveChatbotHereFromValue(w: World, dst: NodeRef, bot: ChatBot.Bot, addr: BotAddr): (r: World)
    requires dst in w.nodes
    requires addr !in LiveBots(w)
    requires bot.chatLogic != None ==> bot.chatLogic.value in w.logics
    ensures r.nodes.Keys == w.nodes.Keys && r.edges == w.edges && r.logics.Keys == w.logics.Keys
    ensures forall n :: n in w.nodes && n != dst ==> r.nodes[n] == w.nodes[n]
    ensures GraphNode.GetChatBot(r.nodes[dst]) == Some(addr)
    ensures r.nodes[dst].chatBot.value.bot == ChatBot.SetCurrentNode(bot, Some(dst))
    ensures r.nodes[dst].(chatBot := w.nodes[dst].chatBot) == w.nodes[dst]
    ensures bot.chatLogic != None ==> r.logics[bot.chatLogic.value].chatBot == Some(addr)
    ensures forall l :: l in w.logics && Some(l) != bot.chatLogic ==> r.logics[l] == w.logics[l]
  {
    var placed := w.(nodes := w.nodes[dst := w.nodes[dst].(chatBot := Some(GraphNode.Owned(addr, bot)))]);
    var linked :=
      match bot.chatLogic
      case None => placed
      case Some(l) => placed.(logics := placed.logics[l := Logic(Some(addr))]);
    linked.(nodes := linked.nodes[dst := linked.nodes[dst].(chatBot := Some(GraphNode.Owned(addr, ChatBot.SetCurrentNode(bot, Some(dst)))))])
  }

  /**
   * A non-null `unique_ptr<GraphEdge>`: the address of the edge object and the
   * edge stored there.
   */
  datatype OwnedEdge = OwnedEdge(ref: EdgeRef, edge: GraphEdge.Edge)

  /** The raw pointer a `unique_ptr<GraphEdge>` holds. */
  function EdgePointer(incoming: Option<OwnedEdge>): Option<EdgeRef>
  {
    match incoming
    case None => None
    case Some(o) => Some(o.ref)
  }

  /**
   * `n->AddEdgeToChildNode(std::move(edge))` through the arena: a non-null
   * edge, owned by nobody before, enters the arena at its address owned by
   * `n`; an empty pointer is appended as null and adds no edge.
   */
  function AddEdgeToChildNode(w: World, n: NodeRef, incoming: Option<OwnedEdge>): (r: World)
    requires n in w.nodes
    requires incoming != None ==> incoming.value.ref !in w.edges
    ensures incoming == None ==> r.edges == w.edges
    ensures incoming != None ==> r.edges == w.edges[incoming.value.ref := incoming.value.edge]
    ensures r.logics == w.logics && r.nodes.Keys == w.nodes.Keys
    ensures forall m :: m in w.nodes && m != n ==> r.nodes[m] == w.nodes[m]
    ensures r.nodes[n] == GraphNode.AddEdgeToChildNode(w.nodes[n], EdgePointer(incoming))
  {
    var edges := match incoming
      case None => w.edges
      case Some(o) => w.edges[o.ref := o.edge];
    World(w.nodes[n := GraphNode.AddEdgeToChildNode(w.nodes[n], EdgePointer(incoming))], edges, w.logics)
  }

  /** Edge `ref` replaced by `edge`; the nodes and controllers are not touched. */
  function UpdateEdge(w: World, ref: EdgeRef, edge: GraphEdge.Edge): (r: World)
    requires ref in w.edges
    ensures r.nodes == w.nodes && r.logics == w.logics
    ensures r.edges.Keys == w.edges.Keys && r.edges[ref] == edge
    ensures forall f :: f in w.edges && f != ref ==> r.edges[f] == w.edges[f]
  {
    w.(edges := w.edges[ref := edge])
  }

  /** `edge->SetChildNode(child)` through the arena: no node changes. */
  function SetEdgeChildNode(w: World, ref: EdgeRef, child: Option<NodeRef>): (r: World)
    requires ref in w.edges
    ensures r.nodes == w.nodes
    ensures r.edges.Keys == w.edges.Keys
    ensures GraphEdge.GetChildNode(r.edges[ref]) == child
    ensures GraphEdge.GetKeywords(r.edges[ref]) == GraphEdge.GetKeywords(w.edges[ref])
  {
    UpdateEdge(w, ref, GraphEdge.SetChildNode(w.edges[ref], child))
  }

  /** `edge->SetParentNode(parent)` through the arena: no node changes. */
  function SetEdgeParentNode(w: World, ref: EdgeRef, parent: Option<NodeRef>): (r: World)
    requires ref in w.edges
    ensures r.nodes == w.nodes
    ensures r.edges.Keys == w.edges.Keys
    ensures r.edges[ref].parentNode == parent
    ensures GraphEdge.GetChildNode(r.edges[ref]) == GraphEdge.GetChildNode(w.edges[ref])
  {
    UpdateEdge(w, ref, GraphEdge.SetParentNode(w.edges[ref], parent))
  }

  /** `edge->AddToken(token)` through the arena: no node changes. */
  function AddEdgeToken(w: World, ref: EdgeRef, token: string): (r: World)
    requires ref in w.edges
    ensures r.nodes == w.nodes
    ensures r.edges.Keys == w.edges.Keys
    ensures GraphEdge.GetKeywords(r.edges[ref]) == GraphEdge.GetKeywords(w.edges[ref]) + [token]
  {
    UpdateEdge(w, ref, GraphEdge.AddToken(w.edges[ref], token))
  }

  /** Edge operations only rewrite edges, so the edges' owners and ownership stay as they were. */
  lemma EdgeUpdatePreservesOwnership(w: World, ref: EdgeRef, edge: GraphEdge.Edge)
    requires ref in w.edges
    requires EdgesOwned(w)
    ensures EdgesOwned(UpdateEdge(w, ref, edge))
    ensures BotInvariant(UpdateEdge(w, ref, edge)) == BotInvariant(w)
  {
    var r := UpdateEdge(w, ref, edge);
    assert forall n, i, e :: OwnsAt(r, n, i, e) == OwnsAt(w, n, i, e);
    assert forall n :: Holds(r, n) == Holds(w, n);
  }

  /**
   * A node taking ownership of a new edge keeps edge ownership sound: a
   * non-null edge has exactly one owner, `n`, at the end of its child list; a
   * null pointer owns nothing; and every edge keeps the owner and position it had.
   */
  lemma AddEdgeToChildNodeKeepsOwnership(w: World, n: NodeRef, incoming: Option<OwnedEdge>)
    requires n in w.nodes
    requires incoming != None ==> incoming.value.ref !in w.edges
    requires EdgesOwned(w)
    ensures EdgesOwned(AddEdgeToChildNode(w, n, incoming))
    ensures incoming != None ==>
      OwnsAt(AddEdgeToChildNode(w, n, incoming), n, |w.nodes[n].childEdges|, incoming.value.ref)
    ensures forall m: NodeRef, i: int, e: EdgeRef :: OwnsAt(AddEdgeToChildNode(w, n, incoming), m, i, e) <==>
      OwnsAt(w, m, i, e) || (EdgePointer(incoming) == Some(e) && m == n && i == |w.nodes[n].childEdges|)
  {
    var r := AddEdgeToChildNode(w, n, incoming);
    var len := |w.nodes[n].childEdges|;
    var p := EdgePointer(incoming);
    assert r.nodes[n].childEdges == w.nodes[n].childEdges + [p];
    forall m: NodeRef, i: int, e: EdgeRef
      ensures OwnsAt(r, m, i, e) <==> OwnsAt(w, m, i, e) || (p == Some(e) && m == n && i == len)
    {
      if m == n && 0 <= i < len {
        assert r.nodes[n].childEdges[i] == w.nodes[n].childEdges[i];
      }
    }
    forall e | e in r.edges
      ensures exists m, i :: OwnsAt(r, m, i, e)
    {
      if p == Some(e) {
        assert OwnsAt(r, n, len, e);
      } else {
        var m, i :| OwnsAt(w, m, i, e);
        assert OwnsAt(r, m, i, e);
      }
    }
  }

  /**
   * `n->AddEdgeToParentNode(edge)` through the arena: the node records one
   * more incoming edge that it does not own, so edge ownership is unchanged.
   */
  function AddEdgeToParentNode(w: World, n: NodeRef, ref: Option<EdgeRef>): (r: World)
    requires n in w.nodes
    ensures r.edges == w.edges && r.logics == w.logics && r.nodes.Keys == w.nodes.Keys
    ensures forall m :: m in w.nodes && m != n ==> r.nodes[m] == w.nodes[m]
    ensures r.nodes[n] == GraphNode.AddEdgeToParentNode(w.nodes[n], ref)
  {
    w.(nodes := w.nodes[n := GraphNode.AddEdgeToParentNode(w.nodes[n], ref)])
  }

  /** Registering an incoming edge moves no ownership: owners and positions of all edges stay. */
  lemma AddEdgeToParentNodeKeepsOwnership(w: World, n: NodeRef, ref: Option<EdgeRef>)
    requires n in w.nodes
    ensures forall m, i, e :: OwnsAt(AddEdgeToParentNode(w, n, ref), m, i, e) <==> OwnsAt(w, m, i, e)
    ensures EdgesOwned(w) ==> EdgesOwned(AddEdgeToParentNode(w, n, ref))
  {
    var r := AddEdgeToParentNode(w, n, ref);
    assert forall m :: m in w.nodes ==> r.nodes[m].childEdges == w.nodes[m].childEdges;
  }
}
