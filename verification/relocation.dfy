/**
 * The chat bot relocation protocol (src/graphnode.cpp, `MoveChatbotHere` and
 * `MoveChatbotToNewNode`) as a state machine over the arena, and the ownership
 * invariants it keeps: at most one node holds the bot, the bot's current node
 * is that node, no move creates or duplicates a bot, and a controller's
 * pointer to the bot survives relocation.
 */
module Relocation {
  import opened Wrappers
  import opened Refs
  import ChatBot
  import GraphEdge
  import GraphNode
  import opened Graph

  /**
   * Which nodes hold a bot after a relocation: the destination exactly when
   * the source held one, and otherwise the holders from before minus source
   * and destination.
   */
  lemma RelocationHolders(w: World, src: NodeRef, dst: NodeRef)
    requires src in w.nodes && dst in w.nodes
    requires UniqueBots(w)
    ensures Holders(MoveChatbotToNewNode(w, src, dst))
         == (Holders(w) - {src, dst}) + (if Holds(w, src) then {dst} else {})
  {
    var r := MoveChatbotToNewNode(w, src, dst);
    forall n
      ensures n in Holders(r) <==> n in (Holders(w) - {src, dst}) + (if Holds(w, src) then {dst} else {})
    {
      HoldersMeaning(w);
      HoldersMeaning(r);
    }
  }

  /**
   * The bot is only ever moved: every bot owned after a relocation was owned
   * before, and the number of owning nodes never grows.
   */
  lemma RelocationNeverDuplicates(w: World, src: NodeRef, dst: NodeRef)
    requires src in w.nodes && dst in w.nodes
    requires UniqueBots(w)
    ensures LiveBots(MoveChatbotToNewNode(w, src, dst)) <= LiveBots(w)
    ensures |Holders(MoveChatbotToNewNode(w, src, dst))| <= |Holders(w)|
  {
    var r := MoveChatbotToNewNode(w, src, dst);
    RelocationHolders(w, src, dst);
    forall a | a in LiveBots(r)
      ensures a in LiveBots(w)
    {
      var n :| n in r.nodes && r.nodes[n].chatBot.Some? && r.nodes[n].chatBot.value.addr == a;
      if n == dst {
        assert w.nodes[src].chatBot.value.addr == a;
      } else {
        assert w.nodes[n] == r.nodes[n];
      }
    }
    if Holds(w, src) {
      assert Holders(r) <= Holders(w) - {src} + {dst};
      if src == dst {
        assert Holders(r) <= Holders(w);
      } else {
        assert Holders(r) == (Holders(w) - {src, dst}) + {dst};
        assert |Holders(w) - {src, dst}| <= |Holders(w)| - 1;
      }
    } else {
      assert Holders(r) <= Holders(w);
    }
    SubsetCardinality(Holders(r), Holders(w) - {src} + {dst});
  }

  /** Helper: a subset is no larger. */
  lemma SubsetCardinality<T>(a: set<T>, b: set<T>)
    requires a <= b
    ensures |a| <= |b|
  {
    assert b == a + (b - a);
  }

  /**
   * Relocation preserves the invariant, from any source to any destination:
   * at most one holder, and the holder is the bot's current node.
   */
  lemma RelocationPreservesInvariant(w: World, src: NodeRef, dst: NodeRef)
    requires src in w.nodes && dst in w.nodes
    requires BotInvariant(w)
    ensures BotInvariant(MoveChatbotToNewNode(w, src, dst))
  {
    var r := MoveChatbotToNewNode(w, src, dst);
    RelocationHolders(w, src, dst);
    HoldersMeaning(w);
    HoldersMeaning(r);
    forall a | Holds(r, a)
      ensures r.nodes[a].chatBot.value.bot.currentNode == Some(a)
    {
      if a != dst {
        assert Holds(w, a) && r.nodes[a] == w.nodes[a];
      }
    }
  }

  /**
   * Moving the bot from the node that holds it: afterwards exactly the
   * destination holds it, the bot records the destination as its current
   * node, the same bot object is owned as before, and every controller's
   * pointer to it still resolves.
   */
  lemma RelocationFromHolder(w: World, src: NodeRef, dst: NodeRef)
    requires LocatedAt(w, src) && dst in w.nodes
    ensures LocatedAt(MoveChatbotToNewNode(w, src, dst), dst)
    ensures Holders(MoveChatbotToNewNode(w, src, dst)) == {dst}
    ensures LiveBots(MoveChatbotToNewNode(w, src, dst)) == LiveBots(w)
    ensures MoveChatbotToNewNode(w, src, dst).nodes[dst].chatBot.value.bot.currentNode == Some(dst)
    ensures HandlesResolve(w) ==> HandlesResolve(MoveChatbotToNewNode(w, src, dst))
  {
    var r := MoveChatbotToNewNode(w, src, dst);
    RelocationHolders(w, src, dst);
    RelocationPreservesInvariant(w, src, dst);
    HoldersMeaning(w);
    HoldersMeaning(r);
    assert Holders(w) == {src};
    SingleHolderBots(w, src);
    SingleHolderBots(r, dst);
  }

  /** Helper: two graphs that differ at most at node `n` agree on every other holder. */
  lemma HoldersOutside(w: World, r: World, n: NodeRef)
    requires r.nodes.Keys == w.nodes.Keys
    requires forall m :: m in w.nodes && m != n ==> r.nodes[m] == w.nodes[m]
    ensures Holders(r) - {n} == Holders(w) - {n}
  {
  }

  /** With one holder, the owned bots are exactly that holder's bot. */
  lemma SingleHolderBots(w: World, n: NodeRef)
    requires Holders(w) == {n}
    ensures Holds(w, n)
    ensures LiveBots(w) == {w.nodes[n].chatBot.value.addr}
  {
    HoldersMeaning(w);
    forall a | a in LiveBots(w)
      ensures a == w.nodes[n].chatBot.value.addr
    {
      var m :| m in w.nodes && w.nodes[m].chatBot.Some? && w.nodes[m].chatBot.value.addr == a;
      assert m in Holders(w);
    }
  }

  /**
   * Moving to itself: the by-value parameter empties the slot and then
   * refills it, so under the invariant the graph ends exactly as it began.
   */
  lemma SelfMoveIsIdentity(w: World, n: NodeRef)
    requires n in w.nodes
    requires BotInvariant(w)
    ensures MoveChatbotToNewNode(w, n, n) == w
  {
    var r := MoveChatbotToNewNode(w, n, n);
    assert r.nodes[n] == w.nodes[n];
    assert r.nodes == w.nodes;
  }

  /**
   * Moving a pointer no slot owns into a node keeps every bot object owned by
   * at most one slot.
   */
  lemma MoveChatbotHereKeepsUniqueBots(w: World, dst: NodeRef, incoming: Option<GraphNode.Owned>)
    requires dst in w.nodes
    requires incoming != None ==> Unowned(w, incoming.value.addr)
    requires UniqueBots(w)
    ensures UniqueBots(MoveChatbotHere(w, dst, incoming))
  {
    var r := MoveChatbotHere(w, dst, incoming);
    forall a, b | Holds(r, a) && Holds(r, b) && r.nodes[a].chatBot.value.addr == r.nodes[b].chatBot.value.addr
      ensures a == b
    {
      assert a != dst ==> Holds(w, a) && r.nodes[a] == w.nodes[a];
      assert b != dst ==> Holds(w, b) && r.nodes[b] == w.nodes[b];
    }
  }

  /**
   * A move that neither starts nor ends at the bot's node leaves exactly that
   * node holding it: only a move from an empty node onto the holder loses it.
   */
  lemma MoveAvoidingHolderKeepsLocation(w: World, h: NodeRef, src: NodeRef, dst: NodeRef)
    requires LocatedAt(w, h)
    requires src in w.nodes && dst in w.nodes
    requires src != h && dst != h
    ensures LocatedAt(MoveChatbotToNewNode(w, src, dst), h)
    ensures MoveChatbotToNewNode(w, src, dst).nodes[h] == w.nodes[h]
  {
    RelocationPreservesInvariant(w, src, dst);
  }

  /**
   * Moving from an empty node writes null into the destination: whatever bot
   * the destination held is destroyed, and no other node changes.
   */
  lemma MoveFromEmptySource(w: World, src: NodeRef, dst: NodeRef)
    requires src in w.nodes && dst in w.nodes
    requires UniqueBots(w)
    requires !Holds(w, src)
    ensures !Holds(MoveChatbotToNewNode(w, src, dst), dst)
    ensures Holders(MoveChatbotToNewNode(w, src, dst)) == Holders(w) - {dst}
    ensures BotInvariant(w) ==>
      LiveBots(MoveChatbotToNewNode(w, src, dst)) == LiveBots(w) - GraphNode.HeldBots(w.nodes[dst])
  {
    var r := MoveChatbotToNewNode(w, src, dst);
    RelocationHolders(w, src, dst);
    if BotInvariant(w) {
      forall a
        ensures a in LiveBots(r) <==> a in LiveBots(w) - GraphNode.HeldBots(w.nodes[dst])
      {
        if a in LiveBots(r) {
          var n :| n in r.nodes && r.nodes[n].chatBot.Some? && r.nodes[n].chatBot.value.addr == a;
          assert n != dst && w.nodes[n] == r.nodes[n];
          if a in GraphNode.HeldBots(w.nodes[dst]) {
            assert Holds(w, dst) && Holds(w, n);
          }
        }
        if a in LiveBots(w) - GraphNode.HeldBots(w.nodes[dst]) {
          var n :| n in w.nodes && w.nodes[n].chatBot.Some? && w.nodes[n].chatBot.value.addr == a;
          assert n != dst && n != src && w.nodes[n] == r.nodes[n];
        }
      }
    }
  }

  /**
   * Discarding the bot at `dst` (moving null into it) changes nothing but
   * that slot: the bot's references are non-owning, so no node goes with it.
   */
  lemma DiscardingBotKeepsNodes(w: World, dst: NodeRef)
    requires dst in w.nodes
    ensures Holders(MoveChatbotHere(w, dst, None)) == Holders(w) - {dst}
    ensures MoveChatbotHere(w, dst, None).nodes.Keys == w.nodes.Keys
    ensures MoveChatbotHere(w, dst, None).nodes[dst] == w.nodes[dst].(chatBot := None)
  {
    var r := MoveChatbotHere(w, dst, None);
    HoldersMeaning(w);
    HoldersMeaning(r);
    assert forall n :: Holds(r, n) <==> Holds(w, n) && n != dst;
  }

  /**
   * Placing a freshly moved bot into a graph where no other node holds one
   * establishes the invariant with the bot at `dst`, and the bot's
   * controller, if any, now points at it.
   */
  lemma PlacingBotEstablishesInvariant(w: World, dst: NodeRef, bot: ChatBot.Bot, addr: BotAddr)
    requires dst in w.nodes
    requires Holders(w) <= {dst}
    requires addr !in LiveBots(w)
    requires bot.chatLogic != None ==> bot.chatLogic.value in w.logics
    ensures LocatedAt(MoveChatbotHereFromValue(w, dst, bot, addr), dst)
    ensures LiveBots(MoveChatbotHereFromValue(w, dst, bot, addr)) == {addr}
    ensures bot.chatLogic != None ==>
      MoveChatbotHereFromValue(w, dst, bot, addr).logics[bot.chatLogic.value].chatBot == Some(addr)
    ensures Holders(w) == {} && HandlesResolve(w) ==> HandlesResolve(MoveChatbotHereFromValue(w, dst, bot, addr))
    ensures EdgesOwned(w) ==> EdgesOwned(MoveChatbotHereFromValue(w, dst, bot, addr))
  {
    var r := MoveChatbotHereFromValue(w, dst, bot, addr);
    assert forall m, i, e :: OwnsAt(r, m, i, e) <==> OwnsAt(w, m, i, e) by {
      assert forall m :: m in w.nodes ==> r.nodes[m].childEdges == w.nodes[m].childEdges;
    }
    HoldersMeaning(w);
    HoldersMeaning(r);
    HoldersOutside(w, r, dst);
    assert Holders(r) == {dst};
    SingleHolderBots(r, dst);
  }

  /** The destination of the last move along `path` starting at `at`. */
  function LastStop(at: NodeRef, path: seq<NodeRef>): NodeRef
  {
    if path == [] then at else path[|path| - 1]
  }

  /**
   * The graph after the bot is moved along `path`, one `MoveChatbotToNewNode`
   * per step, each step starting from the node the previous one reached.
   */
  function FollowPath(w: World, at: NodeRef, path: seq<NodeRef>): (r: World)
    requires at in w.nodes
    requires BotInvariant(w)
    requires forall i :: 0 <= i < |path| ==> path[i] in w.nodes
    ensures r.nodes.Keys == w.nodes.Keys && r.edges == w.edges && r.logics == w.logics
    decreases |path|
  {
    if path == [] then w
    else
      RelocationPreservesInvariant(w, at, path[0]);
      FollowPath(MoveChatbotToNewNode(w, at, path[0]), path[0], path[1..])
  }

  /**
   * After any sequence of relocations that each start where the bot is, the
   * bot is owned by exactly one node, the last destination, which is also its
   * current node; it is the same bot object, and controllers still reach it.
   */
  lemma {:induction false} FollowPathKeepsOneBot(w: World, at: NodeRef, path: seq<NodeRef>)
    requires LocatedAt(w, at)
    requires forall i :: 0 <= i < |path| ==> path[i] in w.nodes
    ensures LocatedAt(FollowPath(w, at, path), LastStop(at, path))
    ensures Holders(FollowPath(w, at, path)) == {LastStop(at, path)}
    ensures LiveBots(FollowPath(w, at, path)) == LiveBots(w)
    ensures HandlesResolve(w) ==> HandlesResolve(FollowPath(w, at, path))
    decreases |path|
  {
    if path == [] {
      HoldersMeaning(w);
      assert forall n :: n in Holders(w) ==> n == at;
    } else {
      var next := MoveChatbotToNewNode(w, at, path[0]);
      RelocationFromHolder(w, at, path[0]);
      assert forall i :: 0 <= i < |path[1..]| ==> path[1..][i] in next.nodes by {
        forall i | 0 <= i < |path[1..]| ensures path[1..][i] in next.nodes {
          assert path[1..][i] == path[i + 1];
        }
      }
      FollowPathKeepsOneBot(next, path[0], path[1..]);
      assert LastStop(path[0], path[1..]) == LastStop(at, path);
    }
  }

  /** Relocation moves only the bot: every edge keeps its owner and position. */
  lemma RelocationKeepsEdgeOwnership(w: World, src: NodeRef, dst: NodeRef)
    requires src in w.nodes && dst in w.nodes
    requires UniqueBots(w)
    ensures forall m, i, e :: OwnsAt(MoveChatbotToNewNode(w, src, dst), m, i, e) <==> OwnsAt(w, m, i, e)
    ensures EdgesOwned(w) ==> EdgesOwned(MoveChatbotToNewNode(w, src, dst))
  {
    var r := MoveChatbotToNewNode(w, src, dst);
    assert forall m :: m in w.nodes ==> r.nodes[m].childEdges == w.nodes[m].childEdges;
  }

  /**
   * A two-node graph: node 0 owns an edge to node 1, which node 1 registers
   * as incoming.
   */
  function ScenarioGraph(): World
  {
    var edge := GraphEdge.SetChildNode(GraphEdge.SetParentNode(GraphEdge.NewEdge(7), Some(0)), Some(1));
    var empty := World(map[0 := GraphNode.NewNode(1), 1 := GraphNode.NewNode(2)], map[], map[0 := Logic(None)]);
    AddEdgeToParentNode(AddEdgeToChildNode(empty, 0, Some(OwnedEdge(0, edge))), 1, Some(0))
  }

  lemma ScenarioGraphWellFormed()
    ensures ScenarioGraph().nodes.Keys == {0, 1} && 0 in ScenarioGraph().edges
    ensures ScenarioGraph().logics.Keys == {0}
    ensures GraphEdge.GetChildNode(ScenarioGraph().edges[0]) == Some(1)
    ensures EdgesOwned(ScenarioGraph())
    ensures Holders(ScenarioGraph()) == {} && LiveBots(ScenarioGraph()) == {}
  {
    var edge := GraphEdge.SetChildNode(GraphEdge.SetParentNode(GraphEdge.NewEdge(7), Some(0)), Some(1));
    var empty := World(map[0 := GraphNode.NewNode(1), 1 := GraphNode.NewNode(2)], map[], map[0 := Logic(None)]);
    assert EdgesOwned(empty) by {
      assert forall n :: n in empty.nodes ==> empty.nodes[n].childEdges == [];
    }
    AddEdgeToChildNodeKeepsOwnership(empty, 0, Some(OwnedEdge(0, edge)));
    var owned := AddEdgeToChildNode(empty, 0, Some(OwnedEdge(0, edge)));
    AddEdgeToParentNodeKeepsOwnership(owned, 1, Some(0));
    var built := AddEdgeToParentNode(owned, 1, Some(0));
    assert built == ScenarioGraph();
    assert forall n :: n in built.nodes ==> built.nodes[n].chatBot == None;
    HoldersMeaning(built);
    assert Holders(built) == {};
    assert LiveBots(built) == {};
  }

  /**
   * Start-up followed by the first move: in a graph where no node holds a bot
   * yet, the bot is moved into `root` and then relocated to `next`. It ends
   * at `next` alone, as the same object its controller points to, and edge
   * ownership is intact.
   */
  lemma PlaceThenRelocate(w: World, root: NodeRef, next: NodeRef, bot: ChatBot.Bot, addr: BotAddr)
    requires root in w.nodes && next in w.nodes
    requires Holders(w) == {} && HandlesResolve(w) && EdgesOwned(w)
    requires bot.chatLogic != None && bot.chatLogic.value in w.logics
    ensures addr !in LiveBots(w)
    ensures UniqueBots(MoveChatbotHereFromValue(w, root, bot, addr))
    ensures var moved := MoveChatbotToNewNode(MoveChatbotHereFromValue(w, root, bot, addr), root, next);
      && EdgesOwned(moved)
      && LocatedAt(moved, next)
      && GraphNode.GetChatBot(moved.nodes[next]) == Some(addr)
      && moved.logics[bot.chatLogic.value].chatBot == Some(addr)
      && HandlesResolve(moved)
  {
    HoldersMeaning(w);
    assert LiveBots(w) == {};
    PlacingBotEstablishesInvariant(w, root, bot, addr);
    var placed := MoveChatbotHereFromValue(w, root, bot, addr);
    RelocationKeepsEdgeOwnership(placed, root, next);
    RelocationFromHolder(placed, root, next);
  }

  /** The example graph, with a bot whose controller is logic 0, goes from node 0 to node 1. */
  lemma RootToChildScenario()
    ensures var bot := ChatBot.SetChatLogicHandle(ChatBot.NewBot(None), Some(0));
      var moved := MoveChatbotToNewNode(MoveChatbotHereFromValue(ScenarioGraph(), 0, bot, 5), 0, 1);
      LocatedAt(moved, 1) && moved.logics[0].chatBot == Some(5)
  {
    ScenarioGraphWellFormed();
    var bot := ChatBot.SetChatLogicHandle(ChatBot.NewBot(None), Some(0));
    assert HandlesResolve(ScenarioGraph());
    PlaceThenRelocate(ScenarioGraph(), 0, 1, bot, 5);
  }
}
