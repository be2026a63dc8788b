/**
 * A node of the answer graph (src/graphnode.h, src/graphnode.cpp).
 *
 * A node keeps its answers in insertion order, the edges it owns towards its
 * children, non-owning references to the edges that arrive from its parents,
 * and one `unique_ptr<ChatBot>` slot. Edges are referred to by address, and
 * both edge lists accept null entries as the program does; which node owns
 * which edge is stated over the whole graph in module Graph.
 */
module GraphNode {
  import opened Wrappers
  import opened Refs
  import ChatBot

  /**
   * A non-null `unique_ptr<ChatBot>`: the address of the heap object and the
   * bot state stored there. Moving the pointer keeps the address; moving the
   * bot itself into a new object does not.
   */
  datatype Owned = Owned(addr: BotAddr, bot: ChatBot.Bot)

  datatype Node = Node(
    id: int,
    answers: seq<string>,
    childEdges: seq<Option<EdgeRef>>,
    parentEdges: seq<Option<EdgeRef>>,
    chatBot: Option<Owned>)

  /** `GraphNode(id)`: the id is recorded, the bot slot is empty and every list is empty. */
  function NewNode(id: int): (n: Node)
    ensures GetID(n) == id
    ensures GetChatBot(n) == None
    ensures GetAnswers(n) == []
    ensures GetNumberOfChildEdges(n) == 0 && GetNumberOfParents(n) == 0
  {
    Node(id, [], [], [], None)
  }

  function GetID(n: Node): int
  {
    n.id
  }

  function GetNumberOfChildEdges(n: Node): nat
  {
    |n.childEdges|
  }

  function GetNumberOfParents(n: Node): nat
  {
    |n.parentEdges|
  }

  function GetAnswers(n: Node): seq<string>
  {
    n.answers
  }

  /** `GetChatBot`: the raw address of the bot held here, or null. */
  function GetChatBot(n: Node): Option<BotAddr>
  {
    match n.chatBot
    case None => None
    case Some(o) => Some(o.addr)
  }

  /**
   * The bots a node holds. The slot is a single optional owner, so a node
   * holds at most one bot.
   */
  function HeldBots(n: Node): (s: set<BotAddr>)
    ensures |s| <= 1
    ensures forall a :: a in s <==> GetChatBot(n) == Some(a)
  {
    match n.chatBot
    case None => {}
    case Some(o) => {o.addr}
  }

  /** `AddToken` appends an answer after the existing ones; edges and the bot slot stay. */
  function AddToken(n: Node, token: string): (r: Node)
    ensures GetAnswers(r) == GetAnswers(n) + [token]
    ensures r.(answers := n.answers) == n
  {
    n.(answers := n.answers + [token])
  }

  /**
   * `AddEdgeToParentNode` registers one more incoming edge pointer, null or
   * not, unchecked; nothing else changes.
   */
  function AddEdgeToParentNode(n: Node, edge: Option<EdgeRef>): (r: Node)
    ensures GetNumberOfParents(r) == GetNumberOfParents(n) + 1
    ensures r.parentEdges[..|n.parentEdges|] == n.parentEdges
    ensures r.parentEdges[|n.parentEdges|] == edge
    ensures r.(parentEdges := n.parentEdges) == n
  {
    n.(parentEdges := n.parentEdges + [edge])
  }

  /**
   * `AddEdgeToChildNode` appends an owned outgoing edge pointer (an empty
   * `unique_ptr` is appended as null): the count grows by one, earlier edges
   * keep their positions, and nothing else changes.
   */
  function AddEdgeToChildNode(n: Node, edge: Option<EdgeRef>): (r: Node)
    ensures GetNumberOfChildEdges(r) == GetNumberOfChildEdges(n) + 1
    ensures r.childEdges[..|n.childEdges|] == n.childEdges
    ensures r.childEdges[|n.childEdges|] == edge
    ensures r.(childEdges := n.childEdges) == n
  {
    n.(childEdges := n.childEdges + [edge])
  }

  /**
   * `GetChildEdgeAtIndex`: the edge pointer this node holds at position `index`. The
   * body indexes without a bounds check, so an index outside the list is the
   * caller's error (see `ChildEdgeAtIndexOrNull` for the documented behaviour).
   */
  function GetChildEdgeAtIndex(n: Node, index: int): (e: Option<EdgeRef>)
    requires 0 <= index < GetNumberOfChildEdges(n)
    ensures e in n.childEdges
  {
    n.childEdges[index]
  }

  /**
   * The behaviour the header documents: the edge pointer at `index`, or
   * null when the index is out of range. A null stored in the list reads as
   * null too, as the raw pointer the program returns cannot tell them apart.
   */
  function ChildEdgeAtIndexOrNull(n: Node, index: int): (r: Option<EdgeRef>)
    ensures !(0 <= index < GetNumberOfChildEdges(n)) ==> r == None
    ensures 0 <= index < GetNumberOfChildEdges(n) ==> r == GetChildEdgeAtIndex(n, index)
    ensures r != None ==> 0 <= index < GetNumberOfChildEdges(n) && r in n.childEdges
  {
    if 0 <= index < |n.childEdges| then n.childEdges[index] else None
  }

  /**
   * On a node that owns no edge yet, index 0 is outside the precondition of
   * `GetChildEdgeAtIndex` (the body would read past the end of the vector),
   * while the documented behaviour is a null result.
   */
  lemma UncheckedIndexOnFreshNode(id: int)
    ensures GetNumberOfChildEdges(NewNode(id)) == 0
    ensures ChildEdgeAtIndexOrNull(NewNode(id), 0) == None
  {
  }

  /**
   * `MoveChatbotHere(unique_ptr)`: the slot takes exactly the incoming pointer,
   * discarding whatever it held. A non-null incoming bot is told that it is
   * now at `self`, this node's own address; a null one leaves the slot empty.
   */
  function MoveChatbotHere(n: Node, self: NodeRef, incoming: Option<Owned>): (r: Node)
    ensures GetChatBot(r) == (if incoming == None then None else Some(incoming.value.addr))
    ensures incoming != None ==>
      r.chatBot.value.bot == ChatBot.SetCurrentNode(incoming.value.bot, Some(self))
    ensures r.(chatBot := n.chatBot) == n
  {
    match incoming
    case None => n.(chatBot := None)
    case Some(o) => n.(chatBot := Some(o.(bot := ChatBot.SetCurrentNode(o.bot, Some(self)))))
  }

  /** The node after `AddToken` has been called once per element of `tokens`, in order. */
  function AddTokens(n: Node, tokens: seq<string>): Node
    decreases |tokens|
  {
    if tokens == [] then n else AddTokens(AddToken(n, tokens[0]), tokens[1..])
  }

  /**
   * `GetAnswers` returns answers in insertion order: after adding `tokens`
   * one by one the answers are the old ones followed by exactly `tokens`,
   * and the id, edges and bot slot are untouched.
   */
  lemma {:induction false} AnswersInInsertionOrder(n: Node, tokens: seq<string>)
    ensures GetAnswers(AddTokens(n, tokens)) == GetAnswers(n) + tokens
    ensures AddTokens(n, tokens).(answers := n.answers) == n
    decreases |tokens|
  {
    if tokens != [] {
      AnswersInInsertionOrder(AddToken(n, tokens[0]), tokens[1..]);
      assert n.answers + [tokens[0]] + tokens[1..] == n.answers + tokens;
    }
  }

  /**
   * Appending a child edge makes it reachable at the old count, and every
   * earlier index still yields the edge it yielded before.
   */
  lemma ChildEdgeIndexAfterAppend(n: Node, edge: Option<EdgeRef>, i: int)
    requires 0 <= i <= GetNumberOfChildEdges(n)
    ensures var r := AddEdgeToChildNode(n, edge);
      GetChildEdgeAtIndex(r, i) == if i == GetNumberOfChildEdges(n) then edge else GetChildEdgeAtIndex(n, i)
  {
  }

  /** A fresh node described through its getters: all that was given is its id. */
  lemma FreshNodeGetters(id: int, self: NodeRef)
    ensures GetID(NewNode(id)) == id
    ensures HeldBots(NewNode(id)) == {}
    ensures ChildEdgeAtIndexOrNull(NewNode(id), 0) == None
    ensures MoveChatbotHere(NewNode(id), self, None) == NewNode(id)
  {
  }
}
