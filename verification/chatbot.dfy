/**
 * The `ChatBot` entity (src/chatbot.h). The bot owns only its avatar image;
 * its current node, root node and chat-logic controller are non-owning
 * references, so a `Bot` value holds addresses and never another object's state.
 *
 * The type is move-only in the program. A Dafny datatype value can always be
 * copied, so the model keeps that rule elsewhere: a bot value lives only in one
 * node's slot (see module Graph), and every operation there moves it.
 */
module ChatBot {
  import opened Wrappers
  import opened Refs

  datatype Bot = Bot(
    image: Option<ImageRef>,
    currentNode: Option<NodeRef>,
    rootNode: Option<NodeRef>,
    chatLogic: Option<LogicRef>)

  /**
   * A newly constructed bot. The default constructor allocates no image and the
   * file constructor loads one; loading is I/O, so the loaded handle is a parameter.
   * No reference is set yet.
   */
  function NewBot(image: Option<ImageRef>): (b: Bot)
    ensures GetImageHandle(b) == image
    ensures GetChatLogicHandle(b) == None
    ensures b.currentNode == None && b.rootNode == None
  {
    Bot(image, None, None, None)
  }

  /** `SetCurrentNode`: the bot now records `node` as where it is; nothing else changes. */
  function SetCurrentNode(b: Bot, node: Option<NodeRef>): (r: Bot)
    ensures r.currentNode == node
    ensures r.(currentNode := b.currentNode) == b
  {
    b.(currentNode := node)
  }

  /** `SetRootNode` changes the root reference and nothing else. */
  function SetRootNode(b: Bot, root: Option<NodeRef>): (r: Bot)
    ensures r.rootNode == root
    ensures r.(rootNode := b.rootNode) == b
  {
    b.(rootNode := root)
  }

  /** `SetChatLogicHandle` changes the controller reference and nothing else. */
  function SetChatLogicHandle(b: Bot, logic: Option<LogicRef>): (r: Bot)
    ensures GetChatLogicHandle(r) == logic
    ensures r.(chatLogic := b.chatLogic) == b
  {
    b.(chatLogic := logic)
  }

  function GetChatLogicHandle(b: Bot): Option<LogicRef>
  {
    b.chatLogic
  }

  function GetImageHandle(b: Bot): Option<ImageRef>
  {
    b.image
  }

  /** The getter returns the last handle set, whatever was set before. */
  lemma ChatLogicHandleRoundTrip(b: Bot, first: Option<LogicRef>, second: Option<LogicRef>)
    ensures GetChatLogicHandle(SetChatLogicHandle(b, second)) == second
    ensures GetChatLogicHandle(SetChatLogicHandle(SetChatLogicHandle(b, first), second)) == second
  {
  }

  /**
   * Relocation touches the bot only through `SetCurrentNode`: the avatar, the
   * root and the controller survive any number of moves.
   */
  lemma SetCurrentNodeKeepsOwnership(b: Bot, node: Option<NodeRef>)
    ensures GetImageHandle(SetCurrentNode(b, node)) == GetImageHandle(b)
    ensures SetCurrentNode(b, node).rootNode == b.rootNode
    ensures GetChatLogicHandle(SetCurrentNode(b, node)) == GetChatLogicHandle(b)
    ensures SetCurrentNode(SetCurrentNode(b, node), b.currentNode) == b
  {
  }
}
