/**
 * A directed edge of the answer graph (src/graphedge.h). The edge refers to
 * its parent and child nodes without owning them, and carries the keywords
 * user input is matched against, in insertion order.
 */
module GraphEdge {
  import opened Wrappers
  import opened Refs

  datatype Edge = Edge(
    id: int,
    parentNode: Option<NodeRef>,
    childNode: Option<NodeRef>,
    keywords: seq<string>)

  /** `GraphEdge(id)`: the id is recorded; no node is linked and no keyword added yet. */
  function NewEdge(id: int): (e: Edge)
    ensures GetID(e) == id
    ensures GetKeywords(e) == []
    ensures GetChildNode(e) == None && e.parentNode == None
  {
    Edge(id, None, None, [])
  }

  function GetID(e: Edge): int
  {
    e.id
  }

  function GetChildNode(e: Edge): Option<NodeRef>
  {
    e.childNode
  }

  function GetKeywords(e: Edge): seq<string>
  {
    e.keywords
  }

  /** `SetChildNode`: the child reference becomes `child`; id, parent and keywords stay. */
  function SetChildNode(e: Edge, child: Option<NodeRef>): (r: Edge)
    ensures GetChildNode(r) == child
    ensures GetID(r) == GetID(e) && GetKeywords(r) == GetKeywords(e)
    ensures r.(childNode := e.childNode) == e
  {
    e.(childNode := child)
  }

  /** `SetParentNode` changes the parent reference and nothing else. */
  function SetParentNode(e: Edge, parent: Option<NodeRef>): (r: Edge)
    ensures r.parentNode == parent
    ensures r.(parentNode := e.parentNode) == e
  {
    e.(parentNode := parent)
  }

  /** `AddToken` appends one keyword after the existing ones. */
  function AddToken(e: Edge, token: string): (r: Edge)
    ensures GetKeywords(r) == GetKeywords(e) + [token]
    ensures r.(keywords := e.keywords) == e
  {
    e.(keywords := e.keywords + [token])
  }

  /** The edge after `AddToken` has been called once per element of `tokens`, in order. */
  function AddTokens(e: Edge, tokens: seq<string>): Edge
    decreases |tokens|
  {
    if tokens == [] then e else AddTokens(AddToken(e, tokens[0]), tokens[1..])
  }

  /**
   * Keywords come back in insertion order: after adding `tokens` one by one,
   * `GetKeywords` is the old list followed by exactly `tokens`, and the
   * edge's id and node references are untouched.
   */
  lemma {:induction false} KeywordsInInsertionOrder(e: Edge, tokens: seq<string>)
    ensures GetKeywords(AddTokens(e, tokens)) == GetKeywords(e) + tokens
    ensures AddTokens(e, tokens).(keywords := e.keywords) == e
    decreases |tokens|
  {
    if tokens != [] {
      KeywordsInInsertionOrder(AddToken(e, tokens[0]), tokens[1..]);
      assert e.keywords + [tokens[0]] + tokens[1..] == e.keywords + tokens;
    }
  }

  /** Setting the child then the parent (or the reverse) links both, in either order. */
  lemma LinkOrderIrrelevant(e: Edge, parent: Option<NodeRef>, child: Option<NodeRef>)
    ensures SetParentNode(SetChildNode(e, child), parent) == SetChildNode(SetParentNode(e, parent), child)
    ensures GetChildNode(SetParentNode(SetChildNode(e, child), parent)) == child
  {
  }
}
