/**
 * The post body as stored: a JSON tree of nodes. Each node has a type tag,
 * an attribute record, an optional list of children (`content`), marks,
 * and for text nodes a text string.
 */
module Content {
  import opened JsValue

  datatype Mark = Mark(kind: string, attrs: map<string, Value>)

  /**
   * `text` is "" when the node has none (every reader falls back to "");
   * `content` distinguishes an absent list from an empty one, because an
   * empty array is truthy in JavaScript.
   */
  datatype Node = Node(
    kind: string,
    attrs: map<string, Value>,
    content: Children,
    marks: seq<Mark>,
    text: string)

  datatype Children = Absent | Present(nodes: seq<Node>)

  function Attr(n: Node, key: string): Value
  {
    Get(n.attrs, key)
  }

  /** The children of a node; an absent list reads as empty. */
  function Kids(n: Node): seq<Node>
  {
    if n.content.Present? then n.content.nodes else []
  }

  function Element(kind: string, attrs: map<string, Value>, kids: seq<Node>): Node
  {
    Node(kind, attrs, Present(kids), [], "")
  }

  function TextNode(s: string, marks: seq<Mark>): Node
  {
    Node("text", map[], Absent, marks, s)
  }

  /** `n` occurs in the tree rooted at `root` (the root included). */
  ghost predicate InTree(n: Node, root: Node)
    decreases root
  {
    n == root || (root.content.Present? && InForest(n, root.content.nodes))
  }

  ghost predicate InForest(n: Node, roots: seq<Node>)
    decreases roots
  {
    roots != [] && (InTree(n, roots[0]) || InForest(n, roots[1..]))
  }
}
