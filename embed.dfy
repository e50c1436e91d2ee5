/**
 * What the two block embeds (`twitter` and `youtube`) have in common:
 * the node declaration, the `url` attribute written to and read from
 * `data-url`, the node a paste rule creates and the insert command.
 */
module EmbedNodes {
  import opened Wrappers
  import opened JsValue
  import opened Text
  import opened Content

  /** The static part of a node declaration. */
  datatype NodeSpec = NodeSpec(name: string, group: string, atom: bool, draggable: bool)

  /** The `url` attribute's `renderHTML`: `data-url` only for a url that is set and non-empty. */
  function RenderUrl(url: Option<string>): map<string, string>
  {
    if HasText(url) then map["data-url" := url.value] else map[]
  }

  /** `element.getAttribute(name)`: `None` stands for `null`. */
  function GetAttribute(attrs: map<string, string>, name: string): Option<string>
  {
    if name in attrs then Some(attrs[name]) else None
  }

  /**
   * The element parse rule's `getAttrs`: the url the new node gets, or
   * `None` when the element is rejected (`data-url` missing or empty).
   */
  function ParseUrl(attrs: map<string, string>): Option<string>
  {
    var url := GetAttribute(attrs, "data-url");
    if HasText(url) then url else None
  }

  /** Rendering the url and parsing it back gives the url, exactly when it is non-empty; otherwise the element is rejected. */
  lemma UrlRoundTrip(url: Option<string>)
    ensures ParseUrl(RenderUrl(url)) == (if HasText(url) then url else None)
    ensures "data-url" in RenderUrl(url) <==> HasText(url)
  {
  }

  /** The embed node holding `url` as its only attribute. */
  function UrlNode(name: string, url: string): Node
  {
    Node(name, map["url" := Str(url)], Absent, [], "")
  }

  /** A paste rule's node: the url attribute is the whole pasted text (`match.input`). */
  function PastedNode(spec: NodeSpec, input: string): (n: Node)
    ensures n.kind == spec.name && Attr(n, "url") == Str(input) && n.attrs.Keys == {"url"}
  {
    UrlNode(spec.name, input)
  }

  /** `set…Embed({url})`: declined (`false`) for an empty url, otherwise inserts the node. */
  function SetEmbed(spec: NodeSpec, url: string): (r: Option<Node>)
    ensures r.None? <==> url == ""
    ensures r.Some? ==> r.value.kind == spec.name && r.value.attrs == map["url" := Str(url)] && r.value.content == Absent
  {
    if url == "" then None else Some(UrlNode(spec.name, url))
  }
}
