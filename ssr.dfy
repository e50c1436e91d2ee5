/**
 * The server-side renderer: a pure recursive function from the stored
 * JSON tree to an HTML-like element tree. Embeds and mentions render as
 * component elements carrying the props they are given; what those
 * components show is modelled in their own modules.
 */
module StaticRender {
  import opened Wrappers
  import opened JsValue
  import opened Text
  import opened Content
  import TweetIds

  datatype Html =
    | Nothing                                        // `null`
    | TextOut(s: string)
    | El(tag: string, props: map<string, Value>, children: seq<Html>)
    | MentionSSR(attrs: map<string, Value>)
    | LinkMentionSSR(attrs: map<string, Value>)
    | TweetClient(tweetId: string)
    | YouTubeClient(url: Value)
    | GalleryClient(images: Value, displayMode: Value, columns: Value, gridSpans: Value)

  // -------------------------------------------------------------------
  // Marks
  // -------------------------------------------------------------------

  /** The element a mark type wraps its content in; `None` for a type the renderer does not know. */
  function MarkTag(kind: string): Option<string>
  {
    match kind
    case "bold" => Some("strong")
    case "italic" => Some("em")
    case "strike" => Some("s")
    case "code" => Some("code")
    case "underline" => Some("u")
    case "link" => Some("a")
    case "highlight" => Some("mark")
    case "subscript" => Some("sub")
    case "superscript" => Some("sup")
    case _ => None
  }

  function MarkProps(m: Mark): map<string, Value>
  {
    if m.kind == "link" then
      map["href" := Get(m.attrs, "href"), "target" := Get(m.attrs, "target"), "rel" := Get(m.attrs, "rel")]
    else map[]
  }

  /** One step of the `reduce`: wrap the accumulated output in the mark's element. */
  function WrapMark(acc: Html, m: Mark): (r: Html)
    ensures MarkTag(m.kind).None? ==> r == acc
    ensures MarkTag(m.kind).Some? ==> r.El? && r.tag == MarkTag(m.kind).value && r.children == [acc]
  {
    match MarkTag(m.kind)
    case None => acc
    case Some(tag) => El(tag, MarkProps(m), [acc])
  }

  /** `marks.reduce(wrap, content)` */
  function FoldMarks(acc: Html, marks: seq<Mark>): Html
    decreases |marks|
  {
    if marks == [] then acc else FoldMarks(WrapMark(acc, marks[0]), marks[1..])
  }

  /** `renderWithMarks(content, marks)` */
  function RenderWithMarks(content: Html, marks: seq<Mark>): (r: Html)
    ensures marks == [] ==> r == content
  {
    if marks == [] then content else FoldMarks(content, marks)
  }

  /** The last mark of the list is the outermost wrapper, so the first mark is innermost. */
  lemma {:induction false} LastMarkOutermost(content: Html, marks: seq<Mark>, m: Mark)
    ensures RenderWithMarks(content, marks + [m]) == WrapMark(RenderWithMarks(content, marks), m)
  {
    FoldMarksSnoc(content, marks, m);
  }

  lemma {:induction false} FoldMarksSnoc(acc: Html, marks: seq<Mark>, m: Mark)
    ensures FoldMarks(acc, marks + [m]) == WrapMark(FoldMarks(acc, marks), m)
    decreases |marks|
  {
    if marks == [] {
      assert [m][1..] == [];
    } else {
      FoldMarksSnoc(WrapMark(acc, marks[0]), marks[1..], m);
      assert (marks + [m])[0] == marks[0] && (marks + [m])[1..] == marks[1..] + [m];
    }
  }

  function KnownMarks(marks: seq<Mark>): (r: seq<Mark>)
    ensures forall m :: m in r <==> m in marks && MarkTag(m.kind).Some?
  {
    if marks == [] then []
    else if MarkTag(marks[0].kind).Some? then [marks[0]] + KnownMarks(marks[1..])
    else KnownMarks(marks[1..])
  }

  /** A mark of an unknown type leaves its content unwrapped: only the known marks matter. */
  lemma {:induction false} UnknownMarksIgnored(acc: Html, marks: seq<Mark>)
    ensures FoldMarks(acc, marks) == FoldMarks(acc, KnownMarks(marks))
    decreases |marks|
  {
    if marks != [] {
      UnknownMarksIgnored(WrapMark(acc, marks[0]), marks[1..]);
      if MarkTag(marks[0].kind).Some? {
        var k := KnownMarks(marks);
        assert k[0] == marks[0] && k[1..] == KnownMarks(marks[1..]);
      }
    }
  }

  // -------------------------------------------------------------------
  // Inline content
  // -------------------------------------------------------------------

  /** `renderInlineContent`: one output per inline node, in order. */
  function RenderInline(nodes: seq<Node>): (r: seq<Html>)
    ensures |r| == |nodes|
    ensures forall i :: 0 <= i < |nodes| ==> r[i] == RenderInlineNode(nodes[i])
  {
    if nodes == [] then [] else [RenderInlineNode(nodes[0])] + RenderInline(nodes[1..])
  }

  function RenderInlineNode(n: Node): Html
  {
    match n.kind
    case "text" => RenderWithMarks(TextOut(n.text), n.marks)
    case "mention" => MentionSSR(n.attrs)
    case "linkMention" => LinkMentionSSR(n.attrs)
    case "hardBreak" => El("br", map[], [])
    case _ =>
      match n.content
      case Absent => Nothing
      case Present(kids) => El("span", map[], RenderInline(kids))
  }

  // -------------------------------------------------------------------
  // Blocks
  // -------------------------------------------------------------------

  /** `h${(level as number) || 1}` */
  function HeadingTag(level: Value): string
  {
    "h" + ToJsString(Or(level, Num(1)))
  }

  /** A heading renders as h{level}; a missing, zero or otherwise falsy level renders as h1. */
  lemma HeadingTagSpec(level: Value)
    ensures !Truthy(level) ==> HeadingTag(level) == "h1"
    ensures level.Num? && level.n != 0 ==> HeadingTag(level) == "h" + IntToDecimal(level.n)
  {
  }

  /** `node.content?.map((n) => n.text).join('')` */
  function JoinTexts(ns: seq<Node>): string
  {
    if ns == [] then "" else ns[0].text + JoinTexts(ns[1..])
  }

  lemma {:induction false} JoinTextsAppend(a: seq<Node>, b: seq<Node>)
    ensures JoinTexts(a + b) == JoinTexts(a) + JoinTexts(b)
  {
    if a == [] {
      assert a + b == b;
    } else {
      var c := a + b;
      assert c[0] == a[0] && c[1..] == a[1..] + b;
      JoinTextsAppend(a[1..], b);
      var x, y, z := a[0].text, JoinTexts(a[1..]), JoinTexts(b);
      assert JoinTexts(c) == x + (y + z);
      assert x + (y + z) == (x + y) + z;
    }
  }

  function CodeText(n: Node): string
  {
    match n.content
    case Absent => ""
    case Present(kids) => JoinTexts(kids)
  }

  function CodeClass(language: Value): Value
  {
    if Truthy(language) then Str("language-" + ToJsString(language)) else Undef
  }

  /** `(images as string[]).length > 0`: arrays and strings have a length, other values do not. */
  predicate HasLength(v: Value)
  {
    (v.Arr? && |v.items| > 0) || (v.Str? && |v.s| > 0)
  }

  /** `renderNode` */
  function RenderNode(n: Node): Html
  {
    match n.kind
    case "paragraph" => El("p", map[], InlineChildren(n))
    case "heading" => El(HeadingTag(Attr(n, "level")), map[], InlineChildren(n))
    case "bulletList" => El("ul", map[], BlockChildren(n))
    case "orderedList" => El("ol", map["start" := Attr(n, "start")], BlockChildren(n))
    case "listItem" => El("li", map[], BlockChildren(n))
    case "blockquote" => El("blockquote", map[], BlockChildren(n))
    case "codeBlock" =>
      El("pre", map[], [El("code", map["className" := CodeClass(Attr(n, "language"))], [TextOut(CodeText(n))])])
    case "horizontalRule" => El("hr", map[], [])
    case "twitter" =>
      var url := Attr(n, "url");
      if Truthy(url) then
        match TweetIds.ExtractTweetId(ToJsString(url))
        case Some(id) => El("div", map["className" := Str("twitter-embed")], [TweetClient(id)])
        case None => Nothing
      else Nothing
    case "youtube" =>
      var url := Attr(n, "url");
      if Truthy(url) then El("div", map["className" := Str("youtube-embed")], [YouTubeClient(url)]) else Nothing
    case "gallery" =>
      var images := Or(Attr(n, "images"), Arr([]));
      var displayMode := Or(Attr(n, "displayMode"), Str("grid"));
      var columns := Or(Attr(n, "columns"), Num(3));
      var gridSpans := Or(Attr(n, "gridSpans"), Arr([]));
      if HasLength(images) then GalleryClient(images, displayMode, columns, gridSpans) else Nothing
    case "image" =>
      El("img", map["src" := Attr(n, "src"), "alt" := Or(Attr(n, "alt"), Str("")), "title" := Attr(n, "title")], [])
    case "table" => El("table", map[], [El("tbody", map[], BlockChildren(n))])
    case "tableRow" => El("tr", map[], BlockChildren(n))
    case "tableCell" =>
      El("td", map["colSpan" := Attr(n, "colspan"), "rowSpan" := Attr(n, "rowspan")], BlockChildren(n))
    case "tableHeader" =>
      El("th", map["colSpan" := Attr(n, "colspan"), "rowSpan" := Attr(n, "rowspan")], BlockChildren(n))
    case _ =>
      match n.content
      case Absent => Nothing
      case Present(kids) => El("div", map[], RenderNodes(kids))
  }

  /** `renderInlineContent(node.content)`: no children when the list is absent. */
  function InlineChildren(n: Node): seq<Html>
    decreases n, 0
  {
    match n.content
    case Absent => []
    case Present(kids) => RenderInline(kids)
  }

  /** `node.content?.map(renderNode)` */
  function BlockChildren(n: Node): seq<Html>
    decreases n, 0
  {
    match n.content
    case Absent => []
    case Present(kids) => RenderNodes(kids)
  }

  function RenderNodes(ns: seq<Node>): (r: seq<Html>)
    ensures |r| == |ns|
    ensures forall i :: 0 <= i < |ns| ==> r[i] == RenderNode(ns[i])
  {
    if ns == [] then [] else [RenderNode(ns[0])] + RenderNodes(ns[1..])
  }

  const ContainerTags: map<string, string> := map[
    "bulletList" := "ul", "orderedList" := "ol", "listItem" := "li", "blockquote" := "blockquote",
    "tableRow" := "tr", "tableCell" := "td", "tableHeader" := "th"]

  /** Lists, list items, quotes, rows and cells emit exactly one rendered child per input child, in order. */
  lemma ContainerChildren(n: Node)
    requires n.kind in ContainerTags
    ensures var r := RenderNode(n);
      r.El? && r.tag == ContainerTags[n.kind] &&
      |r.children| == |Kids(n)| &&
      forall i :: 0 <= i < |Kids(n)| ==> r.children[i] == RenderNode(Kids(n)[i])
  {
  }

  /** A table renders as table > tbody with one rendered row per input row. */
  lemma TableChildren(n: Node)
    requires n.kind == "table"
    ensures var r := RenderNode(n);
      r.El? && r.tag == "table" && |r.children| == 1 &&
      r.children[0].El? && r.children[0].tag == "tbody" &&
      |r.children[0].children| == |Kids(n)| &&
      forall i :: 0 <= i < |Kids(n)| ==> r.children[0].children[i] == RenderNode(Kids(n)[i])
  {
  }

  /** A code block shows its children's text concatenated in order; the language class only when a language is set. */
  lemma CodeBlockSpec(n: Node)
    requires n.kind == "codeBlock"
    ensures var r := RenderNode(n);
      var code := r.children[0];
      r.El? && r.tag == "pre" && |r.children| == 1 && code.El? && code.tag == "code" &&
      code.children == [TextOut(JoinTexts(Kids(n)))] &&
      (Truthy(Attr(n, "language")) <==> code.props["className"] != Undef)
  {
  }

  /** A `twitter` node renders exactly when its url is set and has `/status/` followed by digits. */
  lemma TwitterRendersIff(n: Node)
    requires n.kind == "twitter"
    ensures RenderNode(n) != Nothing <==>
      (Truthy(Attr(n, "url")) && TweetIds.ExtractTweetId(ToJsString(Attr(n, "url"))).Some?)
    ensures RenderNode(n) != Nothing ==>
      RenderNode(n) == El("div", map["className" := Str("twitter-embed")],
                          [TweetClient(TweetIds.ExtractTweetId(ToJsString(Attr(n, "url"))).value)])
  {
  }

  /** A gallery with no images renders nothing; otherwise grid, 3 columns and no spans fill in for missing values. */
  lemma GallerySpec(n: Node)
    requires n.kind == "gallery"
    ensures !HasLength(Or(Attr(n, "images"), Arr([]))) ==> RenderNode(n) == Nothing
    ensures HasLength(Attr(n, "images")) ==>
      var r := RenderNode(n);
      r.GalleryClient? && r.images == Attr(n, "images") &&
      (!Truthy(Attr(n, "displayMode")) ==> r.displayMode == Str("grid")) &&
      (!Truthy(Attr(n, "columns")) ==> r.columns == Num(3)) &&
      (!Truthy(Attr(n, "gridSpans")) ==> r.gridSpans == Arr([]))
  {
  }

  const KnownBlockKinds: set<string> := {
    "paragraph", "heading", "bulletList", "orderedList", "listItem", "blockquote", "codeBlock",
    "horizontalRule", "twitter", "youtube", "gallery", "image", "table", "tableRow", "tableCell", "tableHeader"
  }

  const KnownInlineKinds: set<string> := {"text", "mention", "linkMention", "hardBreak"}

  /** An unknown block type with content becomes a div around its rendered children; without content, nothing. */
  lemma UnknownBlock(n: Node)
    requires n.kind !in KnownBlockKinds
    ensures n.content.Absent? ==> RenderNode(n) == Nothing
    ensures n.content.Present? ==> RenderNode(n) == El("div", map[], RenderNodes(n.content.nodes))
  {
  }

  /** An unknown inline type with content becomes a span around its rendered children; without content, nothing. */
  lemma UnknownInline(n: Node)
    requires n.kind !in KnownInlineKinds
    ensures n.content.Absent? ==> RenderInlineNode(n) == Nothing
    ensures n.content.Present? ==> RenderInlineNode(n) == El("span", map[], RenderInline(n.content.nodes))
  {
  }

  // -------------------------------------------------------------------
  // The component
  // -------------------------------------------------------------------

  /** `TiptapSSR` accepts either an HTML string or a JSON document. */
  datatype SsrContent = HtmlString(html: string) | Json(doc: Node)

  function TiptapSSR(content: SsrContent, className: Value): (r: Html)
    ensures r.El? && r.tag == "div" && "className" in r.props && r.props["className"] == className
    ensures content.HtmlString? ==> r.children == [] && "dangerouslySetInnerHTML" in r.props && r.props["dangerouslySetInnerHTML"] == Obj([("__html", Str(content.html))])
    ensures content.Json? ==> r.children == RenderNodes(Kids(content.doc))
  {
    match content
    case HtmlString(html) =>
      El("div", map["className" := className, "dangerouslySetInnerHTML" := Obj([("__html", Str(html))])], [])
    case Json(doc) =>
      match doc.content
      case Absent => El("div", map["className" := className], [])
      case Present(kids) => El("div", map["className" := className], RenderNodes(kids))
  }
}
