/**
 * The post document: its content expression `heading block*` and the
 * `enforceH1Structure` repair that runs after every document change.
 */
module PostDocument {
  import opened Wrappers
  import opened JsValue
  import opened Content

  /**
   * Node types in the `block` group: the block nodes of the starter kit
   * (their group is declared inside the library) and the three block
   * embeds of this repository.
   */
  const BlockKinds: set<string> := {
    "paragraph", "heading", "blockquote", "bulletList", "orderedList",
    "codeBlock", "horizontalRule", "twitter", "youtube", "gallery"
  }

  predicate AllBlocks(ns: seq<Node>)
  {
    ns == [] || (ns[0].kind in BlockKinds && AllBlocks(ns[1..]))
  }

  /** The content expression `heading block*` applied to the document's children. */
  predicate ValidPostDocument(doc: Node)
  {
    var kids := Kids(doc);
    |kids| >= 1 && kids[0].kind == "heading" && AllBlocks(kids[1..])
  }

  lemma {:induction false} AllBlocksAt(ns: seq<Node>)
    ensures AllBlocks(ns) <==> forall i :: 0 <= i < |ns| ==> ns[i].kind in BlockKinds
  {
    if ns != [] {
      AllBlocksAt(ns[1..]);
      assert forall i :: 1 <= i < |ns| ==> ns[i] == ns[1..][i - 1];
    }
  }

  /** A valid document starts with a heading and every later child is a block. */
  lemma ValidDocumentShape(doc: Node)
    ensures ValidPostDocument(doc) <==>
      (|Kids(doc)| >= 1 && Kids(doc)[0].kind == "heading" &&
       forall i :: 1 <= i < |Kids(doc)| ==> Kids(doc)[i].kind in BlockKinds)
  {
    var kids := Kids(doc);
    if |kids| >= 1 {
      AllBlocksAt(kids[1..]);
      assert forall i :: 1 <= i < |kids| ==> kids[i] == kids[1..][i - 1];
    }
  }

  /** `block*` admits zero blocks, and the expression puts no constraint on the heading's level. */
  lemma SingleHeadingIsValid(doc: Node, h: Node)
    requires h.kind == "heading"
    requires doc.content == Present([h])
    ensures ValidPostDocument(doc)
  {
  }

  /** Appending a block to a valid document keeps it valid. */
  lemma {:induction false} AppendBlockKeepsValid(doc: Node, b: Node)
    requires ValidPostDocument(doc)
    requires b.kind in BlockKinds
    ensures ValidPostDocument(doc.(content := Present(Kids(doc) + [b])))
  {
    var kids := Kids(doc);
    var d := doc.(content := Present(kids + [b]));
    AllBlocksAt(kids[1..]);
    AllBlocksAt(Kids(d)[1..]);
    assert Kids(d)[1..] == kids[1..] + [b];
  }

  function FirstChild(doc: Node): Option<Node>
  {
    if Kids(doc) == [] then None else Some(Kids(doc)[0])
  }

  predicate IsH1(n: Node)
  {
    n.kind == "heading" && Attr(n, "level") == Num(1)
  }

  /** The heading the repair inserts: level 1, no content. */
  const EmptyH1: Node := Node("heading", map["level" := Num(1)], Absent, [], "")

  /**
   * The repair step: given whether some transaction of the batch changed
   * the document, and the new document, the repaired document or `None`
   * (no repair transaction). A heading first child whose `level` is not
   * strictly 1 is re-levelled in place, keeping its other attributes and
   * its content; any other first child gets an empty h1 inserted before it.
   */
  function EnforceH1(docChanged: bool, doc: Node): (r: Option<Node>)
    ensures !docChanged ==> r.None?
    ensures Kids(doc) == [] ==> r.None?
    ensures r.Some? ==> |Kids(r.value)| >= 1 && IsH1(Kids(r.value)[0])
    ensures r.Some? ==> r.value.kind == doc.kind && r.value.attrs == doc.attrs
  {
    if !docChanged then None
    else match FirstChild(doc)
      case None => None
      case Some(first) =>
        if first.kind == "heading" then
          if Attr(first, "level") != Num(1) then
            var relevelled := first.(attrs := first.attrs["level" := Num(1)]);
            Some(doc.(content := Present([relevelled] + Kids(doc)[1..])))
          else None
        else Some(doc.(content := Present([EmptyH1] + Kids(doc))))
  }

  /** A heading first child not at level 1 becomes level 1; nothing else about the document changes. */
  lemma RelevelKeepsRest(doc: Node)
    requires FirstChild(doc).Some? && FirstChild(doc).value.kind == "heading"
    requires Attr(FirstChild(doc).value, "level") != Num(1)
    ensures EnforceH1(true, doc).Some?
    ensures var d := EnforceH1(true, doc).value;
      var old1 := Kids(doc)[0]; var new1 := Kids(d)[0];
      |Kids(d)| == |Kids(doc)| && Kids(d)[1..] == Kids(doc)[1..] &&
      new1.content == old1.content && new1.marks == old1.marks && new1.text == old1.text &&
      (forall k :: k != "level" ==> Attr(new1, k) == Attr(old1, k))
  {
  }

  /** A level-1 heading in first position needs no repair. */
  lemma H1FirstNeedsNoRepair(doc: Node, docChanged: bool)
    requires FirstChild(doc).Some? && IsH1(FirstChild(doc).value)
    ensures EnforceH1(docChanged, doc).None?
  {
  }

  /** A non-heading first child: an empty h1 is put in front and every existing child moves up by one. */
  lemma InsertShiftsChildren(doc: Node)
    requires FirstChild(doc).Some? && FirstChild(doc).value.kind != "heading"
    ensures EnforceH1(true, doc).Some?
    ensures var d := EnforceH1(true, doc).value;
      Kids(d)[0] == EmptyH1 && Kids(d)[1..] == Kids(doc)
  {
  }

  /** Repairing a repaired document produces nothing. */
  lemma EnforceH1Idempotent(doc: Node, docChanged: bool)
    requires EnforceH1(docChanged, doc).Some?
    ensures EnforceH1(true, EnforceH1(docChanged, doc).value).None?
  {
  }

  /** A repaired document whose later children are blocks satisfies the content expression. */
  lemma {:induction false} RepairYieldsValid(doc: Node)
    requires EnforceH1(true, doc).Some?
    requires AllBlocks(Kids(doc)[1..])
    requires Kids(doc)[0].kind != "heading" ==> Kids(doc)[0].kind in BlockKinds
    ensures ValidPostDocument(EnforceH1(true, doc).value)
  {
    var d := EnforceH1(true, doc).value;
    if Kids(doc)[0].kind != "heading" {
      assert Kids(d)[1..] == [Kids(doc)[0]] + Kids(doc)[1..];
      assert Kids(doc) == [Kids(doc)[0]] + Kids(doc)[1..];
      assert Kids(d)[1..][1..] == Kids(doc)[1..];
    } else {
      assert Kids(d)[1..] == Kids(doc)[1..];
    }
  }

  // ---------------------------------------------------------------------
  // The re-levelling step as written addresses document position 1.
  // Position 0 is in front of the first child; position 1 is inside it,
  // in front of the heading's first inline node. `setNodeMarkup` therefore
  // targets that inline node (or finds none), never the heading itself.
  // ---------------------------------------------------------------------

  datatype MarkupOutcome =
    | Throws           // "No node at given position", or a text node that cannot be re-created
    | Applied(doc: Node)

  /** The node directly after position 1 of a document whose first child is a non-leaf heading. */
  function NodeAfterPosition1(doc: Node): Option<Node>
    requires FirstChild(doc).Some?
  {
    var first := Kids(doc)[0];
    if Kids(first) == [] then None else Some(Kids(first)[0])
  }

  /**
   * `tr.setNodeMarkup(1, undefined, {...firstChild.attrs, level: 1})` as
   * written. `computeAttrs` stands for the schema rebuilding the attribute
   * record of the targeted node's own type.
   */
  function RelevelAsWritten(doc: Node, computeAttrs: (string, map<string, Value>) -> map<string, Value>): (r: MarkupOutcome)
    requires FirstChild(doc).Some? && FirstChild(doc).value.kind == "heading"
  {
    var first := Kids(doc)[0];
    match NodeAfterPosition1(doc)
    case None => Throws
    case Some(target) =>
      if target.kind == "text" then Throws
      else
        var rebuilt := target.(attrs := computeAttrs(target.kind, first.attrs["level" := Num(1)]));
        var newFirst := first.(content := Present([rebuilt] + Kids(first)[1..]));
        Applied(doc.(content := Present([newFirst] + Kids(doc)[1..])))
  }

  /** As written, the heading's level is never changed: the step throws or rewrites a node inside it. */
  lemma RelevelAsWrittenKeepsLevel(doc: Node, computeAttrs: (string, map<string, Value>) -> map<string, Value>)
    requires FirstChild(doc).Some? && FirstChild(doc).value.kind == "heading"
    requires Attr(FirstChild(doc).value, "level") != Num(1)
    ensures var r := RelevelAsWritten(doc, computeAttrs);
      r.Throws? || (Kids(r.doc)[0].kind == "heading" && Attr(Kids(r.doc)[0], "level") == Attr(Kids(doc)[0], "level"))
    ensures var r := RelevelAsWritten(doc, computeAttrs);
      r.Applied? ==> !IsH1(Kids(r.doc)[0])
  {
  }

  /** A level-2 title with text: as written the step throws, where the intended repair gives an h1. */
  lemma RelevelAsWrittenExample(computeAttrs: (string, map<string, Value>) -> map<string, Value>)
    ensures var title := Element("heading", map["level" := Num(2)], [TextNode("Hello", [])]);
      var doc := Element("doc", map[], [title]);
      RelevelAsWritten(doc, computeAttrs) == Throws &&
      EnforceH1(true, doc).Some? && IsH1(Kids(EnforceH1(true, doc).value)[0])
  {
  }
}
