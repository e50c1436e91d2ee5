/**
 * The tweet embed node: its paste rule, `url` attribute codec and insert
 * command. The current extension and the older standalone copy of the
 * node declare the same name, rule, codec and command, so one model
 * serves both.
 */
module TwitterEmbed {
  import opened Wrappers
  import opened JsValue
  import opened Text
  import opened Content
  import opened EmbedNodes

  const TwitterNode: NodeSpec := NodeSpec("twitter", "block", true, true)

  const TwitterHead: string := "https://twitter.com/"
  const XHead: string := "https://x.com/"
  const StatusSegment: string := "/status/"

  /**
   * `.*\/status\/.*` against the text after the host's slash: `.` stops at
   * line terminators, so the first `/status/` has to come before the first
   * line break.
   */
  predicate StatusBeforeBreak(rest: string)
  {
    match IndexOfFrom(rest, StatusSegment, 0)
    case None => false
    case Some(k) => NoLineTerminator(rest[..k])
  }

  /** `^https:\/\/(twitter\.com|x\.com)\/.*\/status\/.*` */
  predicate PasteRuleMatches(text: string)
  {
    (StartsWith(text, TwitterHead) && StatusBeforeBreak(text[|TwitterHead|..]))
    || (StartsWith(text, XHead) && StatusBeforeBreak(text[|XHead|..]))
  }

  /**
   * The backtracking reading of the pattern: some `/status/` in the rest
   * is reached by a run of characters without a line terminator. Checking
   * the first occurrence only is equivalent.
   */
  lemma StatusBeforeBreakIff(rest: string)
    ensures StatusBeforeBreak(rest) <==>
      exists k: nat :: OccursAt(rest, StatusSegment, k) && NoLineTerminator(rest[..k])
  {
    match IndexOfFrom(rest, StatusSegment, 0)
    case None =>
    case Some(first) =>
      if k: nat :| OccursAt(rest, StatusSegment, k) && NoLineTerminator(rest[..k]) {
        assert first <= k;
        assert rest[..first] == rest[..k][..first];
      }
  }

  /** Only `https://` links on `twitter.com` or `x.com` are claimed, and only with a `/status/` segment after the host. */
  lemma PasteRuleHosts(text: string)
    requires PasteRuleMatches(text)
    ensures StartsWith(text, TwitterHead) || StartsWith(text, XHead)
    ensures Contains(text, StatusSegment)
  {
    var h := if StartsWith(text, TwitterHead) && StatusBeforeBreak(text[|TwitterHead|..]) then TwitterHead else XHead;
    var rest := text[|h|..];
    var k := IndexOfFrom(rest, StatusSegment, 0).value;
    assert text[|h| + k..|h| + k + |StatusSegment|] == rest[k..k + |StatusSegment|];
    assert OccursAt(text, StatusSegment, |h| + k);
    var c := IndexOfFrom(text, StatusSegment, 0);
    assert c.Some?;
  }

  /** The match is case-sensitive and needs `https`: the same link with `http` or an upper-case host is not claimed. */
  lemma PasteRuleNeedsExactHead(rest: string)
    ensures !PasteRuleMatches("http://" + rest)
    ensures !PasteRuleMatches("https://Twitter.com/" + rest)
  {
    var a := "http://" + rest;
    assert a[4] == ':';
    var b := "https://Twitter.com/" + rest;
    assert b[8] == 'T';
  }

  /** The node a matching paste creates carries the whole pasted text as its url. */
  lemma PastedNodeSpec(text: string)
    ensures var n := PastedNode(TwitterNode, text);
      n.kind == "twitter" && n.attrs == map["url" := Str(text)]
  {
  }

  /** The attribute codec: `data-url` is written only for a non-empty url, and an element without it is rejected. */
  lemma TwitterUrlCodec(url: Option<string>)
    ensures ParseUrl(RenderUrl(url)) == (if HasText(url) then url else None)
    ensures ParseUrl(map[]) == None
  {
    UrlRoundTrip(url);
  }

  /** `setTwitterEmbed({url})`: `false` for an empty url, otherwise the inserted node has the url as its only attribute. */
  lemma SetTwitterEmbedSpec(url: string)
    ensures SetEmbed(TwitterNode, url).None? <==> url == ""
    ensures url != "" ==> SetEmbed(TwitterNode, url) == Some(Node("twitter", map["url" := Str(url)], Absent, [], ""))
  {
  }

  /** The node is an atomic block named `twitter`, a member of the document's block group. */
  lemma TwitterNodeIsAtomicBlock()
    ensures TwitterNode.name == "twitter" && TwitterNode.group == "block" && TwitterNode.atom
  {
  }
}
