/**
 * The YouTube embed: the video-id extractor shared (as two identical
 * copies) by the server component and the editor view, what each of them
 * shows, and the node's paste rule, attribute codec and insert command.
 */
module YouTubeEmbed {
  import opened Wrappers
  import opened JsValue
  import opened Text
  import opened Content
  import opened EmbedNodes

  const YouTubeNode: NodeSpec := NodeSpec("youtube", "block", true, true)

  /** `[a-zA-Z0-9_-]` */
  predicate IdChar(c: char)
  {
    IsAsciiLetter(c) || IsDigit(c) || c == '_' || c == '-'
  }

  predicate AllIdChars(s: string)
  {
    forall i :: 0 <= i < |s| ==> IdChar(s[i])
  }

  const IdLength: nat := 11
  const WatchPrefix: string := "youtube.com/watch?v="
  const ShortPrefix: string := "youtu.be/"
  const EmbedPrefix: string := "youtube.com/embed/"

  /** `p` occurs at `i` and is followed by eleven id characters. */
  predicate PrefixThenId(url: string, p: string, i: nat)
  {
    OccursAt(url, p, i) && i + |p| + IdLength <= |url| && AllIdChars(url[i + |p|..i + |p| + IdLength])
  }

  /**
   * The first pattern attempted at index `i`: the alternatives are tried
   * in order and the first one that leads to a match supplies group 1.
   */
  function MatchAt(url: string, i: nat): (r: Option<string>)
    ensures r.Some? ==> |r.value| == IdLength && AllIdChars(r.value)
    ensures r.None? <==> !PrefixThenId(url, WatchPrefix, i) && !PrefixThenId(url, ShortPrefix, i) && !PrefixThenId(url, EmbedPrefix, i)
  {
    if PrefixThenId(url, WatchPrefix, i) then Some(url[i + |WatchPrefix|..i + |WatchPrefix| + IdLength])
    else if PrefixThenId(url, ShortPrefix, i) then Some(url[i + |ShortPrefix|..i + |ShortPrefix| + IdLength])
    else if PrefixThenId(url, EmbedPrefix, i) then Some(url[i + |EmbedPrefix|..i + |EmbedPrefix| + IdLength])
    else None
  }

  /** The unanchored search: the leftmost index at or after `from` where the first pattern matches. */
  function FirstMatchFrom(url: string, from: nat): (r: Option<nat>)
    requires from <= |url|
    ensures r.Some? ==> from <= r.value <= |url| && MatchAt(url, r.value).Some?
    ensures r.Some? ==> forall j: nat :: from <= j < r.value ==> MatchAt(url, j).None?
    ensures r.None? ==> forall j: nat :: from <= j <= |url| ==> MatchAt(url, j).None?
    decreases |url| - from
  {
    if MatchAt(url, from).Some? then Some(from)
    else if from == |url| then None
    else FirstMatchFrom(url, from + 1)
  }

  /** The second pattern, `^([a-zA-Z0-9_-]{11})$`: the whole string is an id. */
  predicate BareId(url: string)
  {
    |url| == IdLength && AllIdChars(url)
  }

  /** `extractVideoId(url)` (identical in `client.tsx` and `node-view.tsx`). */
  function ExtractVideoId(url: string): (r: Option<string>)
    ensures r.Some? ==> |r.value| == IdLength && AllIdChars(r.value)
    ensures url == "" ==> r.None?
  {
    if url == "" then None
    else match FirstMatchFrom(url, 0)
      case Some(i) => MatchAt(url, i)
      case None => if BareId(url) then Some(url) else None
  }

  /** The id is the eleven characters after the leftmost prefix that is followed by eleven id characters, whatever follows them. */
  lemma ExtractLeftmost(url: string, i: nat, p: string)
    requires p == WatchPrefix || p == ShortPrefix || p == EmbedPrefix
    requires PrefixThenId(url, p, i)
    requires forall j: nat :: j < i ==> MatchAt(url, j).None?
    ensures ExtractVideoId(url) == Some(url[i + |p|..i + |p| + IdLength])
  {
    PrefixesExclusive(url, i);
    FirstMatchIsLeftmost(url, 0, i);
  }

  lemma {:induction false} FirstMatchIsLeftmost(url: string, from: nat, i: nat)
    requires from <= i <= |url| && MatchAt(url, i).Some?
    requires forall j: nat :: from <= j < i ==> MatchAt(url, j).None?
    ensures FirstMatchFrom(url, from) == Some(i)
    decreases i - from
  {
    if from < i {
      FirstMatchIsLeftmost(url, from + 1, i);
    }
  }

  /** At most one of the three prefixes occurs at any index, so the order of the alternatives does not matter. */
  lemma PrefixesExclusive(url: string, i: nat)
    ensures OccursAt(url, WatchPrefix, i) ==> !OccursAt(url, ShortPrefix, i) && !OccursAt(url, EmbedPrefix, i)
    ensures OccursAt(url, ShortPrefix, i) ==> !OccursAt(url, EmbedPrefix, i)
  {
    if OccursAt(url, WatchPrefix, i) {
      assert url[i + 5] == url[i..i + |WatchPrefix|][5] == 'b';
      assert url[i + 12] == url[i..i + |WatchPrefix|][12] == 'w';
    }
    if OccursAt(url, ShortPrefix, i) {
      assert url[i + 5] == url[i..i + |ShortPrefix|][5] == '.';
    }
    if OccursAt(url, EmbedPrefix, i) {
      assert url[i + 5] == url[i..i + |EmbedPrefix|][5] == 'b';
    }
  }

  /** A string that is exactly eleven id characters and contains no prefix is its own id. */
  lemma ExtractBareId(url: string)
    requires BareId(url)
    ensures ExtractVideoId(url) == Some(url)
  {
    assert url != "";
    forall j: nat | j <= |url|
      ensures MatchAt(url, j).None?
    {
    }
  }

  /** No id comes out of a string that has no prefix followed by an id and is not itself an id. */
  lemma ExtractNone(url: string)
    ensures ExtractVideoId(url).None? <==>
      (url == "" || ((forall j: nat :: j <= |url| ==> MatchAt(url, j).None?) && !BareId(url)))
  {
    if url != "" && FirstMatchFrom(url, 0).Some? {
      var i := FirstMatchFrom(url, 0).value;
      assert MatchAt(url, i).Some?;
    }
  }

  // -------------------------------------------------------------------
  // What the component and the editor view show
  // -------------------------------------------------------------------

  datatype EmbedView =
    | InvalidUrl(link: Option<string>)   // "Invalid YouTube URL", with a "View on YouTube" link to `link`
    | Player(src: string)                // the iframe

  const EmbedBase: string := "https://www.youtube.com/embed/"

  /** `YouTubeClient({url})` in `client.tsx`. */
  function ClientView(url: string): (v: EmbedView)
    ensures v.InvalidUrl? <==> ExtractVideoId(url).None?
    ensures v.InvalidUrl? ==> (v.link.Some? <==> url != "") && (v.link.Some? ==> v.link.value == url)
    ensures v.Player? ==> v.src == EmbedBase + ExtractVideoId(url).value
  {
    match ExtractVideoId(url)
    case None => InvalidUrl(if url != "" then Some(url) else None)
    case Some(id) => Player(EmbedBase + id)
  }

  /** `YouTubeEmbedNodeView` in `node-view.tsx`: `None` is the attribute's default `null`, which skips extraction. */
  function NodeView(url: Option<string>): EmbedView
  {
    var id := if !HasText(url) then None else ExtractVideoId(url.value);
    match id
    case None => InvalidUrl(if HasText(url) then url else None)
    case Some(id) => Player(EmbedBase + id)
  }

  /** The editor view shows what the server component shows for the same url, and a missing url is an invalid embed without a link. */
  lemma NodeViewAgrees(url: string)
    ensures NodeView(Some(url)) == ClientView(url)
    ensures NodeView(None) == InvalidUrl(None)
  {
  }

  /** The player source is the embed base followed by an eleven-character id. */
  lemma PlayerSource(url: string)
    requires ClientView(url).Player?
    ensures var src := ClientView(url).src;
      |src| == |EmbedBase| + IdLength && src[..|EmbedBase|] == EmbedBase && AllIdChars(src[|EmbedBase|..])
  {
    var id := ExtractVideoId(url).value;
    assert ClientView(url).src[|EmbedBase|..] == id;
  }

  // -------------------------------------------------------------------
  // The node: paste rule, attribute codec, command
  // -------------------------------------------------------------------

  /** `(youtube\.com\/watch\?v=|youtu\.be\/|youtube\.com\/embed\/)` at the start of `rest`. */
  predicate PathHead(rest: string)
  {
    StartsWith(rest, WatchPrefix) || StartsWith(rest, ShortPrefix) || StartsWith(rest, EmbedPrefix)
  }

  /** `(www\.)?` followed by a path head. */
  predicate HostHead(rest: string)
  {
    PathHead(rest) || (StartsWith(rest, "www.") && PathHead(rest[4..]))
  }

  /** `^https?:\/\/(www\.)?(youtube\.com\/watch\?v=|youtu\.be\/|youtube\.com\/embed\/)` */
  predicate PasteRuleMatches(text: string)
  {
    (StartsWith(text, "http://") && HostHead(text[7..])) || (StartsWith(text, "https://") && HostHead(text[8..]))
  }

  /** The rule claims a text after `http://` or `https://` exactly when an optional `www.` and one of the three path heads follow. */
  lemma PasteRuleSchemes(rest: string)
    ensures PasteRuleMatches("http://" + rest) <==> HostHead(rest)
    ensures PasteRuleMatches("https://" + rest) <==> HostHead(rest)
    ensures !StartsWith(rest, "http") ==> !PasteRuleMatches(rest)
  {
    var a := "http://" + rest;
    assert a[..7] == "http://" && a[7..] == rest;
    var b := "https://" + rest;
    assert b[..8] == "https://" && b[8..] == rest;
    assert b[4] == 's' && a[4] == ':';
    if StartsWith(rest, "http://") || StartsWith(rest, "https://") {
      assert rest[..4] == "http";
    }
  }

  /** The node a matching paste creates carries the whole pasted text as its url. */
  lemma PastedNodeSpec(text: string)
    ensures var n := PastedNode(YouTubeNode, text);
      n.kind == "youtube" && n.attrs == map["url" := Str(text)]
  {
  }

  /** The attribute codec: `data-url` is written only for a non-empty url, and an element without it is rejected. */
  lemma YouTubeUrlCodec(url: Option<string>)
    ensures ParseUrl(RenderUrl(url)) == (if HasText(url) then url else None)
    ensures ParseUrl(map[]) == None
  {
    UrlRoundTrip(url);
  }

  /** `setYouTubeEmbed({url})`: `false` for an empty url, otherwise the inserted node has the url as its only attribute. */
  lemma SetYouTubeEmbedSpec(url: string)
    ensures SetEmbed(YouTubeNode, url).None? <==> url == ""
    ensures url != "" ==> SetEmbed(YouTubeNode, url) == Some(Node("youtube", map["url" := Str(url)], Absent, [], ""))
  {
  }

  /** The node is an atomic block named `youtube`. */
  lemma YouTubeNodeIsAtomicBlock()
    ensures YouTubeNode.name == "youtube" && YouTubeNode.group == "block" && YouTubeNode.atom
  {
  }
}
