/**
 * The inline `linkMention` node: its five string attributes, their
 * `data-*` codec and parse rule, the insert command, and the three ways
 * it is drawn (the server `renderHTML`, the server React component and
 * the editor's node view), which derive a title and a favicon from the
 * attributes.
 */
module LinkMention {
  import opened Wrappers
  import opened JsValue
  import opened Text
  import EmbedNodes

  /** `LinkMentionAttributes`; `None` stands for `null` / `undefined`. */
  datatype LinkAttrs = LinkAttrs(
    url: Option<string>,
    title: Option<string>,
    customTitle: Option<string>,
    favicon: Option<string>,
    hostname: Option<string>)

  /** A string attribute of the node; any other value counts as absent. */
  function StringAttr(attrs: map<string, Value>, key: string): (v: Option<string>)
    ensures v.Some? <==> key in attrs && attrs[key].Str?
  {
    match Get(attrs, key)
    case Str(s) => Some(s)
    case _ => None
  }

  /** `node.attrs as LinkMentionAttributes` */
  function AttrsOf(attrs: map<string, Value>): LinkAttrs
  {
    LinkAttrs(StringAttr(attrs, "url"), StringAttr(attrs, "title"), StringAttr(attrs, "customTitle"),
              StringAttr(attrs, "favicon"), StringAttr(attrs, "hostname"))
  }

  /** `{ "data-<name>": value }` when the value is truthy, `{}` otherwise. */
  function DataAttr(name: string, value: Option<string>): map<string, string>
  {
    if HasText(value) then map[name := value.value] else map[]
  }

  /** The five attributes' `renderHTML`, merged. */
  function RenderAttrs(a: LinkAttrs): (m: map<string, string>)
    ensures "data-url" in m <==> HasText(a.url)
    ensures "data-title" in m <==> HasText(a.title)
    ensures "data-custom-title" in m <==> HasText(a.customTitle)
    ensures "data-favicon" in m <==> HasText(a.favicon)
    ensures "data-hostname" in m <==> HasText(a.hostname)
    ensures m.Keys <= {"data-url", "data-title", "data-custom-title", "data-favicon", "data-hostname"}
  {
    DataAttr("data-url", a.url) + DataAttr("data-title", a.title) + DataAttr("data-custom-title", a.customTitle)
    + DataAttr("data-favicon", a.favicon) + DataAttr("data-hostname", a.hostname)
  }

  /** `element.getAttribute(name) || undefined` */
  function OptionalAttr(dom: map<string, string>, name: string): (v: Option<string>)
    ensures v.Some? <==> name in dom && dom[name] != ""
    ensures v.Some? ==> v.value == dom[name]
  {
    var raw := EmbedNodes.GetAttribute(dom, name);
    if HasText(raw) then raw else None
  }

  /** The parse rule's `getAttrs`: rejected (`None`) without a non-empty `data-url`. */
  function ParseAttrs(dom: map<string, string>): (r: Option<LinkAttrs>)
    ensures r.None? <==> !("data-url" in dom && dom["data-url"] != "")
    ensures r.Some? ==> r.value.url == Some(dom["data-url"])
  {
    var url := EmbedNodes.GetAttribute(dom, "data-url");
    if !HasText(url) then None
    else Some(LinkAttrs(url, OptionalAttr(dom, "data-title"), OptionalAttr(dom, "data-custom-title"),
                        OptionalAttr(dom, "data-favicon"), OptionalAttr(dom, "data-hostname")))
  }

  /** An empty string read as absent. */
  function Clean(v: Option<string>): Option<string>
  {
    if HasText(v) then v else None
  }

  /**
   * Rendering and parsing back restores every attribute that was set and
   * non-empty, and reads every empty one as absent; without a url the
   * element is rejected.
   */
  lemma AttrsRoundTrip(a: LinkAttrs)
    ensures ParseAttrs(RenderAttrs(a)) ==
      if HasText(a.url) then Some(LinkAttrs(a.url, Clean(a.title), Clean(a.customTitle), Clean(a.favicon), Clean(a.hostname)))
      else None
  {
    var m := RenderAttrs(a);
    assert HasText(a.url) ==> m["data-url"] == a.url.value;
    assert HasText(a.title) ==> m["data-title"] == a.title.value;
    assert HasText(a.customTitle) ==> m["data-custom-title"] == a.customTitle.value;
    assert HasText(a.favicon) ==> m["data-favicon"] == a.favicon.value;
    assert HasText(a.hostname) ==> m["data-hostname"] == a.hostname.value;
  }

  /** The options of `setLinkMention`. */
  datatype LinkOptions = LinkOptions(url: string, title: Option<string>, favicon: Option<string>, hostname: Option<string>)

  /** `setLinkMention(options)`: `false` (`None`) for an empty url, else the attributes of the inserted node. */
  function SetLinkMention(options: LinkOptions): (r: Option<LinkAttrs>)
    ensures r.None? <==> options.url == ""
    ensures r.Some? ==> r.value.url == Some(options.url) && r.value.title == options.title
    ensures r.Some? ==> r.value.favicon == options.favicon && r.value.hostname == options.hostname
    ensures r.Some? ==> r.value.customTitle.None?
  {
    if options.url == "" then None
    else Some(LinkAttrs(Some(options.url), options.title, None, options.favicon, options.hostname))
  }

  // ---------------------------------------------------------------------
  // Derived display data.
  // ---------------------------------------------------------------------

  /** `customTitle || title || hostname || url`, used by the two server renderers. */
  function DisplayTitle(a: LinkAttrs): (t: string)
    ensures HasText(a.customTitle) ==> t == a.customTitle.value
    ensures !HasText(a.customTitle) && HasText(a.title) ==> t == a.title.value
    ensures !HasText(a.customTitle) && !HasText(a.title) && HasText(a.hostname) ==> t == a.hostname.value
    ensures !HasText(a.customTitle) && !HasText(a.title) && !HasText(a.hostname) ==> t == a.url.GetOr("")
  {
    FirstTruthy(a.customTitle, EditorTitle(a))
  }

  /** `title || hostname || url`, used by the editor's node view. */
  function EditorTitle(a: LinkAttrs): (t: string)
    ensures HasText(a.title) ==> t == a.title.value
    ensures !HasText(a.title) && HasText(a.hostname) ==> t == a.hostname.value
    ensures !HasText(a.title) && !HasText(a.hostname) ==> t == a.url.GetOr("")
  {
    FirstTruthy(a.title, FirstTruthy(a.hostname, a.url.GetOr("")))
  }

  /** The favicon slot: the image, or a placeholder with a single character. */
  datatype Favicon = FaviconImage(src: string) | FaviconPlaceholder(text: string)

  /** `hostname?.[0]?.toUpperCase() || '🌐'` */
  function PlaceholderText(hostname: Option<string>): (text: string)
    ensures |text| == 1
    ensures HasText(hostname) ==> text == [UpperChar(hostname.value[0])]
    ensures !HasText(hostname) ==> text == "🌐"
  {
    UpperInitial(hostname.GetOr("")).GetOr("🌐")
  }

  /** `favicon && !faviconError ? <img> : <placeholder>` */
  function FaviconOf(a: LinkAttrs, faviconError: bool): (f: Favicon)
    ensures f.FaviconImage? <==> HasText(a.favicon) && !faviconError
    ensures f.FaviconImage? ==> f.src == a.favicon.value
    ensures f.FaviconPlaceholder? ==> f.text == PlaceholderText(a.hostname)
  {
    if HasText(a.favicon) && !faviconError then FaviconImage(a.favicon.value) else FaviconPlaceholder(PlaceholderText(a.hostname))
  }

  /** `span[attrs] > a[href] > span.link-mention-content > (favicon, title)` */
  datatype LinkView = LinkView(wrapperAttrs: map<string, string>, href: Option<string>, favicon: Favicon, title: string)

  /** React renders `data-x={v}` for every value that is neither `null` nor `undefined`, the empty string included. */
  function ReactDataAttr(name: string, value: Option<string>): map<string, string>
  {
    if value.Some? then map[name := value.value] else map[]
  }

  /** The server `renderHTML` of `createLinkMentionExtensionForSSR`; there is no load-error state on the server. */
  function ExtensionHtml(a: LinkAttrs): (v: LinkView)
    ensures v.wrapperAttrs == RenderAttrs(a)["data-type" := "link-mention"]["class" := "link-mention"]
    ensures v.href == a.url && v.title == DisplayTitle(a) && v.favicon == FaviconOf(a, false)
  {
    LinkView(RenderAttrs(a)["data-type" := "link-mention"]["class" := "link-mention"], a.url, FaviconOf(a, false), DisplayTitle(a))
  }

  /** `LinkMentionSSR`: the component the post page renders, with its favicon-error state. */
  function ServerView(a: LinkAttrs, faviconError: bool): (v: LinkView)
    ensures "data-type" in v.wrapperAttrs && v.wrapperAttrs["data-type"] == "link-mention"
    ensures "data-custom-title" in v.wrapperAttrs <==> a.customTitle.Some?
    ensures v.href == a.url && v.title == DisplayTitle(a) && v.favicon == FaviconOf(a, faviconError)
  {
    var data := ReactDataAttr("data-url", a.url) + ReactDataAttr("data-title", a.title)
      + ReactDataAttr("data-custom-title", a.customTitle) + ReactDataAttr("data-favicon", a.favicon)
      + ReactDataAttr("data-hostname", a.hostname);
    LinkView(data["class" := "link-mention"]["data-type" := "link-mention"], a.url, FaviconOf(a, faviconError), DisplayTitle(a))
  }

  /** `LinkMentionNodeView`: the editor's view, which neither reads nor writes `customTitle`. */
  function EditorView(a: LinkAttrs, faviconError: bool): (v: LinkView)
    ensures "data-type" !in v.wrapperAttrs && "data-custom-title" !in v.wrapperAttrs
    ensures v.href == a.url && v.title == EditorTitle(a) && v.favicon == FaviconOf(a, faviconError)
  {
    var data := ReactDataAttr("data-url", a.url) + ReactDataAttr("data-title", a.title)
      + ReactDataAttr("data-favicon", a.favicon) + ReactDataAttr("data-hostname", a.hostname);
    LinkView(data["class" := "link-mention"], a.url, FaviconOf(a, faviconError), EditorTitle(a))
  }

  /** Without a custom title the editor shows the same title, link and favicon as the published page. */
  lemma EditorMatchesServerWithoutCustomTitle(a: LinkAttrs, faviconError: bool)
    requires !HasText(a.customTitle)
    ensures EditorView(a, faviconError).title == ServerView(a, faviconError).title
    ensures EditorView(a, faviconError).href == ServerView(a, faviconError).href
    ensures EditorView(a, faviconError).favicon == ServerView(a, faviconError).favicon
  {
  }

  /** A custom title that differs from the fallback chain shows on the page but not in the editor. */
  lemma CustomTitleOnlyOnServer(a: LinkAttrs, faviconError: bool)
    requires HasText(a.customTitle) && a.customTitle.value != EditorTitle(a)
    ensures ServerView(a, faviconError).title == a.customTitle.value
    ensures EditorView(a, faviconError).title != ServerView(a, faviconError).title
  {
  }

  /** A node made by `setLinkMention` carries no custom title, so the two views agree on it. */
  lemma InsertedMentionsAgree(options: LinkOptions, faviconError: bool)
    requires SetLinkMention(options).Some?
    ensures var a := SetLinkMention(options).value;
      EditorView(a, faviconError).title == ServerView(a, faviconError).title
  {
  }

  /** Before any load error the React component draws what the extension's `renderHTML` draws. */
  lemma ServerViewMatchesExtension(a: LinkAttrs)
    ensures ServerView(a, false).href == ExtensionHtml(a).href
    ensures ServerView(a, false).favicon == ExtensionHtml(a).favicon
    ensures ServerView(a, false).title == ExtensionHtml(a).title
  {
  }

  /** An example: a titled link with a custom title and a missing favicon. */
  lemma CustomTitleExample()
    ensures var a := LinkAttrs(Some("https://dafny.org/"), Some("Dafny"), Some("Docs"), None, Some("dafny.org"));
      ServerView(a, false).title == "Docs" && EditorView(a, false).title == "Dafny"
      && ServerView(a, false).favicon == FaviconPlaceholder("D")
  {
    var a := LinkAttrs(Some("https://dafny.org/"), Some("Dafny"), Some("Docs"), None, Some("dafny.org"));
    assert a.hostname.value[0] == 'd';
  }
}
