/**
 * `LinkPasteSuggestion`: the popover offered after a URL is pasted. It
 * loads page metadata, falls back to what the URL itself gives when that
 * fails, and inserts a link mention or gives up on a key press or click.
 */
module PasteSuggestion {
  import opened Wrappers
  import opened Text

  /** The title, favicon and hostname shown and inserted; `None` for a field left unset. */
  datatype Metadata = Metadata(title: Option<string>, favicon: Option<string>, hostname: Option<string>)

  /**
   * How the metadata request ended: the `fetch` rejected, or a response
   * arrived with its `ok` flag and its JSON body (`None` when
   * `response.json()` throws).
   */
  datatype FetchOutcome = Rejected | Responded(ok: bool, json: Option<Metadata>)

  predicate Succeeded(outcome: FetchOutcome)
  {
    outcome.Responded? && outcome.ok && outcome.json.Some?
  }

  const FaviconService: string := "https://www.google.com/s2/favicons?domain="

  /** The favicon guessed for a host when the metadata could not be loaded. */
  function FallbackFavicon(host: string): (src: string)
    ensures StartsWith(src, FaviconService) && EndsWith(src, "&sz=64")
    ensures |src| == |FaviconService| + |host| + 6 && src[|FaviconService|..|src| - 6] == host
  {
    FaviconService + host + "&sz=64"
  }

  /**
   * The `catch` branch: `host` is `new URL(url).hostname`, `None` when the
   * URL does not parse. Title and hostname are the host (or the raw url).
   */
  function FallbackMetadata(url: string, host: Option<string>): (m: Metadata)
    ensures m.title == m.hostname
    ensures host.Some? ==> m.title == host && m.favicon == Some(FallbackFavicon(host.value))
    ensures host.None? ==> m.title == Some(url) && m.favicon.None?
  {
    match host
    case Some(h) => Metadata(Some(h), Some(FallbackFavicon(h)), Some(h))
    case None => Metadata(Some(url), None, Some(url))
  }

  /** What the Enter and Escape handler does. */
  datatype KeyAction = CancelPaste | InsertMention(url: string, metadata: Metadata) | Ignore

  /** `metadata.title || metadata.hostname || url` */
  function PreviewTitle(m: Metadata, url: string): (t: string)
    ensures HasText(m.title) ==> t == m.title.value
    ensures !HasText(m.title) && HasText(m.hostname) ==> t == m.hostname.value
    ensures !HasText(m.title) && !HasText(m.hostname) ==> t == url
  {
    FirstTruthy(m.title, FirstTruthy(m.hostname, url))
  }

  /** The popover's body: "Loading..." or the prompt with an optional preview (favicon, title). */
  datatype Preview = Preview(favicon: Option<string>, title: string)
  datatype Popover = LoadingPopover | Prompt(preview: Option<Preview>)

  class Suggestion {
    const url: string
    var metadata: Option<Metadata>
    var loading: bool
    var error: bool

    /** Metadata is known whenever loading has finished. */
    predicate Valid()
      reads this
    {
      !loading ==> metadata.Some?
    }

    /** Mounting: loading, no metadata, no error. */
    constructor(pasted: string)
      ensures url == pasted && metadata.None? && loading && !error
      ensures Valid()
    {
      url := pasted;
      metadata := None;
      loading := true;
      error := false;
    }

    /**
     * `fetchMetadata` once the request has ended: a good response gives its
     * fields and clears the error flag; anything else sets the flag and
     * uses the fallback; loading ends either way.
     */
    method Settle(outcome: FetchOutcome, host: Option<string>)
      modifies this
      ensures !loading && Valid()
      ensures error <==> !Succeeded(outcome)
      ensures Succeeded(outcome) ==> metadata == outcome.json
      ensures !Succeeded(outcome) ==> metadata == Some(FallbackMetadata(url, host))
    {
      if outcome.Responded? && outcome.ok && outcome.json.Some? {
        var data := outcome.json.value;
        metadata := Some(Metadata(data.title, data.favicon, data.hostname));
        error := false;
      } else {
        error := true;
        metadata := Some(FallbackMetadata(url, host));
      }
      loading := false;
    }

    /** `handleInsert`: the pasted url with the current metadata, or nothing while there is none. */
    function Insert(): (r: Option<(string, Metadata)>)
      reads this
      ensures r.Some? <==> metadata.Some?
      ensures r.Some? ==> r.value == (url, metadata.value)
    {
      if metadata.Some? then Some((url, metadata.value)) else None
    }

    /** The document key handler: Escape cancels; Enter inserts only when loaded, with metadata, on the focused Mention button. */
    function OnKey(key: string, mentionFocused: bool): (a: KeyAction)
      reads this
      ensures key == "Escape" ==> a == CancelPaste
      ensures a.InsertMention? <==> key == "Enter" && !loading && metadata.Some? && mentionFocused
      ensures a.InsertMention? ==> Some((a.url, a.metadata)) == Insert()
      ensures key != "Escape" && key != "Enter" ==> a == Ignore
    {
      if key == "Escape" then CancelPaste
      else if key == "Enter" && !loading && metadata.Some? && mentionFocused then InsertMention(url, metadata.value)
      else Ignore
    }

    /** What the popover shows. */
    function View(): (p: Popover)
      reads this
      ensures loading <==> p.LoadingPopover?
      ensures p.Prompt? ==> (p.preview.Some? <==> metadata.Some?)
      ensures p.Prompt? && p.preview.Some? ==>
        p.preview.value == Preview(Clean(metadata.value.favicon), PreviewTitle(metadata.value, url))
    {
      if loading then LoadingPopover
      else if metadata.None? then Prompt(None)
      else Prompt(Some(Preview(Clean(metadata.value.favicon), PreviewTitle(metadata.value, url))))
    }
  }

  /** `metadata.favicon && <img>`: an empty favicon shows no image. */
  function Clean(v: Option<string>): (r: Option<string>)
    ensures r.Some? <==> HasText(v)
    ensures r.Some? ==> r == v
  {
    if HasText(v) then v else None
  }

  /** After a failed load the preview names the host, or the raw url when it does not parse. */
  lemma FallbackPreview(url: string, host: Option<string>)
    ensures HasText(host) ==> PreviewTitle(FallbackMetadata(url, host), url) == host.value
    ensures !HasText(host) ==> PreviewTitle(FallbackMetadata(url, host), url) == url
  {
  }

  /** Whatever the request does, once it has ended the Mention button inserts the pasted url. */
  method SettledPopoverInserts(pasted: string, outcome: FetchOutcome, host: Option<string>) returns (s: Suggestion)
    ensures s.url == pasted && !s.loading
    ensures s.Insert().Some? && s.Insert().value.0 == pasted
    ensures s.OnKey("Enter", true).InsertMention?
    ensures s.OnKey("Enter", false) == Ignore
  {
    s := new Suggestion(pasted);
    assert s.Insert().None?;
    s.Settle(outcome, host);
  }
}
