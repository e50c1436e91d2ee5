/**
 * The link-paste handler: decides whether pasted text is a web address
 * the link-mention popover should offer, leaving tweet links to the tweet
 * embed's paste rule.
 */
module LinkPaste {
  import opened Wrappers
  import opened Text
  import TwitterEmbed
  import YouTubeEmbed

  /** What `new URL(s)` yields: its protocol and normalised href. The parser is a parameter; `None` means it throws. */
  datatype ParsedUrl = ParsedUrl(protocol: string, href: string)

  predicate IsWebProtocol(protocol: string)
  {
    protocol == "http:" || protocol == "https:"
  }

  /** `[\da-z\.-]` under the `i` flag. */
  predicate HostChar(c: char)
  {
    IsDigit(c) || IsAsciiLetter(c) || c == '.' || c == '-'
  }

  /** `[a-z\.]` under the `i` flag. */
  predicate TldChar(c: char)
  {
    IsAsciiLetter(c) || c == '.'
  }

  /** `[\/\w \.-]` */
  predicate PathChar(c: char)
  {
    c == '/' || IsWordChar(c) || c == ' ' || c == '.' || c == '-'
  }

  /**
   * `([\da-z\.-]+)\.([a-z\.]{2,6})([\/\w \.-]*)*\/?$`: a host part, a dot,
   * two to six top-level-domain characters and a path. The repeated group
   * and the optional final slash accept the same strings as one path run.
   */
  predicate DomainBody(s: string)
  {
    exists i: nat, j: nat | i < j <= |s| :: DomainSplit(s, i, j)
  }

  /** The host part is `s[..i]`, the dot is `s[i]`, the top-level domain `s[i + 1..j]` and the path `s[j..]`. */
  predicate DomainSplit(s: string, i: nat, j: nat)
  {
    0 < i && i + 3 <= j <= i + 7 && j <= |s| && s[i] == '.' &&
    (forall k :: 0 <= k < i ==> HostChar(s[k])) &&
    (forall k :: i + 1 <= k < j ==> TldChar(s[k])) &&
    (forall k :: j <= k < |s| ==> PathChar(s[k]))
  }

  /** `(https?:\/\/)?` in front of the body, matched case-insensitively. */
  predicate DomainPattern(s: string)
  {
    DomainBody(s)
    || (StartsWith(Lower(s), "http://") && DomainBody(s[7..]))
    || (StartsWith(Lower(s), "https://") && DomainBody(s[8..]))
  }

  /** A bare domain with a path looks like a url. */
  lemma DomainPatternAccepts()
    ensures DomainPattern("example.com/a")
  {
    var d := "example.com/a";
    assert d[7] == '.';
    assert forall k :: 0 <= k < 7 ==> IsAsciiLetter(d[k]);
    assert forall k :: 8 <= k < 11 ==> IsAsciiLetter(d[k]);
    assert DomainSplit(d, 7, 11);
  }

  /** A word without a dot does not. */
  lemma DomainPatternRejects()
    ensures !DomainPattern("localhost")
  {
    var w := "localhost";
    assert forall k :: 0 <= k < |w| ==> w[k] != '.';
    assert Lower(w)[0] == 'l';
  }

  /** `^https:\/\/(twitter\.com|x\.com)` with the `i` flag. */
  predicate IsTwitterUrl(url: string)
  {
    StartsWith(Lower(url), "https://twitter.com") || StartsWith(Lower(url), "https://x.com")
  }

  /** The `url` the handler settles on for the trimmed text `t`, or `None` (`null`). */
  function RecognisedUrl(t: string, parse: string -> Option<ParsedUrl>): (url: Option<string>)
    ensures parse(t).Some? ==> (url.Some? <==> IsWebProtocol(parse(t).value.protocol))
    ensures parse(t).Some? && url.Some? ==> url.value == parse(t).value.href
    ensures parse(t).None? && url.Some? ==> DomainPattern(t)
  {
    match parse(t)
    case Some(u) => if IsWebProtocol(u.protocol) then Some(u.href) else None
    case None =>
      if DomainPattern(t) then
        var withProtocol := if StartsWith(t, "http") then t else "https://" + t;
        match parse(withProtocol)
        case Some(u) => Some(u.href)
        case None => None
      else None
  }

  /**
   * `handlePaste`: `Some(href)` when the paste is claimed (the `linkPaste`
   * event carries `href`, the default paste is prevented and the handler
   * returns true); `None` when it returns false. `clipboard` is `None`
   * when the event has no clipboard data.
   */
  function HandlePaste(clipboard: Option<string>, parse: string -> Option<ParsedUrl>): (r: Option<string>)
    ensures r.Some? ==> clipboard.Some? && !AllWhitespace(clipboard.value)
    ensures r.Some? ==> r.value != "" && !IsTwitterUrl(r.value)
    ensures r.Some? ==> RecognisedUrl(Trim(clipboard.value), parse) == r
  {
    match clipboard
    case None => None
    case Some(text) =>
      if text == "" || |Trim(text)| == 0 then
        TrimEmptyIffBlank(text);
        None
      else
        TrimEmptyIffBlank(text);
        match RecognisedUrl(Trim(text), parse)
        case None => None
        case Some(url) => if url == "" || IsTwitterUrl(url) then None else Some(url)
  }

  /** Without clipboard data, or with only whitespace, nothing is handled. */
  lemma BlankPasteIgnored(text: string, parse: string -> Option<ParsedUrl>)
    ensures HandlePaste(None, parse).None?
    ensures AllWhitespace(text) ==> HandlePaste(Some(text), parse).None?
  {
    TrimEmptyIffBlank(text);
  }

  /** A text that parses with a protocol other than `http:`/`https:` is not handled; the pattern fallback is not tried. */
  lemma OtherProtocolDeclined(text: string, parse: string -> Option<ParsedUrl>)
    requires parse(Trim(text)).Some? && !IsWebProtocol(parse(Trim(text)).value.protocol)
    ensures HandlePaste(Some(text), parse).None?
  {
  }

  /** A text that does not parse but looks like a domain is retried with `https://` in front, unless it starts with `http`. */
  lemma FallbackAddsScheme(t: string, parse: string -> Option<ParsedUrl>)
    requires parse(t).None? && DomainPattern(t)
    ensures !StartsWith(t, "http") ==> RecognisedUrl(t, parse) == (if parse("https://" + t).Some? then Some(parse("https://" + t).value.href) else None)
    ensures StartsWith(t, "http") ==> RecognisedUrl(t, parse).None?
  {
  }

  /** A text that neither parses nor looks like a domain yields no url. */
  lemma NotAUrl(t: string, parse: string -> Option<ParsedUrl>)
    requires parse(t).None? && !DomainPattern(t)
    ensures RecognisedUrl(t, parse).None?
  {
  }

  /** Every accepted url that is not a twitter.com / x.com address is claimed with its normalised href. */
  lemma OtherUrlsClaimed(text: string, parse: string -> Option<ParsedUrl>)
    requires !AllWhitespace(text)
    requires RecognisedUrl(Trim(text), parse).Some?
    requires var url := RecognisedUrl(Trim(text), parse).value; url != "" && !IsTwitterUrl(url)
    ensures HandlePaste(Some(text), parse) == RecognisedUrl(Trim(text), parse)
  {
    TrimEmptyIffBlank(text);
  }

  lemma {:induction false} LowerKeepsLowerPrefix(s: string, p: string)
    requires StartsWith(s, p)
    requires forall k :: 0 <= k < |p| ==> !IsAsciiUpper(p[k])
    ensures StartsWith(Lower(s), p)
  {
    forall k | 0 <= k < |p|
      ensures Lower(s)[k] == p[k]
    {
      assert s[k] == s[..|p|][k];
    }
  }

  /** A link the tweet embed's paste rule claims is a twitter.com / x.com address in the sense of this handler. */
  lemma TweetRuleLinksAreTwitter(t: string)
    requires TwitterEmbed.PasteRuleMatches(t)
    ensures IsTwitterUrl(t)
  {
    if StartsWith(t, TwitterEmbed.TwitterHead) {
      assert StartsWith(t, "https://twitter.com") by { assert t[..19] == t[..|TwitterEmbed.TwitterHead|][..19]; }
      LowerKeepsLowerPrefix(t, "https://twitter.com");
    } else {
      assert StartsWith(t, "https://x.com") by { assert t[..13] == t[..|TwitterEmbed.XHead|][..13]; }
      LowerKeepsLowerPrefix(t, "https://x.com");
    }
  }

  /**
   * A tweet link the tweet embed's paste rule claims, which parses to
   * itself, is declined here, so the embed's rule gets it.
   */
  lemma TweetLinksLeftToEmbedRule(text: string, parse: string -> Option<ParsedUrl>)
    requires TwitterEmbed.PasteRuleMatches(Trim(text))
    requires parse(Trim(text)) == Some(ParsedUrl("https:", Trim(text)))
    ensures HandlePaste(Some(text), parse).None?
  {
    TweetRuleLinksAreTwitter(Trim(text));
  }

  /** A prefix fixes the first character. */
  lemma StartsWithHead(s: string, prefix: string)
    requires prefix != [] && StartsWith(s, prefix)
    ensures s[0] == prefix[0]
  {
    assert s[..|prefix|][0] == s[0];
  }

  /** What follows the scheme in a YouTube link starts with `y` or `w`. */
  lemma HostHeadFirstChar(h: string)
    requires YouTubeEmbed.HostHead(h)
    ensures |h| > 0 && (h[0] == 'y' || h[0] == 'w')
  {
    if StartsWith(h, "www.") {
      StartsWithHead(h, "www.");
    } else if StartsWith(h, YouTubeEmbed.WatchPrefix) {
      StartsWithHead(h, YouTubeEmbed.WatchPrefix);
    } else if StartsWith(h, YouTubeEmbed.ShortPrefix) {
      StartsWithHead(h, YouTubeEmbed.ShortPrefix);
    } else {
      StartsWithHead(h, YouTubeEmbed.EmbedPrefix);
    }
  }

  /** A string that starts with a lower-cased Twitter address has `t` or `x` at index 8. */
  lemma TwitterUrlChar8(t: string)
    requires IsTwitterUrl(t)
    ensures |t| > 8 && (LowerChar(t[8]) == 't' || LowerChar(t[8]) == 'x')
  {
    var l := Lower(t);
    if StartsWith(l, "https://twitter.com") {
      assert l[8] == l[..19][8];
    } else {
      assert l[8] == l[..13][8];
    }
  }

  /** A string that starts with a lower-cased Twitter address has `:` at index 5 once lower-cased. */
  lemma TwitterUrlChar5(t: string)
    requires IsTwitterUrl(t)
    ensures |t| > 5 && LowerChar(t[5]) == ':'
  {
    var l := Lower(t);
    if StartsWith(l, "https://twitter.com") {
      assert l[5] == l[..19][5];
    } else {
      assert l[5] == l[..13][5];
    }
  }

  /** A link the YouTube paste rule claims is not a twitter.com / x.com address. */
  lemma YouTubeRuleLinksAreNotTwitter(t: string)
    requires YouTubeEmbed.PasteRuleMatches(t)
    ensures !IsTwitterUrl(t)
  {
    if IsTwitterUrl(t) {
      if StartsWith(t, "https://") && YouTubeEmbed.HostHead(t[8..]) {
        HostHeadFirstChar(t[8..]);
        TwitterUrlChar8(t);
        assert false;
      } else {
        assert t[5] == t[..7][5];
        TwitterUrlChar5(t);
        assert false;
      }
    }
  }

  /**
   * This handler claims, as a link mention, a YouTube link that the
   * YouTube paste rule would also claim, when the link parses to itself.
   * Which of the two runs first is decided by the editor's plugin order,
   * which this model does not cover.
   */
  lemma YouTubeLinksClaimedHere(text: string, parse: string -> Option<ParsedUrl>)
    requires YouTubeEmbed.PasteRuleMatches(Trim(text))
    requires parse(Trim(text)) == Some(ParsedUrl("https:", Trim(text)))
    ensures HandlePaste(Some(text), parse) == Some(Trim(text))
  {
    YouTubeRuleLinksAreNotTwitter(Trim(text));
    assert Trim(text) != "";
    OtherUrlsClaimed(text, parse);
  }
}
