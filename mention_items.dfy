/**
 * The mention suggestion protocol: how the text typed after `@` is turned
 * into menu items (prefix hints, a platform lookup, or a fallback item),
 * the attributes the selection command gives the new mention node, and
 * the plain-text label of a mention. `config.ts` carries a copy of the
 * items function, the command and the label formatter with the same text;
 * one model serves both.
 */
module MentionSuggest {
  import opened Wrappers
  import opened JsValue
  import opened Text

  /** `MentionItem`; `None` for a field that is absent. */
  datatype MentionItem = MentionItem(
    id: string,
    labelText: Option<string>,
    username: Option<string>,
    displayName: Option<string>,
    avatar: Option<string>,
    verified: Option<bool>)

  datatype Platform = Twitter | GitHub

  function Prefix(p: Platform): string
  {
    match p
    case Twitter => "tw:"
    case GitHub => "gh:"
  }

  /** A prefix hint: choosing it types the prefix and keeps the menu open. */
  function Hint(p: Platform): MentionItem
  {
    MentionItem(Prefix(p), Some("@" + Prefix(p)), None, None, None, None)
  }

  /** `/^tw:(.+)$/i` (or `gh:`): the prefix in any case, then at least one character and no line break. */
  predicate PrefixMatch(query: string, p: Platform)
  {
    |query| > 3 && Lower(query[..3]) == Prefix(p) && NoLineTerminator(query[3..])
  }

  /** What the items function does with a query, before any lookup. */
  datatype QueryKind =
    | LookupQuery(platform: Platform, username: string)   // search the platform for the trimmed handle
    | BlankHandle                                          // a prefix followed only by whitespace: `[]`
    | Hints(items: seq<MentionItem>)

  function Classify(query: string): (k: QueryKind)
    ensures k.LookupQuery? ==> k.username != "" && PrefixMatch(query, k.platform) && k.username == Trim(query[3..])
    ensures k.BlankHandle? <==> (PrefixMatch(query, Twitter) || PrefixMatch(query, GitHub)) && Trim(query[3..]) == ""
  {
    if PrefixMatch(query, Twitter) then
      var u := Trim(query[3..]);
      if |u| > 0 then LookupQuery(Twitter, u) else BlankHandle
    else if PrefixMatch(query, GitHub) then
      var u := Trim(query[3..]);
      if |u| > 0 then LookupQuery(GitHub, u) else BlankHandle
    else Hints(HintList(query))
  }

  /** The hints for a query that is not a prefix with a handle. */
  function HintList(query: string): (hs: seq<MentionItem>)
    ensures 1 <= |hs| <= 2
    ensures forall i :: 0 <= i < |hs| ==> hs[i] == Hint(Twitter) || hs[i] == Hint(GitHub)
  {
    var lower := Lower(query);
    if |query| == 0 then [Hint(Twitter), Hint(GitHub)]
    else if lower == "t" || StartsWith(lower, "tw") then [Hint(Twitter)]
    else if lower == "g" || StartsWith(lower, "gh") then [Hint(GitHub)]
    else [Hint(Twitter), Hint(GitHub)]
  }

  /** A platform prefix followed by a one-line handle matches that platform's pattern and not the other's. */
  lemma PrefixMatchesOwnPlatform(p: Platform, rest: string)
    requires |rest| > 0 && NoLineTerminator(rest)
    ensures var q := Prefix(p) + rest;
      q[3..] == rest && PrefixMatch(q, p) && (p == GitHub ==> !PrefixMatch(q, Twitter))
  {
    var q := Prefix(p) + rest;
    assert q[..3] == Prefix(p) && q[3..] == rest;
    assert Lower(q[..3]) == Prefix(p);
    if p == GitHub {
      assert Lower(q[..3])[0] == 'g';
    }
  }

  /** How a debounced lookup settled. */
  datatype LookupOutcome = Found(users: seq<MentionItem>) | Failed

  /** The item offered when a lookup fails: the typed handle as it is. */
  function FallbackItem(p: Platform, username: string): MentionItem
  {
    MentionItem(Prefix(p) + username, Some("@" + Prefix(p) + username), Some(username), None, None, None)
  }

  /** `getMentionSuggestionItems({query})`; `lookup` stands for the debounced search of each platform. */
  function SuggestionItems(query: string, lookup: (Platform, string) -> LookupOutcome): (items: seq<MentionItem>)
  {
    match Classify(query)
    case LookupQuery(p, u) =>
      (match lookup(p, u)
       case Found(users) => users
       case Failed => [FallbackItem(p, u)])
    case BlankHandle => []
    case Hints(hs) => hs
  }

  /** A `tw:`/`gh:` query with a non-blank handle looks up the trimmed handle; the users found are the items, and a failure gives the fallback item. */
  lemma LookupQueries(p: Platform, rest: string, lookup: (Platform, string) -> LookupOutcome)
    requires |rest| > 0 && NoLineTerminator(rest) && !AllWhitespace(rest)
    ensures var q := Prefix(p) + rest; var u := Trim(rest);
      Classify(q) == LookupQuery(p, u) &&
      SuggestionItems(q, lookup) == (if lookup(p, u).Found? then lookup(p, u).users else [FallbackItem(p, u)])
  {
    PrefixMatchesOwnPlatform(p, rest);
    TrimEmptyIffBlank(rest);
  }

  /** The `tw:` test is case-insensitive: `TW:` followed by a handle looks up Twitter too. */
  lemma UpperCasePrefix(rest: string)
    requires |rest| > 0 && NoLineTerminator(rest) && !AllWhitespace(rest)
    ensures Classify("TW:" + rest) == LookupQuery(Twitter, Trim(rest))
  {
    var q := "TW:" + rest;
    assert q[..3] == "TW:" && q[3..] == rest;
    assert Lower("TW:") == "tw:";
    TrimEmptyIffBlank(rest);
  }

  /** A prefix followed only by whitespace keeps the menu open with no items. */
  lemma BlankHandleGivesNothing(p: Platform, rest: string, lookup: (Platform, string) -> LookupOutcome)
    requires |rest| > 0 && NoLineTerminator(rest) && AllWhitespace(rest)
    ensures SuggestionItems(Prefix(p) + rest, lookup) == []
  {
    PrefixMatchesOwnPlatform(p, rest);
    TrimEmptyIffBlank(rest);
  }

  /** The hint lists for an empty query, for `tw:` alone and for an unrelated word. */
  lemma HintExamples(lookup: (Platform, string) -> LookupOutcome)
    ensures SuggestionItems("", lookup) == [Hint(Twitter), Hint(GitHub)]
    ensures SuggestionItems("tw:", lookup) == [Hint(Twitter)]
    ensures SuggestionItems("g", lookup) == [Hint(GitHub)]
    ensures SuggestionItems("x", lookup) == [Hint(Twitter), Hint(GitHub)]
  {
    assert Lower("tw:") == "tw:";
    assert StartsWith("tw:", "tw");
    assert Lower("g") == "g";
    assert Lower("x") == "x";
  }

  /** Every query that is not a prefix with a handle yields one or two hints, never a lookup. */
  lemma HintsOtherwise(query: string)
    requires !PrefixMatch(query, Twitter) && !PrefixMatch(query, GitHub)
    ensures Classify(query).Hints?
    ensures var hs := Classify(query).items;
      1 <= |hs| <= 2 && forall i :: 0 <= i < |hs| ==> hs[i] == Hint(Twitter) || hs[i] == Hint(GitHub)
  {
  }

  // -------------------------------------------------------------------
  // The selection command and the label
  // -------------------------------------------------------------------

  /** What selecting an item inserts in place of the typed range. */
  datatype Insertion =
    | InsertText(text: string)                  // the literal `@` + prefix, for a hint
    | InsertMention(attrs: map<string, Value>)  // a `mention` node

  /** The attribute record `mentionAttrs`: id and label always, the optional fields only when present. */
  function MentionAttrs(item: MentionItem): (attrs: map<string, Value>)
    ensures "id" in attrs && attrs["id"] == Str(item.id)
    ensures "label" in attrs && attrs["label"] == Str(FirstTruthy(item.labelText, item.id))
    ensures "username" in attrs <==> HasText(item.username)
    ensures "displayName" in attrs <==> HasText(item.displayName)
    ensures "avatar" in attrs <==> HasText(item.avatar)
    ensures "verified" in attrs <==> item.verified.Some?
    ensures HasText(item.username) ==> attrs["username"] == Str(item.username.value)
    ensures HasText(item.displayName) ==> attrs["displayName"] == Str(item.displayName.value)
    ensures HasText(item.avatar) ==> attrs["avatar"] == Str(item.avatar.value)
    ensures item.verified.Some? ==> attrs["verified"] == Bool(item.verified.value)
    ensures attrs.Keys <= {"id", "label", "username", "displayName", "avatar", "verified"}
  {
    var base := map["id" := Str(item.id), "label" := Str(FirstTruthy(item.labelText, item.id))];
    var withUsername := if HasText(item.username) then base["username" := Str(item.username.value)] else base;
    var withName := if HasText(item.displayName) then withUsername["displayName" := Str(item.displayName.value)] else withUsername;
    var withAvatar := if HasText(item.avatar) then withName["avatar" := Str(item.avatar.value)] else withName;
    if item.verified.Some? then withAvatar["verified" := Bool(item.verified.value)] else withAvatar
  }

  /** The suggestion `command`: an id ending in `:` is a hint and is typed out; anything else becomes a mention node. */
  function Command(item: MentionItem): (ins: Insertion)
    ensures ins.InsertText? <==> EndsWith(item.id, ":")
    ensures ins.InsertText? ==> ins.text == "@" + item.id
    ensures ins.InsertMention? ==> ins.attrs == MentionAttrs(item) && ins.attrs["id"] == Str(item.id)
  {
    if item.id != "" && EndsWith(item.id, ":") then InsertText("@" + item.id)
    else InsertMention(MentionAttrs(item))
  }

  /** Choosing a hint types its prefix, so the next query is that prefix and the menu shows only its hint. */
  lemma HintTypesPrefix(p: Platform, lookup: (Platform, string) -> LookupOutcome)
    ensures Command(Hint(p)) == InsertText("@" + Prefix(p))
    ensures SuggestionItems(Prefix(p), lookup) == [Hint(p)]
  {
    assert EndsWith(Prefix(p), ":");
    assert Lower(Prefix(p)) == Prefix(p);
    if p == Twitter {
      assert StartsWith("tw:", "tw");
    } else {
      assert StartsWith("gh:", "gh");
      assert Lower("gh:") != "t" && !StartsWith("gh:", "tw");
    }
  }

  /** `id.replace(/^(tw|gh):/, '')`, case-sensitive. */
  function WithoutPlatformPrefix(id: string): (r: string)
    ensures StartsWith(id, "tw:") || StartsWith(id, "gh:") ==> r == id[3..]
    ensures !(StartsWith(id, "tw:") || StartsWith(id, "gh:")) ==> r == id
  {
    if StartsWith(id, "tw:") || StartsWith(id, "gh:") then id[3..] else id
  }

  /** The handle `renderLabel` shows: the username without leading `@`s, or the id without its platform prefix. */
  function LabelHandle(item: MentionItem): string
  {
    var stripped := if item.username.Some? then StripLeadingAt(item.username.value) else "";
    OrElse(stripped, WithoutPlatformPrefix(item.id))
  }

  /** `renderLabel`: `"displayName @handle"` when a display name is set and differs from the handle, else `"@handle"`. */
  function RenderLabel(item: MentionItem): (text: string)
    ensures var h := LabelHandle(item);
      EndsWith(text, "@" + h) &&
      (HasText(item.displayName) && item.displayName.value != h ==> text == item.displayName.value + " @" + h) &&
      (!(HasText(item.displayName) && item.displayName.value != h) ==> text == "@" + h)
  {
    var h := LabelHandle(item);
    if HasText(item.displayName) && item.displayName.value != h then
      var l := item.displayName.value + " @" + h;
      assert l[|l| - |"@" + h|..] == "@" + h;
      l
    else
      "@" + h
  }

  /** A fallback item labels as `@` and the typed handle. */
  lemma FallbackLabel(p: Platform, u: string)
    requires u != "" && u[0] != '@'
    ensures RenderLabel(FallbackItem(p, u)) == "@" + u
  {
  }
}
