/**
 * What a mention shows, derived from its attributes. Five renderers share
 * the derivations (platform, display name, handle, href, placeholder
 * letter): the server component, the editor view, the older editor view,
 * and two `renderHTML` functions for server output (the mention
 * extension's and the one in `config.ts`). They differ in a few places,
 * which the lemmas below pin down.
 */
module MentionView {
  import opened Wrappers
  import opened Text
  import opened MentionSuggest

  // -------------------------------------------------------------------
  // Shared derivations
  // -------------------------------------------------------------------

  /** `attrs.id?.startsWith('tw:') ? 'twitter' : attrs.id?.startsWith('gh:') ? 'github' : null` */
  function PlatformOf(id: string): (p: Option<Platform>)
    ensures p == Some(Twitter) <==> StartsWith(id, "tw:")
    ensures p == Some(GitHub) <==> StartsWith(id, "gh:")
    ensures p.None? <==> !StartsWith(id, "tw:") && !StartsWith(id, "gh:")
  {
    if StartsWith(id, "tw:") then Some(Twitter)
    else if StartsWith(id, "gh:") then Some(GitHub)
    else None
  }

  /** `(attrs.displayName || attrs.username || attrs.label || attrs.id).replace(/^@+/, '')` */
  function DisplayName(a: MentionItem): (name: string)
    ensures name == [] || name[0] != '@'
  {
    StripLeadingAt(FirstTruthy(a.displayName, FirstTruthy(a.username, FirstTruthy(a.labelText, a.id))))
  }

  /** `attrs.username?.replace(/^@+/, '')`, with an absent username as "". */
  function CleanUsername(a: MentionItem): string
  {
    if a.username.Some? then StripLeadingAt(a.username.value) else ""
  }

  /** `attrs.username?.replace(/^@+/, '') || displayName` */
  function Handle(a: MentionItem): string
  {
    OrElse(CleanUsername(a), DisplayName(a))
  }

  /** The name is shown apart from the handle only when it is set and differs from the handle. */
  predicate ShowName(a: MentionItem)
  {
    HasText(a.displayName) && a.displayName.value != Handle(a)
  }

  /** `displayNameWithAt`, the avatar's alt text. */
  function AltText(a: MentionItem): (alt: string)
    ensures ShowName(a) ==> alt == a.displayName.value + " @" + Handle(a)
    ensures !ShowName(a) ==> alt == "@" + Handle(a)
  {
    if ShowName(a) then a.displayName.value + " @" + Handle(a) else "@" + Handle(a)
  }

  function ProfileBase(p: Platform): string
  {
    match p
    case Twitter => "https://twitter.com/"
    case GitHub => "https://github.com/"
  }

  /** `getMentionUrl()` */
  function Href(a: MentionItem): (href: string)
    ensures PlatformOf(a.id).None? || !HasText(a.username) ==> href == "#"
    ensures PlatformOf(a.id).Some? && HasText(a.username) ==>
      href == ProfileBase(PlatformOf(a.id).value) + StripLeadingAt(a.username.value)
  {
    match PlatformOf(a.id)
    case None => "#"
    case Some(p) => if !HasText(a.username) then "#" else ProfileBase(p) + StripLeadingAt(a.username.value)
  }

  /** `(displayName[0] || '@').toUpperCase()` */
  function PlaceholderLetter(a: MentionItem): (letter: string)
    ensures |letter| == 1
    ensures DisplayName(a) == [] ==> letter == "@"
    ensures DisplayName(a) != [] ==> letter == [UpperChar(DisplayName(a)[0])]
  {
    UpperInitial(DisplayName(a)).GetOr("@")
  }

  /** `attrs.verified && platform === 'twitter'` */
  predicate VerifiedTwitter(a: MentionItem)
  {
    a.verified == Some(true) && PlatformOf(a.id) == Some(Twitter)
  }

  /** `mention mention-${platform || 'default'}` */
  function WrapperClass(a: MentionItem): string
  {
    match PlatformOf(a.id)
    case None => "mention mention-default"
    case Some(Twitter) => "mention mention-twitter"
    case Some(GitHub) => "mention mention-github"
  }

  // -------------------------------------------------------------------
  // Rendered structure
  // -------------------------------------------------------------------

  datatype Avatar = Avatar(src: string, alt: string)

  /** The placeholder circle; `hidden` is the `display: none` style. */
  datatype Placeholder = Placeholder(letter: string, hidden: bool)

  datatype TextPart = NamePart(name: string) | HandlePart(handle: string)

  datatype View = View(
    className: string,
    dataAttrs: map<string, string>,
    href: string,
    platformIcon: Option<Platform>,
    avatar: Option<Avatar>,
    placeholder: Option<Placeholder>,
    text: seq<TextPart>,
    verifiedBadge: bool)

  /** The name-and-handle text of the newer renderers. */
  function NameAndHandle(a: MentionItem): seq<TextPart>
  {
    if ShowName(a) then [NamePart(a.displayName.value), HandlePart("@" + Handle(a))] else [HandlePart("@" + Handle(a))]
  }

  /** The avatar image is shown when there is an avatar that has not failed to load. */
  function ShownAvatar(a: MentionItem, avatarError: bool, alt: string): Option<Avatar>
  {
    if HasText(a.avatar) && !avatarError then Some(Avatar(a.avatar.value, alt)) else None
  }

  /** The placeholder replaces the avatar when there is none or it failed to load. */
  function ShownPlaceholder(a: MentionItem, avatarError: bool): Option<Placeholder>
  {
    if !HasText(a.avatar) || avatarError then Some(Placeholder(PlaceholderLetter(a), false)) else None
  }

  /** `MentionSSR` (server component); `avatarError` is the state set when the image fails to load. */
  function ServerView(a: MentionItem, avatarError: bool): View
  {
    View(
      WrapperClass(a),
      map["data-mention-id" := a.id, "data-type" := "mention", "data-id" := a.id,
          "data-label" := (if a.labelText.Some? then a.labelText.value else a.id)],
      Href(a), PlatformOf(a.id), ShownAvatar(a, avatarError, AltText(a)), ShownPlaceholder(a, avatarError),
      NameAndHandle(a), VerifiedTwitter(a))
  }

  /** `MentionNodeView` (editor). */
  function EditorView(a: MentionItem, avatarError: bool): View
  {
    View(
      WrapperClass(a), map["data-mention-id" := a.id],
      Href(a), PlatformOf(a.id), ShownAvatar(a, avatarError, AltText(a)), ShownPlaceholder(a, avatarError),
      NameAndHandle(a), VerifiedTwitter(a))
  }

  /** `MentionNode` (the older editor view): the text is always `@` + display name, and so is the alt text. */
  function LegacyView(a: MentionItem, avatarError: bool): View
  {
    View(
      WrapperClass(a), map["data-mention-id" := a.id],
      Href(a), PlatformOf(a.id), ShownAvatar(a, avatarError, "@" + DisplayName(a)), ShownPlaceholder(a, avatarError),
      [NamePart("@" + DisplayName(a))], VerifiedTwitter(a))
  }

  /** The mention extension's `renderHTML` for server output: no load errors, so the placeholder appears only without an avatar. */
  function ExtensionHtml(a: MentionItem): View
  {
    View(
      WrapperClass(a), map["data-mention-id" := a.id],
      Href(a), PlatformOf(a.id), ShownAvatar(a, false, AltText(a)), ShownPlaceholder(a, false),
      NameAndHandle(a), VerifiedTwitter(a))
  }

  /** The `renderHTML` in `config.ts`: the placeholder is always emitted, hidden when there is an avatar, and there is no verified badge. */
  function ConfigHtml(a: MentionItem): View
  {
    View(
      WrapperClass(a), map["data-mention-id" := a.id],
      Href(a), PlatformOf(a.id), ShownAvatar(a, false, AltText(a)),
      Some(Placeholder(PlaceholderLetter(a), HasText(a.avatar))),
      NameAndHandle(a), false)
  }

  // -------------------------------------------------------------------
  // Properties and agreement
  // -------------------------------------------------------------------

  /** Exactly one of avatar image and placeholder is visible, and the placeholder exactly when there is no avatar or it failed. */
  lemma AvatarOrPlaceholder(a: MentionItem, avatarError: bool)
    ensures var v := ServerView(a, avatarError);
      (v.placeholder.Some? <==> !HasText(a.avatar) || avatarError) && (v.avatar.Some? <==> !v.placeholder.Some?)
    ensures var v := EditorView(a, avatarError);
      (v.placeholder.Some? <==> !HasText(a.avatar) || avatarError) && (v.avatar.Some? <==> !v.placeholder.Some?)
    ensures var v := LegacyView(a, avatarError);
      (v.placeholder.Some? <==> !HasText(a.avatar) || avatarError) && (v.avatar.Some? <==> !v.placeholder.Some?)
  {
  }

  /** The handle is always shown with `@`; the name appears before it only when it differs from the handle. */
  lemma HandleAlwaysShown(a: MentionItem)
    ensures var t := ServerView(a, false).text;
      |t| >= 1 && t[|t| - 1] == HandlePart("@" + Handle(a)) && (|t| == 2 <==> ShowName(a))
  {
  }

  /** The handle is the username without leading `@`s, or the display name when that is empty. */
  lemma HandleSpec(a: MentionItem)
    ensures CleanUsername(a) != "" ==> Handle(a) == CleanUsername(a) && Handle(a)[0] != '@'
    ensures CleanUsername(a) == "" ==> Handle(a) == DisplayName(a)
    ensures Handle(a) == [] || Handle(a)[0] != '@'
  {
  }

  /** The display name is the first of displayName, username, label and id that is non-empty, without leading `@`s. */
  lemma DisplayNameOrder(a: MentionItem)
    ensures HasText(a.displayName) ==> DisplayName(a) == StripLeadingAt(a.displayName.value)
    ensures !HasText(a.displayName) && HasText(a.username) ==> DisplayName(a) == StripLeadingAt(a.username.value)
    ensures !HasText(a.displayName) && !HasText(a.username) && HasText(a.labelText) ==> DisplayName(a) == StripLeadingAt(a.labelText.value)
    ensures !HasText(a.displayName) && !HasText(a.username) && !HasText(a.labelText) ==> DisplayName(a) == StripLeadingAt(a.id)
  {
  }

  /** The verified badge appears exactly for verified twitter mentions, in every renderer but the one in `config.ts`, which never shows it. */
  lemma VerifiedBadge(a: MentionItem, avatarError: bool)
    ensures ServerView(a, avatarError).verifiedBadge <==> a.verified == Some(true) && StartsWith(a.id, "tw:")
    ensures EditorView(a, avatarError).verifiedBadge == ServerView(a, avatarError).verifiedBadge
    ensures LegacyView(a, avatarError).verifiedBadge == ServerView(a, avatarError).verifiedBadge
    ensures ExtensionHtml(a).verifiedBadge == ServerView(a, avatarError).verifiedBadge
    ensures !ConfigHtml(a).verifiedBadge
  {
  }

  /** The editor view shows what the server component shows; its wrapper carries only `data-mention-id`. */
  lemma EditorMatchesServer(a: MentionItem, avatarError: bool)
    ensures EditorView(a, avatarError) == ServerView(a, avatarError).(dataAttrs := map["data-mention-id" := a.id])
    ensures "data-label" in ServerView(a, avatarError).dataAttrs && "data-label" !in EditorView(a, avatarError).dataAttrs
  {
  }

  /** The extension's `renderHTML` matches the server component with an avatar that loads, minus the `data-*` attributes other than the id. */
  lemma ExtensionHtmlMatchesServer(a: MentionItem)
    ensures ExtensionHtml(a) == ServerView(a, false).(dataAttrs := map["data-mention-id" := a.id])
  {
  }

  /** The `config.ts` copy always emits the placeholder, hidden exactly when there is an avatar, and otherwise matches the extension's except for the badge. */
  lemma ConfigHtmlDiffers(a: MentionItem)
    ensures ConfigHtml(a).placeholder == Some(Placeholder(PlaceholderLetter(a), HasText(a.avatar)))
    ensures ConfigHtml(a) == ExtensionHtml(a).(placeholder := Some(Placeholder(PlaceholderLetter(a), HasText(a.avatar))), verifiedBadge := false)
  {
  }

  /** The older view writes the display name with an `@`, even when it is a full name, and shows no separate handle. */
  lemma LegacyShowsAtDisplayName(a: MentionItem, avatarError: bool)
    ensures LegacyView(a, avatarError).text == [NamePart("@" + DisplayName(a))]
    ensures LegacyView(a, avatarError) == EditorView(a, avatarError).(
      avatar := ShownAvatar(a, avatarError, "@" + DisplayName(a)), text := [NamePart("@" + DisplayName(a))])
  {
  }

  /** A verified twitter mention whose display name is a full name. */
  const JaneDoe: MentionItem := MentionItem("tw:jane", Some("@tw:jane"), Some("jane"), Some("Jane Doe"), None, Some(true))

  lemma JaneDoeNames()
    ensures DisplayName(JaneDoe) == "Jane Doe" && Handle(JaneDoe) == "jane" && ShowName(JaneDoe)
  {
    assert StripLeadingAt("jane") == "jane";
    assert StripLeadingAt("Jane Doe") == "Jane Doe";
    assert |"Jane Doe"| != |"jane"|;
  }

  /** With a full name, the newer views show "Jane Doe" and "@jane"; the older one shows "@Jane Doe". */
  lemma FullNameExample()
    ensures ServerView(JaneDoe, false).text == [NamePart("Jane Doe"), HandlePart("@jane")]
    ensures LegacyView(JaneDoe, false).text == [NamePart("@Jane Doe")]
  {
    JaneDoeNames();
    AtPrefixed();
  }

  lemma AtPrefixed()
    ensures "@" + "jane" == "@jane" && "@" + "Jane Doe" == "@Jane Doe"
  {
  }

  /** The same mention links to the twitter profile and shows the badge, except in the `config.ts` copy. */
  lemma FullNameLinkAndBadge()
    ensures ServerView(JaneDoe, false).href == "https://twitter.com/jane"
    ensures ServerView(JaneDoe, false).verifiedBadge && !ConfigHtml(JaneDoe).verifiedBadge
  {
    assert StartsWith(JaneDoe.id, "tw:");
    assert StripLeadingAt("jane") == "jane";
  }
}
