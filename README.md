# blog.ranolp.dev — a Dafny model of the post editor, renderer and post store

This project models the core of a personal blog built on the tiptap rich-text editor and React Router:

- **The post document.** A post body is a JSON tree whose first child must be the title heading, and an editor plugin repairs the first child after every change. A custom heading extension drops the `# ` shortcut for level 1.
- **The static renderer (`TiptapSSR`).** It turns that tree into HTML elements on the server: text nodes are wrapped in their marks, and each node type has its own element.
- **The custom nodes and their attribute codecs.**
  - Twitter and YouTube embeds, with their paste rules, `data-url` codecs, and the id extraction used to render them.
  - Link mentions and the paste handler that offers them.
  - The `@` mention extension: the `tw:`/`gh:` suggestion items, the debounced user search, the suggestion menu and the four renderers of a mention.
  - The iconify SVG helper.
  - The `/` slash-command menu.
  - The image gallery: its codec, the published component and the editor's node view.
- **The post repository and the tweet prefetcher.** The repository lists, loads, filters, sorts, looks up and writes posts. The prefetcher collects the tweet ids of a post and loads them through a cache.
- **The title-size rule of the Open Graph image generator.**

Each module of the model follows one concern of the program:

- `Content` holds the JSON tree.
- `JsValue` holds the JavaScript values the attributes hold: `undefined`, `null`, booleans, integers, `NaN`, strings, arrays and objects. It also holds the `||`/`??` operators.
- `Text` holds string helpers: `trim`, `toLowerCase`, prefix tests and leading-`@` stripping.

The source's pure code becomes functions with lemmas. Its stateful parts become classes whose methods say their whole new state:

- the suggestion menu's selection;
- the mention search debouncers;
- the link-paste popover;
- the gallery carousel and editor;
- the tweet cache.

Its loops become methods with invariants, proved against a specification function:

- `traverse`/`findTweetIds`;
- `parseIconBody`;
- the slash menu's grouping `reduce`;
- the `forEach` of `sortedStringify`;
- the prefetch loop.

Network calls, the file system, `new URL`, `JSON.parse`/`JSON.stringify`, schema validation and the clock are parameters or outcome datatypes.

The post listing follows the code as written: it removes the first `.json` of each name. The corrected listing, which removes the trailing extension, is defined and proved beside it (see "## Findings").

## Model

| member | source | states |
|---|---|---|
| PostDocument.ValidDocumentShape | src/features/tiptap/extensions/document/index.ts:13-15 | A document satisfies `heading block*` exactly when it has a first child, that child is a heading, and every later child is a block-group node. |
| PostDocument.AllBlocksAt | src/features/tiptap/extensions/document/index.ts:14 | `block*` over a list holds exactly when every element is of a block type. |
| PostDocument.SingleHeadingIsValid | src/features/tiptap/document.ts:15 | A document holding only a heading is valid: `block*` admits zero blocks, and the expression puts no constraint on the heading's level. |
| PostDocument.AppendBlockKeepsValid | src/features/tiptap/document.ts:15 | Appending a block node to a valid document keeps it valid. |
| PostDocument.EnforceH1 | src/features/tiptap/document.ts:21-53 | The repair (intended behaviour) does nothing unless a transaction changed the document, and nothing for an empty document. Any repair leaves a level-1 heading first and keeps the document's own type and attributes. |
| PostDocument.RelevelKeepsRest | src/features/tiptap/document.ts:31-40 | A first heading whose level is not 1 becomes level 1, with its other attributes, content and marks unchanged and every later child unchanged. |
| PostDocument.H1FirstNeedsNoRepair | src/features/tiptap/document.ts:31-33 | A document that starts with a level-1 heading needs no repair transaction. |
| PostDocument.InsertShiftsChildren | src/features/tiptap/document.ts:42-50 | A non-heading first child gets an empty h1 in front of it, and the existing children follow unchanged. |
| PostDocument.EnforceH1Idempotent | src/features/tiptap/document.ts:21-53 | Repairing an already repaired document produces no further transaction. |
| PostDocument.RepairYieldsValid | src/features/tiptap/document.ts:28-53 | A repaired document whose other children are blocks satisfies `heading block*`. |
| PostDocument.RelevelAsWrittenKeepsLevel | src/features/tiptap/document.ts:35-39 | As written, the `setNodeMarkup(1, …)` step either throws or rewrites a node inside the heading. The heading's level never changes, so the title never becomes an h1. |
| PostDocument.RelevelAsWrittenExample | src/features/tiptap/document.ts:35-39 | A level-2 title holding text makes the written step throw, while the intended repair yields an h1. |
| HeadingRules.InputRules | src/features/tiptap/extensions/heading/index.ts:12-25 | One input rule exists for each configured level other than 1; no rule has level 1. |
| HeadingRules.InputRulesInOrder | src/features/tiptap/extensions/heading/index.ts:14-25 | The rules follow the configured level order (the map distributes over concatenation). |
| HeadingRules.OneRulePerLevel | src/features/tiptap/extensions/heading/index.ts:12 | The number of rules is the number of configured levels minus the occurrences of level 1. |
| HeadingRules.TypedHeading | src/features/tiptap/extensions/heading/index.ts:19-23 | A typed block becomes a heading of a level exactly when some rule of that level matches `^#{level}\s$`. When no rule matches, it stays as it is. |
| HeadingRules.TypedHeadingExactly | src/features/tiptap/extensions/heading/index.ts:19 | `n` hashes and one character make a level-`n` heading exactly when that character is whitespace and `n` is a configured level other than 1. |
| HeadingRules.NeverH1 | src/features/tiptap/extensions/heading/index.ts:8-27 | No typed text ever produces a level-1 heading, and `"# "` produces no heading at all. |
| HeadingRules.Placeholder | src/features/tiptap/extensions/placeholder/index.ts:7-14 | The placeholder text is non-empty (`Enter a title...`) exactly on a heading whose level is 1. |
| TweetIds.FirstMatchFrom | src/features/tiptap/extensions/twitter-embed/utils.ts:6-9 | Gives the leftmost index where `/status/` is directly followed by a digit, or reports that there is none. |
| TweetIds.DigitRun | src/features/tiptap/extensions/twitter-embed/utils.ts:7 | The greedy `\d+`: a run of digits taken from the input that is not followed by another digit. |
| TweetIds.ExtractTweetIdNone | src/features/tiptap/extensions/twitter-embed/utils.ts:6-9 | No id is extracted exactly when no `/status/` is directly followed by a digit. |
| TweetIds.ExtractTweetIdLeftmost | src/features/tiptap/extensions/twitter-embed/utils.ts:6-9 | At the leftmost match, the id is the non-empty maximal digit run after `/status/`. |
| TweetIds.DedupSpec | src/features/tiptap/extensions/twitter-embed/utils.ts:36 | `[...new Set(ids)]` has no duplicates and holds exactly the input's ids. |
| TweetIds.DedupPrefix | src/features/tiptap/extensions/twitter-embed/utils.ts:36 | Deduplication keeps first-occurrence order: deduplicating a prefix gives a prefix of the result. |
| TweetIds.PreorderSound | src/features/tiptap/extensions/twitter-embed/utils.ts:17-32 | Every collected id comes from a `twitter` node of the tree whose url yields that id. |
| TweetIds.PreorderComplete | src/features/tiptap/extensions/twitter-embed/utils.ts:17-32 | Every `twitter` node anywhere in the tree whose url yields an id contributes it. |
| TweetIds.Traverse | src/features/tiptap/extensions/twitter-embed/utils.ts:17-32 | The recursive walk appends the node's own id, then its children's ids left to right, in pre-order. |
| TweetIds.FindTweetIds | src/features/tiptap/extensions/twitter-embed/utils.ts:34-37 | The result is the pre-order id list with duplicates removed, first occurrences kept. |
| StaticRender.WrapMark | src/features/tiptap/ssr.tsx:34-63 | A known mark wraps the accumulated output in its element; an unknown mark leaves it unchanged. |
| StaticRender.RenderWithMarks | src/features/tiptap/ssr.tsx:28-30 | Content without marks is returned unwrapped. |
| StaticRender.LastMarkOutermost | src/features/tiptap/ssr.tsx:32-65 | The `reduce` makes the last mark the outermost wrapper, so the first mark is innermost. |
| StaticRender.UnknownMarksIgnored | src/features/tiptap/ssr.tsx:62-63 | Marks of unknown types have no effect: rendering with all marks equals rendering with the known ones only. |
| StaticRender.KnownMarks | src/features/tiptap/ssr.tsx:34-63 | Keeps exactly the marks whose type the renderer knows. |
| StaticRender.RenderInline | src/features/tiptap/ssr.tsx:71-107 | Inline content renders to one output per input node, in order. |
| StaticRender.UnknownInline | src/features/tiptap/ssr.tsx:98-105 | An unknown inline node with content becomes a span around its rendered children; without content, it renders as nothing. |
| StaticRender.HeadingTagSpec | src/features/tiptap/ssr.tsx:118-126 | A heading renders as `h{level}`; a missing, zero or otherwise falsy level gives `h1`. |
| StaticRender.JoinTextsAppend | src/features/tiptap/ssr.tsx:156-165 | The code block's `join('')` of its children's text is a concatenation that distributes over lists. |
| StaticRender.CodeBlockSpec | src/features/tiptap/ssr.tsx:156-165 | A code block is `pre > code` holding the children's texts concatenated; it gets the language class only when a language is set. |
| StaticRender.RenderNodes | src/features/tiptap/ssr.tsx:113-273 | Block content renders to one output per input node, in order. |
| StaticRender.ContainerChildren | src/features/tiptap/ssr.tsx:128-154 | Lists, list items, quotes, rows and cells emit exactly one rendered child per input child, in order. |
| StaticRender.TableChildren | src/features/tiptap/ssr.tsx:224-231 | A table renders as `table > tbody` with one rendered row per input row. |
| StaticRender.TwitterRendersIff | src/features/tiptap/ssr.tsx:170-183 | A `twitter` node renders exactly when its url is set and yields a tweet id, and then it renders the tweet component with that id. |
| StaticRender.GallerySpec | src/features/tiptap/ssr.tsx:197-215 | A gallery without images renders nothing. Otherwise the gallery component gets its images, with grid, 3 columns and no spans filling in for missing values. |
| StaticRender.UnknownBlock | src/features/tiptap/ssr.tsx:262-271 | An unknown block with content becomes a div around its rendered children; without content, it renders as nothing. |
| StaticRender.TiptapSSR | src/features/tiptap/ssr.tsx:279-298 | The result is always a div with the class name. An HTML string is injected as is, and a JSON document renders its children in order. |
| EmbedNodes.UrlRoundTrip | src/features/tiptap/twitter-embed.ts:56-79 | Rendering a url to `data-url` and parsing it back yields the url exactly when it is non-empty; otherwise the element is rejected. |
| EmbedNodes.PastedNode | src/features/tiptap/twitter-embed.ts:42-44 | A paste rule creates a node of the embed's type whose only attribute `url` is the whole pasted text. |
| EmbedNodes.SetEmbed | src/features/tiptap/twitter-embed.ts:89-103 | The insert command declines an empty url. Otherwise it inserts a leaf node of the embed's type with the url as its only attribute. |
| TwitterEmbed.StatusBeforeBreakIff | src/features/tiptap/extensions/twitter-embed/index.ts:34 | The `.*\/status\/.*` part matches exactly when `/status/` occurs before the first line break. |
| TwitterEmbed.PasteRuleHosts | src/features/tiptap/extensions/twitter-embed/index.ts:33-45 | Only `https://twitter.com/` and `https://x.com/` links that contain a `/status/` segment are claimed. |
| TwitterEmbed.PasteRuleNeedsExactHead | src/features/tiptap/extensions/twitter-embed/index.ts:34 | The rule is case-sensitive and needs `https`: `http://` links and upper-case hosts are not claimed. |
| TwitterEmbed.PastedNodeSpec | src/features/tiptap/extensions/twitter-embed/index.ts:38-43 | A claimed paste becomes a `twitter` node whose url is the pasted text. |
| TwitterEmbed.TwitterUrlCodec | src/features/tiptap/extensions/twitter-embed/index.ts:54-76 | `data-url` round-trips every non-empty url, and an element without it is rejected. |
| TwitterEmbed.SetTwitterEmbedSpec | src/features/tiptap/extensions/twitter-embed/index.ts:89-99 | `setTwitterEmbed` returns false for an empty url; otherwise it inserts a `twitter` node holding the url. |
| TwitterEmbed.TwitterNodeIsAtomicBlock | src/features/tiptap/extensions/twitter-embed/index.ts:24-29 | The node is named `twitter`, belongs to the block group and is atomic. |
| YouTubeEmbed.MatchAt | src/features/tiptap/extensions/youtube-embed/client.tsx:10-13 | A match at an index is one of the three prefixes followed by eleven id characters, and it yields those eleven characters. |
| YouTubeEmbed.FirstMatchFrom | src/features/tiptap/extensions/youtube-embed/client.tsx:15-20 | Gives the leftmost index where the first pattern matches, or reports that there is none. |
| YouTubeEmbed.ExtractVideoId | src/features/tiptap/extensions/youtube-embed/client.tsx:6-23 | Any extracted id is eleven characters of `[a-zA-Z0-9_-]`, and an empty url yields none. |
| YouTubeEmbed.ExtractLeftmost | src/features/tiptap/extensions/youtube-embed/client.tsx:15-20 | The id is the eleven characters after the leftmost prefix that is followed by an id, whatever follows them. |
| YouTubeEmbed.PrefixesExclusive | src/features/tiptap/extensions/youtube-embed/client.tsx:10-13 | At most one of the three prefixes occurs at any index, so the order of the alternatives does not matter. |
| YouTubeEmbed.ExtractBareId | src/features/tiptap/extensions/youtube-embed/client.tsx:12 | A string that is exactly eleven id characters, and contains no prefix, is its own id. |
| YouTubeEmbed.ExtractNone | src/features/tiptap/extensions/youtube-embed/node-view.tsx:10-27 | No id is extracted exactly when no prefix is followed by an id and the whole string is not an id. |
| YouTubeEmbed.ClientView | src/features/tiptap/extensions/youtube-embed/client.tsx:29-61 | The invalid-url box appears exactly when no id is extracted, and it links the url only when the url is non-empty. Otherwise the player's source is the embed base followed by the id. |
| YouTubeEmbed.NodeViewAgrees | src/features/tiptap/extensions/youtube-embed/node-view.tsx:29-66 | The editor view shows what the page shows for the same url; a missing url is an invalid embed without a link. |
| YouTubeEmbed.PlayerSource | src/features/tiptap/extensions/youtube-embed/client.tsx:45-50 | The player source is `https://www.youtube.com/embed/` followed by an eleven-character id. |
| YouTubeEmbed.PasteRuleSchemes | src/features/tiptap/extensions/youtube-embed/index.ts:39-40 | After `http://` or `https://`, the rule claims a text exactly when an optional `www.` and one of the three path heads follow. Text that does not start with `http` is never claimed. |
| YouTubeEmbed.PastedNodeSpec | src/features/tiptap/extensions/youtube-embed/index.ts:40-48 | A claimed paste becomes a `youtube` node whose url is the pasted text. |
| YouTubeEmbed.YouTubeUrlCodec | src/features/tiptap/extensions/youtube-embed/index.ts:60-82 | `data-url` round-trips every non-empty url, and an element without it is rejected. |
| YouTubeEmbed.SetYouTubeEmbedSpec | src/features/tiptap/extensions/youtube-embed/index.ts:93-106 | `setYouTubeEmbed` returns false for an empty url; otherwise it inserts a `youtube` node holding the url. |
| YouTubeEmbed.YouTubeNodeIsAtomicBlock | src/features/tiptap/extensions/youtube-embed/index.ts:30-34 | The node is named `youtube`, belongs to the block group and is atomic. |
| LinkPaste.DomainPatternAccepts | src/features/tiptap/extensions/link-mention/paste-extension.ts:41-42 | The look-alike pattern accepts a bare domain with a path (`example.com/a`). |
| LinkPaste.DomainPatternRejects | src/features/tiptap/extensions/link-mention/paste-extension.ts:41-42 | The look-alike pattern rejects a word without a dot (`localhost`). |
| LinkPaste.RecognisedUrl | src/features/tiptap/extensions/link-mention/paste-extension.ts:31-55 | Parseable text yields a url exactly when its protocol is http or https, and the url is the normalised href. Unparseable text yields a url only when it looks like a domain. |
| LinkPaste.HandlePaste | src/features/tiptap/extensions/link-mention/paste-extension.ts:18-80 | The paste is handled only for non-blank clipboard text whose recognised url is neither empty nor a twitter.com/x.com address, and that url is the one offered. |
| LinkPaste.BlankPasteIgnored | src/features/tiptap/extensions/link-mention/paste-extension.ts:19-28 | Without clipboard data, or with only whitespace, nothing is handled. |
| LinkPaste.OtherProtocolDeclined | src/features/tiptap/extensions/link-mention/paste-extension.ts:34-38 | Text that parses with a protocol other than http/https is not handled, and the pattern fallback is not tried. |
| LinkPaste.FallbackAddsScheme | src/features/tiptap/extensions/link-mention/paste-extension.ts:39-54 | Unparseable text that looks like a domain is retried with `https://` in front. If it already starts with `http`, the retry parses the same failing text, so no url results. |
| LinkPaste.NotAUrl | src/features/tiptap/extensions/link-mention/paste-extension.ts:39-59 | Text that neither parses nor looks like a domain yields no url and is not handled. |
| LinkPaste.OtherUrlsClaimed | src/features/tiptap/extensions/link-mention/paste-extension.ts:57-80 | Every recognised non-empty url that is not a Twitter address is claimed with its href. |
| LinkPaste.TweetRuleLinksAreTwitter | src/features/tiptap/extensions/link-mention/paste-extension.ts:63-66 | Every link the tweet embed's paste rule claims is a Twitter address in the sense of this handler. |
| LinkPaste.TweetLinksLeftToEmbedRule | src/features/tiptap/extensions/link-mention/paste-extension.ts:61-66 | A tweet link that parses to itself is left to the tweet embed's paste rule. |
| LinkPaste.YouTubeRuleLinksAreNotTwitter | src/features/tiptap/extensions/link-mention/paste-extension.ts:63-66 | No link the YouTube paste rule claims is a Twitter address. |
| LinkPaste.YouTubeLinksClaimedHere | src/features/tiptap/extensions/link-mention/paste-extension.ts:57-80 | This handler would claim a YouTube link that parses to itself as a link mention. Whether this handler or the YouTube paste rule runs first is up to the editor, which is not modelled. |
| MentionSuggest.Classify | src/features/tiptap/extensions/mention/index.ts:29-57 | A lookup happens only for a `tw:`/`gh:` query (any case) whose trimmed rest is non-empty, and it looks up that trimmed rest. A prefix followed only by whitespace is exactly the blank-handle case. |
| MentionSuggest.LookupQueries | src/features/tiptap/extensions/mention/index.ts:33-54 | A prefixed query with a non-blank handle yields the users the search settles with. If the search fails, it yields one fallback item for the typed handle. |
| MentionSuggest.UpperCasePrefix | src/features/tiptap/extensions/mention/index.ts:29 | The prefix test ignores case: `TW:` followed by a handle looks up Twitter. |
| MentionSuggest.BlankHandleGivesNothing | src/features/tiptap/extensions/mention/index.ts:55-56 | A prefix followed only by whitespace yields no items, which keeps the menu open. |
| MentionSuggest.HintExamples | src/features/tiptap/extensions/mention/index.ts:101-144 | An empty query gives both hints, `tw:` alone gives the Twitter hint, `g` the GitHub hint, and an unrelated word both. |
| MentionSuggest.HintsOtherwise | src/features/tiptap/extensions/mention/index.ts:100-144 | Every query that is not a prefix with a handle yields one or two hints and never a lookup. |
| MentionSuggest.MentionAttrs | src/features/tiptap/extensions/mention/index.ts:256-275 | The inserted attributes always have `id`, and `label` defaults to the id. Username, display name and avatar appear exactly when they are non-empty strings, with the item's values. `verified` appears exactly when it is set, with its value. There are no other keys. |
| MentionSuggest.Command | src/features/tiptap/extensions/mention/index.ts:244-289 | An item whose id ends in `:` is typed out as `@id`. Any other item becomes a mention node carrying the item's attributes, including its id. |
| MentionSuggest.HintTypesPrefix | src/features/tiptap/extensions/mention/index.ts:247-253 | Choosing a hint types its prefix, and the next query, that prefix, shows only that hint. |
| MentionSuggest.WithoutPlatformPrefix | src/features/tiptap/extensions/mention/index.ts:295 | A case-sensitive `tw:`/`gh:` prefix is removed, and any other id is kept as it is. |
| MentionSuggest.RenderLabel | src/features/tiptap/extensions/mention/index.ts:291-300 | The label is `displayName @handle` when a display name is set and differs from the handle, and `@handle` otherwise. |
| MentionSuggest.FallbackLabel | src/features/tiptap/extensions/mention/index.ts:46-52 | A fallback item is labelled `@` followed by the typed handle. |
| MentionLookup.SettleAll | src/features/tiptap/extensions/mention/api.ts:95-99 | Every pending waiter is settled once, in order, all with the same outcome. |
| MentionLookup.Normalise | src/features/tiptap/extensions/mention/api.ts:24-31 | A user becomes a menu item with the same fields; `verified` is true only when the API said true. |
| MentionLookup.NormaliseAll | src/features/tiptap/extensions/mention/api.ts:16-32 | The response's users become items one for one, in order. |
| MentionLookup.SearchResult | src/features/tiptap/extensions/mention/api.ts:13-35 | A non-ok response, or one without `users`, gives no items. Otherwise there is one item per user, each with a definite `verified`. |
| MentionLookup.KeyedDebounce.Call | src/features/tiptap/extensions/mention/api.ts:131-178 | A call clears that username's pending timer, queues the waiter after the earlier ones and starts a fresh timer for that username only. Valid means every username with waiters has a timer, and it holds afterwards. |
| MentionLookup.KeyedDebounce.Fire | src/features/tiptap/extensions/mention/api.ts:150-173 | A timer settles all of its username's waiters with the search outcome and removes that username's entries only. |
| MentionLookup.KeyedCallsAreIndependent | src/features/tiptap/extensions/mention/api.ts:137-141 | A call for one username leaves every other username's waiters and timer as they were. |
| MentionLookup.SettleAllSnoc | src/features/tiptap/extensions/mention/api.ts:95-99 | Settling a longer queue settles the earlier waiters first, then the new one. |
| MentionLookup.SharedDebounce.Call | src/features/tiptap/extensions/mention/api.ts:105-114 | As written, a Twitter call queues its waiter under its username and reschedules the single debounced run, now for that username. |
| MentionLookup.SharedDebounce.Fire | src/features/tiptap/extensions/mention/api.ts:89-103 | The single debounced run settles only the waiters of the latest call's username and deletes only that entry. |
| MentionLookup.StrandedWaiterExample | src/features/tiptap/extensions/mention/api.ts:89-114 | As written, calls for `alice` then `bob` within the window settle only `bob`'s waiter, and `alice`'s waiter is left pending with no run scheduled. |
| MentionLookup.KeyedSchemeSettlesBoth | src/features/tiptap/extensions/mention/api.ts:129-178 | With one timer per username, the same two calls settle both waiters and leave nothing pending. |
| MentionView.PlatformOf | src/features/tiptap/extensions/mention/ssr.tsx:17-21 | The platform is Twitter exactly for a `tw:` id, GitHub exactly for a `gh:` id, and none otherwise. |
| MentionView.DisplayName | src/features/tiptap/extensions/mention/ssr.tsx:23-25 | The display name never starts with `@`. |
| MentionView.DisplayNameOrder | src/features/tiptap/extensions/mention/ssr.tsx:23-25 | The display name is the first non-empty one of displayName, username, label and id, with its leading `@`s removed. |
| MentionView.HandleSpec | src/features/tiptap/extensions/mention/ssr.tsx:26 | The handle is the username without leading `@`s, or the display name when that is empty; it never starts with `@`. |
| MentionView.AltText | src/features/tiptap/extensions/mention/ssr.tsx:27-30 | The alt text is `name @handle` when the name is shown apart from the handle, and `@handle` otherwise. |
| MentionView.Href | src/features/tiptap/extensions/mention/ssr.tsx:32-43 | The link is `#` without a platform or username. Otherwise it is the platform's profile URL followed by the username without its leading `@`s. |
| MentionView.PlaceholderLetter | src/features/tiptap/extensions/mention/ssr.tsx:92-96 | The placeholder is one letter: the upper-cased first character of the display name, or `@` when the name is empty. |
| MentionView.AvatarOrPlaceholder | src/features/tiptap/extensions/mention/ssr.tsx:82-96 | Exactly one of the avatar image and the placeholder is visible. The placeholder is visible exactly when there is no avatar or it failed to load. |
| MentionView.HandleAlwaysShown | src/features/tiptap/extensions/mention/ssr.tsx:97-105 | The handle is always shown with `@`, and the name appears before it only when it differs from the handle. |
| MentionView.VerifiedBadge | src/features/tiptap/extensions/mention/ssr.tsx:106-113 | The badge appears exactly for verified `tw:` mentions in every renderer except the `config.ts` copy, which never shows it. |
| MentionView.EditorMatchesServer | src/features/tiptap/extensions/mention/node-view.tsx:45-117 | The editor view equals the server component, except that its wrapper carries only `data-mention-id`. |
| MentionView.ExtensionHtmlMatchesServer | src/features/tiptap/extensions/mention/index.ts:330-496 | The SSR extension's `renderHTML` equals the server component whose avatar loads, except for the extra `data-*` attributes. |
| MentionView.ConfigHtmlDiffers | src/features/tiptap/config.ts:374-523 | The `config.ts` copy always emits the placeholder, hidden exactly when there is an avatar, and has no badge. Otherwise it equals the extension's output. |
| MentionView.LegacyShowsAtDisplayName | src/features/tiptap/mention-node.tsx:17-21 | The older view shows `@` followed by the display name, even a full name, and no separate handle. |
| MentionView.JaneDoeNames | src/features/tiptap/extensions/mention/ssr.tsx:23-27 | For a verified `tw:jane` with display name `Jane Doe`, the name is `Jane Doe`, the handle is `jane`, and the name is shown apart from the handle. |
| MentionView.FullNameExample | src/features/tiptap/mention-node.tsx:91-92 | The newer views show `Jane Doe` and `@jane`; the older one shows `@Jane Doe`. |
| MentionView.FullNameLinkAndBadge | src/features/tiptap/extensions/mention/ssr.tsx:32-43 | The same mention links to `https://twitter.com/jane` and shows the badge, except in the `config.ts` copy. |
| MentionIcons.CharIndexFrom | src/features/tiptap/extensions/mention/icons.ts:50 | Gives the first index at or after a position holding a given character, or reports that there is none. |
| MentionIcons.PathMatchAt | src/features/tiptap/extensions/mention/icons.ts:50 | A match of `<path([^>]*)\/>` at an index has a group without `>`, and it ends inside the body. |
| MentionIcons.NextPathMatch | src/features/tiptap/extensions/mention/icons.ts:53 | `exec` finds the leftmost path element at or after `lastIndex`, or reports that there is none. |
| MentionIcons.WordRun | src/features/tiptap/extensions/mention/icons.ts:58 | The greedy `\w+`: a maximal run of word characters. |
| MentionIcons.AttrMatchAt | src/features/tiptap/extensions/mention/icons.ts:58 | An attribute match has a valid name and a value without `"`, and it ends after its start. |
| MentionIcons.NextAttrMatch | src/features/tiptap/extensions/mention/icons.ts:60 | Gives the next attribute match at or after `lastIndex`, with a valid name and a value without quotes. |
| MentionIcons.AttrPairs | src/features/tiptap/extensions/mention/icons.ts:58-62 | Every attribute found has a valid name. |
| MentionIcons.AttrsOfAll | src/features/tiptap/extensions/mention/icons.ts:53-65 | One attribute record per path element, in order. |
| MentionIcons.ParseIconBody | src/features/tiptap/extensions/mention/icons.ts:47-68 | The outer `exec` loop returns one attribute record per path element of the body, in body order. |
| MentionIcons.ParsePathAttrs | src/features/tiptap/extensions/mention/icons.ts:55-62 | The inner `exec` loop builds the attribute record of one path element. |
| MentionIcons.LastValueWins | src/features/tiptap/extensions/mention/icons.ts:61 | A repeated attribute keeps its last value, and a name never given keeps what it had. |
| MentionIcons.LastIndexOf | src/features/tiptap/extensions/mention/icons.ts:61 | Gives the last position of a name in the pair list. |
| MentionIcons.ParsedNamesValid | src/features/tiptap/extensions/mention/icons.ts:58-62 | Every key of a parsed record is a valid attribute name. |
| MentionIcons.SinglePathBody | src/features/tiptap/extensions/mention/icons.ts:47-68 | A body holding one `<path …/>` parses to exactly that element's attributes. |
| MentionIcons.IconToSSR | src/features/tiptap/extensions/mention/icons.ts:25-44 | The SVG carries the namespace, the width and height as decimal strings, the icon's view box and the class. Its children are the parsed path elements. |
| SuggestionMenu.Down | src/features/tiptap/extensions/mention/menu.tsx:89-91 | ArrowDown moves to the next item and wraps from the last to the first. An empty list gives `NaN`. |
| SuggestionMenu.Up | src/features/tiptap/extensions/mention/menu.tsx:85-87 | ArrowUp moves to the previous item and wraps from the first to the last. An empty list gives `NaN`. |
| SuggestionMenu.ItemAt | src/features/tiptap/extensions/mention/menu.tsx:78-83 | An item is chosen exactly when the index points into the list. |
| SuggestionMenu.UpUndoesDown | src/features/tiptap/extensions/mention/menu.tsx:85-91 | ArrowUp undoes ArrowDown and the other way round. |
| SuggestionMenu.DownTimesAdvances | src/features/tiptap/extensions/mention/menu.tsx:89-91 | Up to `n` presses of ArrowDown advance the selection by that many places, wrapping around once. |
| SuggestionMenu.DownRoundTrip | src/features/tiptap/extensions/mention/menu.tsx:89-91 | A full round of ArrowDown presses returns to the starting item. |
| SuggestionMenu.Menu.constructor | src/features/tiptap/extensions/mention/menu.tsx:33 | The menu opens with the first item selected. |
| SuggestionMenu.Menu.SetItems | src/features/tiptap/extensions/mention/menu.tsx:118-120 | A new item list resets the selection to the first item. |
| SuggestionMenu.Menu.OnKeyDown | src/features/tiptap/extensions/mention/menu.tsx:97-116 | Exactly ArrowUp, ArrowDown and Enter are handled. The arrows move the selection, Enter chooses the selected item if there is one, and the item list never changes. |
| SuggestionMenu.PrimaryText | src/features/tiptap/extensions/mention/menu.tsx:189-191 | A row's main text is the first non-empty one of displayName, username and label. |
| SuggestionMenu.SubLine | src/features/tiptap/extensions/mention/menu.tsx:206-210 | The `@username` line appears exactly when both username and display name are non-empty. |
| SuggestionMenu.Initial | src/features/tiptap/extensions/mention/menu.tsx:181-185 | The placeholder is one letter: the upper-cased first character of the display name or the username, or `@`. |
| SuggestionMenu.MentionRows | src/features/tiptap/extensions/mention/menu.tsx:137-212 | An empty list renders nothing; otherwise there is one row per item, in list order. |
| SuggestionMenu.RowShape | src/features/tiptap/extensions/mention/menu.tsx:157-212 | Each row shows exactly one of avatar and placeholder, and only the selected row is highlighted. |
| SuggestionMenu.ClickMatchesEnter | src/features/tiptap/extensions/mention/menu.tsx:157-162 | Clicking a row chooses the same item as pressing Enter with that row selected. |
| SlashCommands.CommandIdsDistinct | src/features/tiptap/extensions/slash-command/index.ts:24-134 | There are ten commands and no two share an id. |
| SlashCommands.Filter | src/features/tiptap/extensions/slash-command/index.ts:141-146 | Filtering never adds commands. |
| SlashCommands.FilterMembers | src/features/tiptap/extensions/slash-command/index.ts:141-146 | Exactly the commands whose title, description or id contains the lower-cased query are kept. |
| SlashCommands.FilterKeepsOrder | src/features/tiptap/extensions/slash-command/index.ts:141-146 | Filtering keeps the declared order (it distributes over concatenation). |
| SlashCommands.SlashCommandItems | src/features/tiptap/extensions/slash-command/index.ts:136-146 | An empty query gives every command; otherwise exactly the matching commands are given. |
| SlashCommands.QueryCaseIgnored | src/features/tiptap/extensions/slash-command/index.ts:22 | Two queries equal up to ASCII case give the same items. |
| SlashCommands.Choose | src/features/tiptap/extensions/slash-command/index.ts:229-233 | Choosing an item runs its command first and then deletes the typed `/query`. |
| SlashCommands.TwitterPromptUrl | src/features/tiptap/extensions/slash-command/index.ts:46-51 | The Twitter command embeds the prompt's answer exactly when it is non-empty. |
| SlashCommands.PositionsOfSpec | src/features/tiptap/extensions/slash-command/menu.tsx:144-150 | A group's positions are exactly the items with that group, in increasing order. |
| SlashCommands.ExactlyOneGroup | src/features/tiptap/extensions/slash-command/menu.tsx:144-150 | Every item lies in exactly one group, the one named by its own group key. |
| SlashCommands.GroupOrderSpec | src/features/tiptap/extensions/slash-command/menu.tsx:174 | Each group is listed once, only for keys that occur, in order of first appearance. |
| SlashCommands.GroupStep | src/features/tiptap/extensions/slash-command/menu.tsx:145-149 | One step of the `reduce` keeps the record in step with the items seen so far. |
| SlashCommands.GroupItems | src/features/tiptap/extensions/slash-command/menu.tsx:144-150 | The `reduce` yields the groups in first-appearance order. Each group holds exactly the positions of its items, in order. |
| SlashCommands.GroupHeading | src/features/tiptap/extensions/slash-command/menu.tsx:152-156 | The three known groups get their display labels, and any other group is shown under its own key. |
| LinkMention.StringAttr | src/features/tiptap/extensions/link-mention/index.ts:21-26 | An attribute counts as set only when it holds a string. |
| LinkMention.RenderAttrs | src/features/tiptap/extensions/link-mention/index.ts:42-114 | Each `data-*` attribute is written exactly when its value is non-empty, and no other attribute is written. |
| LinkMention.OptionalAttr | src/features/tiptap/extensions/link-mention/index.ts:129-132 | `getAttribute(…) \|\| undefined` is present exactly for a non-empty attribute, and then it is that attribute. |
| LinkMention.ParseAttrs | src/features/tiptap/extensions/link-mention/index.ts:117-138 | An element is rejected exactly when it has no non-empty `data-url`, and the url is taken from it. |
| LinkMention.AttrsRoundTrip | src/features/tiptap/extensions/link-mention/index.ts:42-138 | Rendering and parsing back gives the same attributes with empty strings read as absent, and it rejects an element without a url. |
| LinkMention.SetLinkMention | src/features/tiptap/extensions/link-mention/index.ts:151-172 | The command declines an empty url. Otherwise it inserts the url, title, favicon and hostname it was given and no custom title. |
| LinkMention.DisplayTitle | src/features/tiptap/extensions/link-mention/ssr.tsx:15 | The page's title is the first non-empty one of custom title, title, hostname and url. |
| LinkMention.EditorTitle | src/features/tiptap/extensions/link-mention/node-view.tsx:12 | The editor's title is the first non-empty one of title, hostname and url. |
| LinkMention.PlaceholderText | src/features/tiptap/extensions/link-mention/ssr.tsx:35-47 | The favicon placeholder is one character: the upper-cased first letter of the hostname, or a globe. |
| LinkMention.FaviconOf | src/features/tiptap/extensions/link-mention/ssr.tsx:28-47 | The image is shown exactly when a favicon is set and has not failed to load; otherwise the placeholder is shown. |
| LinkMention.ExtensionHtml | src/features/tiptap/extensions/link-mention/index.ts:190-236 | The SSR `renderHTML` wraps the rendered attributes with the link-mention type and class. It links the url and shows the display title and the favicon. |
| LinkMention.ServerView | src/features/tiptap/extensions/link-mention/ssr.tsx:13-54 | The page component is typed as a link mention and carries `data-custom-title` exactly when one is set. It links the url and shows the display title and the favicon state. |
| LinkMention.EditorView | src/features/tiptap/extensions/link-mention/node-view.tsx:8-54 | The editor view neither reads nor writes the custom title, and it shows the editor title. |
| LinkMention.EditorMatchesServerWithoutCustomTitle | src/features/tiptap/extensions/link-mention/node-view.tsx:12 | Without a custom title, the editor shows the same title, link and favicon as the page. |
| LinkMention.CustomTitleOnlyOnServer | src/features/tiptap/extensions/link-mention/ssr.tsx:15 | A custom title that differs from the fallback chain shows on the page but not in the editor. |
| LinkMention.InsertedMentionsAgree | src/features/tiptap/extensions/link-mention/index.ts:163-171 | A node made by `setLinkMention` has no custom title, so the page and the editor show the same title. |
| LinkMention.ServerViewMatchesExtension | src/features/tiptap/extensions/link-mention/index.ts:192-193 | Before any load error, the React component shows the same link, title and favicon as `renderHTML`. |
| LinkMention.CustomTitleExample | src/features/tiptap/extensions/link-mention/ssr.tsx:15-33 | A link with a custom title and no favicon shows the custom title and a placeholder from the hostname. |
| PasteSuggestion.FallbackFavicon | src/features/tiptap/extensions/link-mention/paste-handler.tsx:102 | The guessed favicon is the favicon service's URL with the host and `&sz=64` appended. |
| PasteSuggestion.FallbackMetadata | src/features/tiptap/extensions/link-mention/paste-handler.tsx:97-109 | After a failed load, title and hostname are both the url's host with the guessed favicon. When the url does not parse, both are the raw url and there is no favicon. |
| PasteSuggestion.PreviewTitle | src/features/tiptap/extensions/link-mention/paste-handler.tsx:214 | The preview shows the first non-empty one of title, hostname and url. |
| PasteSuggestion.Clean | src/features/tiptap/extensions/link-mention/paste-handler.tsx:203-212 | An empty favicon shows no image. |
| PasteSuggestion.Suggestion.constructor | src/features/tiptap/extensions/link-mention/paste-handler.tsx:34-40 | The popover mounts loading, with no metadata and no error. |
| PasteSuggestion.Suggestion.Settle | src/features/tiptap/extensions/link-mention/paste-handler.tsx:78-113 | When the request ends, loading stops. The error flag is set exactly when the request failed, and the metadata is then the response's fields or the fallback. |
| PasteSuggestion.Suggestion.Insert | src/features/tiptap/extensions/link-mention/paste-handler.tsx:135-139 | Inserting hands over the pasted url with the current metadata, and does nothing while there is no metadata. |
| PasteSuggestion.Suggestion.OnKey | src/features/tiptap/extensions/link-mention/paste-handler.tsx:155-167 | Escape cancels. Enter inserts exactly when loading is over, metadata exists and the Mention button has focus. Other keys are ignored. |
| PasteSuggestion.Suggestion.View | src/features/tiptap/extensions/link-mention/paste-handler.tsx:175-237 | The popover shows "Loading..." exactly while loading. Afterwards the preview appears exactly when there is metadata. |
| PasteSuggestion.FallbackPreview | src/features/tiptap/extensions/link-mention/paste-handler.tsx:97-109 | After a failed load, the preview names the host, or the raw url when it does not parse. |
| PasteSuggestion.SettledPopoverInserts | src/features/tiptap/extensions/link-mention/paste-handler.tsx:155-167 | However the request ends, Enter on the focused Mention button then inserts the pasted url, and Enter elsewhere does nothing. |
| Gallery.ParseIntRoundTrip | src/features/tiptap/extensions/gallery/index.ts:84 | `parseInt` of the decimal form of any integer gives that integer back. |
| Gallery.DecimalRoundTrip | src/features/tiptap/extensions/gallery/index.ts:84 | The digits of a natural number read back as that number. |
| Gallery.ScalarAttrsRoundTrip | src/features/tiptap/extensions/gallery/index.ts:66-91 | A set display mode and a positive column count survive rendering and parsing back. Missing values come back as `grid` and `3`. |
| Gallery.ImagesRoundTrip | src/features/tiptap/extensions/gallery/index.ts:46-65 | An image array survives rendering and parsing back when `JSON.parse` inverts `JSON.stringify`. A non-array is not written and reads back as `[]`. |
| Gallery.GetAttrs | src/features/tiptap/extensions/gallery/index.ts:115-157 | An element is accepted exactly when its `data-images` parses to a non-empty array. The fields are then read with their defaults, and the columns default to 3. |
| Gallery.SetGallery | src/features/tiptap/extensions/gallery/index.ts:165-186 | `setGallery` declines when the images are not an array. Otherwise it inserts them with grid, 3 columns and no spans filling in for falsy values. |
| Gallery.ZeroColumnsDefault | src/features/tiptap/extensions/gallery/index.ts:182 | A column count of 0 is falsy and becomes 3. |
| Gallery.GetSpan | src/features/tiptap/extensions/gallery/client.tsx:19-21 | An image's grid span is its own truthy entry, or one cell when there is none. |
| Gallery.ClientView | src/features/tiptap/extensions/gallery/client.tsx:13-124 | The published gallery shows nothing without images, a carousel at the current image with its 1-based position and count, a grid with one spanned cell per image, or a list. It never shows masonry. |
| Gallery.OtherModesAreLists | src/features/tiptap/extensions/gallery/client.tsx:104-120 | Every mode other than carousel and grid is drawn as a list. |
| Gallery.NextIndex | src/features/tiptap/extensions/gallery/client.tsx:29-31 | The next image follows the current one and wraps from the last to the first. |
| Gallery.PrevIndex | src/features/tiptap/extensions/gallery/client.tsx:33-35 | The previous image precedes the current one and wraps from the first to the last. |
| Gallery.PrevUndoesNext | src/features/tiptap/extensions/gallery/client.tsx:29-35 | Previous undoes next, and next undoes previous. |
| Gallery.Carousel.constructor | src/features/tiptap/extensions/gallery/client.tsx:22 | The published carousel starts at the first image. |
| Gallery.Carousel.Next | src/features/tiptap/extensions/gallery/client.tsx:29-31 | The next button moves to the next image, wrapping around, and stays in range. |
| Gallery.Carousel.Prev | src/features/tiptap/extensions/gallery/client.tsx:33-35 | The previous button moves to the previous image, wrapping around, and stays in range. |
| Gallery.Without | src/features/tiptap/extensions/gallery/node-view.tsx:171 | Removing index `k` drops exactly that image, and an index outside the list removes nothing. |
| Gallery.ClampColumns | src/features/tiptap/extensions/gallery/node-view.tsx:195-200 | A column count is clamped into 1..6, an in-range count is kept, and `NaN` stays `NaN`. |
| Gallery.ImageFiles | src/features/tiptap/extensions/gallery/node-view.tsx:107-118 | A drop hands the uploader exactly the files whose MIME type starts with `image/`. |
| Gallery.EditorView | src/features/tiptap/extensions/gallery/node-view.tsx:224-331 | The editor shows the upload zone exactly when there are no images. Carousel and masonry appear exactly for their modes; the grid has one cell per image and anything else is a list. |
| Gallery.MasonryPublishedAsList | src/features/tiptap/extensions/gallery/node-view.tsx:305-312 | A gallery set to masonry is masonry in the editor but a list on the published page. |
| Gallery.EditorMatchesPage | src/features/tiptap/extensions/gallery/node-view.tsx:279-331 | On every mode except masonry, with no spans set, the editor and the page draw the same layout. |
| Gallery.GalleryEditor.constructor | src/features/tiptap/extensions/gallery/node-view.tsx:23-26 | The node view reads the string images, or none when `images` is not an array, and starts at the first image. |
| Gallery.GalleryEditor.View | src/features/tiptap/extensions/gallery/node-view.tsx:23-25 | The editor draws its state with `grid` and 3 filling in for falsy mode and columns. |
| Gallery.GalleryEditor.UploadSucceeded | src/features/tiptap/extensions/gallery/node-view.tsx:68-76 | A finished upload appends its url to the end of the images and changes nothing else. |
| Gallery.GalleryEditor.RemoveImage | src/features/tiptap/extensions/gallery/node-view.tsx:153-178 | Removing an image drops exactly that one. The carousel position is pulled back to the new last image when it fell off the end, and it stays valid. |
| Gallery.GalleryEditor.NextImage | src/features/tiptap/extensions/gallery/node-view.tsx:180-182 | The editor's next button moves to the next image, wrapping around. |
| Gallery.GalleryEditor.PrevImage | src/features/tiptap/extensions/gallery/node-view.tsx:184-186 | The editor's previous button moves to the previous image, wrapping around. |
| Gallery.GalleryEditor.ChangeColumns | src/features/tiptap/extensions/gallery/node-view.tsx:368-377 | The columns input stores the clamped `parseInt` of its text, and the shown column count is always between 1 and 6. |
| Gallery.GalleryEditor.ChangeDisplayMode | src/features/tiptap/extensions/gallery/node-view.tsx:188-193 | Choosing a mode stores it and changes nothing else. |
| Gallery.ImageUrls | src/features/tiptap/extensions/gallery/node-view.tsx:23 | The images the view reads are exactly the string entries of the attribute. |
| Posts.IdsAsWritten | src/services/posts/repository.server.ts:17-19 | As written, ids come from `.json` names with the first occurrence of `.json` removed. |
| Posts.FirstOccurrenceStripExample | src/services/posts/repository.server.ts:19 | As written, `x.jsonfoo.json` is listed as `xfoo.json`, whose file is not the listed one. Stripping the suffix gives `x.jsonfoo`, which names it. |
| Posts.Ids | src/services/posts/repository.server.ts:17-19 | The corrected listing: each `.json` name with its trailing extension removed. The listing of `repository.ts:15-18` is the same code and gets the same correction. |
| Posts.ReplaceFirstIsStem | src/services/posts/repository.server.ts:19 | When a name's only `.json` is the trailing one, `replace('.json', '')` leaves exactly the stem. |
| Posts.IdsAsWrittenAgree | src/services/posts/repository.server.ts:17-19 | When no listed `.json` name holds `.json` before its end, the listing as written equals the corrected one. |
| Posts.IdsNameTheirFiles | src/services/posts/repository.server.ts:17-19 | Every listed id names a listed file, and every `.json` file is listed under its stem. |
| Posts.ListPosts | src/services/posts/repository.server.ts:14-27 | A missing directory lists nothing and any other listing failure is rethrown. Otherwise the ids are the `.json` names with their first `.json` removed, as written. |
| Posts.GetPostById | src/services/posts/repository.server.ts:34-56 | The server loader returns a post exactly when the file reads, parses and validates to it; every failure gives `null`. |
| Posts.GetPostByIdStrict | src/services/posts/repository.ts:32-44 | The plain loader returns `null` exactly for a missing file and the post exactly when it loads. Every other failure throws. |
| Posts.LoadPoliciesAgree | src/services/posts/repository.ts:32-44 | The two loaders agree whenever the plain one returns, and the server one gives `null` whenever the plain one throws. |
| Posts.LoadAll | src/services/posts/repository.server.ts:64-66 | Loading never yields more posts than ids. |
| Posts.LoadAllMembers | src/services/posts/repository.server.ts:62-71 | A post is loaded exactly when some listed id loads as it. |
| Posts.AllPosts | src/services/posts/repository.server.ts:62-71 | All posts are the listed posts that load. |
| Posts.AllPostsMembers | src/services/posts/repository.server.ts:62-71 | A post is among all posts exactly when it loads under one of the ids `listPosts()` gives as written. When no `.json` name holds `.json` before its end, that means exactly when it is stored under a listed `.json` name and loads. A failed listing gives none. |
| Posts.Published | src/services/posts/repository.server.ts:79 | Exactly the posts with a publication date are kept. |
| Posts.PublishedPosts | src/services/posts/repository.server.ts:77-80 | The published posts are exactly the loaded posts that have a publication date. |
| Posts.FindBySlug | src/services/posts/repository.server.ts:116 | `find` gives the first post with the slug, or reports that there is none. |
| Posts.PostBySlug | src/services/posts/repository.server.ts:113-122 | The post found is the first loaded post with the slug: it sits at an index with no earlier post of that slug. There is none exactly when no loaded post has the slug. |
| Posts.InsertByDatePermutes | src/services/posts/repository.server.ts:88-94 | Inserting a post adds exactly that post. |
| Posts.InsertByDateSpec | src/services/posts/repository.server.ts:88-94 | Inserting into a newest-first list keeps it newest first. |
| Posts.SortByDateSpec | src/services/posts/repository.server.ts:88-94 | Sorting gives the same posts, newest first, using the publication date or else the modification date. |
| Posts.InsertByDateStable | src/services/posts/repository.server.ts:89-93 | Inserting a post puts it ahead of the posts with the same date. |
| Posts.SortByDateStable | src/services/posts/repository.server.ts:88-94 | The sort is stable: the posts of any one date keep their input order. |
| Posts.PostsForListingSpec | src/services/posts/repository.server.ts:101-106 | The listing is every post in development and the published posts otherwise, as a newest-first permutation. |
| Posts.KeyLeTotal | src/services/posts/repository.server.ts:160 | The default sort order compares any two keys. |
| Posts.InsertKeySpec | src/services/posts/repository.server.ts:160 | Inserting a key into ascending keys adds exactly that key and keeps them ascending. |
| Posts.SortKeysSpec | src/services/posts/repository.server.ts:159-160 | `keys.sort()` gives the same keys in ascending order. |
| Posts.KeysOf | src/services/posts/repository.server.ts:159 | `Object.keys` lists the object's keys in order. |
| Posts.Lookup | src/services/posts/repository.server.ts:162 | A key the object does not have reads as `undefined`. |
| Posts.Assigned | src/services/posts/repository.server.ts:158-163 | The rebuilt object has exactly the assigned keys, in assignment order. |
| Posts.AssignedLookup | src/services/posts/repository.server.ts:161-163 | An assigned key reads the original value, and any other key reads `undefined`. |
| Posts.SortedFieldsSpec | src/services/posts/repository.server.ts:158-165 | The sorted object has the same keys, ascending, each with its original value. |
| Posts.FillSorted | src/services/posts/repository.server.ts:158-163 | The `forEach` loop builds exactly the sorted object. |
| Posts.SortedItems | src/services/posts/repository.server.ts:147-153 | An array's items are processed one for one. |
| Posts.SortedValueSameData | src/services/posts/repository.server.ts:140-166 | The serialised value is the input with only key order changed: same keys, same values, same array items. |
| Posts.SortedItemsAt | src/services/posts/repository.server.ts:147-153 | Object items of an array are key-sorted, and every other item is kept as it is. |
| Posts.OutermostKeysOnly | src/services/posts/repository.server.ts:158-165 | Only the outermost keys are sorted: an object under a key keeps its own key order. |
| Posts.WritePost | src/services/posts/repository.server.ts:129-170 | A post that fails validation is not written. Otherwise `{id}.json` receives the key-sorted serialisation. |
| TweetFetcher.Cached | src/services/tweets/fetcher.server.ts:15-18 | The cache lookup gives the cached tweet exactly when the id is cached. |
| TweetFetcher.Record | src/services/tweets/fetcher.server.ts:22-43 | After a fetch, the id's cache entry matches the result, and every other entry is unchanged. |
| TweetFetcher.RemoteResultCases | src/services/tweets/fetcher.server.ts:22-43 | A network fetch yields a tweet exactly when `fetchTweet` returned data, or the `getTweet` fallback found one. Data wins when present. |
| TweetFetcher.TweetCache.constructor | src/services/tweets/fetcher.server.ts:13-15 | The cache starts with the given entries and no requests made. |
| TweetFetcher.TweetCache.FetchSingleTweet | src/services/tweets/fetcher.server.ts:13-50 | A cached id returns its tweet with no request and no change. Otherwise one request is made, the network result is returned, and the cache records it. |
| TweetFetcher.TweetCache.FetchAll | src/services/tweets/fetcher.server.ts:65-70 | Each id is paired with its starting cached tweet, or else with its network result, and the final cache agrees with that result. Only the uncached ids are requested, in order. Ids not asked for keep their cache entries. |
| TweetFetcher.TweetCache.FetchTweetsFromContent | src/services/tweets/fetcher.server.ts:56-80 | The index maps exactly the post's tweet ids that were cached or that the network returns a tweet for, each to that tweet. The requests are the post's distinct uncached ids, in order. Every other cache entry is kept. A post without tweets gives `{}` and touches nothing. |
| TweetFetcher.Uncached | src/services/tweets/fetcher.server.ts:15-18 | The ids that go to the network are exactly the listed ids that are not cached. |
| TweetFetcher.BuildIndex | src/services/tweets/fetcher.server.ts:72-77 | The loop enters exactly the ids whose result is a tweet, each with that tweet. |
| OgImage.FontSize | scripts/generate-og-images.ts:31-33 | The index page gets 72; a post title gets a size between 36 and 64. |
| OgImage.FontSizeAntitone | scripts/generate-og-images.ts:33 | A longer title never gets a larger size. |
| OgImage.ShortTitlesLargest | scripts/generate-og-images.ts:33 | Titles of at most 28 units get 64, and only they do. |
| OgImage.LongTitlesSmallest | scripts/generate-og-images.ts:33 | Titles of at least 49 units get 36, and only they do. |
| OgImage.ShownTitle | scripts/generate-og-images.ts:168 | The drawn title is never empty: an extracted title is kept, and a missing one becomes `Untitled`. |
| OgImage.UntitledSize | scripts/generate-og-images.ts:168 | A post with no title is drawn as `Untitled` at the largest size. |

## Left out

- Network, file system and time. `fetch`, `fs.readdir`/`readFile`/`writeFile`, the tweet cache's storage, Uppy uploads and the link-metadata endpoint are parameters or outcome datatypes. Their failures are modelled only where the code branches on them.
- Browser URL parsing. `new URL`, `JSON.parse`, `JSON.stringify` and schema validation (`valibot`) are function parameters. The model states what follows from them, not what they compute.
- Concurrency. Promises, timers and `Promise.all` run as atomic, sequential events in call order. A debounce window is the span between a call and its timer firing.
- Numbers. They are unbounded integers and `NaN`; floating point, `Infinity` and fractional column counts are not modelled. `FontSize` treats an empty title's `1800 / 0` as the upper clamp, as `Infinity` would give.
- String semantics. Strings are sequences of characters, so UTF-16 length, Unicode case mapping and locale-aware comparison are not modelled. Lower and upper casing are ASCII-only, and `Array.prototype.sort` on strings is character order.
- Presentation. Markup, CSS classes, inline styles, floating-ui placement, scroll-into-view, focus management and icons' path data are left out. Views keep only the content that the properties talk about.
- PostDocument.EnforceH1: the branch for a non-heading first child is modelled as the intended prepend of an empty h1. As written, `tr.insert(1, heading)` inserts inside the first child, but `heading block*` makes that branch unreachable in the editor.
- Tiptap's own attribute merging (`mergeAttributes`, per-attribute `parseHTML` defaults applied by the schema) is not modelled. Parse rules return the attribute record their `getAttrs` builds.
- Gallery.GalleryEditor.constructor: non-string entries of `images` are dropped, and a non-array `images` reads as empty. The source casts without checking, so what it would draw for such entries is left open.
- Gallery.EditorView: every grid cell uses the default 1×1 span. The editor's grid items carry no span styling.
- Gallery.GalleryEditor.RemoveImage: the delete request to `/api/delete` and the race with later edits are not modelled. The removal happens after the request ends, however it ends.
- Upload progress, upload errors and the alert are left out; only a successful upload changes the images.
- TweetFetcher.TweetCache.FetchSingleTweet: the cache writes `cacheTweet` and `removeCachedTweet` always succeed. A tombstone or not-found leaves the id absent, and a read after a thrown fetch sees the current cache.
- TweetFetcher.TweetCache.FetchAll: the fetches of `Promise.all` run one after another in id order, not interleaved.
- Posts.SortedValue: `JSON.parse(sortedStringify(item))` for array items is taken as the sorted item itself. The pretty-printing of `JSON.stringify(…, null, 2)` is the `stringify` parameter. Integer-like keys, which JavaScript enumerates numerically first, are not distinguished.
- Posts.Post: the post fields are those the repository reads (id, slug, publication and modification dates). The rest of the record is carried in the `Value` the writer receives.
- Posts.PostsForListing: `import.meta.env.DEV` is a boolean parameter.
- OgImage.ShownTitle: `extractTitleFromContent` is a parameter, given as its result. The image rendering (satori, resvg) and the font download are left out.
- MentionLookup: GitHub's debounce delay and Twitter's 300 ms window are not numbers in the model, only orderings of call and fire events. The logging is left out.
- The `tw:`/`gh:` user search endpoints behind `/api/mentions/*` are outside this model; their answers are the `ApiResponse` parameter.
- The twitter and YouTube node views' own loading states, and the tweet client components, are outside this model. Only the url handling and the server renderer's choice are modelled.
- The textually identical copies are modelled once. This covers the legacy `twitter-embed.ts` and `extensions/twitter-embed/index.ts`, the `config.ts` copies of the suggestion items, command, label and search, and `repository.ts`'s `sortedStringify` and `listPosts` next to the server module's. Copies that differ get their own members and a lemma relating them.

## Findings

| source | as written | input that shows it | evidently intended | confidence | as-written member | corrected member |
|---|---|---|---|---|---|---|
| src/features/tiptap/document.ts:35 | `setNodeMarkup(1, …)` addresses position 1, which lies inside the first heading, so the heading itself is never re-levelled | a document whose first child is `heading(level 2, "Hello")`: position 1 holds the text node, so the step throws | re-level the first child at position 0 to level 1 | not executed | PostDocument.RelevelAsWrittenExample | PostDocument.RepairYieldsValid |
| src/features/tiptap/extensions/mention/api.ts:89-114 | one debounced function serves every Twitter username, so a later call for another name replaces the pending run | `tw:alice` then `tw:bob` within 300 ms: only `bob`'s promise settles, and `alice`'s never does | one pending run per username, as the GitHub search does | not executed | MentionLookup.StrandedWaiterExample | MentionLookup.KeyedSchemeSettlesBoth |
| src/services/posts/repository.server.ts:19 | `replace('.json', '')` removes the first `.json`, not the extension | a file `x.jsonfoo.json` is listed as `xfoo.json`, and loading that id reads `xfoo.json.json` | strip the trailing extension, giving `x.jsonfoo` | not executed | Posts.FirstOccurrenceStripExample | Posts.IdsNameTheirFiles |
