/**
 * The slash-command menu: the ten commands, the query filter, what
 * choosing a command does, and the grouping of the menu's rows.
 */
module SlashCommands {
  import opened Wrappers
  import opened Text
  import TweetIds

  /** What a command's callback asks of the editor. */
  datatype Action =
    | InsertGallery                     // `setGallery({images: [], displayMode: 'grid', columns: 3})`
    | PromptTwitterUrl                  // `prompt(...)`, then `setTwitterEmbed({url})` for a non-empty answer
    | ToggleHeading(level: nat)
    | ToggleBulletList
    | ToggleOrderedList
    | ToggleBlockquote
    | ToggleCodeBlock
    | SetHorizontalRule

  datatype SlashItem = SlashItem(
    id: string,
    title: string,
    description: Option<string>,
    icon: Option<string>,
    group: string,
    action: Action)

  /** The declared commands, in order. */
  const AllCommands: seq<SlashItem> := [
    SlashItem("gallery", "Gallery", Some("Insert an image gallery"), Some("🖼️"), "media", InsertGallery),
    SlashItem("twitter", "Twitter Embed", Some("Embed a Twitter tweet"), Some("🐦"), "media", PromptTwitterUrl),
    SlashItem("heading1", "Heading 1", Some("Big section heading"), Some("H1"), "content", ToggleHeading(1)),
    SlashItem("heading2", "Heading 2", Some("Medium section heading"), Some("H2"), "content", ToggleHeading(2)),
    SlashItem("heading3", "Heading 3", Some("Small section heading"), Some("H3"), "content", ToggleHeading(3)),
    SlashItem("bullet-list", "Bullet List", Some("Create a bulleted list"), Some("•"), "content", ToggleBulletList),
    SlashItem("ordered-list", "Numbered List", Some("Create a numbered list"), Some("1."), "content", ToggleOrderedList),
    SlashItem("blockquote", "Quote", Some("Create a quote block"), Some("❝"), "content", ToggleBlockquote),
    SlashItem("code-block", "Code Block", Some("Create a code block"), Some("</>"), "content", ToggleCodeBlock),
    SlashItem("horizontal-rule", "Divider", Some("Insert a horizontal divider"), Some("─"), "content", SetHorizontalRule)
  ]

  /** No two commands share an id, so the menu's item keys and values are unique. */
  lemma CommandIdsDistinct()
    ensures |AllCommands| == 10
    ensures forall i, j :: 0 <= i < j < |AllCommands| ==> AllCommands[i].id != AllCommands[j].id
  {
    // Length, first and last character already tell the ids apart.
    var sigs := seq(|AllCommands|, i requires 0 <= i < |AllCommands| =>
      var id := AllCommands[i].id; if id == [] then (0, ' ', ' ') else (|id|, id[0], id[|id| - 1]));
    assert sigs == [(7, 'g', 'y'), (7, 't', 'r'), (8, 'h', '1'), (8, 'h', '2'), (8, 'h', '3'),
                    (11, 'b', 't'), (12, 'o', 't'), (10, 'b', 'e'), (10, 'c', 'k'), (15, 'h', 'e')];
    forall i, j | 0 <= i < j < |AllCommands| ensures AllCommands[i].id != AllCommands[j].id {
      assert sigs[i] != sigs[j];
    }
  }

  /** `title`, `description` or `id` contains the lower-cased query, ignoring case. */
  predicate Matches(cmd: SlashItem, lowerQuery: string)
  {
    Contains(Lower(cmd.title), lowerQuery)
    || (cmd.description.Some? && Contains(Lower(cmd.description.value), lowerQuery))
    || Contains(Lower(cmd.id), lowerQuery)
  }

  /** `commands.filter(cmd => Matches(cmd, lowerQuery))` */
  function Filter(cmds: seq<SlashItem>, lowerQuery: string): (r: seq<SlashItem>)
    ensures |r| <= |cmds|
  {
    if cmds == [] then []
    else (if Matches(cmds[0], lowerQuery) then [cmds[0]] else []) + Filter(cmds[1..], lowerQuery)
  }

  /** Filtering keeps exactly the matching commands. */
  lemma {:induction false} FilterMembers(cmds: seq<SlashItem>, lowerQuery: string)
    ensures forall c :: c in Filter(cmds, lowerQuery) <==> c in cmds && Matches(c, lowerQuery)
  {
    if cmds != [] {
      FilterMembers(cmds[1..], lowerQuery);
      assert cmds == [cmds[0]] + cmds[1..];
    }
  }

  /** Filtering keeps the relative order of the commands it keeps. */
  lemma {:induction false} FilterKeepsOrder(a: seq<SlashItem>, b: seq<SlashItem>, lowerQuery: string)
    ensures Filter(a + b, lowerQuery) == Filter(a, lowerQuery) + Filter(b, lowerQuery)
  {
    if a == [] {
      assert a + b == b;
    } else {
      assert (a + b)[0] == a[0] && (a + b)[1..] == a[1..] + b;
      FilterKeepsOrder(a[1..], b, lowerQuery);
    }
  }

  /** `getSlashCommandItems({query})`: every command for an empty query, else the matching ones. */
  function SlashCommandItems(query: string): (items: seq<SlashItem>)
    ensures query == [] ==> items == AllCommands
    ensures query != [] ==> forall c :: c in items <==> c in AllCommands && Matches(c, Lower(query))
    ensures |items| <= |AllCommands|
  {
    FilterMembers(AllCommands, Lower(query));
    if query == [] then AllCommands else Filter(AllCommands, Lower(query))
  }

  /** The query is matched without regard to ASCII case. */
  lemma {:induction false} QueryCaseIgnored(q1: string, q2: string)
    requires q1 != [] && q2 != [] && Lower(q1) == Lower(q2)
    ensures SlashCommandItems(q1) == SlashCommandItems(q2)
  {
  }

  /** An editor step of the suggestion `command` callback. */
  datatype Step = Run(action: Action) | DeleteTriggerRange(from: int, to: int)

  /** Choosing an item runs its command first, then removes the typed `/query`. */
  function Choose(item: SlashItem, from: int, to: int): (steps: seq<Step>)
    ensures |steps| == 2 && steps[0] == Run(item.action) && steps[1] == DeleteTriggerRange(from, to)
  {
    [Run(item.action), DeleteTriggerRange(from, to)]
  }

  /** The Twitter command embeds the prompt's answer, unless it was cancelled or left empty. */
  function TwitterPromptUrl(answer: Option<string>): (url: Option<string>)
    ensures url.Some? <==> HasText(answer)
    ensures url.Some? ==> url == answer
  {
    if HasText(answer) then answer else None
  }

  // ---------------------------------------------------------------------
  // Grouping the menu's rows: `items.reduce(...)` into a record keyed by
  // group, listed by `Object.entries`. Items are referred to by their
  // position in the list, which is what `items.indexOf(item)` recovers
  // for the distinct item objects the menu receives.
  // ---------------------------------------------------------------------

  /** The positions below `n` whose group key is `k`, in increasing order. */
  function PositionsOf(keys: seq<string>, k: string, n: nat): seq<nat>
    requires n <= |keys|
  {
    if n == 0 then [] else PositionsOf(keys, k, n - 1) + (if keys[n - 1] == k then [n - 1] else [])
  }

  /** The positions listed are exactly those below `n` holding `k`, in increasing order. */
  lemma {:induction false} PositionsOfSpec(keys: seq<string>, k: string, n: nat)
    requires n <= |keys|
    ensures forall p: nat :: p in PositionsOf(keys, k, n) <==> p < n && keys[p] == k
    ensures forall a, b :: 0 <= a < b < |PositionsOf(keys, k, n)| ==> PositionsOf(keys, k, n)[a] < PositionsOf(keys, k, n)[b]
    ensures forall a :: 0 <= a < |PositionsOf(keys, k, n)| ==> PositionsOf(keys, k, n)[a] < n
  {
    if n > 0 {
      PositionsOfSpec(keys, k, n - 1);
    }
  }

  /** The record's keys in insertion order: each group key once, in order of first appearance. */
  function GroupOrder(keys: seq<string>): seq<string>
  {
    TweetIds.Dedup(keys)
  }

  /** Each position lies in exactly one group, the one named by its own key. */
  lemma ExactlyOneGroup(keys: seq<string>, i: nat)
    requires i < |keys|
    ensures keys[i] in GroupOrder(keys)
    ensures forall k :: i in PositionsOf(keys, k, |keys|) <==> k == keys[i]
  {
    TweetIds.DedupSpec(keys);
    forall k ensures i in PositionsOf(keys, k, |keys|) <==> k == keys[i] {
      PositionsOfSpec(keys, k, |keys|);
    }
  }

  /** The groups are listed once each, and only for keys that occur. */
  lemma GroupOrderSpec(keys: seq<string>)
    ensures TweetIds.NoDuplicates(GroupOrder(keys))
    ensures forall k :: k in GroupOrder(keys) <==> k in keys
  {
    TweetIds.DedupSpec(keys);
  }

  /** The record after the first `i` items: the keys met so far in first-appearance order, each with its positions. */
  ghost predicate GroupedUpTo(keys: seq<string>, i: nat, order: seq<string>, groups: map<string, seq<nat>>)
    requires i <= |keys|
  {
    order == TweetIds.Dedup(keys[..i])
    && (forall k :: k in groups <==> k in keys[..i])
    && (forall k :: k in groups ==> groups[k] == PositionsOf(keys, k, i))
  }

  /** `acc[k] ??= []; acc[k].push(i)` */
  function AddToGroup(groups: map<string, seq<nat>>, k: string, i: nat): map<string, seq<nat>>
  {
    groups[k := (if k in groups then groups[k] else []) + [i]]
  }

  lemma GroupStepOrder(keys: seq<string>, i: nat, order: seq<string>, groups: map<string, seq<nat>>)
    requires i < |keys| && GroupedUpTo(keys, i, order, groups)
    ensures TweetIds.Dedup(keys[..i + 1]) == if keys[i] in groups then order else order + [keys[i]]
  {
    assert keys[..i + 1][..i] == keys[..i];
    TweetIds.DedupSpec(keys[..i]);
  }

  lemma GroupStepKeys(keys: seq<string>, i: nat, order: seq<string>, groups: map<string, seq<nat>>)
    requires i < |keys| && GroupedUpTo(keys, i, order, groups)
    ensures forall k' :: k' in AddToGroup(groups, keys[i], i) <==> k' in keys[..i + 1]
  {
    assert keys[..i + 1] == keys[..i] + [keys[i]];
  }

  /** A key not met among the first `i` items has no positions yet. */
  lemma {:induction false} NoPositionsYet(keys: seq<string>, k: string, i: nat)
    requires i <= |keys| && k !in keys[..i]
    ensures PositionsOf(keys, k, i) == []
  {
    if i > 0 {
      assert keys[..i][i - 1] == keys[i - 1];
      assert keys[..i - 1] == keys[..i][..i - 1];
      NoPositionsYet(keys, k, i - 1);
    }
  }

  lemma GroupStepPositions(keys: seq<string>, i: nat, order: seq<string>, groups: map<string, seq<nat>>)
    requires i < |keys| && GroupedUpTo(keys, i, order, groups)
    ensures forall k' :: k' in AddToGroup(groups, keys[i], i) ==>
      AddToGroup(groups, keys[i], i)[k'] == PositionsOf(keys, k', i + 1)
  {
    if keys[i] !in groups {
      NoPositionsYet(keys, keys[i], i);
    }
  }

  /** One step of the reduce keeps the record in step with the items seen. */
  lemma GroupStep(keys: seq<string>, i: nat, order: seq<string>, groups: map<string, seq<nat>>)
    requires i < |keys| && GroupedUpTo(keys, i, order, groups)
    ensures GroupedUpTo(keys, i + 1, if keys[i] in groups then order else order + [keys[i]], AddToGroup(groups, keys[i], i))
  {
    GroupStepOrder(keys, i, order, groups);
    GroupStepKeys(keys, i, order, groups);
    GroupStepPositions(keys, i, order, groups);
  }

  /** The reduce step by step: `acc[item.group] ??= []; acc[item.group].push(item)`. */
  method GroupItems(keys: seq<string>) returns (order: seq<string>, groups: map<string, seq<nat>>)
    ensures order == GroupOrder(keys)
    ensures forall k :: k in groups <==> k in keys
    ensures forall k :: k in groups ==> groups[k] == PositionsOf(keys, k, |keys|)
  {
    order := [];
    groups := map[];
    for i := 0 to |keys|
      invariant GroupedUpTo(keys, i, order, groups)
    {
      var k := keys[i];
      GroupStep(keys, i, order, groups);
      if k !in groups {
        order := order + [k];
      }
      groups := AddToGroup(groups, k, i);
    }
    assert keys[..|keys|] == keys;
  }

  /** `groupLabels[group] || group` */
  function GroupHeading(group: string): (heading: string)
    ensures group == "content" ==> heading == "Content"
    ensures group == "formatting" ==> heading == "Formatting"
    ensures group == "media" ==> heading == "Media"
    ensures group !in {"content", "formatting", "media"} ==> heading == group
  {
    if group == "content" then "Content"
    else if group == "formatting" then "Formatting"
    else if group == "media" then "Media"
    else group
  }
}
