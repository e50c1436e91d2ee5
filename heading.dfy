/**
 * `HeadingWithoutMarkdown`: the markdown input rules for headings, with
 * level 1 left out so that typing `# ` cannot create a second title; and
 * the editor placeholder, which is shown on the level-1 title only.
 */
module HeadingRules {
  import opened Wrappers
  import opened JsValue
  import opened Text
  import opened Content

  /** The heading extension's `Level` type. */
  type Level = l: int | 1 <= l <= 6 witness 1

  /** `textblockTypeInputRule({find: /^(#{level})\s$/, type: heading, getAttributes: {level}})` */
  datatype InputRule = InputRule(level: Level)

  function InputRules(levels: seq<Level>): (rules: seq<InputRule>)
    ensures |rules| <= |levels|
    ensures forall r :: r in rules <==> r.level in levels && r.level != 1
  {
    if levels == [] then []
    else if levels[0] == 1 then InputRules(levels[1..])
    else [InputRule(levels[0])] + InputRules(levels[1..])
  }

  /** Rules follow the configured order: the rules for `a + b` are those for `a`, then those for `b`. */
  lemma {:induction false} InputRulesInOrder(a: seq<Level>, b: seq<Level>)
    ensures InputRules(a + b) == InputRules(a) + InputRules(b)
  {
    if a != [] {
      InputRulesInOrder(a[1..], b);
      assert (a + b)[0] == a[0] && (a + b)[1..] == a[1..] + b;
    } else {
      assert a + b == b;
    }
  }

  /** One rule per configured level other than 1. */
  lemma {:induction false} OneRulePerLevel(levels: seq<Level>)
    ensures |InputRules(levels)| == |levels| - multiset(levels)[1]
  {
    if levels != [] {
      OneRulePerLevel(levels[1..]);
      assert levels == [levels[0]] + levels[1..];
      assert multiset(levels) == multiset{levels[0]} + multiset(levels[1..]);
    }
  }

  /** The text before the cursor matches `^#{level}\s$`. */
  predicate RuleMatches(rule: InputRule, typed: string)
  {
    |typed| == rule.level + 1
    && typed[..rule.level] == Repeat('#', rule.level)
    && IsWhitespace(typed[rule.level])
  }

  /** The heading level a typed block turns into: the first matching rule's. */
  function TypedHeading(rules: seq<InputRule>, typed: string): (r: Option<Level>)
    ensures r.Some? ==> exists i :: 0 <= i < |rules| && rules[i].level == r.value && RuleMatches(rules[i], typed)
    ensures r.None? ==> forall i :: 0 <= i < |rules| ==> !RuleMatches(rules[i], typed)
  {
    if rules == [] then None
    else if RuleMatches(rules[0], typed) then Some(rules[0].level)
    else
      var r := TypedHeading(rules[1..], typed);
      assert r.Some? ==> rules[1..][0..] == rules[1..];
      r
  }

  /** Typing turns the block into a heading of level n exactly for `n` hashes and one whitespace, when n is configured and not 1. */
  lemma TypedHeadingExactly(levels: seq<Level>, n: Level, c: char)
    ensures TypedHeading(InputRules(levels), Repeat('#', n) + [c]) == Some(n) <==>
      (n in levels && n != 1 && IsWhitespace(c))
  {
    var typed := Repeat('#', n) + [c];
    var rules := InputRules(levels);
    assert typed[..n] == Repeat('#', n);
    if n in levels && n != 1 && IsWhitespace(c) {
      assert InputRule(n) in rules;
      var r := TypedHeading(rules, typed);
      assert r.Some?;
    }
  }

  /** No rule ever produces level 1, so `"# "` creates no heading. */
  lemma NeverH1(levels: seq<Level>, typed: string)
    ensures TypedHeading(InputRules(levels), typed) != Some(1)
    ensures TypedHeading(InputRules(levels), "# ") == None
  {
    var rules := InputRules(levels);
    forall i | 0 <= i < |rules|
      ensures !RuleMatches(rules[i], "# ")
    {
      assert rules[i] in rules;
    }
  }

  /** The placeholder callback: "Enter a title..." on a heading whose level is exactly 1, "" elsewhere. */
  function Placeholder(node: Node): (text: string)
    ensures text != "" <==> IsTitleHeading(node)
    ensures text != "" ==> text == "Enter a title..."
  {
    if node.kind == "heading" && Attr(node, "level") == Num(1) then "Enter a title..." else ""
  }

  predicate IsTitleHeading(node: Node)
  {
    node.kind == "heading" && Attr(node, "level") == Num(1)
  }
}
