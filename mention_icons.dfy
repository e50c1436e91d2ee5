/**
 * Inline icon data and its conversion to a `renderHTML` element: the svg
 * attributes, and the `<path …/>` elements recovered from the icon body
 * with two global regular expressions.
 */
module MentionIcons {
  import opened Wrappers
  import opened JsValue
  import opened Text

  /** `IconifyIcon`: the svg body markup and the view-box size. */
  datatype IconData = IconData(body: string, width: nat, height: nat)

  /** The first index at or after `from` holding `c`. */
  function CharIndexFrom(s: string, c: char, from: nat): (r: Option<nat>)
    requires from <= |s|
    ensures r.Some? ==> from <= r.value < |s| && s[r.value] == c
    ensures r.Some? ==> forall k :: from <= k < r.value ==> s[k] != c
    ensures r.None? ==> forall k :: from <= k < |s| ==> s[k] != c
    decreases |s| - from
  {
    if from == |s| then None
    else if s[from] == c then Some(from)
    else CharIndexFrom(s, c, from + 1)
  }

  // -------------------------------------------------------------------
  // `/<path([^>]*)\/>/g`
  // -------------------------------------------------------------------

  /** A match of the path pattern: where it starts, group 1, and where it ends (`lastIndex`). */
  datatype Match = Match(start: nat, group: string, end: nat)

  /**
   * The path pattern tried at `i`. `[^>]*` runs to the first `>`, so the
   * match exists exactly when that `>` is preceded by a `/` that is not
   * part of `<path`.
   */
  function PathMatchAt(body: string, i: nat): (r: Option<Match>)
    requires i <= |body|
    ensures r.Some? ==> r.value.start == i && i + 7 <= r.value.end <= |body|
    ensures r.Some? ==> var g := r.value.group;
      OccursAt(body, "<path", i) && body[i + 5..r.value.end] == g + "/>" && forall k :: 0 <= k < |g| ==> g[k] != '>'
  {
    if !OccursAt(body, "<path", i) then None
    else match CharIndexFrom(body, '>', i + 5)
      case None => None
      case Some(k) =>
        if k >= i + 6 && body[k - 1] == '/' then
          var g := body[i + 5..k - 1];
          assert body[i + 5..k + 1] == g + "/>";
          Some(Match(i, g, k + 1))
        else None
  }

  /** `pathRegex.exec(body)` with `lastIndex` at `from`: the leftmost match at or after `from`. */
  function NextPathMatch(body: string, from: nat): (r: Option<Match>)
    requires from <= |body|
    ensures r.Some? ==> from <= r.value.start < r.value.end <= |body| && PathMatchAt(body, r.value.start) == r
    ensures r.Some? ==> forall j :: from <= j < r.value.start ==> PathMatchAt(body, j).None?
    ensures r.None? ==> forall j :: from <= j <= |body| ==> PathMatchAt(body, j).None?
    decreases |body| - from
  {
    match PathMatchAt(body, from)
    case Some(m) => Some(m)
    case None => if from == |body| then None else NextPathMatch(body, from + 1)
  }

  /** The attribute text of every path element from `from` on, in body order. */
  function PathGroups(body: string, from: nat): seq<string>
    requires from <= |body|
    decreases |body| - from
  {
    match NextPathMatch(body, from)
    case None => []
    case Some(m) => [m.group] + PathGroups(body, m.end)
  }

  // -------------------------------------------------------------------
  // `/(\w+(?:-\w+)?)="([^"]*)"/g`
  // -------------------------------------------------------------------

  /** The length of the run of `\w` characters starting at `j`. */
  function WordRun(s: string, j: nat): (n: nat)
    requires j <= |s|
    ensures j + n <= |s|
    ensures forall k :: j <= k < j + n ==> IsWordChar(s[k])
    ensures j + n == |s| || !IsWordChar(s[j + n])
    decreases |s| - j
  {
    if j < |s| && IsWordChar(s[j]) then 1 + WordRun(s, j + 1) else 0
  }

  /** An attribute name: a word, optionally followed by one `-word` segment. */
  predicate IsAttrName(name: string)
  {
    exists w: nat | w <= |name| :: AttrNameSplit(name, w)
  }

  /** `name` is a word of length `w`, then either nothing or `-` and a second word. */
  predicate AttrNameSplit(name: string, w: nat)
  {
    0 < w <= |name| &&
    (forall k :: 0 <= k < w ==> IsWordChar(name[k])) &&
    (w == |name| || (w + 1 < |name| && name[w] == '-' && forall k :: w + 1 <= k < |name| ==> IsWordChar(name[k])))
  }

  /** The characters `s[j..nameEnd]` form an attribute name whose first word has length `w`. */
  lemma SliceIsAttrName(s: string, j: nat, w: nat, nameEnd: nat)
    requires 0 < w && j + w <= nameEnd <= |s|
    requires forall k :: j <= k < j + w ==> IsWordChar(s[k])
    requires nameEnd == j + w ||
      (j + w + 1 < nameEnd && s[j + w] == '-' && forall k :: j + w + 1 <= k < nameEnd ==> IsWordChar(s[k]))
    ensures IsAttrName(s[j..nameEnd])
  {
    var name := s[j..nameEnd];
    forall k | 0 <= k < |name|
      ensures name[k] == s[j + k]
    {
    }
    assert AttrNameSplit(name, w);
  }

  datatype AttrMatch = AttrMatch(name: string, value: string, end: nat)

  /**
   * The attribute pattern tried at `j`. Both runs are greedy and nothing
   * is gained by backtracking: a shorter run is followed by a word
   * character, which is neither `-` nor `=`.
   */
  function AttrMatchAt(s: string, j: nat): (r: Option<AttrMatch>)
    requires j <= |s|
    ensures r.Some? ==> j < r.value.end <= |s| && IsAttrName(r.value.name)
    ensures r.Some? ==> forall k :: 0 <= k < |r.value.value| ==> r.value.value[k] != '"'
  {
    var w := WordRun(s, j);
    if w == 0 then None
    else
      var nameEnd :=
        if j + w < |s| && s[j + w] == '-' && WordRun(s, j + w + 1) > 0 then j + w + 1 + WordRun(s, j + w + 1) else j + w;
      if nameEnd + 2 <= |s| && s[nameEnd] == '=' && s[nameEnd + 1] == '"' then
        match CharIndexFrom(s, '"', nameEnd + 2)
        case None => None
        case Some(q) =>
          SliceIsAttrName(s, j, w, nameEnd);
          Some(AttrMatch(s[j..nameEnd], s[nameEnd + 2..q], q + 1))
      else None
  }

  function NextAttrMatch(s: string, from: nat): (r: Option<AttrMatch>)
    requires from <= |s|
    ensures r.Some? ==> from < r.value.end <= |s| && IsAttrName(r.value.name)
    ensures r.Some? ==> forall k :: 0 <= k < |r.value.value| ==> r.value.value[k] != '"'
    decreases |s| - from
  {
    match AttrMatchAt(s, from)
    case Some(m) => Some(m)
    case None => if from == |s| then None else NextAttrMatch(s, from + 1)
  }

  /** Every attribute match from `from` on, in order, as name/value pairs. */
  function AttrPairs(s: string, from: nat): (ps: seq<(string, string)>)
    requires from <= |s|
    ensures forall i :: 0 <= i < |ps| ==> IsAttrName(ps[i].0)
    decreases |s| - from
  {
    match NextAttrMatch(s, from)
    case None => []
    case Some(m) => [(m.name, m.value)] + AttrPairs(s, m.end)
  }

  /** `attrs[name] = value` for each pair in turn. */
  function ApplyPairs(m: map<string, string>, ps: seq<(string, string)>): map<string, string>
    decreases |ps|
  {
    if ps == [] then m else ApplyPairs(m[ps[0].0 := ps[0].1], ps[1..])
  }

  /** The attribute record of one path element. */
  function AttrsOf(group: string): map<string, string>
  {
    ApplyPairs(map[], AttrPairs(group, 0))
  }

  function AttrsOfAll(groups: seq<string>): (r: seq<map<string, string>>)
    ensures |r| == |groups|
    ensures forall i :: 0 <= i < |groups| ==> r[i] == AttrsOf(groups[i])
  {
    if groups == [] then [] else [AttrsOf(groups[0])] + AttrsOfAll(groups[1..])
  }

  /** What `parseIconBody(body)` returns: one attribute record per path element, in order. */
  function ParsedBody(body: string): seq<map<string, string>>
  {
    AttrsOfAll(PathGroups(body, 0))
  }

  /** `parseIconBody(body)`: the outer `exec` loop over path elements. */
  method ParseIconBody(body: string) returns (result: seq<map<string, string>>)
    ensures result == ParsedBody(body)
  {
    result := [];
    var pos := 0;
    var m := NextPathMatch(body, 0);
    while m.Some?
      invariant pos <= |body| && m == NextPathMatch(body, pos)
      invariant ParsedBody(body) == result + AttrsOfAll(PathGroups(body, pos))
      decreases |body| - pos
    {
      var attrs := ParsePathAttrs(m.value.group);
      AttrsOfAllCons(m.value.group, PathGroups(body, m.value.end));
      result := result + [attrs];
      pos := m.value.end;
      m := NextPathMatch(body, pos);
    }
  }

  /** The inner `exec` loop: each attribute match assigns `attrs[name] = value`. */
  method ParsePathAttrs(group: string) returns (attrs: map<string, string>)
    ensures attrs == AttrsOf(group)
  {
    attrs := map[];
    var apos := 0;
    var am := NextAttrMatch(group, 0);
    while am.Some?
      invariant apos <= |group| && am == NextAttrMatch(group, apos)
      invariant ApplyPairs(attrs, AttrPairs(group, apos)) == AttrsOf(group)
      decreases |group| - apos
    {
      attrs := attrs[am.value.name := am.value.value];
      apos := am.value.end;
      am := NextAttrMatch(group, apos);
    }
  }

  lemma AttrsOfAllCons(g: string, gs: seq<string>)
    ensures AttrsOfAll([g] + gs) == [AttrsOf(g)] + AttrsOfAll(gs)
  {
    assert ([g] + gs)[1..] == gs;
  }

  /** A repeated attribute keeps its last value; names never given keep what they had. */
  lemma {:induction false} LastValueWins(m: map<string, string>, ps: seq<(string, string)>, name: string)
    ensures (exists i :: 0 <= i < |ps| && ps[i].0 == name) ==>
      name in ApplyPairs(m, ps) && ApplyPairs(m, ps)[name] == ps[LastIndexOf(ps, name)].1
    ensures (forall i :: 0 <= i < |ps| ==> ps[i].0 != name) ==>
      (name in ApplyPairs(m, ps) <==> name in m) && (name in m ==> ApplyPairs(m, ps)[name] == m[name])
    decreases |ps|
  {
    if ps != [] {
      LastValueWins(m[ps[0].0 := ps[0].1], ps[1..], name);
      if exists i :: 0 <= i < |ps[1..]| && ps[1..][i].0 == name {
        var i :| 0 <= i < |ps[1..]| && ps[1..][i].0 == name;
        assert ps[i + 1].0 == name;
      }
    }
  }

  /** The index of the last pair named `name`. */
  function LastIndexOf(ps: seq<(string, string)>, name: string): (i: nat)
    requires exists i :: 0 <= i < |ps| && ps[i].0 == name
    ensures i < |ps| && ps[i].0 == name
    ensures forall j :: i < j < |ps| ==> ps[j].0 != name
  {
    if ps[|ps| - 1].0 == name then |ps| - 1
    else
      var init := ps[..|ps| - 1];
      var i :| 0 <= i < |ps| && ps[i].0 == name;
      assert init[i].0 == name;
      LastIndexOf(init, name)
  }

  /** Every key of a parsed record is a valid attribute name. */
  lemma {:induction false} ParsedNamesValid(m: map<string, string>, ps: seq<(string, string)>)
    requires forall k :: k in m ==> IsAttrName(k)
    requires forall i :: 0 <= i < |ps| ==> IsAttrName(ps[i].0)
    ensures forall k :: k in ApplyPairs(m, ps) ==> IsAttrName(k)
    decreases |ps|
  {
    if ps != [] {
      ParsedNamesValid(m[ps[0].0 := ps[0].1], ps[1..]);
    }
  }

  /**
   * A body that is a single `<path …/>` element whose attribute text has no
   * `>`, like each of the three bundled icons, parses to exactly one path
   * carrying that text's attributes.
   */
  lemma SinglePathBody(inner: string)
    requires forall k :: 0 <= k < |inner| ==> inner[k] != '>'
    ensures ParsedBody("<path" + inner + "/>") == [AttrsOf(inner)]
  {
    var body := "<path" + inner + "/>";
    assert body[..5] == "<path";
    assert OccursAt(body, "<path", 0);
    assert body[5..|body| - 2] == inner;
    assert forall k :: 5 <= k < |body| - 1 ==> body[k] != '>' by {
      forall k | 5 <= k < |body| - 1 ensures body[k] != '>' {
        if k < |body| - 2 { assert body[k] == inner[k - 5]; }
      }
    }
    assert body[|body| - 1] == '>';
    assert CharIndexFrom(body, '>', 5) == Some(|body| - 1);
    var m := PathMatchAt(body, 0);
    assert m == Some(Match(0, inner, |body|));
    assert NextPathMatch(body, |body|).None?;
    assert PathGroups(body, 0) == [inner];
  }

  // -------------------------------------------------------------------
  // `iconToSSR`
  // -------------------------------------------------------------------

  /** The attribute record of the `svg` element. */
  datatype SvgAttrs = SvgAttrs(xmlns: string, width: string, height: string, viewBox: string, className: string)

  datatype Svg = Svg(attrs: SvgAttrs, paths: seq<map<string, string>>)

  const SvgNamespace: string := "http://www.w3.org/2000/svg"

  /**
   * `iconToSSR(icon, className, width, height)`: the displayed size as
   * given, the view box from the icon's own size, one `path` child per
   * path element of the body.
   */
  function IconToSSR(icon: IconData, className: string, width: int, height: int): (svg: Svg)
    ensures svg.attrs == SvgAttrs(SvgNamespace, IntToDecimal(width), IntToDecimal(height),
      "0 0 " + NatToDecimal(icon.width) + " " + NatToDecimal(icon.height), className)
    ensures svg.paths == ParsedBody(icon.body)
  {
    Svg(SvgAttrs(SvgNamespace, IntToDecimal(width), IntToDecimal(height),
                 "0 0 " + NatToDecimal(icon.width) + " " + NatToDecimal(icon.height), className),
        ParsedBody(icon.body))
  }
}
