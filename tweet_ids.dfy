/**
 * Tweet ids in a post: `extractTweetId` (the digits after the leftmost
 * `/status/` that is followed by a digit) and `findTweetIds`, which walks
 * the tree in pre-order, collects the id of every `twitter` node and then
 * removes duplicates, keeping first occurrences.
 */
module TweetIds {
  import opened Wrappers
  import opened JsValue
  import opened Text
  import opened Content

  const StatusMarker: string := "/status/"

  /** `/\/status\/(\d+)/` can match starting at index `i`. */
  predicate MatchesAt(url: string, i: nat)
  {
    OccursAt(url, StatusMarker, i) && i + 8 < |url| && IsDigit(url[i + 8])
  }

  /** The longest run of digits starting at `from` (the greedy `\d+`). */
  function DigitRun(s: string, from: nat): (r: string)
    requires from <= |s|
    ensures from + |r| <= |s| && r == s[from..from + |r|]
    ensures AllDigits(r)
    ensures from + |r| == |s| || !IsDigit(s[from + |r|])
    decreases |s| - from
  {
    if from < |s| && IsDigit(s[from]) then [s[from]] + DigitRun(s, from + 1) else []
  }

  /** The leftmost index at or after `from` where the pattern matches. */
  function FirstMatchFrom(url: string, from: nat): (r: Option<nat>)
    requires from <= |url|
    ensures r.Some? ==> from <= r.value && MatchesAt(url, r.value)
    ensures r.Some? ==> forall j :: from <= j < r.value ==> !MatchesAt(url, j)
    ensures r.None? ==> forall j :: from <= j ==> !MatchesAt(url, j)
    decreases |url| - from
  {
    if MatchesAt(url, from) then Some(from)
    else if from == |url| then None
    else FirstMatchFrom(url, from + 1)
  }

  /** `extractTweetId(url)` */
  function ExtractTweetId(url: string): Option<string>
  {
    match FirstMatchFrom(url, 0)
    case None => None
    case Some(i) => Some(DigitRun(url, i + 8))
  }

  /** With no place where `/status/` is directly followed by a digit, there is no id. */
  lemma ExtractTweetIdNone(url: string)
    ensures ExtractTweetId(url).None? <==> forall i: nat :: !MatchesAt(url, i)
  {
  }

  /**
   * At the leftmost place where `/status/` is directly followed by a digit,
   * the id is the whole digit run that follows; `DigitRun` says the run is
   * non-empty there, all digits, and not followed by another digit.
   */
  lemma ExtractTweetIdLeftmost(url: string, i: nat)
    requires MatchesAt(url, i)
    requires forall j: nat :: j < i ==> !MatchesAt(url, j)
    ensures ExtractTweetId(url) == Some(DigitRun(url, i + 8))
    ensures |DigitRun(url, i + 8)| >= 1
  {
    var id := DigitRun(url, i + 8);
    assert id[0] == url[i + 8];
  }

  /** The id a node contributes by itself: a `twitter` node with a truthy url that yields an id. */
  function OwnId(n: Node): Option<string>
  {
    var url := Attr(n, "url");
    if n.kind == "twitter" && Truthy(url) then ExtractTweetId(ToJsString(url)) else None
  }

  /** Every id of the tree in pre-order, left to right, duplicates included. */
  function Preorder(n: Node): seq<string>
  {
    var own := if OwnId(n).Some? then [OwnId(n).value] else [];
    match n.content
    case Absent => own
    case Present(kids) => own + PreorderAll(kids)
  }

  function PreorderAll(ns: seq<Node>): seq<string>
  {
    if ns == [] then [] else Preorder(ns[0]) + PreorderAll(ns[1..])
  }

  lemma {:induction false} PreorderAllSnoc(ns: seq<Node>, i: nat)
    requires i < |ns|
    ensures PreorderAll(ns[..i + 1]) == PreorderAll(ns[..i]) + Preorder(ns[i])
  {
    if i == 0 {
      assert ns[..1] == [ns[0]];
      assert ns[..1][1..] == [];
    } else {
      PreorderAllSnoc(ns[1..], i - 1);
      assert ns[..i + 1][1..] == ns[1..][..i];
      assert ns[..i][1..] == ns[1..][..i - 1];
      assert ns[..i + 1][0] == ns[0] && ns[..i][0] == ns[0];
    }
  }

  /** `[...new Set(ids)]`: first occurrences, in order. */
  function Dedup(s: seq<string>): seq<string>
  {
    if s == [] then []
    else
      var d := Dedup(s[..|s| - 1]);
      if s[|s| - 1] in d then d else d + [s[|s| - 1]]
  }

  predicate NoDuplicates(s: seq<string>)
  {
    forall i, j :: 0 <= i < j < |s| ==> s[i] != s[j]
  }

  /** Deduplication keeps exactly the ids of its input, each once. */
  lemma {:induction false} DedupSpec(s: seq<string>)
    ensures NoDuplicates(Dedup(s))
    ensures forall x :: x in Dedup(s) <==> x in s
  {
    if s != [] {
      var init := s[..|s| - 1];
      DedupSpec(init);
      assert s == init + [s[|s| - 1]];
    }
  }

  /**
   * Order of first occurrence: deduplicating a prefix of the ids gives a
   * prefix of the deduplicated ids.
   */
  lemma {:induction false} DedupPrefix(s: seq<string>, k: nat)
    requires k <= |s|
    ensures |Dedup(s[..k])| <= |Dedup(s)| && Dedup(s)[..|Dedup(s[..k])|] == Dedup(s[..k])
    decreases |s|
  {
    if k < |s| {
      var init := s[..|s| - 1];
      assert init[..k] == s[..k];
      DedupPrefix(init, k);
    } else {
      assert s[..k] == s;
    }
  }

  /** Every returned id comes from a `twitter` node of the tree. */
  lemma {:induction false} PreorderSound(root: Node, x: string)
    requires x in Preorder(root)
    ensures exists m :: InTree(m, root) && OwnId(m) == Some(x)
    decreases root
  {
    if OwnId(root) == Some(x) {
      assert InTree(root, root);
    } else {
      var kids := root.content.nodes;
      assert x in PreorderAll(kids);
      PreorderAllSound(kids, x);
      var m :| InForest(m, kids) && OwnId(m) == Some(x);
      assert InTree(m, root);
    }
  }

  lemma {:induction false} PreorderAllSound(ns: seq<Node>, x: string)
    requires x in PreorderAll(ns)
    ensures exists m :: InForest(m, ns) && OwnId(m) == Some(x)
    decreases ns
  {
    if x in Preorder(ns[0]) {
      PreorderSound(ns[0], x);
      var m :| InTree(m, ns[0]) && OwnId(m) == Some(x);
      assert InForest(m, ns);
    } else {
      PreorderAllSound(ns[1..], x);
      var m :| InForest(m, ns[1..]) && OwnId(m) == Some(x);
      assert InForest(m, ns);
    }
  }

  /** Every `twitter` node of the tree whose url yields an id contributes it, wherever it sits. */
  lemma {:induction false} PreorderComplete(root: Node, m: Node)
    requires InTree(m, root) && OwnId(m).Some?
    ensures OwnId(m).value in Preorder(root)
    decreases root
  {
    if m != root {
      PreorderAllComplete(root.content.nodes, m);
    }
  }

  lemma {:induction false} PreorderAllComplete(ns: seq<Node>, m: Node)
    requires InForest(m, ns) && OwnId(m).Some?
    ensures OwnId(m).value in PreorderAll(ns)
    decreases ns
  {
    if InTree(m, ns[0]) {
      PreorderComplete(ns[0], m);
    } else {
      PreorderAllComplete(ns[1..], m);
    }
  }

  /** `traverse(node)`: pushes the node's own id, then walks its children left to right. */
  method Traverse(n: Node, ids: seq<string>) returns (out: seq<string>)
    ensures out == ids + Preorder(n)
    decreases n
  {
    out := ids;
    var own := OwnId(n);
    if own.Some? {
      out := out + [own.value];
    }
    if n.content.Present? {
      var kids := n.content.nodes;
      for i := 0 to |kids|
        invariant out == ids + (if own.Some? then [own.value] else []) + PreorderAll(kids[..i])
      {
        PreorderAllSnoc(kids, i);
        out := Traverse(kids[i], out);
      }
      assert kids[..|kids|] == kids;
    }
  }

  /** One more id: deduplicating one id further appends it unless it was already seen. */
  lemma DedupStep(s: seq<string>, i: nat)
    requires i < |s|
    ensures Dedup(s[..i + 1]) == if s[i] in Dedup(s[..i]) then Dedup(s[..i]) else Dedup(s[..i]) + [s[i]]
  {
    var t := s[..i + 1];
    assert t[..|t| - 1] == s[..i];
    assert t[|t| - 1] == s[i];
  }

  /** `findTweetIds(content)` */
  method FindTweetIds(content: Node) returns (ids: seq<string>)
    ensures ids == Dedup(Preorder(content))
  {
    var all := Traverse(content, []);
    var seen: set<string> := {};
    ids := [];
    for i := 0 to |all|
      invariant ids == Dedup(all[..i])
      invariant seen == set x | x in ids
    {
      DedupStep(all, i);
      assert all[i] in seen <==> all[i] in ids;
      if all[i] !in seen {
        seen := seen + {all[i]};
        ids := ids + [all[i]];
      }
    }
    assert all[..|all|] == all;
  }
}
