/**
 * The Open Graph image script: the title font size, which shrinks with
 * the title's length between fixed bounds, and the title drawn for a
 * post whose content yields none.
 */
module OgImage {
  const IndexFontSize: nat := 72
  const MaxFontSize: nat := 64
  const MinFontSize: nat := 36
  /** The numerator of the size rule: a title of this many units per pixel of size. */
  const SizeBudget: nat := 1800

  /**
   * `isIndex ? 72 : Math.min(64, Math.max(36, Math.floor(1800 / title.length)))`.
   * An empty title divides by zero, giving `Infinity`, which the `min` caps at 64.
   */
  function FontSize(isIndex: bool, titleLength: nat): (size: nat)
    ensures isIndex ==> size == IndexFontSize
    ensures !isIndex ==> MinFontSize <= size <= MaxFontSize
  {
    if isIndex then IndexFontSize
    else if titleLength == 0 then MaxFontSize
    else
      var scaled := SizeBudget / titleLength;
      if scaled > MaxFontSize then MaxFontSize
      else if scaled < MinFontSize then MinFontSize
      else scaled
  }

  /** `x / a` is the largest `q` with `a * q <= x`. */
  lemma DivIsFloor(x: nat, a: nat, q: nat)
    requires a >= 1 && a * q <= x
    ensures q <= x / a
  {
    var qa := x / a;
    assert x == a * qa + x % a;
    assert a * q < a * (qa + 1);
  }

  lemma DivAntitone(x: nat, a: nat, b: nat)
    requires 1 <= a <= b
    ensures x / a >= x / b
  {
    var qb := x / b;
    assert b * qb <= x;
    assert a * qb <= b * qb;
    DivIsFloor(x, a, qb);
  }

  /** A longer title never gets a larger size. */
  lemma FontSizeAntitone(a: nat, b: nat)
    requires a <= b
    ensures FontSize(false, a) >= FontSize(false, b)
  {
    if a >= 1 {
      DivAntitone(SizeBudget, a, b);
    }
  }

  /** Titles of at most 28 units get the largest size, and only they. */
  lemma ShortTitlesLargest(n: nat)
    ensures FontSize(false, n) == MaxFontSize <==> n <= 28
  {
    if 1 <= n <= 28 {
      assert n * 64 <= 1800;
      assert SizeBudget / n >= 64;
    } else if n > 28 {
      assert n * 63 >= 29 * 63 > 1800;
      assert SizeBudget / n < 64;
    }
  }

  /** Titles of at least 49 units get the smallest size, and only they. */
  lemma LongTitlesSmallest(n: nat)
    ensures FontSize(false, n) == MinFontSize <==> n >= 49
  {
    if n >= 49 {
      assert n * 37 >= 49 * 37 > 1800;
      assert SizeBudget / n < 37;
    } else if n >= 1 {
      assert n * 37 <= 48 * 37 <= 1800;
      assert SizeBudget / n >= 37;
    }
  }

  /** `extractTitleFromContent(post.content) || 'Untitled'` */
  function ShownTitle(extracted: string): (title: string)
    ensures title != ""
    ensures extracted != "" ==> title == extracted
  {
    if extracted == "" then "Untitled" else extracted
  }

  /** A post with no title is drawn as "Untitled" at the largest size. */
  lemma UntitledSize()
    ensures FontSize(false, |ShownTitle("")|) == MaxFontSize
  {
    ShortTitlesLargest(|"Untitled"|);
  }
}
