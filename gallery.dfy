/**
 * The `gallery` block: its four attributes and their `data-*` codecs, the
 * parse rule and insert command, the published page's `GalleryClient`
 * and the editor's node view with its upload, removal, carousel and
 * column controls.
 */
module Gallery {
  import opened Wrappers
  import opened JsValue
  import opened Text
  import TweetIds
  import EmbedNodes

  /** `GalleryDisplayMode` as declared. */
  const DeclaredModes: set<string> := {"carousel", "grid", "list"}

  // ---------------------------------------------------------------------
  // `parseInt(s, 10)`
  // ---------------------------------------------------------------------

  function DigitValue(c: char): nat
    requires IsDigit(c)
  {
    c as int - '0' as int
  }

  /** The number a run of decimal digits denotes. */
  function DecimalValue(d: string): nat
    requires AllDigits(d)
  {
    if d == [] then 0 else DecimalValue(d[..|d| - 1]) * 10 + DigitValue(d[|d| - 1])
  }

  /**
   * `parseInt(s, 10)`: leading whitespace skipped, an optional sign, then
   * the longest run of digits; `NaN` when there is none.
   */
  function ParseInt(s: string): (v: Value)
    ensures v.NaN? || v.Num?
  {
    var t := TrimStart(s);
    var signLength := if t != [] && (t[0] == '-' || t[0] == '+') then 1 else 0;
    var digits := TweetIds.DigitRun(t, signLength);
    if digits == [] then NaN
    else if signLength == 1 && t[0] == '-' then Num(-(DecimalValue(digits) as int))
    else Num(DecimalValue(digits))
  }

  lemma DigitCharValue(d: nat)
    requires d < 10
    ensures IsDigit(DigitChar(d)) && DigitValue(DigitChar(d)) == d
  {
    assert "0123456789"[d] as int == '0' as int + d by {
      if d == 0 {} else if d == 1 {} else if d == 2 {} else if d == 3 {} else if d == 4 {}
      else if d == 5 {} else if d == 6 {} else if d == 7 {} else if d == 8 {} else {}
    }
  }

  /** Reading back the decimal text of a natural number gives the number. */
  lemma {:induction false} DecimalRoundTrip(n: nat)
    ensures AllDigits(NatToDecimal(n)) && DecimalValue(NatToDecimal(n)) == n
  {
    var s := NatToDecimal(n);
    if n < 10 {
      DigitCharValue(n);
    } else {
      DecimalRoundTrip(n / 10);
      DigitCharValue(n % 10);
      assert s[..|s| - 1] == NatToDecimal(n / 10);
    }
  }

  /** The greedy digit run over a suffix made only of digits is that whole suffix. */
  lemma {:induction false} DigitRunWhole(s: string, from: nat)
    requires from <= |s|
    requires AllDigits(s[from..])
    ensures TweetIds.DigitRun(s, from) == s[from..]
    decreases |s| - from
  {
    if from < |s| {
      assert s[from..][0] == s[from];
      assert s[from + 1..] == s[from..][1..];
      DigitRunWhole(s, from + 1);
      assert s[from..] == [s[from]] + s[from + 1..];
    }
  }

  lemma TrimStartAtDigitOrSign(s: string)
    requires s != [] && (IsDigit(s[0]) || s[0] == '-')
    ensures TrimStart(s) == s
  {
  }

  /** `parseInt` of a run of digits reads exactly those digits. */
  lemma ParseIntUnsigned(d: string)
    requires d != [] && AllDigits(d)
    ensures ParseInt(d) == Num(DecimalValue(d))
  {
    TrimStartAtDigitOrSign(d);
    DigitRunWhole(d, 0);
    assert d[0..] == d;
  }

  lemma DigitRunAfterSign(d: string)
    requires AllDigits(d)
    ensures TweetIds.DigitRun("-" + d, 1) == d
  {
    var s := "-" + d;
    assert s[1..] == d;
    DigitRunWhole(s, 1);
  }

  /** `parseInt` of a minus sign and a run of digits reads the negated digits. */
  lemma ParseIntMinus(d: string)
    requires d != [] && AllDigits(d)
    ensures ParseInt("-" + d) == Num(-(DecimalValue(d) as int))
  {
    TrimStartAtDigitOrSign("-" + d);
    DigitRunAfterSign(d);
  }

  /** `parseInt(String(n), 10) === n` for every integer. */
  lemma ParseIntRoundTrip(n: int)
    ensures ParseInt(IntToDecimal(n)) == Num(n)
  {
    var k: nat := if n < 0 then -n else n;
    DecimalRoundTrip(k);
    if n < 0 {
      ParseIntMinus(NatToDecimal(k));
    } else {
      ParseIntUnsigned(NatToDecimal(k));
    }
  }

  // ---------------------------------------------------------------------
  // Attributes
  // ---------------------------------------------------------------------

  /** The node's attributes, as JSON values. */
  datatype GalleryAttrs = GalleryAttrs(images: Value, displayMode: Value, columns: Value, gridSpans: Value)

  /**
   * The JSON text functions are parameters: `parse` gives `None` where
   * `JSON.parse` throws.
   */
  type JsonParse = string -> Option<Value>
  type JsonStringify = Value -> string

  /** `images` and `gridSpans`: rendered as JSON only when the value is an array. */
  function RenderArray(name: string, v: Value, stringify: JsonStringify): (m: map<string, string>)
    ensures name in m <==> v.Arr?
    ensures v.Arr? ==> m == map[name := stringify(v)]
  {
    if v.Arr? then map[name := stringify(v)] else map[]
  }

  /** `images` and `gridSpans` parsed from an element: `[]` when the attribute is missing, empty or not JSON. */
  function ParseArray(dom: map<string, string>, name: string, parse: JsonParse): (v: Value)
    ensures !HasText(EmbedNodes.GetAttribute(dom, name)) ==> v == Arr([])
  {
    var raw := EmbedNodes.GetAttribute(dom, name);
    if !HasText(raw) then Arr([])
    else match parse(raw.value)
      case None => Arr([])
      case Some(parsed) => parsed
  }

  /** `data-display-mode`: the mode, `'grid'` when unset or empty. */
  function RenderDisplayMode(v: Value): string
  {
    ToJsString(Or(v, Str("grid")))
  }

  function ParseDisplayMode(dom: map<string, string>): (v: Value)
    ensures v.Str? && v.s != ""
  {
    var raw := EmbedNodes.GetAttribute(dom, "data-display-mode");
    if HasText(raw) then Str(raw.value) else Str("grid")
  }

  /** `data-columns`: `String(columns || 3)`. */
  function RenderColumns(v: Value): string
  {
    ToJsString(Or(v, Num(3)))
  }

  /** `cols ? parseInt(cols, 10) : 3` */
  function ParseColumns(dom: map<string, string>): (v: Value)
    ensures v.Num? || v.NaN?
  {
    var raw := EmbedNodes.GetAttribute(dom, "data-columns");
    if HasText(raw) then ParseInt(raw.value) else Num(3)
  }

  /** Every attribute's `renderHTML`, merged. */
  function RenderAttrs(a: GalleryAttrs, stringify: JsonStringify): map<string, string>
  {
    RenderArray("data-images", a.images, stringify) + RenderArray("data-grid-spans", a.gridSpans, stringify)
    + map["data-display-mode" := RenderDisplayMode(a.displayMode), "data-columns" := RenderColumns(a.columns)]
  }

  /**
   * Rendering and parsing back: a display mode that is a string comes back
   * as itself (an unset one as `'grid'`), and a whole number of columns as
   * itself (0, `NaN` or unset as 3).
   */
  lemma DisplayModeRoundTrip(v: Value, dom: map<string, string>)
    requires v.Str? || !Truthy(v)
    requires "data-display-mode" in dom && dom["data-display-mode"] == RenderDisplayMode(v)
    ensures ParseDisplayMode(dom) == Or(v, Str("grid"))
  {
  }

  lemma ColumnsRoundTrip(v: Value, dom: map<string, string>)
    requires v.Num? || !Truthy(v)
    requires "data-columns" in dom && dom["data-columns"] == RenderColumns(v)
    ensures ParseColumns(dom) == Or(v, Num(3))
  {
    var c := Or(v, Num(3));
    ParseIntRoundTrip(c.n);
    assert IntToDecimal(c.n) != [] by {
      if c.n < 0 {} else {}
    }
  }

  lemma ScalarAttrsRoundTrip(a: GalleryAttrs, stringify: JsonStringify)
    requires a.displayMode.Str? || !Truthy(a.displayMode)
    requires a.columns.Num? || !Truthy(a.columns)
    ensures ParseDisplayMode(RenderAttrs(a, stringify)) == Or(a.displayMode, Str("grid"))
    ensures ParseColumns(RenderAttrs(a, stringify)) == Or(a.columns, Num(3))
  {
    var m := RenderAttrs(a, stringify);
    assert m["data-display-mode"] == RenderDisplayMode(a.displayMode);
    assert m["data-columns"] == RenderColumns(a.columns);
    DisplayModeRoundTrip(a.displayMode, m);
    ColumnsRoundTrip(a.columns, m);
  }

  /** An array of images survives rendering and parsing, given JSON text that reads back as written. */
  lemma ImagesRoundTrip(images: Value, stringify: JsonStringify, parse: JsonParse)
    requires images.Arr?
    requires stringify(images) != "" && parse(stringify(images)) == Some(images)
    ensures ParseArray(RenderArray("data-images", images, stringify), "data-images", parse) == images
  {
  }

  /**
   * The element parse rule's `getAttrs`: rejected without a `data-images`
   * that parses to a non-empty array; `data-grid-spans` that does not parse
   * falls back to `[]` without rejecting the element.
   */
  function GetAttrs(dom: map<string, string>, parse: JsonParse): (r: Option<GalleryAttrs>)
    ensures r.None? <==> !HasImages(dom, parse)
    ensures r.Some? ==> r.value.images == parse(dom["data-images"]).value
    ensures r.Some? ==> r.value.displayMode == ParseDisplayMode(dom)
    ensures r.Some? ==> r.value.columns == ParseColumns(dom)
    ensures r.Some? ==> r.value.gridSpans == ParseArray(dom, "data-grid-spans", parse)
  {
    var raw := EmbedNodes.GetAttribute(dom, "data-images");
    if !HasText(raw) then None
    else match parse(raw.value)
      case None => None
      case Some(images) =>
        if !images.Arr? || |images.items| == 0 then None
        else
          var columnsText := EmbedNodes.GetAttribute(dom, "data-columns");
          ParseSingleDigit('3');
          assert "3" == ['3'];
          Some(GalleryAttrs(images, ParseDisplayMode(dom),
                            ParseInt(if HasText(columnsText) then columnsText.value else "3"),
                            ParseArray(dom, "data-grid-spans", parse)))
  }

  /** A single digit reads as its value; the default text `"3"` reads as 3. */
  lemma ParseSingleDigit(c: char)
    requires IsDigit(c)
    ensures ParseInt([c]) == Num(DigitValue(c))
  {
    var s := [c];
    assert !IsWhitespace(s[0]);
    assert TrimStart(s) == s;
    var run := TweetIds.DigitRun(s, 0);
    assert |run| == 1;
    assert DecimalValue(run) == DigitValue(c) by {
      assert run[..0] == [];
    }
  }

  /** `data-images` is present, not empty, and parses to a non-empty array. */
  predicate HasImages(dom: map<string, string>, parse: JsonParse)
  {
    "data-images" in dom && dom["data-images"] != ""
    && var images := parse(dom["data-images"]);
    images.Some? && images.value.Arr? && |images.value.items| > 0
  }

  /** `setGallery(options)`: declined unless `images` is an array; falsy options get their defaults. */
  function SetGallery(options: GalleryAttrs): (r: Option<GalleryAttrs>)
    ensures r.None? <==> !options.images.Arr?
    ensures r.Some? ==> r.value.images == options.images
    ensures r.Some? ==> r.value.displayMode == (if Truthy(options.displayMode) then options.displayMode else Str("grid"))
    ensures r.Some? ==> r.value.columns == (if Truthy(options.columns) then options.columns else Num(3))
    ensures r.Some? ==> r.value.gridSpans == (if Truthy(options.gridSpans) then options.gridSpans else Arr([]))
  {
    if !options.images.Arr? then None
    else Some(GalleryAttrs(options.images, Or(options.displayMode, Str("grid")), Or(options.columns, Num(3)),
                           Or(options.gridSpans, Arr([]))))
  }

  /** Asking for 0 columns gives the default 3. */
  lemma ZeroColumnsDefault(images: seq<Value>)
    ensures SetGallery(GalleryAttrs(Arr(images), Undef, Num(0), Undef)) ==
      Some(GalleryAttrs(Arr(images), Str("grid"), Num(3), Arr([])))
  {
  }

  // ---------------------------------------------------------------------
  // What is drawn.
  // ---------------------------------------------------------------------

  const DefaultSpan: Value := Obj([("col", Num(1)), ("row", Num(1))])

  /** `gridSpans[index] || {col: 1, row: 1}` */
  function GetSpan(spans: seq<Value>, index: nat): (span: Value)
    ensures index < |spans| && Truthy(spans[index]) ==> span == spans[index]
    ensures index >= |spans| ==> span == DefaultSpan
  {
    if index < |spans| then Or(spans[index], DefaultSpan) else DefaultSpan
  }

  datatype GalleryView =
    | NoGallery                                         // nothing (page) or the upload zone (editor)
    | CarouselView(src: string, position: nat, count: nat)
    | GridView(columns: Value, items: seq<(string, Value)>)
    | MasonryView(columns: Value, images: seq<string>)
    | ListView(images: seq<string>)

  /** `GalleryClient`'s props; `None` stands for `undefined`, which the destructuring defaults replace. */
  datatype ClientProps = ClientProps(images: seq<string>, displayMode: Option<string>, columns: Option<Value>, gridSpans: Option<seq<Value>>)

  /** The published gallery with carousel position `index`. */
  function ClientView(props: ClientProps, index: nat): (v: GalleryView)
    requires props.images != [] ==> index < |props.images|
    ensures props.images == [] <==> v.NoGallery?
    ensures v.CarouselView? <==> props.images != [] && props.displayMode.GetOr("grid") == "carousel"
    ensures v.CarouselView? ==> v == CarouselView(props.images[index], index + 1, |props.images|)
    ensures v.GridView? ==> v.columns == props.columns.GetOr(Num(3)) && |v.items| == |props.images|
    ensures v.GridView? ==> forall i :: 0 <= i < |props.images| ==>
      v.items[i] == (props.images[i], GetSpan(props.gridSpans.GetOr([]), i))
    ensures !v.MasonryView?
    ensures v.ListView? ==> v.images == props.images
  {
    var mode := props.displayMode.GetOr("grid");
    var spans := props.gridSpans.GetOr([]);
    if props.images == [] then NoGallery
    else if mode == "carousel" then CarouselView(props.images[index], index + 1, |props.images|)
    else if mode == "grid" then
      GridView(props.columns.GetOr(Num(3)),
               seq(|props.images|, i requires 0 <= i < |props.images| => (props.images[i], GetSpan(spans, i))))
    else ListView(props.images)
  }

  /** Any mode other than carousel and grid, the declared `list` included, is drawn as a list. */
  lemma OtherModesAreLists(props: ClientProps, index: nat)
    requires props.images != [] && index < |props.images|
    requires props.displayMode.Some? && props.displayMode.value !in {"carousel", "grid"}
    ensures ClientView(props, index) == ListView(props.images)
  {
  }

  /** `(i + 1) % n` */
  function NextIndex(i: nat, n: nat): (j: nat)
    requires i < n
    ensures j < n && j == (if i + 1 == n then 0 else i + 1)
  {
    (i + 1) % n
  }

  /** `(i - 1 + n) % n` */
  function PrevIndex(i: nat, n: nat): (j: nat)
    requires i < n
    ensures j < n && j == (if i == 0 then n - 1 else i - 1)
  {
    (i - 1 + n) % n
  }

  /** Previous undoes next, and next undoes previous. */
  lemma PrevUndoesNext(i: nat, n: nat)
    requires i < n
    ensures PrevIndex(NextIndex(i, n), n) == i && NextIndex(PrevIndex(i, n), n) == i
  {
  }

  /** The carousel state of the published gallery. */
  class Carousel {
    const images: seq<string>
    var index: nat

    predicate Valid()
      reads this
    {
      images != [] ==> index < |images|
    }

    constructor(imgs: seq<string>)
      ensures images == imgs && index == 0 && Valid()
    {
      images := imgs;
      index := 0;
    }

    /** The next button; it exists only for a non-empty gallery. */
    method Next()
      requires Valid() && images != []
      modifies this
      ensures Valid() && index == NextIndex(old(index), |images|)
    {
      index := (index + 1) % |images|;
    }

    method Prev()
      requires Valid() && images != []
      modifies this
      ensures Valid() && index == PrevIndex(old(index), |images|)
    {
      index := (index - 1 + |images|) % |images|;
    }
  }

  // ---------------------------------------------------------------------
  // The editor's node view.
  // ---------------------------------------------------------------------

  /** `images.filter((_, i) => i !== k)` */
  function Without(images: seq<string>, k: nat): (r: seq<string>)
    ensures k < |images| ==> r == images[..k] + images[k + 1..]
    ensures k >= |images| ==> r == images
  {
    if images == [] then []
    else if k == 0 then images[1..]
    else [images[0]] + Without(images[1..], k - 1)
  }

  /** `Math.max(1, Math.min(6, c))`, which keeps `NaN`. */
  function ClampColumns(c: Value): (r: Value)
    requires c.Num? || c.NaN?
    ensures c.NaN? ==> r.NaN?
    ensures c.Num? ==> r.Num? && 1 <= r.n <= 6
    ensures c.Num? && 1 <= c.n <= 6 ==> r == c
  {
    match c
    case Num(n) => Num(if n < 1 then 1 else if n > 6 then 6 else n)
    case NaN => NaN
  }

  /** A dropped file: its name and MIME type. */
  datatype DroppedFile = DroppedFile(name: string, mimeType: string)

  /** The files of a drop handed to the uploader: the images, in drop order. */
  function ImageFiles(files: seq<DroppedFile>): (r: seq<DroppedFile>)
    ensures |r| <= |files|
    ensures forall f :: f in r <==> f in files && StartsWith(f.mimeType, "image/")
  {
    if files == [] then []
    else (if StartsWith(files[0].mimeType, "image/") then [files[0]] else []) + ImageFiles(files[1..])
  }

  /**
   * What the editor draws for images, a display mode and a column count
   * (defaults already applied): the upload zone for no images, and a
   * masonry layout besides the page's three. Its grid gives every image
   * one cell, as the default span does.
   */
  function EditorView(images: seq<string>, mode: Value, columns: Value, currentIndex: nat): (v: GalleryView)
    requires images != [] ==> currentIndex < |images|
    ensures images == [] <==> v.NoGallery?
    ensures v.CarouselView? <==> images != [] && mode == Str("carousel")
    ensures v.CarouselView? ==> v == CarouselView(images[currentIndex], currentIndex + 1, |images|)
    ensures v.MasonryView? <==> images != [] && mode == Str("masonry")
    ensures v.GridView? ==> |v.items| == |images| && forall i :: 0 <= i < |images| ==> v.items[i] == (images[i], DefaultSpan)
  {
    if images == [] then NoGallery
    else if mode == Str("carousel") then CarouselView(images[currentIndex], currentIndex + 1, |images|)
    else if mode == Str("masonry") then MasonryView(columns, images)
    else if mode == Str("grid") then
      GridView(columns, seq(|images|, i requires 0 <= i < |images| => (images[i], DefaultSpan)))
    else ListView(images)
  }

  /**
   * The editor offers a masonry layout that the published page does not
   * have: the same gallery is masonry in the editor and a list on the page.
   */
  lemma MasonryPublishedAsList(images: seq<string>, columns: Value, index: nat)
    requires images != [] && index < |images|
    ensures EditorView(images, Str("masonry"), columns, index).MasonryView?
    ensures ClientView(ClientProps(images, Some("masonry"), Some(columns), None), index) == ListView(images)
  {
  }

  /** On the modes both offer, with no spans set, the editor and the page draw the same layout. */
  lemma EditorMatchesPage(images: seq<string>, mode: string, columns: Value, index: nat)
    requires images != [] && index < |images|
    requires mode != "masonry"
    ensures EditorView(images, Str(mode), columns, index) == ClientView(ClientProps(images, Some(mode), Some(columns), None), index)
  {
  }

  class GalleryEditor {
    /** The node's attributes: `images` read as a list, the other two as stored. */
    var images: seq<string>
    var displayMode: Value
    var columns: Value
    var currentIndex: nat

    /** The carousel position points at an image, or is 0 when there is none. */
    predicate Valid()
      reads this
    {
      currentIndex < |images| || currentIndex == 0
    }

    /** Mounting on a node: `images` that are not an array read as none; the index starts at 0. */
    constructor(attrs: GalleryAttrs)
      ensures images == (if attrs.images.Arr? then ImageUrls(attrs.images.items) else [])
      ensures displayMode == attrs.displayMode && columns == attrs.columns
      ensures currentIndex == 0 && Valid()
    {
      images := if attrs.images.Arr? then ImageUrls(attrs.images.items) else [];
      displayMode := attrs.displayMode;
      columns := attrs.columns;
      currentIndex := 0;
    }

    /** `displayMode || 'grid'` */
    function ModeShown(): Value
      reads this
    {
      Or(displayMode, Str("grid"))
    }

    /** `columns || 3` */
    function ShownColumns(): Value
      reads this
    {
      Or(columns, Num(3))
    }

    function View(): (v: GalleryView)
      requires Valid()
      reads this
      ensures v == EditorView(images, ModeShown(), ShownColumns(), currentIndex)
    {
      EditorView(images, ModeShown(), ShownColumns(), currentIndex)
    }

    /** `upload-success` with a url in the response: the url joins the end of the list. */
    method UploadSucceeded(url: string)
      requires Valid()
      modifies this
      ensures images == old(images) + [url]
      ensures currentIndex == old(currentIndex) && displayMode == old(displayMode) && columns == old(columns)
      ensures Valid()
    {
      images := images + [url];
    }

    /** `handleRemoveImage(k)`, once the delete request has ended however it ended. */
    method RemoveImage(k: nat)
      requires Valid()
      modifies this
      ensures images == Without(old(images), k)
      ensures currentIndex == (if old(currentIndex) >= |images| && |images| > 0 then |images| - 1 else old(currentIndex))
      ensures displayMode == old(displayMode) && columns == old(columns)
      ensures Valid()
    {
      var newImages := Without(images, k);
      images := newImages;
      if currentIndex >= |newImages| && |newImages| > 0 {
        currentIndex := |newImages| - 1;
      }
    }

    /** The next button, drawn only for a carousel with images. */
    method NextImage()
      requires Valid() && images != []
      modifies this
      ensures images == old(images) && displayMode == old(displayMode) && columns == old(columns)
      ensures currentIndex == NextIndex(old(currentIndex), |images|)
      ensures Valid()
    {
      currentIndex := (currentIndex + 1) % |images|;
    }

    method PrevImage()
      requires Valid() && images != []
      modifies this
      ensures images == old(images) && displayMode == old(displayMode) && columns == old(columns)
      ensures currentIndex == PrevIndex(old(currentIndex), |images|)
      ensures Valid()
    {
      currentIndex := (currentIndex - 1 + |images|) % |images|;
    }

    /** The columns input: `parseInt` of its text, clamped to 1..6 (`NaN` stays, and shows as 3). */
    method ChangeColumns(input: string)
      requires Valid()
      modifies this
      ensures columns == ClampColumns(ParseInt(input))
      ensures images == old(images) && currentIndex == old(currentIndex) && displayMode == old(displayMode)
      ensures ShownColumns().Num? && 1 <= ShownColumns().n <= 6
      ensures Valid()
    {
      columns := ClampColumns(ParseInt(input));
    }

    method ChangeDisplayMode(mode: string)
      requires Valid()
      modifies this
      ensures displayMode == Str(mode)
      ensures images == old(images) && currentIndex == old(currentIndex) && columns == old(columns)
      ensures Valid()
    {
      displayMode := Str(mode);
    }
  }

  /** `node.attrs.images as string[]`: the string entries, in order. */
  function ImageUrls(items: seq<Value>): (urls: seq<string>)
    ensures |urls| <= |items|
    ensures forall u :: u in urls <==> Str(u) in items
  {
    if items == [] then []
    else (if items[0].Str? then [items[0].s] else []) + ImageUrls(items[1..])
  }
}
