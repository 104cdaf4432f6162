/**
 * Image windows of `ImagesBatch` (dataset/batch_image.py): where an image
 * sits on a background (`_calc_origin`), cutting a window out of an image
 * (`_crop_`), pasting an image onto a copy of a background
 * (`_put_on_background_`) and fitting a transformed image back into the
 * original's shape (`_preserve_shape`).
 *
 * An image is a two-dimensional array of pixels (rows x columns); a pixel
 * may itself be a vector of channel values, which these operations move
 * about without looking inside. Numpy's basic slicing is modelled exactly:
 * a negative bound counts from the end of the axis and both bounds are
 * clamped to it.
 */
module ImageGeometry {
  import opened Wrappers

  /** A position or a window size (row, column); either may be negative. */
  datatype Pair = Pair(row: int, col: int)

  /** The shape of an image. */
  datatype Dims = Dims(rows: nat, cols: nat)

  function DimsOf<P>(a: array2<P>): Dims {
    Dims(a.Length0, a.Length1)
  }

  /** The `origin` argument: `'top_left'`, `'center'`, an explicit
    * (row, column), or any other string (`'random'` aside). */
  datatype Origin = TopLeft | Center | At(at: Pair) | Named(name: string)

  /** `offset` is the start of a segment of length `inner` centred in one of
    * length `outer`: the margin after it is the margin before it or one more.
    * A segment longer than `outer` starts at 0. */
  predicate Centered(inner: int, outer: int, offset: int) {
    if inner <= outer then 0 <= offset <= outer - inner - offset <= offset + 1
    else offset == 0
  }

  /** The ASCII whitespace Python's `int` strips from a string. */
  predicate IsSpace(ch: char) {
    9 <= ch as int <= 13 || 28 <= ch as int <= 32
  }

  predicate IsDigit(ch: char) {
    '0' <= ch <= '9'
  }

  function TrimLeft(s: string): (t: string)
    ensures |t| <= |s| && t == s[|s| - |t|..]
    ensures t != [] ==> !IsSpace(t[0])
  {
    if s != [] && IsSpace(s[0]) then TrimLeft(s[1..]) else s
  }

  function TrimRight(s: string): (t: string)
    ensures |t| <= |s| && t == s[..|t|]
    ensures t != [] ==> !IsSpace(t[|t| - 1])
  {
    if s != [] && IsSpace(s[|s| - 1]) then TrimRight(s[..|s| - 1]) else s
  }

  /** Decimal digits, with single underscores allowed between two digits. */
  predicate DigitRun(s: string) {
    s != [] && IsDigit(s[0]) &&
    forall i :: 0 <= i < |s| ==> IsDigit(s[i]) || (s[i] == '_' && i + 1 < |s| && IsDigit(s[i + 1]))
  }

  /** A string Python's `int` accepts in base 10: surrounding whitespace, an
    * optional sign, then a digit run. */
  predicate IntLiteral(s: string) {
    var core := TrimRight(TrimLeft(s));
    if core != [] && (core[0] == '+' || core[0] == '-') then DigitRun(core[1..]) else DigitRun(core)
  }

  /** What an unknown string origin ends in. `np.asarray(origin, dtype=int)`
    * raises `ValueError` unless the string reads as an integer; then it
    * yields a 0-d array, and `origin[0]` in every caller (lines 441 and 468)
    * raises `IndexError`. */
  function OriginError(name: string): Error {
    if IntLiteral(name) then IndexError else ValueError
  }

  /** `_calc_origin` (lines 352-360) without the `'random'` mode: the upper-left
    * corner of an image of shape `image` placed on a background of shape
    * `background`, or the error an unknown string leads to. */
  function CalcOrigin(image: Pair, origin: Origin, background: Dims): (r: Result<Pair>)
    ensures r.Err? <==> origin.Named?
    ensures r.Err? ==> r.error == OriginError(origin.name)
    ensures origin.TopLeft? ==> r == Ok(Pair(0, 0))
    ensures origin.At? ==> r == Ok(origin.at)
    ensures origin.Center? ==> (r.Ok?
      && Centered(image.row, background.rows, r.value.row)
      && Centered(image.col, background.cols, r.value.col))
  {
    match origin
    case TopLeft => Ok(Pair(0, 0))
    case Center => Ok(Pair(Max(0, background.rows - image.row) / 2, Max(0, background.cols - image.col) / 2))
    case At(p) => Ok(p)
    case Named(name) => Err(OriginError(name))
  }

  /** A string that reads as an integer fails with `IndexError`. */
  lemma DigitOrigin(image: Pair, background: Dims)
    ensures CalcOrigin(image, Named(" -12"), background) == Err(IndexError)
  {
    TrimMinusTwelve();
    assert "-12"[0] == '-' && "-12"[1..] == "12";
    TwelveDigits();
  }

  lemma TrimMinusTwelve()
    ensures TrimRight(TrimLeft(" -12")) == "-12"
  {
    assert " -12"[1..] == "-12";
    assert TrimLeft(" -12") == TrimLeft("-12") == "-12";
    assert "-12"[2] == '2';
  }

  lemma TwelveDigits()
    ensures DigitRun("12")
  {
    assert "12"[0] == '1' && "12"[1] == '2';
    assert forall i :: 0 <= i < |"12"| ==> IsDigit("12"[i]);
  }

  /** Any other unknown string fails with `ValueError`. */
  lemma WordOrigin(image: Pair, background: Dims)
    ensures CalcOrigin(image, Named("left"), background) == Err(ValueError)
  {
    assert TrimLeft("left") == "left";
    assert TrimRight("left") == "left";
    assert !IsDigit("left"[0]);
  }

  /** A run of `len` consecutive indices starting at `lo`. */
  datatype Span = Span(lo: nat, len: nat) {
    predicate Has(k: int) {
      lo <= k < lo + len
    }
  }

  /** A rectangle of an image: a span of rows and a span of columns. */
  datatype Window = Window(rows: Span, cols: Span) {
    predicate Has(i: int, j: int) {
      rows.Has(i) && cols.Has(j)
    }
  }

  /** A slice bound on an axis of length `n`: a negative bound counts from the
    * end, and the result is clamped to [0, n]. */
  function SliceBound(x: int, n: nat): (b: nat)
    ensures b <= n
    ensures 0 <= x <= n ==> b == x
    ensures x >= n ==> b == n
    ensures x < 0 && 0 <= x + n ==> b == x + n
    ensures x + n < 0 ==> b == 0
  {
    if x < 0 then (if x + n < 0 then 0 else x + n)
    else if x > n then n
    else x
  }

  /** The indices `start:stop` selects on an axis of length `n`; a stop
    * before the start selects nothing. */
  function Slice(start: int, stop: int, n: nat): (s: Span)
    ensures s.lo + s.len <= n
    ensures 0 <= start <= n && start <= stop ==> s == Span(start, Min(stop, n) - start)
  {
    var a, b := SliceBound(start, n), SliceBound(stop, n);
    Span(a, if b < a then 0 else b - a)
  }

  /** An index is selected by `start:stop` exactly when it lies on the axis,
    * at or after the normalised start and before the normalised stop. */
  lemma SliceSelects(start: int, stop: int, n: nat, k: int)
    ensures Slice(start, stop, n).Has(k) <==> 0 <= k < n && SliceBound(start, n) <= k < SliceBound(stop, n)
  {
  }

  /** The window `_crop_` (lines 436-443) takes from an image of shape
    * `image`: the origin of a box of size `shape`, the shrinking of the box
    * to the image when it overhangs on both axes, and the two slices. */
  function CropWindow(image: Dims, origin: Origin, shape: Pair): (r: Result<Window>)
    ensures r.Err? <==> origin.Named?
    ensures r.Err? ==> r.error == OriginError(origin.name)
    ensures r.Ok? ==> (r.value.rows.lo + r.value.rows.len <= image.rows
      && r.value.cols.lo + r.value.cols.len <= image.cols)
    ensures origin.TopLeft? ==> r.Ok? && r.value.rows.lo == 0 && r.value.cols.lo == 0
  {
    match CalcOrigin(shape, origin, image)
    case Err(e) => Err(e)
    case Ok(o) =>
      var size :=
        if o.row + shape.row > image.rows && o.col + shape.col > image.cols
        then Pair(image.rows - o.row, image.cols - o.col)
        else shape;
      Ok(Window(Slice(o.row, o.row + size.row, image.rows), Slice(o.col, o.col + size.col, image.cols)))
  }

  /** For an origin inside the image and a box of non-negative size, each
    * extent is `min(shape, image_shape - origin)`, whether or not the box
    * was shrunk. */
  lemma CropExtent(image: Dims, o: Pair, shape: Pair)
    requires 0 <= o.row <= image.rows && 0 <= o.col <= image.cols
    requires 0 <= shape.row && 0 <= shape.col
    ensures CropWindow(image, At(o), shape)
      == Ok(Window(Span(o.row, Min(shape.row, image.rows - o.row)), Span(o.col, Min(shape.col, image.cols - o.col))))
  {
  }

  /** A centred box no larger than the image is cut out whole, with margins
    * that differ by at most one pixel on each axis. */
  lemma CropCenter(image: Dims, shape: Pair)
    requires 0 <= shape.row <= image.rows && 0 <= shape.col <= image.cols
    ensures var r := CropWindow(image, Center, shape);
      r.Ok? && r.value.rows.len == shape.row && r.value.cols.len == shape.col
      && Centered(shape.row, image.rows, r.value.rows.lo)
      && Centered(shape.col, image.cols, r.value.cols.lo)
  {
    var o := CalcOrigin(shape, Center, image).value;
    CropExtent(image, o, shape);
  }

  /** `_crop_` (lines 436-443): a fresh copy of the window `CropWindow`
    * selects; the image itself is not modified. */
  method Crop<P>(image: array2<P>, origin: Origin, shape: Pair) returns (r: Result<array2<P>>)
    ensures r.Err? <==> origin.Named?
    ensures r.Err? ==> r.error == OriginError(origin.name)
    ensures r.Ok? ==> (CropWindow(DimsOf(image), origin, shape).Ok?
      && var w := CropWindow(DimsOf(image), origin, shape).value;
      fresh(r.value) && DimsOf(r.value) == Dims(w.rows.len, w.cols.len)
      && forall i, j | 0 <= i < w.rows.len && 0 <= j < w.cols.len :: r.value[i, j] == image[w.rows.lo + i, w.cols.lo + j])
  {
    match CropWindow(DimsOf(image), origin, shape)
    case Err(e) =>
      r := Err(e);
    case Ok(w) =>
      var a := new P[w.rows.len, w.cols.len]((i, j) requires 0 <= i < w.rows.len && 0 <= j < w.cols.len reads image =>
        image[w.rows.lo + i, w.cols.lo + j]);
      r := Ok(a);
  }

  /** Numpy assignment broadcasting on one axis: a source extent fits a
    * target extent when they are equal or the source has extent 1. */
  predicate Broadcasts(source: nat, target: nat) {
    source == target || source == 1
  }

  /** The source index that fills target offset `k` along an axis whose
    * source extent is `len` (an extent of 1 is repeated). */
  function From(k: nat, len: nat): nat {
    if len == 1 then 0 else k
  }

  /** Where `_put_on_background_` writes: the window of the background, and
    * the shape of the image after it was cropped to the background. */
  datatype Paste = Paste(target: Window, source: Dims)

  /** `_put_on_background_` (lines 463-473) on shapes: the origin, then
    * `PlanAt` it. */
  function PastePlan(image: Dims, origin: Origin, background: Dims): (r: Result<Paste>)
    ensures origin.Named? ==> r == Err(OriginError(origin.name))
    ensures !origin.Named? && r.Err? ==> r.error == ValueError
  {
    match CalcOrigin(Pair(image.rows, image.cols), origin, background)
    case Err(e) => Err(e)
    case Ok(o) => PlanAt(image, o, background)
  }

  /** Line 466 on shapes: the image cropped from its upper-left corner to
    * the part of the background from `o` on. */
  function FitDims(image: Dims, o: Pair, background: Dims): (d: Dims)
    ensures d.rows <= image.rows && d.cols <= image.cols
  {
    var w := CropWindow(image, TopLeft, Pair(background.rows - o.row, background.cols - o.col)).value;
    Dims(w.rows.len, w.cols.len)
  }

  /** Lines 466-472 on shapes, for the origin `o`: the crop of the image
    * (`FitDims`), the window `[o, o + image)` sliced on the background, and
    * the broadcasting check of the slice assignment, which raises
    * `ValueError`. */
  function PlanAt(image: Dims, o: Pair, background: Dims): (r: Result<Paste>)
    ensures r.Err? ==> r.error == ValueError
    ensures r.Ok? ==> (r.value.source.rows <= image.rows && r.value.source.cols <= image.cols
      && r.value.target.rows.lo + r.value.target.rows.len <= background.rows
      && r.value.target.cols.lo + r.value.target.cols.len <= background.cols
      && Broadcasts(r.value.source.rows, r.value.target.rows.len)
      && Broadcasts(r.value.source.cols, r.value.target.cols.len))
  {
    var cropped := FitDims(image, o, background);
    var target := Window(Slice(o.row, o.row + image.rows, background.rows), Slice(o.col, o.col + image.cols, background.cols));
    if Broadcasts(cropped.rows, target.rows.len) && Broadcasts(cropped.cols, target.cols.len)
    then Ok(Paste(target, cropped))
    else Err(ValueError)
  }

  /** An origin inside the background never fails: the window is
    * `[origin, origin + image)` clipped to the background, and the cropped
    * image fills it exactly. */
  lemma PasteInside(image: Dims, o: Pair, background: Dims)
    requires 0 <= o.row <= background.rows && 0 <= o.col <= background.cols
    ensures var w := Window(Span(o.row, Min(image.rows, background.rows - o.row)), Span(o.col, Min(image.cols, background.cols - o.col)));
      PastePlan(image, At(o), background) == Ok(Paste(w, Dims(w.rows.len, w.cols.len)))
  {
    CropExtent(image, Pair(0, 0), Pair(background.rows - o.row, background.cols - o.col));
  }

  /** Pasting at the upper-left corner or at the centre never fails; a
    * centred image sits with margins differing by at most one pixel. */
  lemma PasteKnownModes(image: Dims, background: Dims)
    ensures PastePlan(image, TopLeft, background).Ok?
    ensures var r := PastePlan(image, Center, background);
      r.Ok? && Centered(image.rows, background.rows, r.value.target.rows.lo)
      && Centered(image.cols, background.cols, r.value.target.cols.lo)
  {
    PasteInside(image, Pair(0, 0), background);
    var o := CalcOrigin(Pair(image.rows, image.cols), Center, background).value;
    PasteInside(image, o, background);
  }

  /** An origin below the background with an image taller than the overhang:
    * the window is empty but the crop keeps four rows, so the assignment
    * cannot broadcast and `ValueError` is raised. */
  lemma PasteBelowFails()
    ensures PastePlan(Dims(5, 5), At(Pair(3, 0)), Dims(2, 2)) == Err(ValueError)
  {
    var crop := CropWindow(Dims(5, 5), TopLeft, Pair(-1, 2)).value;
    assert crop.rows.len == 4;
  }

  /** Inside the window of `p`, `canvas` holds the pixels of `image` read
    * from offset `at` (a source extent of 1 repeated across the window). */
  ghost predicate Shows<P>(canvas: array2<P>, image: array2<P>, at: Dims, p: Paste)
    reads canvas, image
  {
    && p.target.rows.lo + p.target.rows.len <= canvas.Length0
    && p.target.cols.lo + p.target.cols.len <= canvas.Length1
    && at.rows + p.source.rows <= image.Length0
    && at.cols + p.source.cols <= image.Length1
    && Broadcasts(p.source.rows, p.target.rows.len)
    && Broadcasts(p.source.cols, p.target.cols.len)
    && forall i, j | p.target.Has(i, j) ::
         canvas[i, j] == image[at.rows + From(i - p.target.rows.lo, p.source.rows), at.cols + From(j - p.target.cols.lo, p.source.cols)]
  }

  /** `source` is the part of `image` from offset `at` on. */
  ghost predicate CutFrom<P>(source: array2<P>, image: array2<P>, at: Dims)
    reads source, image
  {
    && at.rows + source.Length0 <= image.Length0
    && at.cols + source.Length1 <= image.Length1
    && forall x, y | 0 <= x < source.Length0 && 0 <= y < source.Length1 :: source[x, y] == image[at.rows + x, at.cols + y]
  }

  /** A window that shows a crop of `image` shows `image` itself, read from
    * the crop's corner. */
  lemma ShowsThroughCrop<P>(canvas: array2<P>, source: array2<P>, image: array2<P>, at: Dims, p: Paste)
    requires Shows(canvas, source, Dims(0, 0), p)
    requires CutFrom(source, image, at)
    ensures Shows(canvas, image, at, p)
  {
  }

  /** `canvas` has the background's shape and its pixels outside the window. */
  ghost predicate KeepsOutside<P>(canvas: array2<P>, background: array2<P>, p: Paste)
    reads canvas, background
  {
    && DimsOf(canvas) == DimsOf(background)
    && forall i, j | 0 <= i < canvas.Length0 && 0 <= j < canvas.Length1 && !p.target.Has(i, j) ::
         canvas[i, j] == background[i, j]
  }

  /** The slice assignment `new_image[rows, columns] = image` (line 472). */
  method WriteWindow<P>(canvas: array2<P>, source: array2<P>, p: Paste)
    requires canvas != source && DimsOf(source) == p.source
    requires p.target.rows.lo + p.target.rows.len <= canvas.Length0
    requires p.target.cols.lo + p.target.cols.len <= canvas.Length1
    requires Broadcasts(p.source.rows, p.target.rows.len) && Broadcasts(p.source.cols, p.target.cols.len)
    modifies canvas
    ensures Shows(canvas, source, Dims(0, 0), p)
    ensures forall i, j | 0 <= i < canvas.Length0 && 0 <= j < canvas.Length1 && !p.target.Has(i, j) ::
      canvas[i, j] == old(canvas[i, j])
  {
    var t := p.target;
    var a := 0;
    while a < t.rows.len
      invariant 0 <= a <= t.rows.len
      invariant forall i, j | 0 <= i < canvas.Length0 && 0 <= j < canvas.Length1 ::
        canvas[i, j] ==
          if t.Has(i, j) && i < t.rows.lo + a
          then source[From(i - t.rows.lo, p.source.rows), From(j - t.cols.lo, p.source.cols)]
          else old(canvas[i, j])
    {
      var b := 0;
      while b < t.cols.len
        invariant 0 <= b <= t.cols.len
        invariant forall i, j | 0 <= i < canvas.Length0 && 0 <= j < canvas.Length1 ::
          canvas[i, j] ==
            if t.Has(i, j) && (i < t.rows.lo + a || (i == t.rows.lo + a && j < t.cols.lo + b))
            then source[From(i - t.rows.lo, p.source.rows), From(j - t.cols.lo, p.source.cols)]
            else old(canvas[i, j])
      {
        canvas[t.rows.lo + a, t.cols.lo + b] := source[From(a, p.source.rows), From(b, p.source.cols)];
        b := b + 1;
      }
      a := a + 1;
    }
  }

  /** Lines 471-472: a copy of the background with the window written from
    * `source`, the image cropped from its upper-left corner. */
  method Paint<P>(background: array2<P>, image: array2<P>, source: array2<P>, p: Paste) returns (canvas: array2<P>)
    requires DimsOf(source) == p.source
    requires p.target.rows.lo + p.target.rows.len <= background.Length0
    requires p.target.cols.lo + p.target.cols.len <= background.Length1
    requires Broadcasts(p.source.rows, p.target.rows.len) && Broadcasts(p.source.cols, p.target.cols.len)
    requires CutFrom(source, image, Dims(0, 0))
    ensures fresh(canvas) && Shows(canvas, image, Dims(0, 0), p) && KeepsOutside(canvas, background, p)
  {
    canvas := new P[background.Length0, background.Length1](
      (i, j) requires 0 <= i < background.Length0 && 0 <= j < background.Length1 reads background => background[i, j]);
    WriteWindow(canvas, source, p);
    ShowsThroughCrop(canvas, source, image, Dims(0, 0), p);
  }

  /** `_put_on_background_` (lines 463-473): a copy of the background whose
    * window holds the image's pixels and whose other pixels are the
    * background's; the background itself is not modified. */
  method PutOnBackground<P>(image: array2<P>, background: array2<P>, origin: Origin) returns (r: Result<array2<P>>)
    ensures var plan := PastePlan(DimsOf(image), origin, DimsOf(background));
      (r.Err? <==> plan.Err?) && (r.Err? ==> r.error == plan.error)
    ensures r.Ok? ==> (PastePlan(DimsOf(image), origin, DimsOf(background)).Ok? && fresh(r.value)
      && Shows(r.value, image, Dims(0, 0), PastePlan(DimsOf(image), origin, DimsOf(background)).value)
      && KeepsOutside(r.value, background, PastePlan(DimsOf(image), origin, DimsOf(background)).value))
  {
    var o := CalcOrigin(Pair(image.Length0, image.Length1), origin, DimsOf(background));
    if o.Err? {
      return Err(o.error);
    }
    r := PasteAt(image, background, o.value);
  }

  /** Line 466: the image cropped from its upper-left corner to the part of
    * the background from `o` on. */
  method CropToFit<P>(image: array2<P>, background: array2<P>, o: Pair) returns (source: array2<P>)
    ensures DimsOf(source) == FitDims(DimsOf(image), o, DimsOf(background))
    ensures CutFrom(source, image, Dims(0, 0))
  {
    var cropped := Crop(image, TopLeft, Pair(background.Length0 - o.row, background.Length1 - o.col));
    source := cropped.value;
  }

  /** Lines 466-473 once the origin `o` is known. */
  method PasteAt<P>(image: array2<P>, background: array2<P>, o: Pair) returns (r: Result<array2<P>>)
    ensures var plan := PlanAt(DimsOf(image), o, DimsOf(background));
      (r.Err? <==> plan.Err?) && (r.Err? ==> r.error == plan.error)
    ensures r.Ok? ==> (PlanAt(DimsOf(image), o, DimsOf(background)).Ok? && fresh(r.value)
      && Shows(r.value, image, Dims(0, 0), PlanAt(DimsOf(image), o, DimsOf(background)).value)
      && KeepsOutside(r.value, background, PlanAt(DimsOf(image), o, DimsOf(background)).value))
  {
    var source := CropToFit(image, background, o);
    var target := Window(Slice(o.row, o.row + image.Length0, background.Length0),
                         Slice(o.col, o.col + image.Length1, background.Length1));
    if !(Broadcasts(source.Length0, target.rows.len) && Broadcasts(source.Length1, target.cols.len)) {
      return Err(ValueError);
    }
    var p := Paste(target, DimsOf(source));
    var canvas := Paint(background, image, source, p);
    r := Ok(canvas);
  }

  /** The crop mode `_preserve_shape` uses: centred for `'center'`, from the
    * upper-left corner for anything else. */
  function FitMode(origin: Origin): Origin {
    if origin.Center? then Center else TopLeft
  }

  /** The window `_preserve_shape` cuts from a transformed image of shape
    * `transformed` to fit a shape `original`. */
  function FitWindow(transformed: Dims, origin: Origin, original: Dims): (w: Window)
    ensures w.rows.lo + w.rows.len <= transformed.rows && w.cols.lo + w.cols.len <= transformed.cols
  {
    CropWindow(transformed, FitMode(origin), Pair(original.rows, original.cols)).value
  }

  /** Where `_preserve_shape` pastes the cut-out window on the zero image. */
  function FitPlan(transformed: Dims, origin: Origin, original: Dims): Result<Paste> {
    var w := FitWindow(transformed, origin, original);
    PastePlan(Dims(w.rows.len, w.cols.len), origin, original)
  }

  /** Lines 497-499: the transformed image cropped to the original's shape,
    * centred or from the upper-left corner. */
  method CutToFit(original: array2<int>, transformed: array2<int>, origin: Origin) returns (source: array2<int>)
    ensures var w := FitWindow(DimsOf(transformed), origin, DimsOf(original));
      DimsOf(source) == Dims(w.rows.len, w.cols.len) && CutFrom(source, transformed, At0(w))
  {
    var cropped := Crop(transformed, FitMode(origin), Pair(original.Length0, original.Length1));
    source := cropped.value;
  }

  /** `_preserve_shape` (lines 497-501): the transformed image is cropped to
    * the original's shape and pasted at `origin` on a zero image of the
    * original's shape; the result has exactly that shape, the window shows
    * the transformed pixels and every pixel outside it is 0. */
  method PreserveShape(original: array2<int>, transformed: array2<int>, origin: Origin) returns (r: Result<array2<int>>)
    ensures var plan := FitPlan(DimsOf(transformed), origin, DimsOf(original));
      (r.Err? <==> plan.Err?) && (r.Err? ==> r.error == plan.error)
    ensures r.Ok? ==> (FitPlan(DimsOf(transformed), origin, DimsOf(original)).Ok? && fresh(r.value)
      && DimsOf(r.value) == DimsOf(original)
      && Shows(r.value, transformed, At0(FitWindow(DimsOf(transformed), origin, DimsOf(original))),
               FitPlan(DimsOf(transformed), origin, DimsOf(original)).value)
      && ZeroOutside(r.value, FitPlan(DimsOf(transformed), origin, DimsOf(original)).value))
  {
    var w := FitWindow(DimsOf(transformed), origin, DimsOf(original));
    var source := CutToFit(original, transformed, origin);
    var zeros := new int[original.Length0, original.Length1]((i, j) => 0);
    r := PutOnBackground(source, zeros, origin);
    assert PastePlan(DimsOf(source), origin, DimsOf(zeros)) == FitPlan(DimsOf(transformed), origin, DimsOf(original));
    if r.Ok? {
      var plan := FitPlan(DimsOf(transformed), origin, DimsOf(original)).value;
      ShowsThroughCrop(r.value, source, transformed, At0(w), plan);
      ZeroMargin(r.value, zeros, plan);
    }
  }

  /** Every pixel outside the pasted window is 0. */
  ghost predicate ZeroOutside(canvas: array2<int>, p: Paste)
    reads canvas
  {
    forall i, j | 0 <= i < canvas.Length0 && 0 <= j < canvas.Length1 && !p.target.Has(i, j) :: canvas[i, j] == 0
  }

  /** Pasting on an all-zero background leaves zeros outside the window. */
  lemma ZeroMargin(canvas: array2<int>, zeros: array2<int>, p: Paste)
    requires KeepsOutside(canvas, zeros, p)
    requires forall i, j | 0 <= i < zeros.Length0 && 0 <= j < zeros.Length1 :: zeros[i, j] == 0
    ensures ZeroOutside(canvas, p)
  {
  }

  /** The corner of a window, as an offset into the image it was cut from. */
  function At0(w: Window): Dims {
    Dims(w.rows.lo, w.cols.lo)
  }

  /** Centred fitting along one axis: a transformed extent `t` at least the
    * original's `n` is cut to its centred `n` pixels, which cover the whole
    * result; a shorter one is kept whole and centred, with zero margins. */
  lemma FitCenter(transformed: Dims, original: Dims)
    ensures var c := CropWindow(transformed, Center, Pair(original.rows, original.cols));
      c.Ok? && var plan := PastePlan(Dims(c.value.rows.len, c.value.cols.len), Center, original);
      plan.Ok?
      && (original.rows <= transformed.rows ==>
            Centered(original.rows, transformed.rows, c.value.rows.lo) && plan.value.target.rows == Span(0, original.rows))
      && (transformed.rows <= original.rows ==>
            c.value.rows == Span(0, transformed.rows) && plan.value.target.rows.len == transformed.rows
            && Centered(transformed.rows, original.rows, plan.value.target.rows.lo))
      && (original.cols <= transformed.cols ==>
            Centered(original.cols, transformed.cols, c.value.cols.lo) && plan.value.target.cols == Span(0, original.cols))
      && (transformed.cols <= original.cols ==>
            c.value.cols == Span(0, transformed.cols) && plan.value.target.cols.len == transformed.cols
            && Centered(transformed.cols, original.cols, plan.value.target.cols.lo))
  {
    var o := CalcOrigin(Pair(original.rows, original.cols), Center, transformed).value;
    CropExtent(transformed, o, Pair(original.rows, original.cols));
    var c := CropWindow(transformed, Center, Pair(original.rows, original.cols)).value;
    PasteKnownModes(Dims(c.rows.len, c.cols.len), original);
    var p := CalcOrigin(Pair(c.rows.len, c.cols.len), Center, original).value;
    PasteInside(Dims(c.rows.len, c.cols.len), p, original);
  }

  /** A pasted image is recovered by cropping the result at the same origin
    * to the image's shape, when the image fits inside the background. */
  method PasteThenCrop<P>(image: array2<P>, background: array2<P>, o: Pair) returns (back: array2<P>)
    requires 0 <= o.row && o.row + image.Length0 <= background.Length0
    requires 0 <= o.col && o.col + image.Length1 <= background.Length1
    ensures DimsOf(back) == DimsOf(image)
    ensures forall i, j | 0 <= i < image.Length0 && 0 <= j < image.Length1 :: back[i, j] == image[i, j]
  {
    PasteInside(DimsOf(image), o, DimsOf(background));
    var pasted := PutOnBackground(image, background, At(o));
    CropExtent(DimsOf(background), o, Pair(image.Length0, image.Length1));
    var cut := Crop(pasted.value, At(o), Pair(image.Length0, image.Length1));
    back := cut.value;
  }
}
