/**
 * In-place pixel edits of `ImagesBatch` (dataset/batch_image.py): flipping
 * selected images of a batch (`_flip_all`), inverting channels
 * (`_invert_`) and clamping pixel values (`_threshold_`).
 *
 * A batch is an N x H x W array whose elements are pixels of any type (a
 * pixel may be a vector of channel values, which a flip moves whole); a
 * single image for the channel-wise edits is an H x W x C array of integer
 * values. Indices follow numpy's integer indexing: a negative index counts
 * from the end of its axis, and an index outside the axis raises
 * `IndexError` before anything is written.
 */
module ImageEdits {
  import opened Wrappers

  /** `k` indexes an axis of length `n`. */
  predicate InAxis(k: int, n: nat) {
    0 <= k + n && k < n
  }

  /** The position a valid index `k` names on an axis of length `n`. */
  function Normalize(k: int, n: nat): int {
    if k < 0 then k + n else k
  }

  /** The positions an index list selects on an axis of length `n`;
    * repeated positions are selected once. */
  function Selection(ks: seq<int>, n: nat): set<int> {
    set k | k in ks && InAxis(k, n) :: Normalize(k, n)
  }

  /** A position is selected exactly when the list holds it or holds it
    * counted from the end. */
  lemma SelectionMembers(ks: seq<int>, n: nat, m: int)
    requires 0 <= m < n
    ensures m in Selection(ks, n) <==> m in ks || m - n in ks
  {
    if m - n in ks {
      assert InAxis(m - n, n) && Normalize(m - n, n) == m;
    }
    if m in ks {
      assert InAxis(m, n) && Normalize(m, n) == m;
    }
  }

  /** `list(range(c))`: every position of an axis of length `c`. */
  function Positions(c: nat): seq<int> {
    seq(c, i => i)
  }

  /** `list(range(c))` selects every position, and nothing else. */
  lemma SelectAll(c: nat)
    ensures forall k :: k in Selection(Positions(c), c) <==> 0 <= k < c
  {
    forall k | 0 <= k < c
      ensures k in Selection(Positions(c), c)
    {
      assert Positions(c)[k] == k;
      SelectionMembers(Positions(c), c, k);
    }
  }

  /** The `mode` argument of `_flip_all`. */
  datatype FlipMode = LR | UD | Unknown(name: string)

  /** Reverses the columns of image `n` of the batch. */
  method FlipColumns<P>(images: array3<P>, n: nat)
    requires n < images.Length0
    modifies images
    ensures forall m, i, j | 0 <= m < images.Length0 && 0 <= i < images.Length1 && 0 <= j < images.Length2 ::
      images[m, i, j] == if m == n then old(images[m, i, images.Length2 - 1 - j]) else old(images[m, i, j])
  {
    var w := images.Length2;
    var i := 0;
    while i < images.Length1
      invariant 0 <= i <= images.Length1
      invariant forall m, i', j | 0 <= m < images.Length0 && 0 <= i' < images.Length1 && 0 <= j < w ::
        images[m, i', j] == if m == n && i' < i then old(images[m, i', w - 1 - j]) else old(images[m, i', j])
    {
      var j := 0;
      while j < w - 1 - j
        invariant 0 <= j && 2 * j <= w
        invariant forall m, i', j' | 0 <= m < images.Length0 && 0 <= i' < images.Length1 && 0 <= j' < w ::
          images[m, i', j'] ==
            if m == n && (i' < i || (i' == i && (j' < j || w - 1 - j < j')))
            then old(images[m, i', w - 1 - j'])
            else old(images[m, i', j'])
      {
        images[n, i, j], images[n, i, w - 1 - j] := images[n, i, w - 1 - j], images[n, i, j];
        j := j + 1;
      }
      i := i + 1;
    }
  }

  /** Reverses the rows of image `n` of the batch. */
  method FlipRows<P>(images: array3<P>, n: nat)
    requires n < images.Length0
    modifies images
    ensures forall m, i, j | 0 <= m < images.Length0 && 0 <= i < images.Length1 && 0 <= j < images.Length2 ::
      images[m, i, j] == if m == n then old(images[m, images.Length1 - 1 - i, j]) else old(images[m, i, j])
  {
    var h := images.Length1;
    var i := 0;
    while i < h - 1 - i
      invariant 0 <= i && 2 * i <= h
      invariant forall m, i', j | 0 <= m < images.Length0 && 0 <= i' < h && 0 <= j < images.Length2 ::
        images[m, i', j] == if m == n && (i' < i || h - 1 - i < i') then old(images[m, h - 1 - i', j]) else old(images[m, i', j])
    {
      var j := 0;
      while j < images.Length2
        invariant 0 <= j <= images.Length2
        invariant forall m, i', j' | 0 <= m < images.Length0 && 0 <= i' < h && 0 <= j' < images.Length2 ::
          images[m, i', j'] ==
            if m == n && (i' < i || h - 1 - i < i' || ((i' == i || i' == h - 1 - i) && j' < j))
            then old(images[m, h - 1 - i', j'])
            else old(images[m, i', j'])
      {
        images[n, i, j], images[n, h - 1 - i, j] := images[n, h - 1 - i, j], images[n, i, j];
        j := j + 1;
      }
      i := i + 1;
    }
  }

  /** `_flip_all` (lines 606-610): `'lr'` reverses the columns and `'ud'` the
    * rows of every image the index list selects (once, however often it is
    * listed); other images are unchanged, an index outside the batch raises
    * `IndexError` with nothing written, and any other mode changes nothing. */
  method FlipAll<P>(images: array3<P>, indices: seq<int>, mode: FlipMode) returns (r: Outcome)
    modifies images
    ensures mode.Unknown? ==> r == Done && unchanged(images)
    ensures r.Raised? <==> !mode.Unknown? && exists k :: k in indices && !InAxis(k, images.Length0)
    ensures r.Raised? ==> r.error == IndexError && unchanged(images)
    ensures r.Done? && mode.LR? ==>
      forall n, i, j | 0 <= n < images.Length0 && 0 <= i < images.Length1 && 0 <= j < images.Length2 ::
        images[n, i, j] ==
          if n in Selection(indices, images.Length0) then old(images[n, i, images.Length2 - 1 - j]) else old(images[n, i, j])
    ensures r.Done? && mode.UD? ==>
      forall n, i, j | 0 <= n < images.Length0 && 0 <= i < images.Length1 && 0 <= j < images.Length2 ::
        images[n, i, j] ==
          if n in Selection(indices, images.Length0) then old(images[n, images.Length1 - 1 - i, j]) else old(images[n, i, j])
  {
    if mode.Unknown? {
      return Done;
    }
    var t := 0;
    while t < |indices|
      invariant 0 <= t <= |indices|
      invariant forall u :: 0 <= u < t ==> InAxis(indices[u], images.Length0)
    {
      if !InAxis(indices[t], images.Length0) {
        return Raised(IndexError);
      }
      t := t + 1;
    }
    var selected := Selection(indices, images.Length0);
    var n := 0;
    while n < images.Length0
      invariant 0 <= n <= images.Length0
      invariant forall m, i, j | 0 <= m < images.Length0 && 0 <= i < images.Length1 && 0 <= j < images.Length2 ::
        images[m, i, j] ==
          if m < n && m in selected
          then (if mode.LR? then old(images[m, i, images.Length2 - 1 - j]) else old(images[m, images.Length1 - 1 - i, j]))
          else old(images[m, i, j])
    {
      if n in selected {
        if mode.LR? {
          FlipColumns(images, n);
        } else {
          FlipRows(images, n);
        }
      }
      n := n + 1;
    }
    r := Done;
  }

  /** The same flip applied twice restores the batch, whether it succeeds or
    * raises. */
  method FlipTwice<P>(images: array3<P>, indices: seq<int>, mode: FlipMode)
    modifies images
    ensures forall n, i, j | 0 <= n < images.Length0 && 0 <= i < images.Length1 && 0 <= j < images.Length2 ::
      images[n, i, j] == old(images[n, i, j])
  {
    var first := FlipAll(images, indices, mode);
    label between:
    var second := FlipAll(images, indices, mode);
    if first.Done? && !mode.Unknown? {
      var h, w := images.Length1, images.Length2;
      forall n, i, j | 0 <= n < images.Length0 && 0 <= i < h && 0 <= j < w
        ensures images[n, i, j] == old(images[n, i, j])
      {
        if mode.LR? {
          assert images[n, i, j] == if n in Selection(indices, images.Length0) then old@between(images[n, i, w - 1 - j]) else old@between(images[n, i, j]);
        } else {
          assert images[n, i, j] == if n in Selection(indices, images.Length0) then old@between(images[n, h - 1 - i, j]) else old@between(images[n, i, j]);
        }
      }
    }
  }

  /** Replaces value `v` of channel `c` by `f(c, v)` in every pixel of the
    * channels in `channels`. */
  method ApplyChannels(image: array3<int>, channels: set<int>, f: (int, int) -> int)
    modifies image
    ensures forall h, w, c | 0 <= h < image.Length0 && 0 <= w < image.Length1 && 0 <= c < image.Length2 ::
      image[h, w, c] == if c in channels then f(c, old(image[h, w, c])) else old(image[h, w, c])
  {
    var c := 0;
    while c < image.Length2
      invariant 0 <= c <= image.Length2
      invariant forall h, w, k | 0 <= h < image.Length0 && 0 <= w < image.Length1 && 0 <= k < image.Length2 ::
        image[h, w, k] == if k < c && k in channels then f(k, old(image[h, w, k])) else old(image[h, w, k])
    {
      if c in channels {
        ApplyToChannel(image, c, f);
      }
      c := c + 1;
    }
  }

  /** Replaces value `v` of channel `c` by `f(c, v)` in every pixel. */
  method ApplyToChannel(image: array3<int>, c: nat, f: (int, int) -> int)
    requires c < image.Length2
    modifies image
    ensures forall h, w, k | 0 <= h < image.Length0 && 0 <= w < image.Length1 && 0 <= k < image.Length2 ::
      image[h, w, k] == if k == c then f(c, old(image[h, w, k])) else old(image[h, w, k])
  {
    var h := 0;
    while h < image.Length0
      invariant 0 <= h <= image.Length0
      invariant forall h', w, k | 0 <= h' < image.Length0 && 0 <= w < image.Length1 && 0 <= k < image.Length2 ::
        image[h', w, k] == if h' < h && k == c then f(c, old(image[h', w, k])) else old(image[h', w, k])
    {
      var w := 0;
      while w < image.Length1
        invariant 0 <= w <= image.Length1
        invariant forall h', w', k | 0 <= h' < image.Length0 && 0 <= w' < image.Length1 && 0 <= k < image.Length2 ::
          image[h', w', k] ==
            if (h' < h || (h' == h && w' < w)) && k == c then f(c, old(image[h', w', k])) else old(image[h', w', k])
      {
        image[h, w, c] := f(c, image[h, w, c]);
        w := w + 1;
      }
      h := h + 1;
    }
  }

  /** The `channels` argument of `_invert_`: `'all'`, or indices into the
    * last axis (a single index is a list of one). */
  datatype Channels = All | Listed(cs: seq<int>)

  /** The channels of a `c`-channel image that `channels` names. */
  function ChannelSet(channels: Channels, c: nat): (s: set<int>)
    ensures forall k :: k in s ==> 0 <= k < c
  {
    match channels
    case All => Selection(Positions(c), c)
    case Listed(cs) => Selection(cs, c)
  }

  /** The channel index list names a channel the image lacks. */
  predicate BadChannel(channels: Channels, c: nat) {
    channels.Listed? && exists k :: k in channels.cs && !InAxis(k, c)
  }

  /** `_invert_` (lines 658-662) on an integer image: each value `v` of a
    * named channel becomes `255 - v`, other channels are untouched, and a
    * channel index outside the image raises `IndexError` with nothing
    * written. */
  method Invert(image: array3<int>, channels: Channels) returns (r: Outcome)
    modifies image
    ensures BadChannel(channels, image.Length2) ==> r == Raised(IndexError) && unchanged(image)
    ensures !BadChannel(channels, image.Length2) ==> (r == Done
      && forall h, w, c | 0 <= h < image.Length0 && 0 <= w < image.Length1 && 0 <= c < image.Length2 ::
        image[h, w, c] == if c in ChannelSet(channels, image.Length2) then 255 - old(image[h, w, c]) else old(image[h, w, c]))
  {
    if channels.Listed? {
      var t := 0;
      while t < |channels.cs|
        invariant 0 <= t <= |channels.cs|
        invariant forall u :: 0 <= u < t ==> InAxis(channels.cs[u], image.Length2)
      {
        if !InAxis(channels.cs[t], image.Length2) {
          return Raised(IndexError);
        }
        t := t + 1;
      }
    }
    ApplyChannels(image, ChannelSet(channels, image.Length2), (c, v) => 255 - v);
    r := Done;
  }

  /** Inverting the same channels twice restores the image. */
  method InvertTwice(image: array3<int>, channels: Channels)
    modifies image
    ensures forall h, w, c | 0 <= h < image.Length0 && 0 <= w < image.Length1 && 0 <= c < image.Length2 ::
      image[h, w, c] == old(image[h, w, c])
  {
    var first := Invert(image, channels);
    var second := Invert(image, channels);
  }

  /** A `low` or `high` argument of `_threshold_`: one number, or one per
    * channel. */
  datatype Bound = Scalar(v: int) | PerChannel(vs: seq<int>)

  /** The bound on channel `c`; a per-channel list has none past its end. */
  function Limit(b: Bound, c: int): Option<int> {
    match b
    case Scalar(v) => Some(v)
    case PerChannel(vs) => if 0 <= c < |vs| then Some(vs[c]) else None
  }

  /** A per-channel list whose length is not the channel count. */
  predicate Mismatch(b: Bound, c: nat) {
    b.PerChannel? && |b.vs| != c
  }

  /** Lines 735-742: `v` raised to the low bound of channel `c`. */
  function RaiseTo(low: Bound, c: int, v: int): (r: int)
    ensures Limit(low, c).None? ==> r == v
    ensures Limit(low, c).Some? ==> r >= Limit(low, c).value && r >= v && (r == v || r == Limit(low, c).value)
  {
    match Limit(low, c)
    case Some(l) => if v < l then l else v
    case None => v
  }

  /** Lines 743-751: `v` lowered to the high bound of channel `c`. */
  function LowerTo(high: Bound, c: int, v: int): (r: int)
    ensures Limit(high, c).None? ==> r == v
    ensures Limit(high, c).Some? ==> r <= Limit(high, c).value && r <= v && (r == v || r == Limit(high, c).value)
  {
    match Limit(high, c)
    case Some(u) => if v > u then u else v
    case None => v
  }

  /** A value after both clamps lies in [low, high] when low <= high, and a
    * value already there is left alone; with low > high every value ends at
    * high. */
  lemma ClampRange(low: Bound, high: Bound, c: int, v: int)
    requires Limit(low, c).Some? && Limit(high, c).Some?
    ensures var l, u, r := Limit(low, c).value, Limit(high, c).value, LowerTo(high, c, RaiseTo(low, c, v));
      (l <= u ==> l <= r <= u && (l <= v <= u ==> r == v)) && (u < l ==> r == u)
  {
  }

  /** `image.astype(np.uint8)` (line 752): a fresh array of the values
    * wrapped modulo 256. */
  method AsUint8(image: array3<int>) returns (r: array3<int>)
    ensures fresh(r) && r.Length0 == image.Length0 && r.Length1 == image.Length1 && r.Length2 == image.Length2
    ensures forall h, w, c | 0 <= h < r.Length0 && 0 <= w < r.Length1 && 0 <= c < r.Length2 ::
      0 <= r[h, w, c] < 256 && r[h, w, c] % 256 == image[h, w, c] % 256
  {
    r := new int[image.Length0, image.Length1, image.Length2](
      (h, w, c) requires 0 <= h < image.Length0 && 0 <= w < image.Length1 && 0 <= c < image.Length2 reads image =>
        image[h, w, c] % 256);
  }

  /** `_threshold_` (lines 735-752) with `dtype=np.uint8`: a per-channel list
    * of the wrong length raises `RuntimeError` (for `high`, after the low
    * clamp has already been written into the image); otherwise the image
    * holds every value clamped to its channel's bounds, and the result is a
    * fresh copy of it cast to `uint8`. */
  method Threshold(image: array3<int>, low: Bound, high: Bound) returns (r: Result<array3<int>>)
    modifies image
    ensures Mismatch(low, image.Length2) ==> r == Err(RuntimeError) && unchanged(image)
    ensures !Mismatch(low, image.Length2) && Mismatch(high, image.Length2) ==> (r == Err(RuntimeError)
      && forall h, w, c | 0 <= h < image.Length0 && 0 <= w < image.Length1 && 0 <= c < image.Length2 ::
        image[h, w, c] == RaiseTo(low, c, old(image[h, w, c])))
    ensures !Mismatch(low, image.Length2) && !Mismatch(high, image.Length2) ==> (r.Ok? && fresh(r.value)
      && r.value.Length0 == image.Length0 && r.value.Length1 == image.Length1 && r.value.Length2 == image.Length2
      && forall h, w, c | 0 <= h < image.Length0 && 0 <= w < image.Length1 && 0 <= c < image.Length2 ::
        image[h, w, c] == LowerTo(high, c, RaiseTo(low, c, old(image[h, w, c])))
        && r.value[h, w, c] == image[h, w, c] % 256)
  {
    if Mismatch(low, image.Length2) {
      return Err(RuntimeError);
    }
    var every := Selection(Positions(image.Length2), image.Length2);
    SelectAll(image.Length2);
    ApplyChannels(image, every, (c, v) => RaiseTo(low, c, v));
    if Mismatch(high, image.Length2) {
      return Err(RuntimeError);
    }
    ApplyChannels(image, every, (c, v) => LowerTo(high, c, v));
    var cast := AsUint8(image);
    r := Ok(cast);
  }

  /** With bounds 0 <= low <= high <= 255 on every channel, the thresholded
    * image is within the bounds and the cast leaves it unchanged. */
  method ThresholdInRange(image: array3<int>, low: int, high: int) returns (r: array3<int>)
    requires 0 <= low <= high <= 255
    modifies image
    ensures r.Length0 == image.Length0 && r.Length1 == image.Length1 && r.Length2 == image.Length2
    ensures forall h, w, c | 0 <= h < r.Length0 && 0 <= w < r.Length1 && 0 <= c < r.Length2 ::
      low <= r[h, w, c] <= high && r[h, w, c] == image[h, w, c]
  {
    var t := Threshold(image, Scalar(low), Scalar(high));
    r := t.value;
    forall h, w, c | 0 <= h < r.Length0 && 0 <= w < r.Length1 && 0 <= c < r.Length2
      ensures low <= r[h, w, c] <= high && r[h, w, c] == image[h, w, c]
    {
      ClampRange(Scalar(low), Scalar(high), c, old(image[h, w, c]));
    }
  }
}
