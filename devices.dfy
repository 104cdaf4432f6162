/**
 * `Research.get_devices` and the normalisation of the worker and branch
 * fan-out at the start of `Research.run` (batchflow/research/research.py).
 *
 * A device specification is spread over a grid of `workers x branches`
 * slots; every slot receives a list of device names. A flat list of devices
 * is first padded (by repetition) to a multiple of the number of slots and
 * then cut into equal consecutive blocks, worker-major.
 */
module Research {
  import opened Wrappers
  import opened Configs

  // ---------------------------------------------------------------------
  // Integer helpers
  // ---------------------------------------------------------------------

  lemma MulAtLeast(d: int, b: int)
    requires b > 0 && d >= 1
    ensures d * b >= b
  {
    if d > 1 {
      MulAtLeast(d - 1, b);
      assert d * b == (d - 1) * b + b;
    }
  }

  lemma MulLe(x: int, y: int, c: nat)
    requires x <= y
    ensures c * x <= c * y
  {
    if x < y {
      if c > 0 {
        MulAtLeast(y - x, c);
      }
      assert c * y - c * x == (y - x) * c;
    }
  }

  /** Euclidean division is determined by its quotient/remainder equation. */
  lemma DivModUnique(a: int, b: int, q: int, r: int)
    requires b > 0 && a == q * b + r && 0 <= r < b
    ensures a / b == q && a % b == r
  {
    var q0, r0 := a / b, a % b;
    var d := q - q0;
    assert d * b == q * b - q0 * b;
    if d >= 1 {
      MulAtLeast(d, b);
    } else if d <= -1 {
      MulAtLeast(-d, b);
    }
    assert d == 0;
  }

  /** `ceil(a / b)` for positive `b`. */
  function CeilDiv(a: nat, b: nat): nat
    requires b > 0
  {
    (a + b - 1) / b
  }

  // ---------------------------------------------------------------------
  // Devices and their rendering (`str(item) if isinstance(item, int)`)
  // ---------------------------------------------------------------------

  /** A device as the caller names it: an accelerator index or a device string. */
  datatype Device = Index(n: int) | Name(s: string)

  /** A branch's entry in an explicit nested layout: a list of devices
    * (entries may be Python's `None`), or `None` for the whole entry. */
  type BranchDevices = Option<seq<Option<Device>>>

  /** The `devices` argument of `Research.run`. */
  datatype DeviceSpec =
    | NoDevices                             // None
    | Single(d: Device)                     // a bare int or str
    | Flat(ds: seq<Device>)                 // a flat list of devices
    | Nested(ws: seq<seq<BranchDevices>>)   // per worker, per branch

  /** What each branch receives: device strings, or `None`. */
  type Slot = Option<string>

  /** workers x branches x devices */
  type Layout = seq<seq<seq<Slot>>>

  function DigitChar(d: nat): char
    requires d < 10
  {
    ('0' as int + d) as char
  }

  /** Decimal digits of a natural number, most significant first. */
  function Decimal(n: nat): (s: string)
    ensures |s| >= 1
    ensures forall k :: 0 <= k < |s| ==> '0' <= s[k] <= '9'
    decreases n
  {
    if n < 10 then [DigitChar(n)] else Decimal(n / 10) + [DigitChar(n % 10)]
  }

  /** Python's `str` of an int. */
  function IntToString(n: int): (s: string)
    ensures |s| >= 1
  {
    if n < 0 then "-" + Decimal(-n) else Decimal(n)
  }

  function ParseDecimal(s: string): int
  {
    if s == [] then 0 else ParseDecimal(s[..|s| - 1]) * 10 + (s[|s| - 1] as int - '0' as int)
  }

  /** Python's `int` of a decimal string. */
  function ParseInt(s: string): int
  {
    if |s| > 0 && s[0] == '-' then -ParseDecimal(s[1..]) else ParseDecimal(s)
  }

  lemma {:induction false} DecimalRoundTrip(n: nat)
    ensures ParseDecimal(Decimal(n)) == n
    decreases n
  {
    if n >= 10 {
      var s := Decimal(n);
      assert s[..|s| - 1] == Decimal(n / 10);
      DecimalRoundTrip(n / 10);
    }
  }

  /** The string an integer device becomes reads back as that integer. */
  lemma IntToStringRoundTrip(n: int)
    ensures ParseInt(IntToString(n)) == n
  {
    if n < 0 {
      assert IntToString(n)[1..] == Decimal(-n);
      DecimalRoundTrip(-n);
    } else {
      DecimalRoundTrip(n);
    }
  }

  function Render(d: Device): string
  {
    match d
    case Index(n) => IntToString(n)
    case Name(s) => s
  }

  function RenderItem(x: Option<Device>): Slot
  {
    match x
    case None => None
    case Some(d) => Some(Render(d))
  }

  function RenderAll(xs: seq<Option<Device>>): (r: seq<Slot>)
    ensures |r| == |xs|
  {
    seq(|xs|, k requires 0 <= k < |xs| => RenderItem(xs[k]))
  }

  // ---------------------------------------------------------------------
  // Padding a flat list (lines 141-150)
  // ---------------------------------------------------------------------

  /** Every element of `s` repeated `q` times in a row: the chain of
    * `zip(*repeat(s, q))` at lines 142-144, and of `repeat(x, q)` at line 150. */
  function RepeatEach<T>(s: seq<T>, q: nat): (r: seq<T>)
    ensures |r| == |s| * q
  {
    if s == [] then []
    else
      assert |s| * q == (|s| - 1) * q + q;
      seq(q, _ => s[0]) + RepeatEach(s[1..], q)
  }

  lemma {:induction false} RepeatEachAt<T>(s: seq<T>, q: nat, m: nat, t: nat)
    requires m < |s| && t < q
    ensures q * m + t < |RepeatEach(s, q)| && RepeatEach(s, q)[q * m + t] == s[m]
  {
    MulLe(m, |s| - 1, q);
    assert q * (|s| - 1) + q == |s| * q;
    if m > 0 {
      RepeatEachAt(s[1..], q, m - 1, t);
      assert q * m + t == q + (q * (m - 1) + t);
    }
  }

  lemma {:induction false} RepeatEachOne<T>(s: seq<T>)
    ensures RepeatEach(s, 1) == s
  {
    if s != [] {
      RepeatEachOne(s[1..]);
      assert RepeatEach(s, 1) == [s[0]] + s[1..];
    }
  }

  /** Lines 141-147: repeat or pad the list to a multiple of `total`. */
  function Pad(ds: seq<Device>, total: nat): seq<Device>
    requires |ds| >= 1 && total >= 1
  {
    if total > |ds| then
      RepeatEach(ds, total / |ds|) + ds[..total % |ds|]
    else
      ds + ds[..(-|ds|) % total]
  }

  /** Lines 148-150: when `total` is a multiple of the list's length, repeat
    * every device `total / len` times. */
  function Spread(ds: seq<Device>, total: nat): seq<Device>
    requires |ds| >= 1
  {
    if total % |ds| == 0 then RepeatEach(ds, total / |ds|) else ds
  }

  /** More slots than devices: one device per slot. */
  lemma PadLengthShort(ds: seq<Device>, total: nat)
    requires 1 <= |ds| < total
    ensures CeilDiv(|ds|, total) == 1 && |Pad(ds, total)| == total
  {
    var l := |ds|;
    DivModUnique(l + total - 1, total, 1, l - 1);
    var q, r := total / l, total % l;
    assert total == q * l + r;
    assert |Pad(ds, total)| == l * q + r;
  }

  /** At least as many devices as slots: the list is padded up to the next
    * multiple of `total`. */
  lemma PadLengthLong(ds: seq<Device>, total: nat)
    requires 1 <= total <= |ds|
    ensures CeilDiv(|ds|, total) >= 1
    ensures |Pad(ds, total)| == total * CeilDiv(|ds|, total)
  {
    var l := |ds|;
    var qn, e := (-l) / total, (-l) % total;
    assert -l == qn * total + e;
    DivModUnique(l + total - 1, total, -qn, total - 1 - e);
    var c := CeilDiv(l, total);
    assert c == -qn;
    assert |Pad(ds, total)| == l + e;
    assert l + e == c * total;
    if c <= 0 {
      MulLe(c, 0, total);
      assert false;
    }
  }

  /** The padded list holds `ceil(L / total)` devices per slot. */
  lemma PadLength(ds: seq<Device>, total: nat)
    requires |ds| >= 1 && total >= 1
    ensures CeilDiv(|ds|, total) >= 1
    ensures |Pad(ds, total)| == total * CeilDiv(|ds|, total)
  {
    if total > |ds| {
      PadLengthShort(ds, total);
    } else {
      PadLengthLong(ds, total);
    }
  }

  /** The arithmetic behind `SpreadIsIdentity`: `t` is a multiple of `t * c`
    * only when `c` is 1. */
  lemma DividesMultiple(t: int, c: int)
    requires t >= 1 && c >= 1
    ensures t % (t * c) == 0 ==> t / (t * c) == 1
  {
    if c == 1 {
      DivModUnique(t, t, 1, 0);
    } else {
      MulAtLeast(c - 1, t);
      assert t * c == (c - 1) * t + t;
      DivModUnique(t, t * c, 0, t);
    }
  }

  /** Lines 148-150 never change a list that lines 141-147 have padded. */
  lemma SpreadIsIdentity(ds: seq<Device>, total: nat)
    requires |ds| >= 1 && total >= 1
    ensures Spread(Pad(ds, total), total) == Pad(ds, total)
  {
    PadLength(ds, total);
    var p := Pad(ds, total);
    DividesMultiple(total, CeilDiv(|ds|, total));
    if total % |p| == 0 {
      RepeatEachOne(p);
    }
  }

  /** When the slot count divides the list's length, padding adds nothing. */
  lemma PadExact(ds: seq<Device>, total: nat)
    requires |ds| >= 1 && total >= 1 && |ds| % total == 0
    ensures Pad(ds, total) == ds
  {
    var l := |ds|;
    if total > l {
      DivModUnique(l, total, 0, l);
    }
    DivModUnique(-l, total, -(l / total), 0);
    assert ds + ds[..0] == ds;
  }

  /** Some position of the padded list holds device `n` of the original list. */
  lemma PadHolds(ds: seq<Device>, total: nat, n: nat) returns (p: nat)
    requires |ds| >= 1 && total >= 1 && n < |ds|
    ensures p < |Pad(ds, total)| && Pad(ds, total)[p] == ds[n]
  {
    if total > |ds| {
      var q := total / |ds|;
      assert q >= 1;
      RepeatEachAt(ds, q, n, 0);
      p := q * n;
    } else {
      p := n;
    }
  }

  // ---------------------------------------------------------------------
  // Cutting into the worker x branch grid (lines 151-160)
  // ---------------------------------------------------------------------

  /** Position of device `k` of branch `j` of worker `i` in the padded list. */
  lemma GridIndex(w: nat, b: nat, per: nat, i: nat, j: nat, k: nat)
    requires i < w && j < b && k < per
    ensures b * per * i + per * j + k == per * (b * i + j) + k
    ensures per * (b * i + j) + k < w * b * per
  {
    MulLe(i, w - 1, b);
    assert b * (w - 1) + b == w * b;
    MulLe(b * i + j, w * b - 1, per);
    assert per * (w * b - 1) + per == w * b * per;
    assert b * per * i == per * (b * i);
  }

  /** Position, in the padded list, of device `k` of branch `j` of worker `i`
    * when each branch gets `per` devices and each worker `b` branches. */
  function Position(b: nat, per: nat, i: nat, j: nat, k: nat): nat
  {
    per * (b * i + j) + k
  }

  /** Splits a position of the padded list into worker, branch and offset. */
  lemma Locate(w: nat, b: nat, per: nat, p: nat) returns (i: nat, j: nat, k: nat)
    requires per >= 1 && b >= 1 && p < w * b * per
    ensures i < w && j < b && k < per && per * (b * i + j) + k == p
  {
    var s := p / per;
    k := p % per;
    assert p == s * per + k;
    if s >= w * b {
      MulLe(w * b, s, per);
      assert false;
    }
    i, j := s / b, s % b;
    assert s == i * b + j;
    if i >= w {
      MulLe(w, i, b);
      assert false;
    }
  }

  /** Lines 151-160: the padded list cut into `w x b` consecutive blocks. */
  function Grid(ds: seq<Device>, w: nat, b: nat): seq<seq<seq<Device>>>
    requires w * b >= 1 && |ds| % (w * b) == 0
  {
    var per := |ds| / (w * b);
    seq(w, i requires 0 <= i < w =>
      seq(b, j requires 0 <= j < b =>
        seq(per, k requires 0 <= k < per =>
          GridIndex(w, b, per, i, j, k);
          ds[b * per * i + per * j + k])))
  }

  /** Branch `j` of worker `i` holds block `b * i + j` of the list. */
  lemma GridAt(ds: seq<Device>, w: nat, b: nat, per: nat, i: nat, j: nat, k: nat)
    requires w * b >= 1 && |ds| == w * b * per
    requires i < w && j < b && k < per
    ensures |ds| % (w * b) == 0 && |ds| / (w * b) == per
    ensures per * (b * i + j) + k < |ds|
    ensures |Grid(ds, w, b)| == w && |Grid(ds, w, b)[i]| == b && |Grid(ds, w, b)[i][j]| == per
    ensures Grid(ds, w, b)[i][j][k] == ds[per * (b * i + j) + k]
  {
    DivModUnique(|ds|, w * b, per, 0);
    GridIndex(w, b, per, i, j, k);
  }

  /** A grid of devices in the nested form that line 166 then transforms. */
  function Lift(g: seq<seq<seq<Device>>>): seq<seq<BranchDevices>>
  {
    seq(|g|, i requires 0 <= i < |g| =>
      seq(|g[i]|, j requires 0 <= j < |g[i]| =>
        Some(seq(|g[i][j]|, k requires 0 <= k < |g[i][j]| => Some(g[i][j][k])))))
  }

  // ---------------------------------------------------------------------
  // Worker and branch fan-out
  // ---------------------------------------------------------------------

  /** `workers` / `branches` of `Research.run`: a count or one config each. */
  datatype Fanout = Count(n: nat) | Configs(cs: seq<Config>)

  /** `x if isinstance(x, int) else len(x)` (lines 133-134, 260). */
  function Size(f: Fanout): nat
  {
    match f
    case Count(n) => n
    case Configs(cs) => |cs|
  }

  // ---------------------------------------------------------------------
  // get_devices
  // ---------------------------------------------------------------------

  /** The flat-list path of lines 140-160, for a non-empty list. */
  function FlatLayout(ds: seq<Device>, w: nat, b: nat): Result<seq<seq<BranchDevices>>>
    requires |ds| >= 1
  {
    if w * b == 0 then
      Err(ZeroDivisionError)   // `-len(devices) % 0` at line 147
    else
      var spread := Spread(Pad(ds, w * b), w * b);
      SpreadIsIdentity(ds, w * b);
      PadLength(ds, w * b);
      DivModUnique(|spread|, w * b, CeilDiv(|ds|, w * b), 0);
      Ok(Lift(Grid(spread, w, b)))
  }

  /** The flat path is the padded list cut into the grid. */
  lemma FlatLayoutIsGrid(ds: seq<Device>, w: nat, b: nat)
    requires |ds| >= 1 && w * b >= 1
    ensures |Pad(ds, w * b)| == w * b * CeilDiv(|ds|, w * b)
    ensures |Pad(ds, w * b)| % (w * b) == 0
    ensures FlatLayout(ds, w, b) == Ok(Lift(Grid(Pad(ds, w * b), w, b)))
  {
    SpreadIsIdentity(ds, w * b);
    PadLength(ds, w * b);
    DivModUnique(|Pad(ds, w * b)|, w * b, CeilDiv(|ds|, w * b), 0);
  }

  /** Lines 133-160: everything `get_devices` does before the per-branch
    * transformation of lines 161-166. */
  function Reshape(workers: Fanout, branches: Fanout, spec: DeviceSpec): Result<seq<seq<BranchDevices>>>
  {
    var w, b := Size(workers), Size(branches);
    match spec
    case NoDevices =>
      if w == 0 then Err(IndexError)   // `devices[0]` of an empty list
      else Ok(seq(w, _ => seq(b, _ => Some([None]))))
    case Single(d) => FlatLayout([d], w, b)
    case Flat(ds) => if ds == [] then Err(IndexError) else FlatLayout(ds, w, b)
    case Nested(ws) => if ws == [] then Err(IndexError) else Ok(ws)
  }

  /** `_transform_item` as written (lines 162-164): the comprehension walks
    * `x` before the `x is not None` test, so a `None` entry raises. */
  function TransformItemAsWritten(x: BranchDevices): (r: Result<seq<Slot>>)
    ensures r.Err? <==> x.None?
    ensures r.Err? ==> r.error == TypeError
    ensures r.Ok? ==> r.value == TransformItem(x)
  {
    match x
    case None => Err(TypeError)
    case Some(items) => Ok(RenderAll(items))
  }

  /** `_transform_item` as evidently intended: a `None` entry becomes `[]`. */
  function TransformItem(x: BranchDevices): (r: seq<Slot>)
    ensures x.None? ==> r == []
    ensures x.Some? ==> |r| == |x.value|
    ensures x.Some? ==> forall k :: 0 <= k < |r| ==>
      (x.value[k].None? ==> r[k] == None) &&
      (x.value[k].Some? ==> r[k] == Some(Render(x.value[k].value)))
  {
    match x
    case None => []
    case Some(items) => RenderAll(items)
  }

  function TransformAll(ws: seq<seq<BranchDevices>>): Layout
  {
    seq(|ws|, i requires 0 <= i < |ws| =>
      seq(|ws[i]|, j requires 0 <= j < |ws[i]| => TransformItem(ws[i][j])))
  }

  /** Line 166 with the as-written `_transform_item`: the first `None` entry
    * raises. */
  function TransformAllAsWritten(ws: seq<seq<BranchDevices>>): Result<Layout>
  {
    if exists i, j :: 0 <= i < |ws| && 0 <= j < |ws[i]| && ws[i][j] == None then Err(TypeError)
    else Ok(TransformAll(ws))
  }

  /** `Research.get_devices` (lines 131-167), with the corrected `_transform_item`. */
  function GetDevices(workers: Fanout, branches: Fanout, spec: DeviceSpec): (r: Result<Layout>)
    ensures r.Err? ==> r.error == if Supplied(spec).Some? && Supplied(spec).value != [] then ZeroDivisionError else IndexError
  {
    match Reshape(workers, branches, spec)
    case Err(e) => Err(e)
    case Ok(ws) => Ok(TransformAll(ws))
  }

  /** `Research.get_devices` exactly as written. */
  function GetDevicesAsWritten(workers: Fanout, branches: Fanout, spec: DeviceSpec): (r: Result<Layout>)
    ensures r.Ok? ==> r == GetDevices(workers, branches, spec)
    ensures r.Err? ==> r.error == TypeError || r == GetDevices(workers, branches, spec)
  {
    match Reshape(workers, branches, spec)
    case Err(e) => Err(e)
    case Ok(ws) => TransformAllAsWritten(ws)
  }

  /** The list a bare device or a flat list stands for (lines 138-140). */
  function Supplied(spec: DeviceSpec): Option<seq<Device>>
  {
    match spec
    case Single(d) => Some([d])
    case Flat(ds) => Some(ds)
    case _ => None
  }

  // ---------------------------------------------------------------------
  // Properties of get_devices
  // ---------------------------------------------------------------------

  /** A bare device or a non-empty flat list takes the flat path. */
  lemma SuppliedPath(workers: Fanout, branches: Fanout, spec: DeviceSpec, ds: seq<Device>)
    requires Supplied(spec) == Some(ds) && ds != []
    ensures Reshape(workers, branches, spec) == FlatLayout(ds, Size(workers), Size(branches))
  {
  }

  /** Line 166 on a grid of devices renders every device. */
  lemma TransformLift(g: seq<seq<seq<Device>>>, i: nat, j: nat, k: nat)
    requires i < |g| && j < |g[i]| && k < |g[i][j]|
    ensures var t := TransformAll(Lift(g));
      |t| == |g| && |t[i]| == |g[i]| && |t[i][j]| == |g[i][j]| &&
      t[i][j][k] == Some(Render(g[i][j][k]))
  {
  }

  /** The failures of `get_devices`, each with the exception Python raises. */
  lemma GetDevicesFails(workers: Fanout, branches: Fanout, spec: DeviceSpec)
    ensures var w, b := Size(workers), Size(branches);
      GetDevices(workers, branches, spec).Err? <==>
        (spec.NoDevices? && w == 0) ||
        (spec.Nested? && spec.ws == []) ||
        (spec.Flat? && spec.ds == []) ||
        (Supplied(spec).Some? && Supplied(spec).value != [] && w * b == 0)
    ensures var r := GetDevices(workers, branches, spec);
      r.Err? ==> (r.error == ZeroDivisionError <==> Supplied(spec).Some? && Supplied(spec).value != [])
    ensures var r := GetDevices(workers, branches, spec);
      r.Err? && !(Supplied(spec).Some? && Supplied(spec).value != []) ==> r.error == IndexError
  {
  }

  /** Without devices, every branch of every worker gets `[None]`. */
  lemma NoDevicesLayout(workers: Fanout, branches: Fanout)
    requires Size(workers) >= 1
    ensures var r := GetDevices(workers, branches, NoDevices);
      r.Ok? && |r.value| == Size(workers) &&
      forall i :: 0 <= i < |r.value| ==>
        |r.value[i]| == Size(branches) &&
        forall j :: 0 <= j < |r.value[i]| ==> r.value[i][j] == [None]
  {
    var r := GetDevices(workers, branches, NoDevices);
    forall i, j | 0 <= i < |r.value| && 0 <= j < |r.value[i]|
      ensures r.value[i][j] == [None]
    {
      assert RenderAll([None]) == [None];
    }
  }

  /** Branch `j` of worker `i` receives block `b * i + j` of the padded
    * list, rendered. */
  lemma FlatSlot(workers: Fanout, branches: Fanout, spec: DeviceSpec, ds: seq<Device>, i: nat, j: nat, k: nat)
    requires Supplied(spec) == Some(ds) && ds != []
    requires i < Size(workers) && j < Size(branches) && k < CeilDiv(|ds|, Size(workers) * Size(branches))
    ensures var w, b := Size(workers), Size(branches);
      var r, c, p := GetDevices(workers, branches, spec), CeilDiv(|ds|, w * b), Pad(ds, w * b);
      r.Ok? && |r.value| == w && |r.value[i]| == b && |r.value[i][j]| == c &&
      Position(b, c, i, j, k) < |p| && r.value[i][j][k] == Some(Render(p[Position(b, c, i, j, k)]))
  {
    var w, b := Size(workers), Size(branches);
    MulAtLeast(w, b);
    var c, p := CeilDiv(|ds|, w * b), Pad(ds, w * b);
    FlatGrid(workers, branches, spec, ds);
    GridSlot(p, w, b, c, i, j, k);
  }

  /** The rendered grid holds, in branch `j` of worker `i`, block `b * i + j`
    * of the list. */
  lemma GridSlot(p: seq<Device>, w: nat, b: nat, c: nat, i: nat, j: nat, k: nat)
    requires w * b >= 1 && |p| == w * b * c && |p| % (w * b) == 0
    requires i < w && j < b && k < c
    ensures var t := TransformAll(Lift(Grid(p, w, b)));
      |t| == w && |t[i]| == b && |t[i][j]| == c &&
      Position(b, c, i, j, k) < |p| && t[i][j][k] == Some(Render(p[Position(b, c, i, j, k)]))
  {
    var g := Grid(p, w, b);
    GridAt(p, w, b, c, i, j, k);
    TransformLift(g, i, j, k);
  }

  /** A bare device or a non-empty flat list gives the rendered grid of the
    * padded list. */
  lemma FlatGrid(workers: Fanout, branches: Fanout, spec: DeviceSpec, ds: seq<Device>)
    requires Supplied(spec) == Some(ds) && ds != []
    requires Size(workers) * Size(branches) >= 1
    ensures var w, b := Size(workers), Size(branches);
      var p := Pad(ds, w * b);
      |p| == w * b * CeilDiv(|ds|, w * b) && |p| % (w * b) == 0 &&
      GetDevices(workers, branches, spec) == Ok(TransformAll(Lift(Grid(p, w, b))))
  {
    SuppliedPath(workers, branches, spec, ds);
    FlatLayoutIsGrid(ds, Size(workers), Size(branches));
  }

  /** A flat list (or a bare device) gives `workers x branches` slots of
    * `ceil(L / (workers * branches))` devices each, and slot `s` (worker-major)
    * holds the `s`-th block of the padded list, integers as strings. */
  lemma FlatShape(workers: Fanout, branches: Fanout, spec: DeviceSpec, ds: seq<Device>)
    requires Supplied(spec) == Some(ds) && ds != []
    requires Size(workers) * Size(branches) >= 1
    ensures var w, b := Size(workers), Size(branches);
      var r, c, p := GetDevices(workers, branches, spec), CeilDiv(|ds|, w * b), Pad(ds, w * b);
      r.Ok? && |r.value| == w &&
      (forall i :: 0 <= i < w ==> |r.value[i]| == b) &&
      (forall i, j :: 0 <= i < w && 0 <= j < b ==> |r.value[i][j]| == c) &&
      (forall i, j, k :: 0 <= i < w && 0 <= j < b && 0 <= k < c ==>
        Position(b, c, i, j, k) < |p| && r.value[i][j][k] == Some(Render(p[Position(b, c, i, j, k)])))
  {
    var w, b := Size(workers), Size(branches);
    PadLength(ds, w * b);
    FlatSlot(workers, branches, spec, ds, 0, 0, 0);
    forall i | 0 <= i < w {
      FlatSlot(workers, branches, spec, ds, i, 0, 0);
    }
    forall i, j | 0 <= i < w && 0 <= j < b {
      FlatSlot(workers, branches, spec, ds, i, j, 0);
    }
    forall i, j, k | 0 <= i < w && 0 <= j < b && 0 <= k < CeilDiv(|ds|, w * b) {
      FlatSlot(workers, branches, spec, ds, i, j, k);
    }
  }

  /** Every supplied device reaches some branch. */
  lemma FlatCovers(workers: Fanout, branches: Fanout, spec: DeviceSpec, ds: seq<Device>, n: nat)
    requires Supplied(spec) == Some(ds) && n < |ds|
    requires Size(workers) * Size(branches) >= 1
    ensures var r := GetDevices(workers, branches, spec);
      r.Ok? &&
      exists i, j, k :: 0 <= i < |r.value| && 0 <= j < |r.value[i]| && 0 <= k < |r.value[i][j]| &&
        r.value[i][j][k] == Some(Render(ds[n]))
  {
    var p := PadHolds(ds, Size(workers) * Size(branches), n);
    var i, j, k := SlotOf(workers, branches, spec, ds, p);
    var r := GetDevices(workers, branches, spec).value;
    assert r[i][j][k] == Some(Render(ds[n]));
  }

  /** The slot that position `p` of the padded list lands in. */
  lemma SlotOf(workers: Fanout, branches: Fanout, spec: DeviceSpec, ds: seq<Device>, p: nat) returns (i: nat, j: nat, k: nat)
    requires Supplied(spec) == Some(ds) && ds != []
    requires Size(workers) * Size(branches) >= 1 && p < |Pad(ds, Size(workers) * Size(branches))|
    ensures var r := GetDevices(workers, branches, spec);
      r.Ok? && i < |r.value| && j < |r.value[i]| && k < |r.value[i][j]| &&
      r.value[i][j][k] == Some(Render(Pad(ds, Size(workers) * Size(branches))[p]))
    ensures var c := CeilDiv(|ds|, Size(workers) * Size(branches)); k < c && Position(Size(branches), c, i, j, k) == p
  {
    var w, b := Size(workers), Size(branches);
    var c := CeilDiv(|ds|, w * b);
    PadLength(ds, w * b);
    i, j, k := Locate(w, b, c, p);
    assert Position(b, c, i, j, k) == p;
    FlatSlot(workers, branches, spec, ds, i, j, k);
  }

  /** A position past the first block lies in a later block. */
  lemma FirstBlock(b: nat, per: nat, i: nat, j: nat, k: nat, p: nat)
    requires k < per && Position(b, per, i, j, k) == p && p >= per
    ensures (i, j) != (0, 0)
  {
  }

  /** The padded list starts with the list's first device. */
  lemma PadFirst(ds: seq<Device>, total: nat)
    requires |ds| >= 1 && total >= 1
    ensures |Pad(ds, total)| >= 1 && Pad(ds, total)[0] == ds[0]
  {
    if total > |ds| {
      var q := total / |ds|;
      DivModUnique(total, |ds|, q, total % |ds|);
      if q == 0 {
        assert false;
      }
      RepeatEachAt(ds, q, 0, 0);
      assert Pad(ds, total) == RepeatEach(ds, q) + ds[..total % |ds|];
    } else {
      assert Pad(ds, total) == ds + ds[..(-|ds|) % total];
    }
  }

  /** More slots than devices: the first device fills a second slot. */
  lemma PadRepeatsFirstShort(ds: seq<Device>, total: nat) returns (p: nat)
    requires 1 <= |ds| < total
    ensures CeilDiv(|ds|, total) <= p < |Pad(ds, total)| && Pad(ds, total)[p] == ds[0]
  {
    var l, q := |ds|, total / |ds|;
    DivModUnique(l + total - 1, total, 1, l - 1);
    if q >= 2 {
      RepeatEachAt(ds, q, 0, 1);
      p := 1;
    } else {
      p := l;
      assert Pad(ds, total)[p] == ds[0];
    }
  }

  /** `ceil(a / b)` never exceeds `a` for positive `a` and `b`. */
  lemma CeilAtMost(a: nat, b: nat)
    requires a >= 1 && b >= 1
    ensures CeilDiv(a, b) <= a
  {
    var q := CeilDiv(a, b);
    assert a + b - 1 == q * b + (a + b - 1) % b;
    if q > a {
      MulLe(a + 1, q, b);
      MulAtLeast(b, a);
      assert false;
    }
  }

  /** Padding a list that `t` does not divide appends a non-empty prefix. */
  lemma PadRemainder(l: int, t: nat)
    requires t >= 1 && l % t != 0
    ensures (-l) % t != 0
  {
    if (-l) % t == 0 {
      var q := (-l) / t;
      assert -l == q * t;
      DivModUnique(l, t, -q, 0);
      assert false;
    }
  }

  /** At least as many devices as slots, but not a multiple: the padding
    * starts over with the first device, beyond the first slot's block. */
  lemma PadRepeatsFirstLong(ds: seq<Device>, total: nat) returns (p: nat)
    requires 1 <= total <= |ds| && |ds| % total != 0
    ensures CeilDiv(|ds|, total) <= p < |Pad(ds, total)| && Pad(ds, total)[p] == ds[0]
  {
    PadRemainder(|ds|, total);
    CeilAtMost(|ds|, total);
    var e := (-|ds|) % total;
    assert Pad(ds, total) == ds + ds[..e];
    p := |ds|;
  }

  /** A position of the padded list beyond the first block lands in a branch
    * other than branch 0 of worker 0. */
  lemma BeyondFirstSlot(workers: Fanout, branches: Fanout, spec: DeviceSpec, ds: seq<Device>, p: nat)
    requires Supplied(spec) == Some(ds) && ds != []
    requires Size(workers) * Size(branches) >= 1
    requires CeilDiv(|ds|, Size(workers) * Size(branches)) <= p < |Pad(ds, Size(workers) * Size(branches))|
    ensures var r, d := GetDevices(workers, branches, spec), Pad(ds, Size(workers) * Size(branches))[p];
      r.Ok? &&
      exists i, j, k :: 0 <= i < |r.value| && 0 <= j < |r.value[i]| && 0 <= k < |r.value[i][j]| &&
        (i, j) != (0, 0) && r.value[i][j][k] == Some(Render(d))
  {
    var i, j, k := SlotOf(workers, branches, spec, ds, p);
    FirstBlock(Size(branches), CeilDiv(|ds|, Size(workers) * Size(branches)), i, j, k, p);
    var r := GetDevices(workers, branches, spec).value;
    assert (i, j) != (0, 0) && r[i][j][k] == Some(Render(Pad(ds, Size(workers) * Size(branches))[p]));
  }

  /** When the slot count does not divide the list, the first device is
    * handed to a second branch as well: devices are shared, not partitioned. */
  lemma FlatShares(workers: Fanout, branches: Fanout, spec: DeviceSpec, ds: seq<Device>)
    requires Supplied(spec) == Some(ds) && ds != []
    requires Size(workers) * Size(branches) >= 1
    requires |ds| % (Size(workers) * Size(branches)) != 0
    ensures var r := GetDevices(workers, branches, spec);
      r.Ok? && |r.value| >= 1 && |r.value[0]| >= 1 && |r.value[0][0]| >= 1 &&
      r.value[0][0][0] == Some(Render(ds[0])) &&
      exists i, j, k :: 0 <= i < |r.value| && 0 <= j < |r.value[i]| && 0 <= k < |r.value[i][j]| &&
        (i, j) != (0, 0) && r.value[i][j][k] == Some(Render(ds[0]))
  {
    var total := Size(workers) * Size(branches);
    PadLength(ds, total);
    FlatSlot(workers, branches, spec, ds, 0, 0, 0);
    var p := PadRepeatsFirst(ds, total);
    BeyondFirstSlot(workers, branches, spec, ds, p);
  }

  /** When `total` does not divide the list, the padded list holds the first
    * device both at its start and beyond the first slot's block. */
  lemma PadRepeatsFirst(ds: seq<Device>, total: nat) returns (p: nat)
    requires |ds| >= 1 && total >= 1 && |ds| % total != 0
    ensures |Pad(ds, total)| >= 1 && Pad(ds, total)[0] == ds[0]
    ensures CeilDiv(|ds|, total) <= p < |Pad(ds, total)| && Pad(ds, total)[p] == ds[0]
  {
    PadFirst(ds, total);
    if total > |ds| {
      p := PadRepeatsFirstShort(ds, total);
    } else {
      p := PadRepeatsFirstLong(ds, total);
    }
  }

  /** When the slot count divides the list, slot `s` (worker-major) receives
    * exactly devices `c*s .. c*s + c - 1`: the list is partitioned. */
  lemma FlatPartitions(workers: Fanout, branches: Fanout, spec: DeviceSpec, ds: seq<Device>)
    requires Supplied(spec) == Some(ds) && ds != []
    requires Size(workers) * Size(branches) >= 1
    requires |ds| % (Size(workers) * Size(branches)) == 0
    ensures var w, b := Size(workers), Size(branches);
      var r, c := GetDevices(workers, branches, spec), CeilDiv(|ds|, w * b);
      r.Ok? && w * b * c == |ds| &&
      (forall i, j :: 0 <= i < w && 0 <= j < b ==> |r.value[i][j]| == c) &&
      (forall i, j, k :: 0 <= i < w && 0 <= j < b && 0 <= k < c ==>
        Position(b, c, i, j, k) < |ds| && r.value[i][j][k] == Some(Render(ds[Position(b, c, i, j, k)])))
  {
    var w, b := Size(workers), Size(branches);
    FlatShape(workers, branches, spec, ds);
    PadLength(ds, w * b);
    PadExact(ds, w * b);
  }

  /** An explicit nested layout keeps its shape; every device is rendered
    * (an integer becomes its decimal string), a `None` device stays `None`
    * and a `None` branch entry becomes `[]`. */
  lemma NestedLayout(workers: Fanout, branches: Fanout, ws: seq<seq<BranchDevices>>)
    requires ws != []
    ensures var r := GetDevices(workers, branches, Nested(ws));
      r.Ok? && |r.value| == |ws| &&
      forall i, j :: 0 <= i < |ws| && 0 <= j < |ws[i]| ==>
        j < |r.value[i]| &&
        (ws[i][j] == None ==> r.value[i][j] == []) &&
        (ws[i][j] != None ==> (|r.value[i][j]| == |ws[i][j].value| &&
          forall k :: 0 <= k < |r.value[i][j]| ==>
            (ws[i][j].value[k] == None ==> r.value[i][j][k] == None) &&
            (ws[i][j].value[k] != None ==> r.value[i][j][k] == Some(Render(ws[i][j].value[k].value)))))
  {
  }

  /** The as-written code raises `TypeError` exactly where the corrected
    * transformation maps a `None` branch entry to `[]`. */
  lemma NoneEntryRaisesAsWritten(workers: Fanout, branches: Fanout, ws: seq<seq<BranchDevices>>, i: nat, j: nat)
    requires i < |ws| && j < |ws[i]| && ws[i][j] == None
    ensures GetDevicesAsWritten(workers, branches, Nested(ws)) == Err(TypeError)
    ensures var r := GetDevices(workers, branches, Nested(ws)); r.Ok? && r.value[i][j] == []
  {
  }

  /** Apart from that entry, both versions agree. */
  lemma AsWrittenAgrees(workers: Fanout, branches: Fanout, spec: DeviceSpec)
    requires !spec.Nested? || forall i, j :: 0 <= i < |spec.ws| && 0 <= j < |spec.ws[i]| ==> spec.ws[i][j] != None
    ensures GetDevicesAsWritten(workers, branches, spec) == GetDevices(workers, branches, spec)
  {
    match Reshape(workers, branches, spec)
    case Err(_) =>
    case Ok(ws) =>
      if !spec.Nested? {
        forall i, j | 0 <= i < |ws| && 0 <= j < |ws[i]|
          ensures ws[i][j] != None
        {
        }
      }
  }

  // ---------------------------------------------------------------------
  // Research.run: fan-out normalisation (lines 223-227, 233-235, 245-248)
  // ---------------------------------------------------------------------

  /** Lines 223-227: a run that is not parallel keeps a single worker. */
  function Sequential(workers: Fanout, parallel: bool): (r: Result<Fanout>)
    ensures r.Err? <==> !parallel && workers == Configs([])
    ensures r.Ok? && !parallel ==> Size(r.value) == 1
    ensures r.Ok? && !parallel && workers.Configs? ==> r.value == Configs(workers.cs[..1])
    ensures parallel ==> r == Ok(workers)
  {
    if parallel then Ok(workers)
    else
      match workers
      case Count(_) => Ok(Count(1))
      case Configs(cs) => if cs == [] then Err(IndexError) else Ok(Configs([cs[0]]))
  }

  /** Lines 245-248: a count becomes that many empty configs. */
  function Expand(f: Fanout): (cs: seq<Config>)
    ensures |cs| == Size(f)
    ensures f.Configs? ==> cs == f.cs
    ensures f.Count? ==> forall k :: 0 <= k < |cs| ==> cs[k] == EmptyConfig
  {
    match f
    case Count(n) => seq(n, _ => EmptyConfig)
    case Configs(cs) => cs
  }

  /** What `run` has prepared when it builds the task queue. */
  datatype Setup = Setup(workers: seq<Config>, branches: seq<Config>, devices: Layout)

  /** Lines 223-248 of `Research.run`, without the folder, logging and
    * environment side effects. */
  function Prepare(workers: Fanout, branches: Fanout, devices: DeviceSpec, parallel: bool): Result<Setup>
  {
    match Sequential(workers, parallel)
    case Err(e) => Err(e)
    case Ok(ws) =>
      match GetDevicesAsWritten(ws, branches, devices)
      case Err(e) => Err(e)
      case Ok(layout) => Ok(Setup(Expand(ws), Expand(branches), layout))
  }

  /** `run` calls `get_devices` as written (line 233), so a nested layout
    * with a `None` branch entry stops it with `TypeError`. */
  lemma PrepareNoneEntry(workers: Fanout, branches: Fanout, ws: seq<seq<BranchDevices>>, i: nat, j: nat, parallel: bool)
    requires Sequential(workers, parallel).Ok?
    requires i < |ws| && j < |ws[i]| && ws[i][j] == None
    ensures Prepare(workers, branches, Nested(ws), parallel) == Err(TypeError)
  {
    NoneEntryRaisesAsWritten(Sequential(workers, parallel).value, branches, ws, i, j);
  }

  /** A prepared run has one device row per worker and one device list per
    * branch (unless the caller supplied the nested layout), and a run that
    * is not parallel has exactly one worker. */
  lemma PrepareShape(workers: Fanout, branches: Fanout, devices: DeviceSpec, parallel: bool)
    requires Prepare(workers, branches, devices, parallel).Ok?
    ensures var s := Prepare(workers, branches, devices, parallel).value;
      (!parallel ==> |s.workers| == 1) &&
      (parallel ==> |s.workers| == Size(workers)) &&
      |s.branches| == Size(branches) &&
      (!devices.Nested? ==> (|s.devices| == |s.workers| &&
        forall i :: 0 <= i < |s.devices| ==> |s.devices[i]| == |s.branches|))
  {
    var ws := Sequential(workers, parallel).value;
    assert GetDevicesAsWritten(ws, branches, devices) == GetDevices(ws, branches, devices);
    match devices
    case NoDevices =>
      NoDevicesLayout(ws, branches);
    case Single(d) =>
      FlatShape(ws, branches, devices, [d]);
    case Flat(ds) =>
      FlatShape(ws, branches, devices, ds);
    case Nested(_) =>
  }
}
