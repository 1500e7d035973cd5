/**
 * Geometry of an IDML spread (generate_slot_report.py): the affine
 * `ItemTransform` of an element, page bounds, point containment and the walk
 * over a spread's element tree that collects rectangles, polygons and text
 * frames together with their accumulated transforms.
 *
 * Python's `float(chunk)` is the parameter `parseFloat`; the XML tree is the
 * `Element` datatype below.
 */
module SlotReport {
  import opened Wrappers
  import opened Text

  datatype Point = Point(x: real, y: real)

  /** The affine map (x, y) ↦ (a·x + c·y + tx, b·x + d·y + ty). */
  datatype Transform = Transform(a: real, b: real, c: real, d: real, tx: real, ty: real)

  /** `Transform()` with its field defaults. */
  const Identity := Transform(1.0, 0.0, 0.0, 1.0, 0.0, 0.0)

  /** `inverse` treats a transform whose |determinant| is below this as singular. */
  const SingularDeterminant: real := 0.000000001

  function Coefficients(t: Transform): seq<real> {
    [t.a, t.b, t.c, t.d, t.tx, t.ty]
  }

  // ---------------------------------------------------------------------------
  // apply, combine, inverse
  // ---------------------------------------------------------------------------

  function Apply(t: Transform, p: Point): Point {
    Point(t.a * p.x + t.c * p.y + t.tx, t.b * p.x + t.d * p.y + t.ty)
  }

  /** `s.combine(o)`: the product of the two matrices, `s` applied last. */
  function Combine(s: Transform, o: Transform): Transform {
    Transform(
      s.a * o.a + s.c * o.b,
      s.b * o.a + s.d * o.b,
      s.a * o.c + s.c * o.d,
      s.b * o.c + s.d * o.d,
      s.a * o.tx + s.c * o.ty + s.tx,
      s.b * o.tx + s.d * o.ty + s.ty)
  }

  /** One coordinate of `combine`: composing the rows is applying them in turn. */
  lemma RowCompose(sa: real, sc: real, st: real, oa: real, ob: real, oc: real, od: real, otx: real, oty: real,
                   x: real, y: real)
    ensures (sa * oa + sc * ob) * x + (sa * oc + sc * od) * y + (sa * otx + sc * oty + st)
         == sa * (oa * x + oc * y + otx) + sc * (ob * x + od * y + oty) + st
  {
    calc {
      (sa * oa + sc * ob) * x + (sa * oc + sc * od) * y + (sa * otx + sc * oty + st);
      sa * oa * x + sc * ob * x + sa * oc * y + sc * od * y + sa * otx + sc * oty + st;
      sa * (oa * x + oc * y + otx) + sc * (ob * x + od * y + oty) + st;
    }
  }

  /** `s.combine(o)` applies `o` first and then `s`. */
  lemma CombineApply(s: Transform, o: Transform, p: Point)
    ensures Apply(Combine(s, o), p) == Apply(s, Apply(o, p))
  {
    var q := Apply(o, p);
    var r := Combine(s, o);
    RowCompose(s.a, s.c, s.tx, o.a, o.b, o.c, o.d, o.tx, o.ty, p.x, p.y);
    RowCompose(s.b, s.d, s.ty, o.a, o.b, o.c, o.d, o.tx, o.ty, p.x, p.y);
    assert Apply(r, p).x == Apply(s, q).x;
    assert Apply(r, p).y == Apply(s, q).y;
  }

  /** The default transform moves no point and is neutral for `combine`. */
  lemma IdentityNeutral(t: Transform, p: Point)
    ensures Apply(Identity, p) == p
    ensures Combine(t, Identity) == t && Combine(Identity, t) == t
  {
  }

  function Abs(r: real): real {
    if r < 0.0 then -r else r
  }

  function Determinant(t: Transform): real {
    t.a * t.d - t.b * t.c
  }

  /** `inverse()`: None for a (nearly) singular matrix, else the inverse map. */
  function Inverse(t: Transform): (r: Option<Transform>)
    ensures r.None? <==> Abs(Determinant(t)) < SingularDeterminant
  {
    var det := Determinant(t);
    if Abs(det) < SingularDeterminant then None
    else
      var ia := t.d / det;
      var ib := -t.b / det;
      var ic := -t.c / det;
      var id := t.a / det;
      Some(Transform(ia, ib, ic, id, -(ia * t.tx + ic * t.ty), -(ib * t.tx + id * t.ty)))
  }

  lemma DivSum(u: real, v: real, p: real, q: real, det: real)
    requires det != 0.0
    ensures (p / det) * u + (q / det) * v == (p * u + q * v) / det
    ensures u * (p / det) + v * (q / det) == (p * u + q * v) / det
  {
    assert (p / det) * u == (p * u) / det;
    assert (q / det) * v == (q * v) / det;
  }

  /** The entries of the inverse matrix, as `inverse` computes them, undo the matrix on both sides. */
  lemma MatrixInverse(a: real, b: real, c: real, d: real, det: real, ia: real, ib: real, ic: real, id: real)
    requires det == a * d - b * c && det != 0.0
    requires ia == d / det && ib == -b / det && ic == -c / det && id == a / det
    ensures && ia * a + ic * b == 1.0 && ia * c + ic * d == 0.0
            && ib * a + id * b == 0.0 && ib * c + id * d == 1.0
            && a * ia + c * ib == 1.0 && a * ic + c * id == 0.0
            && b * ia + d * ib == 0.0 && b * ic + d * id == 1.0
  {
    DivSum(a, b, d, -c, det);
    DivSum(c, d, d, -c, det);
    DivSum(a, b, -b, a, det);
    DivSum(c, d, -b, a, det);
    DivSum(a, c, d, -b, det);
    DivSum(a, c, -c, a, det);
    DivSum(b, d, d, -b, det);
    DivSum(b, d, -c, a, det);
  }

  /** An affine map whose linear part is undone by (ia, ib, ic, id) is undone by the inverse's translation too. */
  lemma AffineUndo(a: real, b: real, c: real, d: real, tx: real, ty: real,
                   ia: real, ib: real, ic: real, id: real, x: real, y: real)
    requires ia * a + ic * b == 1.0 && ia * c + ic * d == 0.0
    requires ib * a + id * b == 0.0 && ib * c + id * d == 1.0
    ensures ia * (a * x + c * y + tx) + ic * (b * x + d * y + ty) + -(ia * tx + ic * ty) == x
    ensures ib * (a * x + c * y + tx) + id * (b * x + d * y + ty) + -(ib * tx + id * ty) == y
  {
    calc {
      ia * (a * x + c * y + tx) + ic * (b * x + d * y + ty) + -(ia * tx + ic * ty);
      (ia * a + ic * b) * x + (ia * c + ic * d) * y;
      x;
    }
    calc {
      ib * (a * x + c * y + tx) + id * (b * x + d * y + ty) + -(ib * tx + id * ty);
      (ib * a + id * b) * x + (ib * c + id * d) * y;
      y;
    }
  }

  /** The same, with the inverse applied first. */
  lemma AffineRedo(a: real, b: real, c: real, d: real, tx: real, ty: real,
                   ia: real, ib: real, ic: real, id: real, x: real, y: real)
    requires a * ia + c * ib == 1.0 && a * ic + c * id == 0.0
    requires b * ia + d * ib == 0.0 && b * ic + d * id == 1.0
    ensures a * (ia * x + ic * y + -(ia * tx + ic * ty)) + c * (ib * x + id * y + -(ib * tx + id * ty)) + tx == x
    ensures b * (ia * x + ic * y + -(ia * tx + ic * ty)) + d * (ib * x + id * y + -(ib * tx + id * ty)) + ty == y
  {
    calc {
      a * (ia * x + ic * y + -(ia * tx + ic * ty)) + c * (ib * x + id * y + -(ib * tx + id * ty)) + tx;
      (a * ia + c * ib) * x + (a * ic + c * id) * y - (a * ia + c * ib) * tx - (a * ic + c * id) * ty + tx;
      x;
    }
    calc {
      b * (ia * x + ic * y + -(ia * tx + ic * ty)) + d * (ib * x + id * y + -(ib * tx + id * ty)) + ty;
      (b * ia + d * ib) * x + (b * ic + d * id) * y - (b * ia + d * ib) * tx - (b * ic + d * id) * ty + ty;
      y;
    }
  }

  /** The entries `inverse` computes, one by one. */
  lemma InverseFields(t: Transform)
    requires Inverse(t).Some?
    ensures var i := Inverse(t).value; var det := Determinant(t);
      && det != 0.0
      && i.a == t.d / det && i.b == -t.b / det && i.c == -t.c / det && i.d == t.a / det
      && i.tx == -(i.a * t.tx + i.c * t.ty) && i.ty == -(i.b * t.tx + i.d * t.ty)
  {
  }

  /** What `inverse` computes, for an invertible transform, in terms of products only. */
  lemma InverseEntries(t: Transform)
    requires Inverse(t).Some?
    ensures var i := Inverse(t).value;
      && i.a * t.a + i.c * t.b == 1.0 && i.a * t.c + i.c * t.d == 0.0
      && i.b * t.a + i.d * t.b == 0.0 && i.b * t.c + i.d * t.d == 1.0
      && t.a * i.a + t.c * i.b == 1.0 && t.a * i.c + t.c * i.d == 0.0
      && t.b * i.a + t.d * i.b == 0.0 && t.b * i.c + t.d * i.d == 1.0
      && i.tx == -(i.a * t.tx + i.c * t.ty) && i.ty == -(i.b * t.tx + i.d * t.ty)
  {
    InverseFields(t);
    var i := Inverse(t).value;
    MatrixInverse(t.a, t.b, t.c, t.d, Determinant(t), i.a, i.b, i.c, i.d);
  }

  lemma UndoPoint(t: Transform, i: Transform, p: Point)
    requires i.a * t.a + i.c * t.b == 1.0 && i.a * t.c + i.c * t.d == 0.0
    requires i.b * t.a + i.d * t.b == 0.0 && i.b * t.c + i.d * t.d == 1.0
    requires i.tx == -(i.a * t.tx + i.c * t.ty) && i.ty == -(i.b * t.tx + i.d * t.ty)
    ensures Apply(i, Apply(t, p)) == p
  {
    AffineUndo(t.a, t.b, t.c, t.d, t.tx, t.ty, i.a, i.b, i.c, i.d, p.x, p.y);
  }

  lemma RedoPoint(t: Transform, i: Transform, p: Point)
    requires t.a * i.a + t.c * i.b == 1.0 && t.a * i.c + t.c * i.d == 0.0
    requires t.b * i.a + t.d * i.b == 0.0 && t.b * i.c + t.d * i.d == 1.0
    requires i.tx == -(i.a * t.tx + i.c * t.ty) && i.ty == -(i.b * t.tx + i.d * t.ty)
    ensures Apply(t, Apply(i, p)) == p
  {
    AffineRedo(t.a, t.b, t.c, t.d, t.tx, t.ty, i.a, i.b, i.c, i.d, p.x, p.y);
  }

  /** Mapping a point with `t` and then with `t.inverse()` gives the point back. */
  lemma InverseUndoes(t: Transform, p: Point)
    requires Inverse(t).Some?
    ensures Apply(Inverse(t).value, Apply(t, p)) == p
  {
    InverseEntries(t);
    UndoPoint(t, Inverse(t).value, p);
  }

  /** Mapping a point with `t.inverse()` and then with `t` gives the point back. */
  lemma InverseRedoes(t: Transform, p: Point)
    requires Inverse(t).Some?
    ensures Apply(t, Apply(Inverse(t).value, p)) == p
  {
    InverseEntries(t);
    RedoPoint(t, Inverse(t).value, p);
  }

  // ---------------------------------------------------------------------------
  // Parsing numbers out of attribute strings
  // ---------------------------------------------------------------------------

  /** `value.replace(",", " ").split()`. */
  function Chunks(value: string): seq<string> {
    Words(ReplaceChar(value, ',', ' '))
  }

  /** The chunks that `parseFloat` accepts, converted, in order; the others are skipped. */
  function ParseAll(chunks: seq<string>, parseFloat: string -> Option<real>): (nums: seq<real>)
    ensures |nums| <= |chunks|
  {
    if chunks == [] then []
    else
      var last := chunks[|chunks| - 1];
      ParseAll(chunks[..|chunks| - 1], parseFloat)
        + (if last == [] || parseFloat(last).None? then [] else [parseFloat(last).value])
  }

  /** Every number kept is the value of one of the chunks. */
  lemma {:induction false} ParseAllSound(chunks: seq<string>, parseFloat: string -> Option<real>)
    ensures forall k :: 0 <= k < |ParseAll(chunks, parseFloat)| ==>
      exists j :: 0 <= j < |chunks| && parseFloat(chunks[j]) == Some(ParseAll(chunks, parseFloat)[k])
  {
    if chunks != [] {
      ParseAllSound(chunks[..|chunks| - 1], parseFloat);
      var init := chunks[..|chunks| - 1];
      var nums := ParseAll(chunks, parseFloat);
      forall k | 0 <= k < |nums|
        ensures exists j :: 0 <= j < |chunks| && parseFloat(chunks[j]) == Some(nums[k])
      {
        if k < |ParseAll(init, parseFloat)| {
          var j :| 0 <= j < |init| && parseFloat(init[j]) == Some(ParseAll(init, parseFloat)[k]);
          assert chunks[j] == init[j];
        } else {
          assert parseFloat(chunks[|chunks| - 1]) == Some(nums[k]);
        }
      }
    } else {
      assert ParseAll(chunks, parseFloat) == [];
    }
  }

  /** When every chunk parses, nothing is skipped. */
  lemma {:induction false} ParseAllComplete(chunks: seq<string>, parseFloat: string -> Option<real>)
    requires forall k :: 0 <= k < |chunks| ==> chunks[k] != [] && parseFloat(chunks[k]).Some?
    ensures |ParseAll(chunks, parseFloat)| == |chunks|
    ensures forall k :: 0 <= k < |chunks| ==> ParseAll(chunks, parseFloat)[k] == parseFloat(chunks[k]).value
  {
    if chunks != [] {
      ParseAllComplete(chunks[..|chunks| - 1], parseFloat);
    }
  }

  /** The loop shared by `Transform.from_string` and `Bounds.from_string`, over the chunks. */
  method ParseChunks(chunks: seq<string>, parseFloat: string -> Option<real>) returns (numbers: seq<real>)
    ensures numbers == ParseAll(chunks, parseFloat)
  {
    numbers := [];
    var i := 0;
    while i < |chunks|
      invariant 0 <= i <= |chunks|
      invariant numbers == ParseAll(chunks[..i], parseFloat)
    {
      var chunk := chunks[i];
      assert chunks[..i + 1][..i] == chunks[..i];
      assert chunks[..i + 1][i] == chunk;
      if chunk != [] {
        var parsed := parseFloat(chunk);
        if parsed.Some? {
          numbers := numbers + [parsed.value];
        }
      }
      i := i + 1;
    }
    assert chunks[..i] == chunks;
  }

  /** Splitting `value` into chunks and parsing those that are numbers. */
  method ParseNumbers(value: string, parseFloat: string -> Option<real>) returns (numbers: seq<real>)
    ensures numbers == ParseAll(Chunks(value), parseFloat)
  {
    var chunks := Chunks(value);
    numbers := ParseChunks(chunks, parseFloat);
  }

  /**
   * Numbers printed by `show`, which `parseFloat` reads back and which never
   * contains whitespace or a comma, separated by spaces, parse back to the
   * same numbers.
   */
  lemma FormattedNumbersParse(xs: seq<real>, show: real -> string, parseFloat: string -> Option<real>)
    requires forall x :: IsWord(show(x)) && ',' !in show(x) && parseFloat(show(x)) == Some(x)
    ensures var text := Join(seq(|xs|, k requires 0 <= k < |xs| => show(xs[k])), " ");
      ParseAll(Chunks(text), parseFloat) == xs
  {
    var ws := seq(|xs|, k requires 0 <= k < |xs| => show(xs[k]));
    var text := Join(ws, " ");
    forall k | 0 <= k < |ws|
      ensures IsWord(ws[k]) && ',' !in ws[k] && parseFloat(ws[k]) == Some(xs[k])
    {
      var x := xs[k];
      assert ws[k] == show(x);
      assert IsWord(show(x)) && ',' !in show(x) && parseFloat(show(x)) == Some(x);
    }
    JoinNoComma(ws, " ");
    assert ReplaceChar(text, ',', ' ') == text;
    WordsOfJoin(ws);
    ParseAllComplete(ws, parseFloat);
  }

  lemma {:induction false} JoinNoComma(ws: seq<string>, sep: string)
    requires forall k :: 0 <= k < |ws| ==> ',' !in ws[k]
    requires ',' !in sep
    ensures ',' !in Join(ws, sep)
  {
    if |ws| > 1 {
      JoinNoComma(ws[1..], sep);
    }
  }

  // ---------------------------------------------------------------------------
  // Transform.from_string
  // ---------------------------------------------------------------------------

  function Zeros(n: nat): (z: seq<real>)
    ensures |z| == n && forall k :: 0 <= k < n ==> z[k] == 0.0
  {
    seq(n, _ => 0.0)
  }

  /** Number `k` of the parsed ones, or 0.0 when fewer than `k + 1` parsed. */
  function NumberAt(nums: seq<real>, k: nat): real {
    if k < |nums| then nums[k] else 0.0
  }

  /** The parsed numbers padded with 0.0 up to six. */
  function Padded(nums: seq<real>): (r: seq<real>)
    ensures |r| >= 6
    ensures forall k :: 0 <= k < 6 ==> r[k] == NumberAt(nums, k)
  {
    if |nums| >= 6 then nums else nums + Zeros(6 - |nums|)
  }

  /** The transform an `ItemTransform` attribute denotes. */
  function TransformOf(value: Option<string>, parseFloat: string -> Option<real>): Transform {
    if value.None? || value.value == [] then Identity
    else
      var p := Padded(ParseAll(Chunks(value.value), parseFloat));
      Transform(p[0], p[1], p[2], p[3], p[4], p[5])
  }

  /**
   * A missing or empty attribute is the identity; otherwise the coefficients
   * a, b, c, d, tx, ty are the first six numbers that parsed, read in that
   * order, with 0.0 for each one missing, and later numbers are ignored.
   */
  lemma TransformOfCoefficients(value: Option<string>, parseFloat: string -> Option<real>)
    ensures value.None? || value.value == [] ==> TransformOf(value, parseFloat) == Identity
    ensures value.Some? && value.value != [] ==>
      var nums := ParseAll(Chunks(value.value), parseFloat);
      var t := TransformOf(value, parseFloat);
      && t.a == NumberAt(nums, 0) && t.b == NumberAt(nums, 1) && t.c == NumberAt(nums, 2)
      && t.d == NumberAt(nums, 3) && t.tx == NumberAt(nums, 4) && t.ty == NumberAt(nums, 5)
  {
  }

  /** Six printed coefficients separated by spaces read back as the same transform. */
  lemma TransformFormatRoundTrip(t: Transform, show: real -> string, parseFloat: string -> Option<real>)
    requires forall x :: IsWord(show(x)) && ',' !in show(x) && parseFloat(show(x)) == Some(x)
    ensures var xs := Coefficients(t);
      TransformOf(Some(Join(seq(6, k requires 0 <= k < 6 => show(xs[k])), " ")), parseFloat) == t
  {
    var xs := Coefficients(t);
    var text := Join(seq(6, k requires 0 <= k < 6 => show(xs[k])), " ");
    FormattedNumbersParse(xs, show, parseFloat);
    assert show(xs[0]) != [];
    assert text != [];
  }

  /** `Transform.from_string(value)`. */
  method TransformFromString(value: Option<string>, parseFloat: string -> Option<real>) returns (t: Transform)
    ensures t == TransformOf(value, parseFloat)
  {
    if value.None? || value.value == [] {
      return Identity;
    }
    var numbers := ParseNumbers(value.value, parseFloat);
    var parts := numbers;
    while |parts| < 6
      invariant |numbers| <= |parts|
      invariant |numbers| < 6 ==> |parts| <= 6
      invariant forall k :: 0 <= k < |parts| ==> parts[k] == NumberAt(numbers, k)
    {
      parts := parts + [0.0];
    }
    t := Transform(parts[0], parts[1], parts[2], parts[3], parts[4], parts[5]);
  }

  // ---------------------------------------------------------------------------
  // Bounds
  // ---------------------------------------------------------------------------

  datatype Bounds = Bounds(top: real, left: real, bottom: real, right: real)

  function Width(b: Bounds): real {
    b.right - b.left
  }

  function Height(b: Bounds): real {
    b.bottom - b.top
  }

  /**
   * `Bounds.from_string(value)`: exactly four numbers must parse, read as
   * top, left, bottom, right; anything else, and a missing or empty value, is
   * None.
   */
  method BoundsFromString(value: Option<string>, parseFloat: string -> Option<real>) returns (r: Option<Bounds>)
    ensures r.Some? <==>
      (value.Some? && value.value != [] && |ParseAll(Chunks(value.value), parseFloat)| == 4)
    ensures r.Some? ==>
      var nums := ParseAll(Chunks(value.value), parseFloat);
      && r.value.top == nums[0] && r.value.left == nums[1]
      && r.value.bottom == nums[2] && r.value.right == nums[3]
  {
    if value.None? || value.value == [] {
      return None;
    }
    var numbers := ParseNumbers(value.value, parseFloat);
    if |numbers| != 4 {
      return None;
    }
    r := Some(Bounds(numbers[0], numbers[1], numbers[2], numbers[3]));
  }

  function Xs(points: seq<Point>): seq<real> {
    seq(|points|, i requires 0 <= i < |points| => points[i].x)
  }

  function Ys(points: seq<Point>): seq<real> {
    seq(|points|, i requires 0 <= i < |points| => points[i].y)
  }

  /** `min(xs)`. */
  function MinOf(xs: seq<real>): (m: real)
    requires xs != []
    ensures m in xs && forall k :: 0 <= k < |xs| ==> m <= xs[k]
  {
    if |xs| == 1 then xs[0]
    else
      var rest := MinOf(xs[1..]);
      if xs[0] <= rest then xs[0] else rest
  }

  /** `max(xs)`. */
  function MaxOf(xs: seq<real>): (m: real)
    requires xs != []
    ensures m in xs && forall k :: 0 <= k < |xs| ==> xs[k] <= m
  {
    if |xs| == 1 then xs[0]
    else
      var rest := MaxOf(xs[1..]);
      if xs[0] >= rest then xs[0] else rest
  }

  predicate Inside(b: Bounds, p: Point) {
    b.left <= p.x <= b.right && b.top <= p.y <= b.bottom
  }

  /**
   * `make_bounds_from_points`: None for no points, else the smallest
   * axis-aligned box holding all of them (each side touches a point), so its
   * width and height are never negative.
   */
  function MakeBoundsFromPoints(points: seq<Point>): (r: Option<Bounds>)
    ensures r.None? <==> points == []
    ensures r.Some? ==> forall k :: 0 <= k < |points| ==> Inside(r.value, points[k])
    ensures r.Some? ==>
      && (exists k :: 0 <= k < |points| && points[k].x == r.value.left)
      && (exists k :: 0 <= k < |points| && points[k].x == r.value.right)
      && (exists k :: 0 <= k < |points| && points[k].y == r.value.top)
      && (exists k :: 0 <= k < |points| && points[k].y == r.value.bottom)
    ensures r.Some? ==> Width(r.value) >= 0.0 && Height(r.value) >= 0.0
  {
    if points == [] then None
    else
      var xs := Xs(points);
      var ys := Ys(points);
      var b := Bounds(MinOf(ys), MinOf(xs), MaxOf(ys), MaxOf(xs));
      assert forall k :: 0 <= k < |points| ==> xs[k] == points[k].x && ys[k] == points[k].y;
      assert xs[0] == points[0].x;
      Some(b)
  }

  // ---------------------------------------------------------------------------
  // Pages
  // ---------------------------------------------------------------------------

  /**
   * A page of a spread: its transform from page to spread coordinates and its
   * bounds in page coordinates. The inverse transform the source caches at
   * construction is `Inverse(transform)`.
   */
  datatype PageInfo = PageInfo(
    index: int,
    spreadIndex: int,
    spreadId: string,
    pageId: string,
    name: string,
    transform: Transform,
    bounds: Bounds)

  predicate WithinTolerance(b: Bounds, p: Point, tolerance: real) {
    && b.left - tolerance <= p.x <= b.right + tolerance
    && b.top - tolerance <= p.y <= b.bottom + tolerance
  }

  /** `page.contains_spread_point(x, y, tolerance)`. */
  function ContainsSpreadPoint(page: PageInfo, p: Point, tolerance: real): (r: bool)
    ensures Inverse(page.transform).None? ==> !r
  {
    match Inverse(page.transform)
    case None => false
    case Some(inv) => WithinTolerance(page.bounds, Apply(inv, p), tolerance)
  }

  /**
   * For an invertible page transform, a spread point is on the page exactly
   * when it is the image of a page point inside the bounds widened by
   * `tolerance`.
   */
  lemma ContainsSpreadPointMeaning(page: PageInfo, p: Point, tolerance: real)
    requires Inverse(page.transform).Some?
    ensures ContainsSpreadPoint(page, p, tolerance) <==>
      exists q :: Apply(page.transform, q) == p && WithinTolerance(page.bounds, q, tolerance)
  {
    var inv := Inverse(page.transform).value;
    var local := Apply(inv, p);
    InverseRedoes(page.transform, p);
    forall q | Apply(page.transform, q) == p
      ensures q == local
    {
      InverseUndoes(page.transform, q);
    }
  }

  // ---------------------------------------------------------------------------
  // Tags and the element walk
  // ---------------------------------------------------------------------------

  /** Index of the first `c` in `s`. */
  function IndexOf(s: string, c: char): (k: Option<nat>)
    ensures k.None? <==> c !in s
    ensures k.Some? ==> k.value < |s| && s[k.value] == c && c !in s[..k.value]
  {
    if s == [] then None
    else if s[0] == c then Some(0)
    else
      match IndexOf(s[1..], c)
      case None => None
      case Some(j) => assert s[..j + 1] == [s[0]] + s[1..][..j]; Some(j + 1)
  }

  /** `strip_namespace(tag)`. */
  function StripNamespace(tag: string): string {
    match IndexOf(tag, '}')
    case None => tag
    case Some(k) => tag[k + 1..]
  }

  /**
   * `strip_namespace` keeps what follows the first `}`, and a tag without `}`
   * unchanged.
   */
  lemma StripNamespaceSpec(tag: string)
    ensures '}' !in tag ==> StripNamespace(tag) == tag
    ensures '}' in tag ==>
      exists k :: 0 <= k < |tag| && tag[k] == '}' && '}' !in tag[..k] && StripNamespace(tag) == tag[k + 1..]
  {
    var found := IndexOf(tag, '}');
    if found.Some? {
      var k := found.value;
      assert StripNamespace(tag) == tag[k + 1..];
    }
  }

  /** An XML element: its tag, its `ItemTransform` attribute and its children in document order. */
  datatype Element = Element(tag: string, itemTransform: Option<string>, children: seq<Element>)

  function Tag(e: Element): string {
    StripNamespace(e.tag)
  }

  predicate IsTargetTag(t: string) {
    t == "Rectangle" || t == "Polygon" || t == "TextFrame"
  }

  predicate IsContainerTag(t: string) {
    || t == "Spread" || t == "Page" || t == "Group" || t == "Button" || t == "State"
    || t == "MultiStateObject" || t == "EPSText" || t == "EPSGraphic"
    || t == "Rectangle" || t == "Polygon" || t == "TextFrame"
  }

  predicate HasTransformAttr(e: Element) {
    e.itemTransform.Some? && e.itemTransform.value != []
  }

  /** Whether the walk pushes `child`: never a Properties element, else a container, a target or a transformed element. */
  predicate Followed(child: Element) {
    Tag(child) != "Properties"
    && (IsContainerTag(Tag(child)) || HasTransformAttr(child) || IsTargetTag(Tag(child)))
  }

  /** The transform of `child` below a parent with transform `parent`. */
  function ChildTransform(parent: Transform, child: Element, parseFloat: string -> Option<real>): Transform {
    if HasTransformAttr(child) then Combine(parent, TransformOf(child.itemTransform, parseFloat)) else parent
  }

  /**
   * What the walk needs to know about elements: which children it pushes,
   * which popped elements it collects, and how a child's transform follows
   * from its parent's. The walk's shape is stated for any such rules, and
   * `Rules` gives the ones `iter_items_with_transforms` uses.
   */
  datatype WalkRules = WalkRules(
    follows: Element -> bool,
    collects: Element -> bool,
    step: (Transform, Element) -> Transform)

  function Rules(parseFloat: string -> Option<real>): WalkRules {
    WalkRules(
      (child: Element) => Followed(child),
      (e: Element) => IsTargetTag(Tag(e)),
      (parent: Transform, child: Element) => ChildTransform(parent, child, parseFloat))
  }

  /** What the walk collects: an element and the transform accumulated down to it. */
  datatype Found = Found(element: Element, transform: Transform)

  /**
   * An entry of the walk's stack. `path` lists the child indexes from the
   * root down to `element`; the root is the one entry with the empty path,
   * which is how `element is not root` is decided.
   */
  datatype Frame = Frame(element: Element, transform: Transform, path: seq<nat>)

  function Size(e: Element): nat
    decreases e
  {
    1 + SizeAll(e.children)
  }

  function SizeAll(cs: seq<Element>): nat
    decreases cs
  {
    if cs == [] then 0 else SizeAll(cs[..|cs| - 1]) + Size(cs[|cs| - 1])
  }

  function StackSize(stack: seq<Frame>): nat {
    if stack == [] then 0 else StackSize(stack[..|stack| - 1]) + Size(stack[|stack| - 1].element)
  }

  lemma {:induction false} StackSizeAppend(s: seq<Frame>, t: seq<Frame>)
    ensures StackSize(s + t) == StackSize(s) + StackSize(t)
  {
    if t == [] {
      assert s + t == s;
    } else {
      var u := s + t;
      assert u[..|u| - 1] == s + t[..|t| - 1];
      assert u[|u| - 1] == t[|t| - 1];
      StackSizeAppend(s, t[..|t| - 1]);
      assert StackSize(u) == StackSize(u[..|u| - 1]) + Size(u[|u| - 1].element);
    }
  }

  /** The frame the walk pushes for child `i` of `f.element`. */
  function ChildFrame(f: Frame, i: nat, rules: WalkRules): Frame
    requires i < |f.element.children|
  {
    var child := f.element.children[i];
    Frame(child, rules.step(f.transform, child), f.path + [i])
  }

  /** The frames pushed for the first `n` children of `f.element`, in order. */
  function PushedUpTo(f: Frame, n: nat, rules: WalkRules): seq<Frame>
    requires n <= |f.element.children|
  {
    if n == 0 then []
    else
      PushedUpTo(f, n - 1, rules)
        + (if rules.follows(f.element.children[n - 1]) then [ChildFrame(f, n - 1, rules)] else [])
  }

  /** The child index a pushed frame was made for: the last entry of its path. */
  function LastIndex(g: Frame): nat
    requires g.path != []
  {
    g.path[|g.path| - 1]
  }

  /** Each pushed frame is the frame of a followed child, and its path extends its parent's by that child's index. */
  lemma {:induction false} PushedFrames(f: Frame, n: nat, rules: WalkRules)
    requires n <= |f.element.children|
    ensures forall k :: 0 <= k < |PushedUpTo(f, n, rules)| ==>
      && |PushedUpTo(f, n, rules)[k].path| == |f.path| + 1
      && PushedUpTo(f, n, rules)[k].path[..|f.path|] == f.path
      && LastIndex(PushedUpTo(f, n, rules)[k]) < n
      && rules.follows(f.element.children[LastIndex(PushedUpTo(f, n, rules)[k])])
      && PushedUpTo(f, n, rules)[k] == ChildFrame(f, LastIndex(PushedUpTo(f, n, rules)[k]), rules)
  {
    if n > 0 {
      PushedFrames(f, n - 1, rules);
      var before := PushedUpTo(f, n - 1, rules);
      var pushed := PushedUpTo(f, n, rules);
      var p := f.path + [n - 1];
      assert p[..|f.path|] == f.path;
      forall k | 0 <= k < |pushed|
        ensures || (k < |before| && pushed[k] == before[k])
                || (rules.follows(f.element.children[n - 1]) && pushed[k] == ChildFrame(f, n - 1, rules))
      {
        if k < |before| {
          assert pushed[k] == before[k];
        }
      }
    } else {
      assert PushedUpTo(f, n, rules) == [];
    }
  }

  lemma {:induction false} PushedSize(f: Frame, n: nat, rules: WalkRules)
    requires n <= |f.element.children|
    ensures StackSize(PushedUpTo(f, n, rules)) <= SizeAll(f.element.children[..n])
  {
    if n > 0 {
      var cs := f.element.children;
      var before := PushedUpTo(f, n - 1, rules);
      PushedSize(f, n - 1, rules);
      assert cs[..n][..n - 1] == cs[..n - 1];
      assert SizeAll(cs[..n]) == SizeAll(cs[..n - 1]) + Size(cs[n - 1]);
      if rules.follows(cs[n - 1]) {
        var g := ChildFrame(f, n - 1, rules);
        StackSizeAppend(before, [g]);
        assert StackSize([g]) == Size(cs[n - 1]) by {
          assert [g][..0] == [];
        }
      } else {
        assert PushedUpTo(f, n, rules) == before + [];
        assert before + [] == before;
      }
    }
  }

  /** Popping `f` and pushing its followed children makes the stack smaller. */
  lemma PopPushShrinks(rest: seq<Frame>, f: Frame, rules: WalkRules)
    ensures StackSize(rest + PushedUpTo(f, |f.element.children|, rules)) < StackSize(rest + [f])
  {
    var cs := f.element.children;
    StackSizeAppend(rest, PushedUpTo(f, |cs|, rules));
    StackSizeAppend(rest, [f]);
    assert [f][..0] == [];
    PushedSize(f, |cs|, rules);
    assert cs[..|cs|] == cs;
  }

  /**
   * The items yielded by popping the last frame of `stack`, yielding it when
   * it is a target other than the root, pushing its followed children, and
   * going on until the stack is empty.
   */
  function Walk(stack: seq<Frame>, rules: WalkRules): seq<Frame>
    decreases StackSize(stack)
  {
    if stack == [] then []
    else
      var f := stack[|stack| - 1];
      var rest := stack[..|stack| - 1];
      assert stack == rest + [f];
      PopPushShrinks(rest, f, rules);
      Emitted(f, rules) + Walk(Successor(stack, rules), rules)
  }

  /** What popping `f` yields: `f` itself when it is a target other than the root. */
  function Emitted(f: Frame, rules: WalkRules): seq<Frame> {
    if rules.collects(f.element) && f.path != [] then [f] else []
  }

  /** The stack after popping its last frame and pushing that frame's followed children. */
  function Successor(stack: seq<Frame>, rules: WalkRules): seq<Frame>
    requires stack != []
  {
    var f := stack[|stack| - 1];
    stack[..|stack| - 1] + PushedUpTo(f, |f.element.children|, rules)
  }

  /**
   * The element reached from `e` by following the child indexes of `path`,
   * with its accumulated transform; None when an index is out of range or
   * names a child the walk does not follow.
   */
  function Follow(e: Element, t: Transform, path: seq<nat>, rules: WalkRules): Option<Found> {
    if path == [] then Some(Found(e, t))
    else
      match Follow(e, t, path[..|path| - 1], rules)
      case None => None
      case Some(at) =>
        var i := path[|path| - 1];
        if i < |at.element.children| && rules.follows(at.element.children[i]) then
          var child := at.element.children[i];
          Some(Found(child, rules.step(at.transform, child)))
        else None
  }

  function Project(frames: seq<Frame>): (r: seq<Found>)
    ensures |r| == |frames|
    ensures forall k :: 0 <= k < |frames| ==> r[k] == Found(frames[k].element, frames[k].transform)
  {
    seq(|frames|, k requires 0 <= k < |frames| => Found(frames[k].element, frames[k].transform))
  }

  lemma SizeAllBoundsMember(cs: seq<Element>, i: nat)
    requires i < |cs|
    ensures Size(cs[i]) <= SizeAll(cs)
    decreases |cs|
  {
    if i < |cs| - 1 {
      SizeAllBoundsMember(cs[..|cs| - 1], i);
    }
  }

  /** An element reached by a non-empty path is strictly smaller than the start, so never the start itself. */
  lemma {:induction false} FollowShrinks(e: Element, t: Transform, path: seq<nat>, rules: WalkRules)
    requires Follow(e, t, path, rules).Some?
    ensures Size(Follow(e, t, path, rules).value.element) <= Size(e)
    ensures path != [] ==> Size(Follow(e, t, path, rules).value.element) < Size(e)
  {
    if path != [] {
      var init := path[..|path| - 1];
      FollowShrinks(e, t, init, rules);
      var at := Follow(e, t, init, rules).value;
      SizeAllBoundsMember(at.element.children, path[|path| - 1]);
    }
  }

  /** Every prefix of a followed path is followed too, and each step goes to a child the rules follow. */
  lemma {:induction false} FollowFollowsEveryStep(e: Element, t: Transform, path: seq<nat>, rules: WalkRules)
    requires Follow(e, t, path, rules).Some?
    ensures forall j :: 1 <= j <= |path| ==>
      Follow(e, t, path[..j], rules).Some?
      && rules.follows(Follow(e, t, path[..j], rules).value.element)
  {
    if path != [] {
      var init := path[..|path| - 1];
      FollowFollowsEveryStep(e, t, init, rules);
      forall j | 1 <= j <= |path|
        ensures Follow(e, t, path[..j], rules).Some?
        ensures rules.follows(Follow(e, t, path[..j], rules).value.element)
      {
        if j < |path| {
          assert path[..j] == init[..j];
        } else {
          assert path[..j] == path;
        }
      }
    }
  }

  ghost predicate FramesFollow(stack: seq<Frame>, root: Element, base: Transform, rules: WalkRules) {
    forall k :: 0 <= k < |stack| ==>
      Follow(root, base, stack[k].path, rules) == Some(Found(stack[k].element, stack[k].transform))
  }

  lemma PushedFollow(f: Frame, root: Element, base: Transform, rules: WalkRules)
    requires Follow(root, base, f.path, rules) == Some(Found(f.element, f.transform))
    ensures FramesFollow(PushedUpTo(f, |f.element.children|, rules), root, base, rules)
  {
    var n := |f.element.children|;
    var pushed := PushedUpTo(f, n, rules);
    PushedFrames(f, n, rules);
    forall k | 0 <= k < |pushed|
      ensures Follow(root, base, pushed[k].path, rules) == Some(Found(pushed[k].element, pushed[k].transform))
    {
      var g := pushed[k];
      assert g.path[..|g.path| - 1] == f.path;
    }
  }

  /**
   * Everything the walk collects is a Rectangle, Polygon or TextFrame reached
   * from the root by a non-empty path of followed children (so never the root
   * and never inside a Properties element), carrying the transform composed
   * along that path.
   */
  lemma {:induction false} WalkSound(stack: seq<Frame>, root: Element, base: Transform, rules: WalkRules)
    requires FramesFollow(stack, root, base, rules)
    ensures forall g :: g in Walk(stack, rules) ==>
      && g.path != []
      && rules.collects(g.element)
      && Follow(root, base, g.path, rules) == Some(Found(g.element, g.transform))
    decreases StackSize(stack)
  {
    if stack != [] {
      var f := stack[|stack| - 1];
      var rest := stack[..|stack| - 1];
      var pushed := PushedUpTo(f, |f.element.children|, rules);
      assert stack == rest + [f];
      PopPushShrinks(rest, f, rules);
      PushedFollow(f, root, base, rules);
      var next := rest + pushed;
      assert FramesFollow(next, root, base, rules) by {
        forall k | 0 <= k < |next|
          ensures Follow(root, base, next[k].path, rules) == Some(Found(next[k].element, next[k].transform))
        {
          if k < |rest| {
            assert next[k] == stack[k];
          } else {
            assert next[k] == pushed[k - |rest|];
          }
        }
      }
      WalkSound(next, root, base, rules);
      assert next == Successor(stack, rules);
      assert Walk(stack, rules) == Emitted(f, rules) + Walk(next, rules);
      assert Follow(root, base, f.path, rules) == Some(Found(f.element, f.transform));
    }
  }

  /** Popping the last frame collects it when it is a target other than the root, and pushes its followed children. */
  lemma WalkUnfold(stack: seq<Frame>, rules: WalkRules)
    requires stack != []
    ensures Walk(stack, rules) == Emitted(stack[|stack| - 1], rules) + Walk(Successor(stack, rules), rules)
  {
  }

  lemma SuccessorShrinks(stack: seq<Frame>, rules: WalkRules)
    requires stack != []
    ensures StackSize(Successor(stack, rules)) < StackSize(stack)
  {
    var f := stack[|stack| - 1];
    var rest := stack[..|stack| - 1];
    assert stack == rest + [f];
    PopPushShrinks(rest, f, rules);
  }

  /** One turn of the outer loop keeps `Walk(start) == yielded + Walk(stack)`. */
  lemma WalkStep(start: seq<Frame>, yielded: seq<Frame>, stack: seq<Frame>, rules: WalkRules)
    requires stack != []
    requires Walk(start, rules) == yielded + Walk(stack, rules)
    ensures StackSize(Successor(stack, rules)) < StackSize(stack)
    ensures Walk(start, rules)
      == (yielded + Emitted(stack[|stack| - 1], rules)) + Walk(Successor(stack, rules), rules)
  {
    SuccessorShrinks(stack, rules);
    WalkUnfold(stack, rules);
    Regroup(yielded, Walk(stack, rules), Emitted(stack[|stack| - 1], rules), Walk(Successor(stack, rules), rules));
  }

  lemma Regroup<T>(a: seq<T>, x: seq<T>, b: seq<T>, c: seq<T>)
    requires x == b + c
    ensures a + x == (a + b) + c
  {
  }

  lemma ProjectSnoc(frames: seq<Frame>, f: Frame)
    ensures Project(frames + [f]) == Project(frames) + [Found(f.element, f.transform)]
  {
  }

  /**
   * One turn of the inner loop: the frame pushed for child `i`, or None when
   * the walk skips that child.
   */
  method ChildEntry(f: Frame, i: nat, parseFloat: string -> Option<real>) returns (entry: Option<Frame>)
    requires i < |f.element.children|
    ensures entry == if Followed(f.element.children[i]) then Some(ChildFrame(f, i, Rules(parseFloat))) else None
  {
    var child := f.element.children[i];
    var childTag := StripNamespace(child.tag);
    if childTag == "Properties" {
      return None;
    }
    var attr := child.itemTransform;
    var childTransform := f.transform;
    if attr.Some? && attr.value != [] {
      var own := TransformFromString(attr, parseFloat);
      childTransform := Combine(f.transform, own);
    }
    if IsContainerTag(childTag) || (attr.Some? && attr.value != []) || IsTargetTag(childTag) {
      entry := Some(Frame(child, childTransform, f.path + [i]));
    } else {
      entry := None;
    }
  }

  /** The inner loop of the walk: pushes a frame for each followed child of `f.element`, in document order. */
  method PushChildren(stack: seq<Frame>, f: Frame, parseFloat: string -> Option<real>) returns (out: seq<Frame>)
    ensures out == stack + PushedUpTo(f, |f.element.children|, Rules(parseFloat))
  {
    var rules := Rules(parseFloat);
    var children := f.element.children;
    out := stack;
    var i := 0;
    assert stack + [] == stack;
    while i < |children|
      invariant 0 <= i <= |children|
      invariant out == stack + PushedUpTo(f, i, rules)
    {
      var entry := ChildEntry(f, i, parseFloat);
      PushedStep(f, i, rules, entry);
      Regroup(stack, PushedUpTo(f, i + 1, rules), PushedUpTo(f, i, rules), if entry.Some? then [entry.value] else []);
      if entry.Some? {
        out := out + [entry.value];
      } else {
        assert out + [] == out;
      }
      i := i + 1;
    }
  }

  /** One more child: pushed exactly when `ChildEntry` returns a frame for it. */
  lemma PushedStep(f: Frame, i: nat, rules: WalkRules, entry: Option<Frame>)
    requires i < |f.element.children|
    requires entry == if rules.follows(f.element.children[i]) then Some(ChildFrame(f, i, rules)) else None
    ensures PushedUpTo(f, i + 1, rules) == PushedUpTo(f, i, rules) + (if entry.Some? then [entry.value] else [])
  {
  }

  /**
   * `iter_items_with_transforms(root, base)`: the explicit-stack walk. Every
   * item is a target element other than the root.
   */
  method IterItemsWithTransforms(root: Element, base: Transform, parseFloat: string -> Option<real>)
    returns (items: seq<Found>)
    ensures items == Project(Walk([Frame(root, base, [])], Rules(parseFloat)))
    ensures forall k :: 0 <= k < |items| ==>
      IsTargetTag(Tag(items[k].element)) && Size(items[k].element) < Size(root)
  {
    var rules := Rules(parseFloat);
    var start := [Frame(root, base, [])];
    var stack := start;
    ghost var yielded: seq<Frame> := [];
    items := [];
    while stack != []
      invariant Walk(start, rules) == yielded + Walk(stack, rules)
      invariant items == Project(yielded)
      decreases StackSize(stack)
    {
      var f := stack[|stack| - 1];
      var rest := stack[..|stack| - 1];
      WalkStep(start, yielded, stack, rules);
      ghost var nextYielded := yielded + Emitted(f, rules);
      ghost var nextStack := Successor(stack, rules);
      var tag := StripNamespace(f.element.tag);
      assert rules.collects(f.element) == IsTargetTag(tag);
      if IsTargetTag(tag) && f.path != [] {
        ProjectSnoc(yielded, f);
        items := items + [Found(f.element, f.transform)];
        yielded := yielded + [f];
      } else {
        assert yielded + [] == yielded;
      }
      assert yielded == nextYielded;
      stack := PushChildren(rest, f, parseFloat);
      assert stack == nextStack;
    }
    WalkSound(start, root, base, rules);
    forall k | 0 <= k < |items|
      ensures IsTargetTag(Tag(items[k].element)) && Size(items[k].element) < Size(root)
    {
      var w := Walk(start, rules);
      assert w[k] in w;
      assert rules.collects(w[k].element);
      FollowShrinks(root, base, w[k].path, rules);
    }
  }

  /**
   * With the rules of `iter_items_with_transforms`, no element on the way
   * from the root to a yielded item, the item included, is a Properties
   * element.
   */
  lemma WalkSkipsProperties(root: Element, base: Transform, parseFloat: string -> Option<real>)
    ensures forall g :: g in Walk([Frame(root, base, [])], Rules(parseFloat)) ==>
      forall j :: 1 <= j <= |g.path| ==>
        Follow(root, base, g.path[..j], Rules(parseFloat)).Some?
        && Tag(Follow(root, base, g.path[..j], Rules(parseFloat)).value.element) != "Properties"
  {
    var rules := Rules(parseFloat);
    var start := [Frame(root, base, [])];
    WalkSound(start, root, base, rules);
    forall g | g in Walk(start, rules)
      ensures forall j :: 1 <= j <= |g.path| ==>
        Follow(root, base, g.path[..j], rules).Some?
        && Tag(Follow(root, base, g.path[..j], rules).value.element) != "Properties"
    {
      FollowFollowsEveryStep(root, base, g.path, rules);
    }
  }
}
