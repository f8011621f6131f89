/** The drawing context of the footprint wizards: a stack of affine
    transforms composed into one current transform, a current layer and line
    width, and drawing primitives (lines, circles, arcs, polylines, boxes,
    pin outlines, sawtooth lines) that add transformed outline items to a
    footprint.

    Coordinates are reals: the module uses true division, and the host's
    conversion to integer `wxPoint`s is not modelled. */
module DrawingAids {
  import opened Wrappers
  import opened Geometry
  import opened Footprint

  // ---------------------------------------------------------------------
  // Affine transforms

  /** The six-element transform `[xx, xy, dx, yx, yy, dy]`: a point `(x, y)`
      goes to `(xx*x + xy*y + dx, yx*x + yy*y + dy)`. */
  datatype Affine = Affine(xx: real, xy: real, dx: real, yx: real, yy: real, dy: real)

  /** `xfrmIDENTITY`. */
  const Identity := Affine(1.0, 0.0, 0.0, 0.0, 1.0, 0.0)

  /** The flip codes `flipNone`, `flipX` (negate x, i.e. mirror about the y
      axis), `flipY` and `flipBoth`. */
  const FlipNone := 0
  const FlipX := 1
  const FlipY := 2
  const FlipBoth := 3

  /** Where `mat` sends a point, as `TransformPoint` computes it. */
  function Apply(m: Affine, p: Point): Point {
    Point(p.x * m.xx + p.y * m.xy + m.dx, p.x * m.yx + p.y * m.yy + m.dy)
  }

  /** One step of `_ComposeMatricesWithIdentity`: `x` precomposed with
      `mat`. */
  function Compose(x: Affine, m: Affine): Affine {
    Affine(x.xx * m.xx + x.xy * m.yx,
           x.xx * m.xy + x.xy * m.yy,
           x.xx * m.dx + x.xy * m.dy + x.dx,
           x.yx * m.xx + x.yy * m.yx,
           x.yx * m.xy + x.yy * m.yy,
           x.yx * m.dx + x.yy * m.dy + x.dy)
  }

  /** The composite applies `mat` first and `x` after it. */
  lemma ComposeApplies(x: Affine, m: Affine, p: Point)
    ensures Apply(Compose(x, m), p) == Apply(x, Apply(m, p))
  {
    var lhs, rhs := Apply(Compose(x, m), p), Apply(x, Apply(m, p));
    ComposeRow(x.xx, x.xy, x.dx, m, p);
    assert lhs.x == rhs.x;
    ComposeRow(x.yx, x.yy, x.dy, m, p);
    assert lhs.y == rhs.y;
  }

  /** One output coordinate of `ComposeApplies`: the row `(a, b, c)` of the
      outer matrix against the inner matrix. */
  lemma ComposeRow(a: real, b: real, c: real, m: Affine, p: Point)
    ensures p.x * (a * m.xx + b * m.yx) + p.y * (a * m.xy + b * m.yy) + (a * m.dx + b * m.dy + c)
         == (p.x * m.xx + p.y * m.xy + m.dx) * a + (p.x * m.yx + p.y * m.yy + m.dy) * b + c
  {
  }

  /** The identity is neutral on both sides of a composition. */
  lemma ComposeIdentity(m: Affine)
    ensures Compose(Identity, m) == m
    ensures Compose(m, Identity) == m
  {
  }

  /** The stack composed from the identity, first matrix outermost. */
  function ComposeAll(ms: seq<Affine>): Affine
    decreases |ms|
  {
    if ms == [] then Identity else Compose(ComposeAll(ms[..|ms| - 1]), ms[|ms| - 1])
  }

  /** The reference meaning of a transform stack: the most recently pushed
      matrix acts on the point first, the bottom of the stack last. */
  function ApplyAll(ms: seq<Affine>, p: Point): Point
    decreases |ms|
  {
    if ms == [] then p else ApplyAll(ms[..|ms| - 1], Apply(ms[|ms| - 1], p))
  }

  /** The composed transform sends every point where the stack sends it. */
  lemma {:induction false} ComposeAllApplies(ms: seq<Affine>, p: Point)
    ensures Apply(ComposeAll(ms), p) == ApplyAll(ms, p)
    decreases |ms|
  {
    if ms != [] {
      var init, last := ms[..|ms| - 1], ms[|ms| - 1];
      ComposeApplies(ComposeAll(init), last, p);
      ComposeAllApplies(init, Apply(last, p));
    }
  }

  /** A stack of three matrices composes as `(a * b) * c`. */
  lemma ComposeAllThree(a: Affine, b: Affine, c: Affine)
    ensures ComposeAll([a, b, c]) == Compose(Compose(a, b), c)
  {
    var ms := [a, b, c];
    assert ms[..2] == [a, b] && [a, b][..1] == [a] && [a][..0] == [];
    assert ComposeAll([a]) == Compose(Identity, a);
    ComposeIdentity(a);
  }

  /** The empty stack is the identity transform. */
  lemma IdentityFixes(p: Point)
    ensures Apply(Identity, p) == p
  {
  }

  /** `TransformTranslate`'s matrix `[1, 0, x, 0, 1, y]`. */
  function Translation(x: real, y: real): (m: Affine)
    ensures forall p :: Apply(m, p) == Point(p.x + x, p.y + y)
  {
    Affine(1.0, 0.0, x, 0.0, 1.0, y)
  }

  /** Whether a flip code negates x (`flipX`, `flipBoth`) or y (`flipY`,
      `flipBoth`): bit 0 and bit 1 of the code. */
  predicate FlipsX(flip: int) { flip % 2 == 1 }
  predicate FlipsY(flip: int) { flip / 2 == 1 }

  /** `TransformFlipOrigin`'s matrix, or `ValueError` for a code other than
      the four flip codes. */
  function FlipOriginMatrix(flip: int): (r: Result<Affine>)
    ensures r.Err? <==> flip < FlipNone || flip > FlipBoth
    ensures r.Err? ==> r.error == ValueError
  {
    if flip == FlipX then Ok(Affine(-1.0, 0.0, 0.0, 0.0, 1.0, 0.0))
    else if flip == FlipY then Ok(Affine(1.0, 0.0, 0.0, 0.0, -1.0, 0.0))
    else if flip == FlipBoth then Ok(Affine(-1.0, 0.0, 0.0, 0.0, -1.0, 0.0))
    else if flip == FlipNone then Ok(Identity)
    else Err(ValueError)
  }

  /** The flip about the origin negates exactly the coordinates its code
      names. */
  lemma FlipOriginMirrors(flip: int, p: Point)
    requires FlipNone <= flip <= FlipBoth
    ensures Apply(FlipOriginMatrix(flip).value, p)
         == Point(if FlipsX(flip) then -p.x else p.x, if FlipsY(flip) then -p.y else p.y)
  {
  }

  /** `TransformFlip`'s matrix in closed form: the flip's diagonal, with
      the offset that keeps `(x, y)` in place. */
  function FlipMatrix(x: real, y: real, flip: int): (r: Result<Affine>)
    ensures r.Err? <==> flip < FlipNone || flip > FlipBoth
    ensures r.Err? ==> r.error == ValueError
  {
    match FlipOriginMatrix(flip)
    case Err(e) => Err(e)
    case Ok(f) => Ok(Affine(f.xx, 0.0, x - f.xx * x, 0.0, f.yy, y - f.yy * y))
  }

  /** What `TransformFlip` distils (translate to `(x, y)`, flip, translate
      back) is the closed form. */
  lemma FlipMatrixIsComposite(x: real, y: real, flip: int)
    requires FlipNone <= flip <= FlipBoth
    ensures ComposeAll([Translation(x, y), FlipOriginMatrix(flip).value, Translation(-x, -y)]) == FlipMatrix(x, y, flip).value
  {
    ComposeAllThree(Translation(x, y), FlipOriginMatrix(flip).value, Translation(-x, -y));
  }

  /** The flip about `(x, y)` mirrors a point through the lines `X == x`
      and/or `Y == y`, as its code says. */
  lemma FlipMirrorsAbout(x: real, y: real, flip: int, p: Point)
    requires FlipNone <= flip <= FlipBoth
    ensures Apply(FlipMatrix(x, y, flip).value, p)
         == Point(if FlipsX(flip) then 2.0 * x - p.x else p.x, if FlipsY(flip) then 2.0 * y - p.y else p.y)
  {
  }

  /** A flip undoes itself, and leaves its centre where it is. */
  lemma FlipIsInvolution(x: real, y: real, flip: int, p: Point)
    requires FlipNone <= flip <= FlipBoth
    ensures Apply(FlipMatrix(x, y, flip).value, Apply(FlipMatrix(x, y, flip).value, p)) == p
    ensures Apply(FlipMatrix(x, y, flip).value, Point(x, y)) == Point(x, y)
  {
    FlipMirrorsAbout(x, y, flip, p);
    FlipMirrorsAbout(x, y, flip, Apply(FlipMatrix(x, y, flip).value, p));
    FlipMirrorsAbout(x, y, flip, Point(x, y));
  }

  /** `TransformScaleOrigin`'s matrix; a missing `sy` scales both axes by
      `sx`. */
  function ScaleMatrix(sx: real, sy: Option<real>): (m: Affine)
    ensures forall p :: Apply(m, p) == Point(sx * p.x, (if sy.Some? then sy.value else sx) * p.y)
  {
    Affine(sx, 0.0, 0.0, 0.0, if sy.Some? then sy.value else sx, 0.0)
  }

  // ---------------------------------------------------------------------
  // Shapes, as the point lists the drawing methods build

  /** The outline items `_PolyLineInternal` adds for `pts` under `m`: one
      segment between each pair of neighbouring points, nothing for fewer
      than two points. The segments join end to end, from the first point to
      the last. */
  function PolySegments(m: Affine, pts: seq<Point>, width: real, layer: int): (segs: seq<DrawItem>)
    ensures |segs| == if |pts| < 2 then 0 else |pts| - 1
    ensures forall i :: 0 <= i < |segs| ==> segs[i].Segment? && segs[i].width == width && segs[i].layer == layer
    ensures |segs| > 0 ==> segs[0].start == Apply(m, pts[0]) && segs[|segs| - 1].end == Apply(m, pts[|pts| - 1])
    ensures forall i :: 0 <= i < |segs| - 1 ==> segs[i].end == segs[i + 1].start
  {
    if |pts| < 2 then []
    else seq(|pts| - 1, i requires 0 <= i < |pts| - 1 => Segment(Apply(m, pts[i]), Apply(m, pts[i + 1]), width, layer))
  }

  /** A polyline whose last point is its first is a closed outline. */
  lemma ClosedPolyline(m: Affine, pts: seq<Point>, width: real, layer: int)
    requires |pts| >= 2 && pts[0] == pts[|pts| - 1]
    ensures var segs := PolySegments(m, pts, width, layer);
            segs[|segs| - 1].end == segs[0].start
  {
  }

  /** The mirrored copy `Polyline` draws for `mirrorX`: each segment runs
      between the images, under the current transform, of the points
      mirrored through the line `X == mirrorX`. */
  lemma MirroredPolylineReflects(current: Affine, mirrorX: real, pts: seq<Point>, width: real, layer: int, i: nat)
    requires i < |pts| - 1
    ensures var segs := PolySegments(Compose(current, FlipMatrix(mirrorX, 0.0, FlipX).value), pts, width, layer);
            segs[i].start == Apply(current, Point(2.0 * mirrorX - pts[i].x, pts[i].y))
            && segs[i].end == Apply(current, Point(2.0 * mirrorX - pts[i + 1].x, pts[i + 1].y))
  {
    var f := FlipMatrix(mirrorX, 0.0, FlipX).value;
    ComposeApplies(current, f, pts[i]);
    ComposeApplies(current, f, pts[i + 1]);
    FlipMirrorsAbout(mirrorX, 0.0, FlipX, pts[i]);
    FlipMirrorsAbout(mirrorX, 0.0, FlipX, pts[i + 1]);
  }

  /** `Box`: the four corners of a `w` by `h` box centred at `(x, y)`, and
      the first corner again to close it. */
  function BoxPoints(x: real, y: real, w: real, h: real): (pts: seq<Point>)
    ensures |pts| == 5 && pts[0] == pts[4]
    ensures forall i :: 0 <= i < 4 ==> pts[i].x == pts[i + 1].x || pts[i].y == pts[i + 1].y
    ensures forall i :: 0 <= i < 5 ==>
              (pts[i].x == x - w / 2.0 || pts[i].x == x + w / 2.0) && (pts[i].y == y - h / 2.0 || pts[i].y == y + h / 2.0)
    ensures {pts[0], pts[1], pts[2], pts[3]}
         == {Point(x - w / 2.0, y - h / 2.0), Point(x + w / 2.0, y - h / 2.0),
             Point(x + w / 2.0, y + h / 2.0), Point(x - w / 2.0, y + h / 2.0)}
  {
    [Point(x - w / 2.0, y - h / 2.0), Point(x + w / 2.0, y - h / 2.0), Point(x + w / 2.0, y + h / 2.0),
     Point(x - w / 2.0, y + h / 2.0), Point(x - w / 2.0, y - h / 2.0)]
  }

  /** `NotchedBox`: three sides of the box, then the top edge with a notch
      `notchH` deep cut into it, back to the start. The notch width is first
      limited to `x + w/2`, and the notch sits at `-notchW/2 .. notchW/2`,
      which is centred on the box only when `x == 0`. */
  function NotchedBoxPoints(x: real, y: real, w: real, h: real, notchW: real, notchH: real): (pts: seq<Point>)
    ensures |pts| == 9
    ensures pts[8] == Point(x - w / 2.0, y - h / 2.0) && pts[0] == pts[8]
    ensures pts[5].y == pts[6].y == y - h / 2.0 + notchH
    ensures pts[5].x - pts[6].x <= x + w / 2.0
  {
    var nw := if x + w / 2.0 <= notchW then x + w / 2.0 else notchW;
    [Point(x - w / 2.0, y - h / 2.0), Point(x - w / 2.0, y + h / 2.0), Point(x + w / 2.0, y + h / 2.0),
     Point(x + w / 2.0, y - h / 2.0),
     Point(nw / 2.0, y - h / 2.0), Point(nw / 2.0, y - h / 2.0 + notchH),
     Point(-nw / 2.0, y - h / 2.0 + notchH), Point(-nw / 2.0, y - h / 2.0),
     Point(x - w / 2.0, y - h / 2.0)]
  }

  /** `BoxWithDiagonalAtCorner`: the box with its top-left corner cut by a
      diagonal `setback` along each edge; the outline is closed. */
  function DiagonalBoxPoints(x: real, y: real, w: real, h: real, setback: real): (pts: seq<Point>)
    ensures |pts| == 6 && pts[0] == pts[5]
    ensures pts[0] == Point(x - w / 2.0 + setback, y - h / 2.0)
    ensures pts[1] == Point(x - w / 2.0, y - h / 2.0 + setback)
  {
    [Point(x - w / 2.0 + setback, y - h / 2.0), Point(x - w / 2.0, y - h / 2.0 + setback),
     Point(x - w / 2.0, y + h / 2.0), Point(x + w / 2.0, y + h / 2.0), Point(x + w / 2.0, y - h / 2.0),
     Point(x - w / 2.0 + setback, y - h / 2.0)]
  }

  /** `BoxWithOpenCorner`, about the origin: the outline starts `setback`
      below the top-left corner and stops `setback` right of it, leaving the
      corner open. */
  function OpenCornerBoxPoints(w: real, h: real, setback: real): (pts: seq<Point>)
    ensures |pts| == 5
    ensures pts[0] == Point(-w / 2.0, -h / 2.0 + setback) && pts[4] == Point(-w / 2.0 + setback, -h / 2.0)
  {
    [Point(-w / 2.0, -h / 2.0 + setback), Point(-w / 2.0, h / 2.0), Point(w / 2.0, h / 2.0),
     Point(w / 2.0, -h / 2.0), Point(-w / 2.0 + setback, -h / 2.0)]
  }

  /** `MarkerArrow`, before translation and rotation: a closed triangle with
      its point at the origin, opening towards positive y. */
  function ArrowPoints(width: real): (pts: seq<Point>)
    ensures |pts| == 4 && pts[0] == pts[3] == Point(0.0, 0.0)
    ensures pts[1].y == pts[2].y == width / 2.0 && pts[1].x == -pts[2].x
  {
    [Point(0.0, 0.0), Point(width / 2.0, width / 2.0), Point(-width / 2.0, width / 2.0), Point(0.0, 0.0)]
  }

  /** `DrawPinSide`: an open pin outline of half-width `w` and length `l`,
      chamfered to a point at `(x, y + l)`, symmetric about `X == x`. */
  function PinSidePoints(w: real, l: real, chamferLen: real, x: real, y: real): (pts: seq<Point>)
    ensures |pts| == 5 && pts[2] == Point(x, y + l)
    ensures forall i :: 0 <= i < 5 ==> pts[4 - i] == Point(2.0 * x - pts[i].x, pts[i].y)
  {
    [Point(x - w, y), Point(x - w, y + l - chamferLen), Point(x, y + l), Point(x + w, y + l - chamferLen), Point(x + w, y)]
  }

  /** The arrow head `DrawPinEnd` draws at the top of a tall pin end. */
  function PinEndHeadPoints(x: real, y: real, w: real, h: real, z: real): seq<Point> {
    [Point(x - w / 2.0, y - h / 2.0), Point(x, y - h / 2.0 + z), Point(x + w / 2.0, y - h / 2.0)]
  }

  /** The list comprehension `[[p[0], y - (p[1] - y)] for p in pts]`: each
      point mirrored through the line `Y == y`. */
  function MirrorY(pts: seq<Point>, y: real): (r: seq<Point>)
    ensures |r| == |pts|
    ensures forall i :: 0 <= i < |pts| ==> r[i].x == pts[i].x && r[i].y + pts[i].y == 2.0 * y
  {
    seq(|pts|, i requires 0 <= i < |pts| => Point(pts[i].x, y - (pts[i].y - y)))
  }

  /** `min(w/2, h/2)`. */
  function HalfMin(w: real, h: real): (z: real)
    ensures z <= w / 2.0 && z <= h / 2.0 && (z == w / 2.0 || z == h / 2.0)
  {
    if w / 2.0 <= h / 2.0 then w / 2.0 else h / 2.0
  }

  /** The centre of tooth `i` of `n`: `i*pitch - (n-1)*pitch/2`. */
  function ToothCentre(i: int, n: int, pitch: real): real {
    (i as real) * pitch - ((n - 1) as real) * pitch / 2.0
  }

  /** The teeth are centred on the origin: tooth `i` and tooth `n-1-i` sit
      symmetrically about it, and neighbouring teeth are one pitch apart. */
  lemma ToothCentresSymmetric(i: int, n: int, pitch: real)
    ensures ToothCentre(i, n, pitch) + ToothCentre(n - 1 - i, n, pitch) == 0.0
    ensures ToothCentre(i + 1, n, pitch) - ToothCentre(i, n, pitch) == pitch
  {
    assert (i as real) * pitch + ((n - 1 - i) as real) * pitch == ((n - 1) as real) * pitch;
    assert ((i + 1) as real) * pitch == (i as real) * pitch + pitch;
  }

  /** The six points of one tooth of `SawtoothLine`. */
  function ToothPoints(cx: real, pitch: real, ybottom: real, ytop: real, wbottom: real, wtop: real): (pts: seq<Point>)
    ensures |pts| == 6
    ensures pts[0] == Point(cx - pitch / 2.0, ytop) && pts[5] == Point(cx + pitch / 2.0, ytop)
  {
    [Point(cx - pitch / 2.0, ytop), Point(cx - pitch / 2.0 + wtop / 2.0, ytop), Point(cx - wbottom / 2.0, ybottom),
     Point(cx + wbottom / 2.0, ybottom), Point(cx + pitch / 2.0 - wtop / 2.0, ytop), Point(cx + pitch / 2.0, ytop)]
  }

  /** Each tooth ends where the next begins, so the teeth form one
      continuous line. */
  lemma TeethAreContinuous(i: int, n: int, pitch: real, ybottom: real, ytop: real, wbottom: real, wtop: real)
    ensures ToothPoints(ToothCentre(i, n, pitch), pitch, ybottom, ytop, wbottom, wtop)[5]
         == ToothPoints(ToothCentre(i + 1, n, pitch), pitch, ybottom, ytop, wbottom, wtop)[0]
  {
    ToothCentresSymmetric(i, n, pitch);
  }

  /** The outline items of the first `k` teeth. */
  function SawtoothSegments(m: Affine, k: nat, n: int, pitch: real, ybottom: real, ytop: real, wbottom: real, wtop: real,
                            width: real, layer: int): (segs: seq<DrawItem>)
    ensures |segs| == 5 * k
    decreases k
  {
    if k == 0 then []
    else SawtoothSegments(m, k - 1, n, pitch, ybottom, ytop, wbottom, wtop, width, layer)
         + PolySegments(m, ToothPoints(ToothCentre(k - 1, n, pitch), pitch, ybottom, ytop, wbottom, wtop), width, layer)
  }

  /** One more tooth appends that tooth's outline. */
  lemma SawtoothStep(m: Affine, i: nat, n: int, pitch: real, ybottom: real, ytop: real, wbottom: real, wtop: real,
                     width: real, layer: int)
    ensures SawtoothSegments(m, i + 1, n, pitch, ybottom, ytop, wbottom, wtop, width, layer)
         == SawtoothSegments(m, i, n, pitch, ybottom, ytop, wbottom, wtop, width, layer)
            + PolySegments(m, ToothPoints(ToothCentre(i, n, pitch), pitch, ybottom, ytop, wbottom, wtop), width, layer)
  {
  }

  // ---------------------------------------------------------------------
  // The drawing context

  /** `FootprintWizardDrawingAids`: the footprint drawn into and the drawing
      context `dc` (layer, width, transform stack, composed transform). The
      composed transform is the composition of the stack after every
      operation except a `PopTransform` that runs out of matrices. */
  class FootprintWizardDrawingAids {
    const footprint: Module
    var layer: int
    var width: real
    var transforms: seq<Affine>
    var transform: Affine

    /** The composed transform is up to date with the stack. */
    ghost predicate Valid()
      reads this
    {
      transform == ComposeAll(transforms)
    }

    /** A fresh context on `module`: the front silkscreen layer (passed in as
        the host's `SILKSCREEN_N_FRONT`), a width of 0.2 mm (passed in as the
        host's `FromMM(0.2)`), no transforms. */
    constructor (footprint: Module, frontSilkscreen: int, defaultWidth: real)
      ensures this.footprint == footprint && layer == frontSilkscreen && width == defaultWidth
      ensures transforms == [] && transform == Identity && Valid()
    {
      this.footprint := footprint;
      layer := frontSilkscreen;
      width := defaultWidth;
      transforms := [];
      transform := Identity;
    }

    /** `_ComposeMatricesWithIdentity`: the loop composing a list of
        matrices, first outermost. */
    method ComposeMatricesWithIdentity(mats: seq<Affine>) returns (x: Affine)
      ensures x == ComposeAll(mats)
      ensures forall p :: Apply(x, p) == ApplyAll(mats, p)
    {
      x := Identity;
      for i := 0 to |mats|
        invariant x == ComposeAll(mats[..i])
      {
        assert mats[..i + 1][..i] == mats[..i];
        x := Compose(x, mats[i]);
      }
      assert mats[..|mats|] == mats;
      forall p ensures Apply(x, p) == ApplyAll(mats, p) {
        ComposeAllApplies(mats, p);
      }
    }

    method RecomputeTransforms()
      modifies this`transform
      ensures transform == ComposeAll(transforms) && Valid()
    {
      transform := ComposeMatricesWithIdentity(transforms);
    }

    method PushTransform(mat: Affine)
      modifies this`transforms, this`transform
      ensures transforms == old(transforms) + [mat]
      ensures transform == ComposeAll(transforms)
    {
      transforms := transforms + [mat];
      RecomputeTransforms();
    }

    /** `PopTransform(num)`: pops `num` matrices and returns the last one
        popped. Popping more than the stack holds raises `IndexError` with
        the stack emptied and the composed transform left as it was; a
        `num` of zero or less pops nothing and raises `UnboundLocalError`
        after recomputing. */
    method PopTransform(num: int) returns (r: Result<Affine>)
      modifies this`transforms, this`transform
      ensures num <= 0 ==> r == Err(UnboundLocalError) && transforms == old(transforms) && Valid()
      ensures 0 < num <= |old(transforms)| ==>
                r == Ok(old(transforms)[|old(transforms)| - num])
                && transforms == old(transforms)[..|old(transforms)| - num] && Valid()
      ensures num > |old(transforms)| ==>
                r == Err(IndexError) && transforms == [] && transform == old(transform)
    {
      if num <= 0 {
        RecomputeTransforms();
        return Err(UnboundLocalError);
      }
      var mat := Identity;
      var i := 0;
      while i < num
        invariant 0 <= i <= num
        invariant i <= |old(transforms)|
        invariant transforms == old(transforms)[..|old(transforms)| - i]
        invariant transform == old(transform)
        invariant i > 0 ==> mat == old(transforms)[|old(transforms)| - i]
      {
        if transforms == [] {
          return Err(IndexError);
        }
        mat := transforms[|transforms| - 1];
        transforms := transforms[..|transforms| - 1];
        i := i + 1;
      }
      RecomputeTransforms();
      r := Ok(mat);
    }

    method ResetTransform()
      modifies this`transforms, this`transform
      ensures transforms == [] && transform == Identity
    {
      transforms := [];
      RecomputeTransforms();
    }

    /** `PushTransform(mat)` followed by `PopTransform()`: the matrix comes
        back and the stack and the composed transform are as before. */
    method PushThenPop(mat: Affine) returns (r: Result<Affine>)
      requires Valid()
      modifies this`transforms, this`transform
      ensures r == Ok(mat)
      ensures transforms == old(transforms) && transform == old(transform)
    {
      PushTransform(mat);
      r := PopTransform(1);
      assert (old(transforms) + [mat])[..|old(transforms)|] == old(transforms);
    }

    /** Pushes `mat` when `push` is set; otherwise changes nothing. */
    method PushIf(push: bool, mat: Affine)
      modifies this`transforms, this`transform
      ensures push ==> transforms == old(transforms) + [mat] && transform == ComposeAll(transforms)
      ensures !push ==> transforms == old(transforms) && transform == old(transform)
    {
      if push {
        PushTransform(mat);
      }
    }

    method TransformTranslate(x: real, y: real, push: bool) returns (mat: Affine)
      modifies this`transforms, this`transform
      ensures mat == Translation(x, y)
      ensures push ==> transforms == old(transforms) + [mat] && transform == ComposeAll(transforms)
      ensures !push ==> transforms == old(transforms) && transform == old(transform)
    {
      mat := Translation(x, y);
      PushIf(push, mat);
    }

    /** Raises `ValueError`, pushing nothing, for an unknown flip code. */
    method TransformFlipOrigin(flip: int, push: bool) returns (r: Result<Affine>)
      modifies this`transforms, this`transform
      ensures r == FlipOriginMatrix(flip)
      ensures r.Ok? && push ==> transforms == old(transforms) + [r.value] && transform == ComposeAll(transforms)
      ensures !(r.Ok? && push) ==> transforms == old(transforms) && transform == old(transform)
    {
      r := FlipOriginMatrix(flip);
      if r.Ok? {
        PushIf(push, r.value);
      }
    }

    method TransformFlip(x: real, y: real, flip: int, push: bool) returns (r: Result<Affine>)
      modifies this`transforms, this`transform
      ensures r == FlipMatrix(x, y, flip)
      ensures r.Ok? && push ==> transforms == old(transforms) + [r.value] && transform == ComposeAll(transforms)
      ensures !(r.Ok? && push) ==> transforms == old(transforms) && transform == old(transform)
    {
      var toCentre := TransformTranslate(x, y, false);
      var f := TransformFlipOrigin(flip, false);
      if f.Err? {
        return Err(f.error);
      }
      var back := TransformTranslate(-x, -y, false);
      var mat := ComposeMatricesWithIdentity([toCentre, f.value, back]);
      FlipMatrixIsComposite(x, y, flip);
      PushIf(push, mat);
      r := Ok(mat);
    }

    method TransformScaleOrigin(sx: real, sy: Option<real>, push: bool) returns (mat: Affine)
      modifies this`transforms, this`transform
      ensures mat == ScaleMatrix(sx, sy)
      ensures push ==> transforms == old(transforms) + [mat] && transform == ComposeAll(transforms)
      ensures !push ==> transforms == old(transforms) && transform == old(transform)
    {
      mat := ScaleMatrix(sx, sy);
      PushIf(push, mat);
    }

    /** `TransformPoint(x, y, mat)`: through `mat` when one is given,
        otherwise through the composed transform, which sends the point
        through every pushed matrix, the most recent first. */
    function TransformPoint(x: real, y: real, mat: Option<Affine>): (p: Point)
      reads this
      ensures mat.Some? ==> p == Apply(mat.value, Point(x, y))
      ensures mat.None? && Valid() ==> p == ApplyAll(transforms, Point(x, y))
    {
      ComposeAllApplies(transforms, Point(x, y));
      Apply(if mat.Some? then mat.value else transform, Point(x, y))
    }

    method SetWidth(width: real)
      modifies this`width
      ensures this.width == width
    {
      this.width := width;
    }

    method SetLayer(layer: int)
      modifies this`layer
      ensures this.layer == layer
    {
      this.layer := layer;
    }

    /** A segment from `(x1, y1)` to `(x2, y2)` through the current
        transform, in the current width and layer. */
    method Line(x1: real, y1: real, x2: real, y2: real)
      modifies footprint`drawings
      ensures footprint.drawings
           == old(footprint.drawings) + [Segment(Apply(transform, Point(x1, y1)), Apply(transform, Point(x2, y2)), width, layer)]
    {
      var start := TransformPoint(x1, y1, None);
      var end := TransformPoint(x2, y2, None);
      footprint.drawings := footprint.drawings + [Segment(start, end, width, layer)];
    }

    /** A circle of radius `r` at `(x, y)`. A filled circle is drawn as a
        ring of radius `r/2` with a stroke `r` wide. */
    method Circle(x: real, y: real, r: real, filled: bool)
      modifies footprint`drawings
      ensures footprint.drawings == old(footprint.drawings) + [CircleItem(transform, x, y, r, filled, width, layer)]
    {
      var start := TransformPoint(x, y, None);
      var end;
      var w;
      if filled {
        w := r;
        end := TransformPoint(x, y + r / 2.0, None);
      } else {
        w := width;
        end := TransformPoint(x, y + r, None);
      }
      footprint.drawings := footprint.drawings + [DrawItem.Circle(start, end, w, layer)];
    }

    /** An arc centred at `(cx, cy)` starting at `(sx, sy)` through angle `a`. */
    method Arc(cx: real, cy: real, sx: real, sy: real, a: real)
      modifies footprint`drawings
      ensures footprint.drawings
           == old(footprint.drawings) + [DrawItem.Arc(Apply(transform, Point(cx, cy)), Apply(transform, Point(sx, sy)), a, width, layer)]
    {
      var center := TransformPoint(cx, cy, None);
      var start := TransformPoint(sx, sy, None);
      footprint.drawings := footprint.drawings + [DrawItem.Arc(center, start, a, width, layer)];
    }

    /** A horizontal line from `(x, y)` rightwards, length `l`. */
    method HLine(x: real, y: real, l: real)
      modifies footprint`drawings
      ensures footprint.drawings
           == old(footprint.drawings) + [Segment(Apply(transform, Point(x, y)), Apply(transform, Point(x + l, y)), width, layer)]
    {
      Line(x, y, x + l, y);
    }

    /** A vertical line from `(x, y)` downwards, length `l`. */
    method VLine(x: real, y: real, l: real)
      modifies footprint`drawings
      ensures footprint.drawings
           == old(footprint.drawings) + [Segment(Apply(transform, Point(x, y)), Apply(transform, Point(x, y + l)), width, layer)]
    {
      Line(x, y, x, y + l);
    }

    /** `_PolyLineInternal`: a segment between each pair of neighbouring
        points, none for fewer than two points. */
    method PolylineInternal(pts: seq<Point>)
      modifies footprint`drawings
      ensures footprint.drawings == old(footprint.drawings) + PolySegments(transform, pts, width, layer)
    {
      if |pts| < 2 {
        return;
      }
      for i := 0 to |pts| - 1
        invariant footprint.drawings == old(footprint.drawings) + PolySegments(transform, pts[..i + 1], width, layer)
      {
        assert pts[..i + 2][..i + 1] == pts[..i + 1];
        Line(pts[i].x, pts[i].y, pts[i + 1].x, pts[i + 1].y);
      }
      assert pts[..|pts|] == pts;
    }

    /** `Polyline(pts, mirrorX, mirrorY)`: the polyline, then, with
        `mirrorX`, its mirror image through the line `X == mirrorX`. With
        `mirrorY` the call `TransformFlipOrigin(0, mirrorY, flipY)` has one
        argument too many and raises `TypeError` after the first two parts
        are drawn, so the branch mirroring both ways is never reached. The
        transform stack is left as it was. */
    method Polyline(pts: seq<Point>, mirrorX: Option<real>, mirrorY: Option<real>) returns (outcome: Outcome)
      modifies footprint`drawings, this`transforms, this`transform
      ensures outcome == if mirrorY.Some? then Fail(TypeError) else Pass
      ensures transforms == old(transforms)
      ensures mirrorX.Some? ==> transform == ComposeAll(transforms)
      ensures mirrorX.None? ==> transform == old(transform)
      ensures footprint.drawings == old(footprint.drawings) + PolySegments(old(transform), pts, width, layer)
              + (if mirrorX.Some?
                 then PolySegments(Compose(ComposeAll(old(transforms)), FlipMatrix(mirrorX.value, 0.0, FlipX).value), pts, width, layer)
                 else [])
    {
      PolylineInternal(pts);
      if mirrorX.Some? {
        var flip := TransformFlip(mirrorX.value, 0.0, FlipX, true);
        PolylineInternal(pts);
        var popped := PopTransform(1);
        assert transforms == old(transforms);
      }
      if mirrorY.Some? {
        return Fail(TypeError);
      }
      outcome := Pass;
    }

    /** A closed `w` by `h` box centred at `(x, y)`. */
    method Box(x: real, y: real, w: real, h: real)
      modifies footprint`drawings, this`transforms, this`transform
      ensures transforms == old(transforms) && transform == old(transform)
      ensures footprint.drawings == old(footprint.drawings) + PolySegments(transform, BoxPoints(x, y, w, h), width, layer)
    {
      var outcome := Polyline(BoxPoints(x, y, w, h), None, None);
    }

    /** A box with a notch in its top edge. */
    method NotchedBox(x: real, y: real, w: real, h: real, notchW: real, notchH: real)
      modifies footprint`drawings, this`transforms, this`transform
      ensures transforms == old(transforms) && transform == old(transform)
      ensures footprint.drawings
           == old(footprint.drawings) + PolySegments(transform, NotchedBoxPoints(x, y, w, h, notchW, notchH), width, layer)
    {
      var outcome := Polyline(NotchedBoxPoints(x, y, w, h, notchW, notchH), None, None);
    }

    /** A box with a diagonal at its top-left corner, flipped about its
        centre by `flip`. An unknown flip code raises `ValueError` before
        anything is pushed or drawn. Afterwards the stack is as it was and
        the composed transform is recomputed from it. */
    method BoxWithDiagonalAtCorner(x: real, y: real, w: real, h: real, setback: real, flip: int) returns (outcome: Outcome)
      modifies footprint`drawings, this`transforms, this`transform
      ensures outcome == if FlipNone <= flip <= FlipBoth then Pass else Fail(ValueError)
      ensures transforms == old(transforms)
      ensures outcome.Pass? ==> transform == ComposeAll(transforms)
      ensures outcome.Fail? ==> transform == old(transform) && footprint.drawings == old(footprint.drawings)
      ensures outcome.Pass? ==>
                footprint.drawings == old(footprint.drawings)
                  + PolySegments(Compose(ComposeAll(old(transforms)), FlipMatrix(x, y, flip).value),
                                 DiagonalBoxPoints(x, y, w, h, setback), width, layer)
    {
      var mat := TransformFlip(x, y, flip, true);
      if mat.Err? {
        return Fail(mat.error);
      }
      var drawn := Polyline(DiagonalBoxPoints(x, y, w, h, setback), None, None);
      var popped := PopTransform(1);
      outcome := Pass;
    }

    /** A box centred at `(x, y)` with its top-left corner left open, flipped
        about its centre by `flip`. An unknown flip code raises `ValueError`
        with the translation to `(x, y)` already pushed and nothing drawn. */
    method BoxWithOpenCorner(x: real, y: real, w: real, h: real, setback: real, flip: int) returns (outcome: Outcome)
      modifies footprint`drawings, this`transforms, this`transform
      ensures outcome == if FlipNone <= flip <= FlipBoth then Pass else Fail(ValueError)
      ensures transform == ComposeAll(transforms)
      ensures outcome.Fail? ==>
                transforms == old(transforms) + [Translation(x, y)] && footprint.drawings == old(footprint.drawings)
      ensures outcome.Pass? ==>
                transforms == old(transforms)
                && footprint.drawings == old(footprint.drawings)
                   + PolySegments(ComposeAll(old(transforms) + [Translation(x, y), FlipOriginMatrix(flip).value]),
                                  OpenCornerBoxPoints(w, h, setback), width, layer)
    {
      var translation := TransformTranslate(x, y, true);
      var mat := TransformFlipOrigin(flip, true);
      if mat.Err? {
        return Fail(mat.error);
      }
      assert transforms == old(transforms) + [Translation(x, y), FlipOriginMatrix(flip).value];
      var drawn := Polyline(OpenCornerBoxPoints(w, h, setback), None, None);
      var popped := PopTransform(2);
      outcome := Pass;
    }

    /** A marker arrow with its point at `(x, y)`, turned by `rotation` (the
        matrix `TransformRotationOrigin(direction)` builds from the
        direction's cosine and sine). */
    method MarkerArrow(x: real, y: real, rotation: Affine, width: real)
      modifies footprint`drawings, this`transforms, this`transform
      ensures transforms == old(transforms) && transform == ComposeAll(transforms)
      ensures footprint.drawings
           == old(footprint.drawings)
              + PolySegments(ComposeAll(old(transforms) + [Translation(x, y), rotation]), ArrowPoints(width), this.width, layer)
    {
      var translation := TransformTranslate(x, y, true);
      PushTransform(rotation);
      assert transforms == old(transforms) + [Translation(x, y), rotation];
      var drawn := Polyline(ArrowPoints(width), None, None);
      var popped := PopTransform(2);
    }

    /** One side of a pin: an open chamfered outline. */
    method DrawPinSide(w: real, l: real, chamferLen: real, x: real, y: real)
      modifies footprint`drawings, this`transforms, this`transform
      ensures transforms == old(transforms) && transform == old(transform)
      ensures footprint.drawings
           == old(footprint.drawings) + PolySegments(transform, PinSidePoints(w, l, chamferLen, x, y), width, layer)
    {
      var outcome := Polyline(PinSidePoints(w, l, chamferLen, x, y), None, None);
    }

    /** The end of a pin: a box, and for a pin taller than wide a centre line
        with an arrow head at the top and its mirror image at the bottom.
        For a pin no taller than wide the branch calls `self.draw.Line`,
        which the class does not have: `AttributeError` after the box is
        drawn. */
    method DrawPinEnd(x: real, y: real, w: real, h: real) returns (outcome: Outcome)
      modifies footprint`drawings, this`transforms, this`transform
      ensures outcome == if h > w then Pass else Fail(AttributeError)
      ensures transforms == old(transforms) && transform == old(transform)
      ensures var z := HalfMin(w, h);
              var box := old(footprint.drawings) + PolySegments(transform, BoxPoints(x, y, w, h), width, layer);
              footprint.drawings
              == if h > w then
                   box + [Segment(Apply(transform, Point(x, y + h / 2.0 - z)), Apply(transform, Point(x, y - h / 2.0 + z)), width, layer)]
                   + PolySegments(transform, PinEndHeadPoints(x, y, w, h, z), width, layer)
                   + PolySegments(transform, MirrorY(PinEndHeadPoints(x, y, w, h, z), y), width, layer)
                 else box
    {
      var z := HalfMin(w, h);
      Box(x, y, w, h);
      if h > w {
        Line(x, y + h / 2.0 - z, x, y - h / 2.0 + z);
        var pts := PinEndHeadPoints(x, y, w, h, z);
        var head := Polyline(pts, None, None);
        var tail := Polyline(MirrorY(pts, y), None, None);
        outcome := Pass;
      } else {
        outcome := Fail(AttributeError);
      }
    }

    /** `n` teeth, one pitch apart and centred on the origin, each drawn as a
        six-point polyline; nothing for `n <= 0`. */
    method SawtoothLine(n: int, pitch: real, ybottom: real, ytop: real, wbottom: real, wtop: real)
      modifies footprint`drawings, this`transforms, this`transform
      ensures transforms == old(transforms) && transform == old(transform)
      ensures footprint.drawings
           == old(footprint.drawings)
              + SawtoothSegments(transform, if n < 0 then 0 else n, n, pitch, ybottom, ytop, wbottom, wtop, width, layer)
    {
      var count := if n < 0 then 0 else n;
      for i := 0 to count
        invariant transforms == old(transforms) && transform == old(transform)
        invariant footprint.drawings
               == old(footprint.drawings) + SawtoothSegments(transform, i, n, pitch, ybottom, ytop, wbottom, wtop, width, layer)
      {
        var cx := ToothCentre(i, n, pitch);
        var outcome := Polyline(ToothPoints(cx, pitch, ybottom, ytop, wbottom, wtop), None, None);
        SawtoothStep(transform, i, n, pitch, ybottom, ytop, wbottom, wtop, width, layer);
      }
    }
  }

  /** The item `Circle` adds: centre and rim through `m`, the stroke `r`
      wide for a filled circle. */
  function CircleItem(m: Affine, x: real, y: real, r: real, filled: bool, width: real, layer: int): DrawItem {
    if filled then DrawItem.Circle(Apply(m, Point(x, y)), Apply(m, Point(x, y + r / 2.0)), r, layer)
    else DrawItem.Circle(Apply(m, Point(x, y)), Apply(m, Point(x, y + r)), width, layer)
  }

  /** Untransformed, a filled circle's ring reaches from the centre out to
      radius `r`: its stroke covers the whole disc. An outline circle has
      radius `r`. */
  lemma FilledCircleCoversDisc(x: real, y: real, r: real, width: real, layer: int)
    ensures var c := CircleItem(Identity, x, y, r, true, width, layer);
            c.rim.y - c.centre.y - c.width / 2.0 == 0.0 && c.rim.y - c.centre.y + c.width / 2.0 == r
    ensures var c := CircleItem(Identity, x, y, r, false, width, layer);
            c.rim.x == c.centre.x && c.rim.y - c.centre.y == r
  {
  }

  /** The squared distance between two points. */
  function DistanceSquared(p: Point, q: Point): real {
    (q.x - p.x) * (q.x - p.x) + (q.y - p.y) * (q.y - p.y)
  }

  /** Under any transform that keeps lengths along `y` (a translation, a
      rotation, a flip, or any composite of them) the circle `Circle` adds
      keeps its radius: `r` for an outline, and for a filled circle a ring
      of radius `r / 2` stroked `r` wide, reaching from the centre to `r`. */
  lemma CircleKeepsRadius(m: Affine, x: real, y: real, r: real, filled: bool, width: real, layer: int)
    requires m.xy * m.xy + m.yy * m.yy == 1.0
    ensures var c := CircleItem(m, x, y, r, filled, width, layer);
            DistanceSquared(c.centre, c.rim) == if filled then (r / 2.0) * (r / 2.0) else r * r
    ensures filled ==> CircleItem(m, x, y, r, filled, width, layer).width == r
  {
    var d := if filled then r / 2.0 else r;
    var c := CircleItem(m, x, y, r, filled, width, layer);
    assert c.rim.x - c.centre.x == d * m.xy;
    assert c.rim.y - c.centre.y == d * m.yy;
    calc {
      DistanceSquared(c.centre, c.rim);
      (d * m.xy) * (d * m.xy) + (d * m.yy) * (d * m.yy);
      d * d * (m.xy * m.xy + m.yy * m.yy);
      d * d;
    }
  }
}
