# Footprint wizard helpers and board/router settings, in Dafny

This project models five parts of the KiCad PCB editor:

- **Footprint wizard drawing aids** (`FootprintWizardDrawingAids`): a drawing
  context holding a stack of six-element affine transforms composed into
  one current transform, a current layer and line width, and drawing
  primitives. The primitives are lines, circles, arcs, polylines, boxes,
  notched and cornered boxes, marker arrows, pin outlines and sawtooth
  lines. Each adds transformed outline items to a footprint.
- **Pad arrays** (`PadArray`, `PadGridArray`, `PadLineArray`): an `nx` by
  `ny` grid of copies of a template pad centred on a point, numbered from a
  first pad number (or all given one name), and the bijective base-N letter
  namer used for row names.
- **The exact Bezier algebra** of the Bezier-to-arc experiment:
  - cubic Bernstein evaluation and De Casteljau splitting;
  - the inflection polynomial and the quadratic solver;
  - splitting a curve into a chain of pieces at its inflections;
  - implicit lines through two points and their intersection.
- **Board design settings** (`VIA_DIMENSION`, `BOARD_DESIGN_SETTINGS`'s
  inline members): the choice between a custom size and a list entry for
  new tracks and vias, and the layer and element visibility masks.
- **Router settings** (`PNS_ROUTING_SETTINGS`): mode, optimizer effort,
  behaviour flags, default sizes, and the derived `FollowMouse` and
  `InitialDirection`.

Modules:

| Module | File | Holds |
|---|---|---|
| `Wrappers` | `wrappers.dfy` | `Option`, `Result` and `Outcome`, plus the Python exceptions the helpers can raise |
| `Geometry` | `geometry.dfy` | points and interpolation |
| `Footprint` | `footprint.dfy` | stand-ins for the host footprint, its outline items and its pads |
| `DrawingAids` | `drawing_aids.dfy` | |
| `PadArray` | `pad_array.dfy` | |
| `BezierConverter` | `bezier_converter.dfy` | |
| `BoardDesignSettings` | `board_design_settings.dfy` | |
| `RoutingSettings` | `routing_settings.dfy` | |

How the source is represented:

- Objects whose methods update fields become classes. This covers the
  drawing context, the pad grid, both settings objects and the footprint.
- The source's loops are methods with loop invariants, each proved against
  a specification function. These are the composition of the stack,
  popping, polylines, sawtooth lines, adding a pad grid and splitting a
  curve at its inflections.
- Python exceptions become `Result`/`Outcome` values.
- Python floats become reals.
- Python 2 integer division in the pad grid is floor division. For the
  divisor 2 this is Dafny's `/`.
- Layer and element masks are `bv32` words.

## Model

| member | source | states |
|---|---|---|
| DrawingAids.ComposeApplies | pcbnew/scripting/plugins/FootprintWizardDrawingAids.py:74-87 | one precomposition step applies the pushed matrix first and the accumulated one after it |
| DrawingAids.ComposeIdentity | pcbnew/scripting/plugins/FootprintWizardDrawingAids.py:47 | `xfrmIDENTITY` is neutral on both sides of composition |
| DrawingAids.ComposeAllApplies | pcbnew/scripting/plugins/FootprintWizardDrawingAids.py:74-90 | the transform composed from the stack sends every point where the stack does: the last-pushed matrix acts first, the bottom matrix last |
| DrawingAids.IdentityFixes | pcbnew/scripting/plugins/FootprintWizardDrawingAids.py:47 | with an empty stack the transform fixes every point |
| DrawingAids.Translation | pcbnew/scripting/plugins/FootprintWizardDrawingAids.py:92-93 | the translation matrix maps `p` to `p + (x, y)` |
| DrawingAids.FlipOriginMatrix | pcbnew/scripting/plugins/FootprintWizardDrawingAids.py:99-111 | a matrix exactly for the flip codes 0..3; `ValueError` for every other code |
| DrawingAids.FlipOriginMirrors | pcbnew/scripting/plugins/FootprintWizardDrawingAids.py:99-109 | the flip about the origin negates exactly the coordinates its code names |
| DrawingAids.FlipMatrix | pcbnew/scripting/plugins/FootprintWizardDrawingAids.py:117-123 | the flip about `(x, y)` fails with `ValueError` exactly for an unknown code |
| DrawingAids.FlipMatrixIsComposite | pcbnew/scripting/plugins/FootprintWizardDrawingAids.py:117-123 | translate to `(x, y)`, flip and translate back compose to the closed-form flip matrix |
| DrawingAids.FlipMirrorsAbout | pcbnew/scripting/plugins/FootprintWizardDrawingAids.py:117-123 | the flip about `(x, y)` mirrors through `X == x` and/or `Y == y`; `flipX` maps `(px, py)` to `(2x - px, py)` |
| DrawingAids.FlipIsInvolution | pcbnew/scripting/plugins/FootprintWizardDrawingAids.py:117-123 | the same flip twice is the identity, and the flip keeps `(x, y)` fixed |
| DrawingAids.ScaleMatrix | pcbnew/scripting/plugins/FootprintWizardDrawingAids.py:151-156 | scales x by `sx` and y by `sy`, which defaults to `sx` |
| DrawingAids.PolySegments | pcbnew/scripting/plugins/FootprintWizardDrawingAids.py:238-243 | `max(k-1, 0)` segments for `k` points, in the current width and layer, from `T(p0)` to `T(p_last)`, each starting where the previous ends |
| DrawingAids.ClosedPolyline | pcbnew/scripting/plugins/FootprintWizardDrawingAids.py:238-243 | a polyline whose last point is its first closes on itself |
| DrawingAids.MirroredPolylineReflects | pcbnew/scripting/plugins/FootprintWizardDrawingAids.py:247-249 | segment `i` of the `mirrorX` copy runs between the images of points `i` and `i+1` mirrored through `X == mirrorX` |
| DrawingAids.BoxPoints | pcbnew/scripting/plugins/FootprintWizardDrawingAids.py:286-298 | five points, first equal to last, consecutive points sharing an x or a y, every point a corner `(x ± w/2, y ± h/2)`, and the first four are all four corners |
| DrawingAids.NotchedBoxPoints | pcbnew/scripting/plugins/FootprintWizardDrawingAids.py:300-319 | nine points closing at the first corner; the notch floor lies `notchH` in from the top edge, and the notch is no wider than `x + w/2` |
| DrawingAids.DiagonalBoxPoints | pcbnew/scripting/plugins/FootprintWizardDrawingAids.py:326-333 | a closed six-point outline whose top-left corner is cut `setback` along each edge |
| DrawingAids.OpenCornerBoxPoints | pcbnew/scripting/plugins/FootprintWizardDrawingAids.py:348-352 | five points starting `setback` below and ending `setback` right of the top-left corner |
| DrawingAids.ArrowPoints | pcbnew/scripting/plugins/FootprintWizardDrawingAids.py:368-371 | a closed triangle with its tip at the origin, symmetric about the y axis |
| DrawingAids.PinSidePoints | pcbnew/scripting/plugins/FootprintWizardDrawingAids.py:381-385 | five points with the chamfer tip at `(x, y + l)`, symmetric about `X == x` |
| DrawingAids.MirrorY | pcbnew/scripting/plugins/FootprintWizardDrawingAids.py:405 | each point mirrored through `Y == y`: x kept, y reflected |
| DrawingAids.HalfMin | pcbnew/scripting/plugins/FootprintWizardDrawingAids.py:391 | `z` is the smaller of `w/2` and `h/2` |
| DrawingAids.ToothCentresSymmetric | pcbnew/scripting/plugins/FootprintWizardDrawingAids.py:423 | teeth `i` and `n-1-i` are symmetric about x = 0, and neighbouring teeth are one pitch apart |
| DrawingAids.ToothPoints | pcbnew/scripting/plugins/FootprintWizardDrawingAids.py:425-431 | six points running from `cx - pitch/2` to `cx + pitch/2` on the top line |
| DrawingAids.TeethAreContinuous | pcbnew/scripting/plugins/FootprintWizardDrawingAids.py:423-431 | the last point of tooth `i` is the first point of tooth `i+1` |
| DrawingAids.SawtoothSegments | pcbnew/scripting/plugins/FootprintWizardDrawingAids.py:420-433 | `k` teeth give `5k` segments |
| DrawingAids.FilledCircleCoversDisc | pcbnew/scripting/plugins/FootprintWizardDrawingAids.py:188-202 | a filled circle is a ring of radius `r/2` with stroke `r`, covering radii 0 to `r`; an outline circle has radius `r` |
| DrawingAids.CircleKeepsRadius | pcbnew/scripting/plugins/FootprintWizardDrawingAids.py:188-202 | under any transform that keeps lengths along y, the circle's rim is `r` from the centre, or `r/2` with stroke `r` when filled |
| DrawingAids.FootprintWizardDrawingAids.constructor | pcbnew/scripting/plugins/FootprintWizardDrawingAids.py:49-57 | default layer and width, an empty stack, the identity transform |
| DrawingAids.FootprintWizardDrawingAids.ComposeMatricesWithIdentity | pcbnew/scripting/plugins/FootprintWizardDrawingAids.py:74-87 | the loop returns the composition of the list, which applies the matrices last-first |
| DrawingAids.FootprintWizardDrawingAids.RecomputeTransforms | pcbnew/scripting/plugins/FootprintWizardDrawingAids.py:89-90 | the current transform becomes the composition of the stack |
| DrawingAids.FootprintWizardDrawingAids.PushTransform | pcbnew/scripting/plugins/FootprintWizardDrawingAids.py:59-61 | the matrix is appended and the transform recomputed |
| DrawingAids.FootprintWizardDrawingAids.PopTransform | pcbnew/scripting/plugins/FootprintWizardDrawingAids.py:63-68 | pops `num` and returns the last popped. Too many pops: `IndexError`, empty stack, transform not recomputed. `num <= 0`: `UnboundLocalError` |
| DrawingAids.FootprintWizardDrawingAids.ResetTransform | pcbnew/scripting/plugins/FootprintWizardDrawingAids.py:70-72 | an empty stack and the identity transform |
| DrawingAids.FootprintWizardDrawingAids.PushThenPop | pcbnew/scripting/plugins/FootprintWizardDrawingAids.py:59-68 | push then pop returns the pushed matrix and restores the stack and the transform |
| DrawingAids.FootprintWizardDrawingAids.PushIf | pcbnew/scripting/plugins/FootprintWizardDrawingAids.py:95-96 | pushes exactly when `push` is set, otherwise leaves the stack and the transform alone |
| DrawingAids.FootprintWizardDrawingAids.TransformTranslate | pcbnew/scripting/plugins/FootprintWizardDrawingAids.py:92-97 | returns the translation; pushes it only when `push` is set |
| DrawingAids.FootprintWizardDrawingAids.TransformFlipOrigin | pcbnew/scripting/plugins/FootprintWizardDrawingAids.py:99-115 | returns the flip or `ValueError`; pushes only a valid flip with `push` set |
| DrawingAids.FootprintWizardDrawingAids.TransformFlip | pcbnew/scripting/plugins/FootprintWizardDrawingAids.py:117-128 | returns the distilled flip about `(x, y)` or `ValueError`; pushes only on success with `push` set |
| DrawingAids.FootprintWizardDrawingAids.TransformScaleOrigin | pcbnew/scripting/plugins/FootprintWizardDrawingAids.py:151-161 | returns the scale matrix; pushes it only when `push` is set |
| DrawingAids.FootprintWizardDrawingAids.TransformPoint | pcbnew/scripting/plugins/FootprintWizardDrawingAids.py:163-169 | through the given matrix, or else through the stack, most recent matrix first |
| DrawingAids.FootprintWizardDrawingAids.SetWidth | pcbnew/scripting/plugins/FootprintWizardDrawingAids.py:171-172 | the width is replaced and nothing else changes |
| DrawingAids.FootprintWizardDrawingAids.SetLayer | pcbnew/scripting/plugins/FootprintWizardDrawingAids.py:174-175 | the layer is replaced and nothing else changes |
| DrawingAids.FootprintWizardDrawingAids.Line | pcbnew/scripting/plugins/FootprintWizardDrawingAids.py:177-186 | appends one transformed segment in the current width and layer |
| DrawingAids.FootprintWizardDrawingAids.Circle | pcbnew/scripting/plugins/FootprintWizardDrawingAids.py:188-202 | appends one circle: radius `r` outlined, or stroke `r` at radius `r/2` when filled |
| DrawingAids.FootprintWizardDrawingAids.Arc | pcbnew/scripting/plugins/FootprintWizardDrawingAids.py:204-217 | appends one arc with transformed centre and start |
| DrawingAids.FootprintWizardDrawingAids.HLine | pcbnew/scripting/plugins/FootprintWizardDrawingAids.py:220-224 | a segment from `(x, y)` to `(x + l, y)` |
| DrawingAids.FootprintWizardDrawingAids.VLine | pcbnew/scripting/plugins/FootprintWizardDrawingAids.py:226-231 | a segment from `(x, y)` to `(x, y + l)` |
| DrawingAids.FootprintWizardDrawingAids.PolylineInternal | pcbnew/scripting/plugins/FootprintWizardDrawingAids.py:238-243 | the loop appends exactly the polyline's segments |
| DrawingAids.FootprintWizardDrawingAids.Polyline | pcbnew/scripting/plugins/FootprintWizardDrawingAids.py:233-260 | the polyline, then with `mirrorX` its mirror image; the stack is unchanged; `mirrorY` raises `TypeError` |
| DrawingAids.FootprintWizardDrawingAids.Box | pcbnew/scripting/plugins/FootprintWizardDrawingAids.py:286-298 | the closed box outline; the stack and the transform are unchanged |
| DrawingAids.FootprintWizardDrawingAids.NotchedBox | pcbnew/scripting/plugins/FootprintWizardDrawingAids.py:300-319 | the notched outline; the stack and the transform are unchanged |
| DrawingAids.FootprintWizardDrawingAids.BoxWithDiagonalAtCorner | pcbnew/scripting/plugins/FootprintWizardDrawingAids.py:321-337 | draws under the flip about the centre and pops what it pushed; an unknown flip raises `ValueError` with nothing drawn |
| DrawingAids.FootprintWizardDrawingAids.BoxWithOpenCorner | pcbnew/scripting/plugins/FootprintWizardDrawingAids.py:339-357 | draws under translate-then-flip and pops both; an unknown flip raises with the translation left pushed |
| DrawingAids.FootprintWizardDrawingAids.MarkerArrow | pcbnew/scripting/plugins/FootprintWizardDrawingAids.py:359-376 | the arrow under translation and rotation; both are popped |
| DrawingAids.FootprintWizardDrawingAids.DrawPinSide | pcbnew/scripting/plugins/FootprintWizardDrawingAids.py:379-387 | the open chamfered outline; the stack is unchanged |
| DrawingAids.FootprintWizardDrawingAids.DrawPinEnd | pcbnew/scripting/plugins/FootprintWizardDrawingAids.py:389-418 | box, centre line, head and its mirror in Y for a tall pin; otherwise the box and then `AttributeError` |
| DrawingAids.FootprintWizardDrawingAids.SawtoothLine | pcbnew/scripting/plugins/FootprintWizardDrawingAids.py:420-433 | the loop appends `max(n, 0)` teeth of five segments each; the stack is unchanged |
| PadArray.Trunc | pcbnew/scripting/plugins/PadArray.py:72-73 | `int()` truncates toward zero, within one of its argument |
| PadArray.NatString | pcbnew/scripting/plugins/PadArray.py:118 | non-empty, all decimal digits, one digit exactly below 10 |
| PadArray.IntString | pcbnew/scripting/plugins/PadArray.py:118 | non-empty; leading `-` exactly for negative numbers, every other character a decimal digit |
| PadArray.NatStringInjective | pcbnew/scripting/plugins/PadArray.py:118 | different naturals have different decimal strings |
| PadArray.IntStringInjective | pcbnew/scripting/plugins/PadArray.py:118 | `str()` on integers is injective |
| PadArray.AlphaNameFromNumber | pcbnew/scripting/plugins/PadArray.py:81-89 | a non-empty name using only letters of the alphabet and ending in `alphabet[(n - aIndex) mod L]` |
| PadArray.QuotientDecreases | pcbnew/scripting/plugins/PadArray.py:83-87 | the recursive call's argument is smaller, in exactly the terminating configurations |
| PadArray.AlphaNameSingleLetter | pcbnew/scripting/plugins/PadArray.py:83-89 | `aIndex <= n < aIndex + L` gives the single letter `alphabet[n - aIndex]` |
| PadArray.AlphaNameExamples | pcbnew/scripting/plugins/PadArray.py:78-89 | 26 is "Z" (the comment at line 78 says "AA"), 27 is "AA", 52 is "AZ"; from 0, 26 is "BA" |
| PadArray.AlphaNameInjective | pcbnew/scripting/plugins/PadArray.py:81-89 | with distinct letters and `aIndex` 0 or 1, different numbers get different names |
| PadArray.GridIndexInRange | pcbnew/scripting/plugins/PadArray.py:92-93 | cell indices of an `nx` by `ny` grid lie in `0 .. nx*ny - 1` |
| PadArray.GridIndexInjective | pcbnew/scripting/plugins/PadArray.py:92-93 | no two cells share an index |
| PadArray.GridIndexCovers | pcbnew/scripting/plugins/PadArray.py:92-93 | every index `0 .. nx*ny - 1` belongs to a cell |
| PadArray.Pin1 | pcbnew/scripting/plugins/PadArray.py:98-99 | the first pad (`pin1posX`, `pin1posY`) and the last pad sit symmetrically about the centre, off by the remainder that floor division drops |
| PadArray.PadName | pcbnew/scripting/plugins/PadArray.py:117-120 | the shared `pinNames` when given; otherwise a decimal numeral, negative exactly when the pad number is |
| PadArray.PadsAreEvenlySpaced | pcbnew/scripting/plugins/PadArray.py:98-116 | every pad is a copy of the template; pad `(0, 0)` sits at pin 1, and the next column (row) sits `px` (`py`) further along x (y) |
| PadArray.PadNumbersAreARange | pcbnew/scripting/plugins/PadArray.py:92-93 | grid pad numbers lie in `firstPad .. firstPad + nx*ny - 1` |
| PadArray.FirstPadShiftsNumbers | pcbnew/scripting/plugins/PadArray.py:46-47 | changing `firstPad` shifts every pad number by the same amount |
| PadArray.PadNamesDistinct | pcbnew/scripting/plugins/PadArray.py:117-118 | without `pinNames`, the grid's pad names are pairwise distinct |
| PadArray.Column | pcbnew/scripting/plugins/PadArray.py:105-122 | the pads of column `x`, one per row, in row order |
| PadArray.Columns | pcbnew/scripting/plugins/PadArray.py:101-122 | `k` columns hold `k * ny` pads |
| PadArray.ColumnsLayout | pcbnew/scripting/plugins/PadArray.py:101-122 | among the pads of the first `k` columns, cell `(x, y)` is at position `x*ny + y` (columns outer, rows inner) |
| PadArray.GridPadsLayout | pcbnew/scripting/plugins/PadArray.py:101-122 | the whole grid is `nx*ny` pads, cell `(x, y)` at `x*ny + y` |
| PadArray.PadGridArray.constructor | pcbnew/scripting/plugins/PadArray.py:67-76 | `firstPad` is 1 (from the base constructor at lines 42-44), `nx`, `ny` go through `int()`, and the other parameters are kept as given |
| PadArray.PadGridArray.LineArray | pcbnew/scripting/plugins/PadArray.py:124-131 | vertical: a 1 by n grid at pitch `(0, pitch)`; otherwise n by 1 at `(pitch, 0)` |
| PadArray.PadGridArray.SetFirstPadInArray | pcbnew/scripting/plugins/PadArray.py:46-47 | only `firstPad` changes |
| PadArray.PadGridArray.NamingFunction | pcbnew/scripting/plugins/PadArray.py:92-93 | `firstPad + nx*y + x`, inside `firstPad .. firstPad + nx*ny - 1` for grid cells |
| PadArray.PadGridArray.AddPad | pcbnew/scripting/plugins/PadArray.py:62-63 | the pad is appended to the footprint |
| PadArray.PadGridArray.AddPadsToModule | pcbnew/scripting/plugins/PadArray.py:96-122 | the nested loops append exactly the grid's pads, x-major, each at `pin1 + (x*px, y*py)`, named `str(NamingFunction)` or `pinNames` |
| BezierConverter.PointOnBezier | pcbnew/scripting/plugins/bezier_converter.py:49-55 | the curve is at its first control point at `t = 0` and at its last at `t = 1` |
| BezierConverter.SplitBezier | pcbnew/scripting/plugins/bezier_converter.py:99-127 | the first half starts at `bez[0]`, the second ends at `bez[3]`, and they share the join point |
| BezierConverter.BernsteinPowerForm | pcbnew/scripting/plugins/bezier_converter.py:52-53 | the Bernstein blend in power-basis form |
| BezierConverter.DeCasteljauPowerForm | pcbnew/scripting/plugins/bezier_converter.py:108-124 | the three interpolation rounds in power-basis form |
| BezierConverter.JoinIsBernstein | pcbnew/scripting/plugins/bezier_converter.py:108-124 | the scalar join point is the Bernstein value at `t` |
| BezierConverter.LeftPieceRetraces | pcbnew/scripting/plugins/bezier_converter.py:108-127 | the first piece at `s` is the curve at `s*t` (one coordinate) |
| BezierConverter.RightPieceRetraces | pcbnew/scripting/plugins/bezier_converter.py:108-127 | the second piece at `s` is the curve at `t + s(1 - t)` (one coordinate) |
| BezierConverter.SplitJoinIsOnCurve | pcbnew/scripting/plugins/bezier_converter.py:123-127 | the join point `(x1234, y1234)` is `pointOnBezier(bez, t)` |
| BezierConverter.SplitRetracesCurve | pcbnew/scripting/plugins/bezier_converter.py:99-127 | the two pieces exactly retrace the curve over `[0, t]` and `[t, 1]` |
| BezierConverter.SplitAtEnds | pcbnew/scripting/plugins/bezier_converter.py:99-127 | at `t = 0` the second half is the curve; at `t = 1` the first half is |
| BezierConverter.Sorted2 | pcbnew/scripting/plugins/bezier_converter.py:97 | `sorted` of two values is a permutation of them, in order |
| BezierConverter.SolveQuadraticReal | pcbnew/scripting/plugins/bezier_converter.py:82-97 | as written: `ZeroDivisionError` exactly when `a == b == 0` |
| BezierConverter.SolveQuadraticRealAgreesWithIntended | pcbnew/scripting/plugins/bezier_converter.py:82-97 | as written and intended agree on every non-constant polynomial |
| BezierConverter.SolveQuadraticRealRaisesOnConstant | pcbnew/scripting/plugins/bezier_converter.py:85-88 | the polynomial `1` raises `ZeroDivisionError` |
| BezierConverter.SolveQuadraticRealIntended | pcbnew/scripting/plugins/bezier_converter.py:82-97 | at most two roots |
| BezierConverter.CompletedSquare | pcbnew/scripting/plugins/bezier_converter.py:83 | for `a != 0`, `x` is a root exactly when `(2ax + b)^2` is the discriminant |
| BezierConverter.LinearRoot | pcbnew/scripting/plugins/bezier_converter.py:88-89 | a linear polynomial's only root is `-c/b` |
| BezierConverter.DoubleRoot | pcbnew/scripting/plugins/bezier_converter.py:90-91 | a zero discriminant gives the single root `-b/(2a)` |
| BezierConverter.TwoRoots | pcbnew/scripting/plugins/bezier_converter.py:94-95 | a positive discriminant gives exactly the two roots `(-b ∓ sqrt)/(2a)` |
| BezierConverter.TwoRootsDiffer | pcbnew/scripting/plugins/bezier_converter.py:94-95 | the two roots are distinct |
| BezierConverter.QuadraticRootsIncrease | pcbnew/scripting/plugins/bezier_converter.py:82-97 | the solver's result is strictly increasing |
| BezierConverter.QuadraticRootsSound | pcbnew/scripting/plugins/bezier_converter.py:82-97 | every value returned is a root |
| BezierConverter.QuadraticRootsComplete | pcbnew/scripting/plugins/bezier_converter.py:82-97 | every root of a non-constant polynomial is returned |
| BezierConverter.InsideUnitInterval | pcbnew/scripting/plugins/bezier_converter.py:80 | keeps exactly the values strictly between 0 and 1, still increasing |
| BezierConverter.FindInflections | pcbnew/scripting/plugins/bezier_converter.py:57-80 | strictly increasing roots of the inflection polynomial inside `(0, 1)` |
| BezierConverter.InflectionQuadraticIsCross | pcbnew/scripting/plugins/bezier_converter.py:57-76 | `qa t^2 + qb t + qc` is the cross product of the curve's velocity and acceleration at `t`, so its roots are exactly where the curvature vanishes |
| BezierConverter.SlopeIsDerivative | pcbnew/scripting/plugins/bezier_converter.py:52-53 | the cubic's Taylor expansion about `t`: `Slope` and `Bend` are a third of its first and a sixth of its second derivative |
| BezierConverter.VelocityIsDerivativeX | pcbnew/scripting/plugins/bezier_converter.py:49-55 | `Velocity` and `Acceleration` are the derivatives of `pointOnBezier`'s x coordinate |
| BezierConverter.VelocityIsDerivativeY | pcbnew/scripting/plugins/bezier_converter.py:49-55 | the same for the y coordinate |
| BezierConverter.FindInflectionsAsWritten | pcbnew/scripting/plugins/bezier_converter.py:57-88 | as written: `ZeroDivisionError` exactly when `qa == qb == 0`; otherwise the roots inside `(0, 1)` |
| BezierConverter.FindInflectionsRaisesOnStraightLine | pcbnew/scripting/plugins/bezier_converter.py:78 | a straight line (all four control points on the x axis) raises `ZeroDivisionError` |
| BezierConverter.FindInflectionsComplete | pcbnew/scripting/plugins/bezier_converter.py:57-80 | no inflection inside `(0, 1)` is missed, unless the polynomial is constant |
| BezierConverter.SplitChain | pcbnew/scripting/plugins/bezier_converter.py:135-147 | `len(infl) + 1` pieces chained end to start, from `bez[0]` to `bez[3]` |
| BezierConverter.SplitBezierAtInflections | pcbnew/scripting/plugins/bezier_converter.py:129-147 | as written: `ZeroDivisionError` exactly when the inflection polynomial is constant; otherwise the loop builds exactly the chain of pieces, each split applied to what is left |
| BezierConverter.SplitBezierAtInflectionsMissesSecondInflection | pcbnew/scripting/plugins/bezier_converter.py:141-143 | for a curve with inflections 1/4 and 3/4, the second cut lands at 13/16 and not at 3/4 |
| BezierConverter.SplitChainRescaled | pcbnew/scripting/plugins/bezier_converter.py:129-147 | rescaled splitting still gives `len(infl) + 1` chained pieces from `bez[0]` to `bez[3]` |
| BezierConverter.SplitBezierAtInflectionsRescaled | pcbnew/scripting/plugins/bezier_converter.py:129-147 | the corrected splitter returns a chain from `bez[0]` to `bez[3]`, one piece more than inflections |
| BezierConverter.RescaleAlgebra | pcbnew/scripting/plugins/bezier_converter.py:141-143 | the rescaled parameter maps back to the original parameter |
| BezierConverter.RescaledCutOnCurve | pcbnew/scripting/plugins/bezier_converter.py:141-143 | a rescaled cut on a retracing piece lands on the curve at `t` |
| BezierConverter.RescaledRemainderRetraces | pcbnew/scripting/plugins/bezier_converter.py:141-143 | what remains after a rescaled cut retraces the curve from `t` on |
| BezierConverter.RescaledChainJoins | pcbnew/scripting/plugins/bezier_converter.py:141-145 | the `i`-th rescaled cut is the curve's point at the `i`-th parameter |
| BezierConverter.RescaledSplitCutsAtInflections | pcbnew/scripting/plugins/bezier_converter.py:129-147 | with rescaling, every cut is the curve's point at an inflection |
| BezierConverter.Difference | pcbnew/scripting/plugins/bezier_converter.py:179-183 | the vector that carries `p1` to `p2` |
| BezierConverter.DotIsSymmetric | pcbnew/scripting/plugins/bezier_converter.py:185-186 | `dot(v1, v2) == dot(v2, v1)` |
| BezierConverter.DotWithItself | pcbnew/scripting/plugins/bezier_converter.py:185-186 | `dot(v, v)` is non-negative and zero exactly for the zero vector |
| BezierConverter.LineFromPoints | pcbnew/scripting/plugins/bezier_converter.py:149-157 | both points satisfy `a*x + b*y == c`, and distinct points give a proper line |
| BezierConverter.LineNormalIsPerpendicular | pcbnew/scripting/plugins/bezier_converter.py:149-157 | `(a, b)` is orthogonal to the line's direction |
| BezierConverter.CramerSolves | pcbnew/scripting/plugins/bezier_converter.py:165-169 | Cramer's rule solves both equations |
| BezierConverter.IntersectionOfLines | pcbnew/scripting/plugins/bezier_converter.py:159-171 | `None` exactly for a zero determinant; otherwise a point on both lines |
| BezierConverter.IntersectionIsUnique | pcbnew/scripting/plugins/bezier_converter.py:159-171 | the intersection is the only point on both lines |
| BoardDesignSettings.DefaultViaDimension | include/class_board_design_settings.h:24-28 | the default via is `(0, 0)` |
| BoardDesignSettings.EqualIsIdentity | include/class_board_design_settings.h:36-39 | `==` is fieldwise, i.e. value equality |
| BoardDesignSettings.LessIsLexicographic | include/class_board_design_settings.h:41-47 | `<` is lexicographic on (diameter, drill) |
| BoardDesignSettings.LessIsIrreflexive | include/class_board_design_settings.h:41-47 | no via is less than itself |
| BoardDesignSettings.LessIsTransitive | include/class_board_design_settings.h:41-47 | `<` is transitive |
| BoardDesignSettings.LessIsTrichotomous | include/class_board_design_settings.h:36-47 | exactly one of `<`, `==`, `>` holds: the pairs `<` cannot order are the `==` pairs |
| BoardDesignSettings.VisibleMask | include/class_board_design_settings.h:346-349 | the stored mask lies within the enabled layers, `FULL_LAYERS` and the request |
| BoardDesignSettings.VisibleMaskIsIdempotent | include/class_board_design_settings.h:346-349 | masking again changes nothing |
| BoardDesignSettings.VisibleMaskKeepsExactlyEnabled | include/class_board_design_settings.h:346-349 | a request is stored unchanged exactly when it asks only for enabled, existing layers |
| BoardDesignSettings.ElementBitToggles | include/class_board_design_settings.h:399-404 | for masks given to `SetVisibleElements` that differ in category `c`'s bit alone, `IsElementVisible(c)` answers oppositely |
| BoardDesignSettings.ElementBitsAreIndependent | include/class_board_design_settings.h:399-404 | for masks given to `SetVisibleElements` that differ in another category's bit alone, `IsElementVisible(c)` answers the same |
| BoardDesignSettings.Settings.UseNetClassTrack | include/class_board_design_settings.h:126-129 | true exactly when the width index is 0 and custom sizes are off |
| BoardDesignSettings.Settings.UseNetClassVia | include/class_board_design_settings.h:135-138 | true exactly when the via index is 0 and custom sizes are off |
| BoardDesignSettings.Settings.GetCurrentTrackWidth | include/class_board_design_settings.h:196-199 | the custom width when custom sizes are on, else the selected list entry; the net class width (entry 0) when the net class is in use |
| BoardDesignSettings.Settings.GetCurrentViaSize | include/class_board_design_settings.h:245-251 | the custom diameter when custom sizes are on; otherwise the diameter of list entry `m_ViaSizeIndex`, which is entry 0 (the net class via) when the net class is in use |
| BoardDesignSettings.Settings.SetCustomTrackWidth | include/class_board_design_settings.h:208-220 | round-trips with the getter; with custom sizes on it becomes the current width |
| BoardDesignSettings.Settings.SetCustomViaSize | include/class_board_design_settings.h:260-272 | changes only the custom diameter and keeps the drill |
| BoardDesignSettings.Settings.SetCustomViaDrill | include/class_board_design_settings.h:289-301 | changes only the custom drill and keeps the diameter |
| BoardDesignSettings.Settings.UseCustomTrackViaSize | include/class_board_design_settings.h:310-322 | round-trips; enabling makes the custom sizes current and turns the net class off |
| BoardDesignSettings.Settings.SetVisibleLayers | include/class_board_design_settings.h:346-349 | stores `mask & enabled & FULL_LAYERS`, so afterwards visible lies within enabled |
| BoardDesignSettings.Settings.IsLayerEnabled | include/class_board_design_settings.h:438-441 | the layer's bit is enabled |
| BoardDesignSettings.Settings.IsLayerVisible | include/class_board_design_settings.h:357-361 | a disabled layer is never visible; when visible lies within enabled, it is the visible bit |
| BoardDesignSettings.Settings.SetVisibleElements | include/class_board_design_settings.h:386-389 | round-trips, and each category's visibility is then its bit in the mask |
| BoardDesignSettings.Settings.IsElementVisible | include/class_board_design_settings.h:399-404 | bit `c` of the element mask, for a category below `END_PCB_VISIBLE_LIST` |
| BoardDesignSettings.Settings.SetBoardThickness | include/class_board_design_settings.h:467-468 | round-trips with the thickness |
| RoutingSettings.ModeCode | pcbnew/router/pns_routing_settings.h:28-34 | codes 0..3, with 0 exactly for `RM_MarkObstacles` |
| RoutingSettings.ModeFromCode | pcbnew/router/pns_routing_settings.h:28-34 | a mode exactly for the codes 0..3 |
| RoutingSettings.ModeCodeRoundTrip | pcbnew/router/pns_routing_settings.h:28-34 | decoding a mode's code gives the mode |
| RoutingSettings.ModeCodeRoundTripFromCode | pcbnew/router/pns_routing_settings.h:28-34 | encoding a decoded code gives the code |
| RoutingSettings.EffortCode | pcbnew/router/pns_routing_settings.h:37-42 | codes 0..2 |
| RoutingSettings.EffortFromCode | pcbnew/router/pns_routing_settings.h:37-42 | an effort exactly for the codes 0..2 |
| RoutingSettings.EffortCodeRoundTrip | pcbnew/router/pns_routing_settings.h:37-42 | decoding an effort's code gives the effort |
| RoutingSettings.EffortCodeRoundTripFromCode | pcbnew/router/pns_routing_settings.h:37-42 | encoding a decoded code gives the code |
| RoutingSettings.Settings.FollowMouse | pcbnew/router/pns_routing_settings.h:92-95 | true exactly when the flag is set and the mode is not `RM_MarkObstacles` |
| RoutingSettings.Settings.InitialDirection | pcbnew/router/pns_routing_settings.h:121-127 | NE exactly when starting diagonally, N otherwise |
| RoutingSettings.Settings.SetMode | pcbnew/router/pns_routing_settings.h:56-59 | round-trips with `Mode`, and fixes `FollowMouse` to flag-and-not-marking |
| RoutingSettings.Settings.SetOptimizerEffort | pcbnew/router/pns_routing_settings.h:62-65 | round-trips with `OptimizerEffort` |
| RoutingSettings.Settings.SetShoveVias | pcbnew/router/pns_routing_settings.h:68-71 | round-trips; only that flag changes |
| RoutingSettings.Settings.SetRemoveLoops | pcbnew/router/pns_routing_settings.h:74-77 | round-trips; only that flag changes |
| RoutingSettings.Settings.SetSuggestFinish | pcbnew/router/pns_routing_settings.h:80-83 | round-trips; only that flag changes |
| RoutingSettings.Settings.SetSmartPads | pcbnew/router/pns_routing_settings.h:86-89 | round-trips; only that flag changes |
| RoutingSettings.Settings.SetSmoothDraggedSegments | pcbnew/router/pns_routing_settings.h:98-101 | round-trips; only that flag changes |
| RoutingSettings.Settings.SetJumpOverObstacles | pcbnew/router/pns_routing_settings.h:104-107 | round-trips; only that flag changes |
| RoutingSettings.Settings.SetStartDiagonal | pcbnew/router/pns_routing_settings.h:109 | sets `InitialDirection`, leaves `FollowMouse` and every other field alone |
| RoutingSettings.Settings.SetCanViolateDrc | pcbnew/router/pns_routing_settings.h:111-112 | round-trips; only that flag changes |
| RoutingSettings.Settings.SetTrackWidth | pcbnew/router/pns_routing_settings.h:114-115 | round-trips with `GetTrackWidth` |
| RoutingSettings.Settings.SetViaDiameter | pcbnew/router/pns_routing_settings.h:116-117 | round-trips with `GetViaDiameter` |
| RoutingSettings.Settings.SetViaDrill | pcbnew/router/pns_routing_settings.h:118-119 | round-trips with `GetViaDrill` |

## Left out

- Rotation (`TransformRotationOrigin`, `TransformRotation`) is built from `cos` and `sin` of floats. `MarkerArrow` takes the rotation matrix as a parameter.
- Text placement (`Reference`, `Value`) and the host objects are reduced to records that hold only what the helpers set. These include `EDGE_MODULE`, `D_PAD`, `wxPoint`, `FromMM`, `SILKSCREEN_N_FRONT` and `GetLayerMask`.
- Converting drawn coordinates to the host's integer `wxPoint` is not modelled.
- `TransformScaleOrigin`'s `print` and `splitBezierAtInflections`' `print` are output only.
- `PadArray.ClonePad` copies host pad fields. A pad is modelled as its template, position and name.
- `PadArray.PadGridArray.constructor`: `px`, `py` and the centre are taken to be integers (board units).
- DrawingAids.FootprintWizardDrawingAids.TransformPoint: `if not mat` also treats an empty list as no matrix. The model has only "a matrix" or "none".
- DrawingAids.FootprintWizardDrawingAids.MarkerArrow: the `direction` argument and its default `dirN` are replaced by the rotation matrix it produces.
- Several `bezier_converter.py` parts are not modelled:
  - the plotting and biarc experiments (`plotBezier`, `plotArc`, `biarcForBezier`, `biarcForPointsAndJoin`, `approximateBezierByArcs`) and the module-level script, which draw with a plotting library;
  - `circleFromThreePoints`, `incentre`, `normalise` and `distance`, which rest on square roots and `atan2` of floats;
  - `length`, which refers to an undefined name and returns nothing.
- BezierConverter.SolveQuadraticReal: `math.sqrt` is a runtime call. Its result for the discriminant is the parameter `root`, required to be the non-negative square root only where the source calls `sqrt`.
- BezierConverter.FindInflections uses the solver with the intended `elif` (see Findings). The as-written path is `FindInflectionsAsWritten`, which raises `ZeroDivisionError` for a curve whose inflection polynomial is constant and otherwise agrees with `FindInflections`.
- PadArray.AlphaNameFromNumber requires `Terminates`, a sufficient condition for the recursion to end: a non-empty alphabet with `aIndex >= 1`, or two letters or more with `aIndex >= 0`. It covers the `aIndex` values 0 and 1 that the source documents. Outside it, an empty alphabet raises `ZeroDivisionError` in `divmod`. Some configurations never end: one letter with `aIndex` 0 and `n >= 1` keeps `div == n`, and two letters with `aIndex` -1 and `n` 1 repeat `divmod(2, 2) == (1, 0)`. Others still end, such as 26 letters with `aIndex` -1; the model does not cover them.
- Python default arguments are passed explicitly in the model: `push=True`, `num=1`, `flip=flipNone`, `sy=None`, `mat=None`, `filled=False`, `mirrorX=None`, `mirrorY=None`, `setback=FromMM(1.27)` and `width=FromMM(1)` in the drawing helpers, and `centre=wxPoint(0,0)`, `pinNames=None`, `aIndex=1` and the 26-letter `alphabet` in the pad arrays.
- PadArray.AlphaNameInjective is stated for `aIndex` 0 or 1, the values the source documents.
- BoardDesignSettings.Settings.GetCurrentTrackWidth requires the selected index to be in range, as the C++ indexing does. The same goes for `GetCurrentViaSize`.
- BoardDesignSettings.Settings.IsElementVisible requires the category to be below `END_PCB_VISIBLE_LIST`, as the source's `assert` does.
- Several settings members are declared in the header but have no body there, so they are not modelled:
  - `SetCurrentNetClass`, `GetBiggestClearanceValue`, `GetSmallestClearanceValue`, `GetCurrentMicroViaSize`, `GetCurrentMicroViaDrill`, `SetTrackWidthIndex`, `SetViaSizeIndex`, `GetCurrentViaDrill`;
  - `SetVisibleAlls`, `SetLayerVisibility`, `SetElementVisibility`, `SetEnabledLayers`, `SetCopperLayerCount`, `AppendConfigs`;
  - `ShoveIterationLimit`, `ShoveTimeLimit` and `WalkaroundTimeLimit`;
  - the `BOARD_DESIGN_SETTINGS` and `PNS_ROUTING_SETTINGS` constructors.
- The plain getters of both settings classes are the class fields themselves.
- `FULL_LAYERS` and `END_PCB_VISIBLE_LIST` are host constants. They are declared without a value, so every property holds for any value.
- Layer masks and the element mask are 32-bit words. The element mask's C++ type is `int`, used here as its 32 bits.
- The router's limit fields and `WalkaroundIterationLimit`, its one inline getter, are not modelled. Most of the limit getters have no body in the header, and the time limits are of type `TIME_LIMIT`, which is not part of this model. The unused preferred layer is not modelled either.
- `GetDefault`, which returns the default net class, and the net class list are host objects. Entry 0 of each size list stands for the net class value.

## Findings

| source | as written | input that shows it | evidently intended | confidence | as-written member | corrected member |
|---|---|---|---|---|---|---|
| pcbnew/scripting/plugins/bezier_converter.py:85-88 | after `if a == 0 and b == 0: sol = []`, the next test is `if a == 0`, not `elif`, so a constant polynomial goes on to `-c / b` with `b == 0` | `a = 0, b = 0, c = 1`: `ZeroDivisionError` | `elif`: a constant polynomial has no roots to return | high (not executed) | BezierConverter.SolveQuadraticRealRaisesOnConstant | BezierConverter.QuadraticRootsSound |
| pcbnew/scripting/plugins/bezier_converter.py:141-143 | each inflection parameter, which is relative to the whole curve, is applied to the remaining second half `b2` | control points `(0,0), (0,16), (-3/16,16), (7/16,0)`, inflections 1/4 and 3/4: the second cut lands at parameter 13/16 of the curve | rescale each parameter onto the remaining piece, `(t - prev) / (1 - prev)`, so every cut is at an inflection | high (not executed) | BezierConverter.SplitBezierAtInflectionsMissesSecondInflection | BezierConverter.RescaledSplitCutsAtInflections |
