/** Pad arrays for footprint wizards: an `nx` by `ny` grid of copies of a
    template pad centred on a point, named by number (or all with one given
    name), and the base-N letter namer used for grid rows.

    This module has no true division: `p * (n - 1) / 2` on integers is
    Python 2 floor division, which for the divisor 2 is Dafny's `/`. */
module PadArray {
  import opened Wrappers
  import opened Footprint

  // ---------------------------------------------------------------------
  // Numbers as names

  /** Python's `int()` on a float: truncation toward zero. */
  function Trunc(r: real): (n: int)
    ensures r >= 0.0 ==> 0.0 <= n as real <= r < n as real + 1.0
    ensures r < 0.0 ==> n as real - 1.0 < r <= n as real <= 0.0
  {
    if r >= 0.0 then r.Floor else -((-r).Floor)
  }

  /** The length of `range(n)`. */
  function Count(n: int): nat {
    if n < 0 then 0 else n
  }

  function DigitChar(d: int): (c: char)
    requires 0 <= d < 10
    ensures '0' <= c <= '9'
  {
    ('0' as int + d) as char
  }

  /** Decimal digits of a natural number, most significant first. */
  function NatString(n: nat): (s: string)
    ensures |s| >= 1
    ensures n < 10 <==> |s| == 1
    ensures forall c :: c in s ==> '0' <= c <= '9'
    decreases n
  {
    if n < 10 then [DigitChar(n)] else NatString(n / 10) + [DigitChar(n % 10)]
  }

  /** Python's `str()` on an integer. */
  function IntString(n: int): (s: string)
    ensures |s| >= 1
    ensures n < 0 <==> s[0] == '-'
    ensures forall i :: 0 <= i < |s| && (i > 0 || n >= 0) ==> '0' <= s[i] <= '9'
  {
    if n < 0 then
      var digits := NatString(-n);
      assert forall i :: 1 <= i < |digits| + 1 ==> ("-" + digits)[i] == digits[i - 1] && digits[i - 1] in digits;
      "-" + digits
    else
      var s := NatString(n);
      assert forall i :: 0 <= i < |s| ==> s[i] in s;
      s
  }

  /** Different numbers have different decimal strings. */
  lemma {:induction false} NatStringInjective(a: nat, b: nat)
    requires NatString(a) == NatString(b)
    ensures a == b
    decreases a
  {
    var s := NatString(a);
    if a >= 10 && b >= 10 {
      assert s[..|s| - 1] == NatString(a / 10) && s[..|s| - 1] == NatString(b / 10);
      NatStringInjective(a / 10, b / 10);
      assert DigitChar(a % 10) == s[|s| - 1] == DigitChar(b % 10);
    }
  }

  lemma IntStringInjective(a: int, b: int)
    requires IntString(a) == IntString(b)
    ensures a == b
  {
    if a < 0 {
      assert IntString(a)[1..] == NatString(-a) && IntString(b)[1..] == NatString(-b);
      NatStringInjective(-a, -b);
    } else {
      NatStringInjective(a, b);
    }
  }

  // ---------------------------------------------------------------------
  // Letter names

  /** The configurations in which `AlphaNameFromNumber` terminates: with an
      alphabet of one letter the recursion must step down by at least
      `aIndex >= 1`; with a larger alphabet `aIndex` must not be negative.
      (An empty alphabet makes `divmod` divide by zero.) */
  predicate Terminates(aIndex: int, alphabet: string) {
    (|alphabet| >= 1 && aIndex >= 1) || (|alphabet| >= 2 && aIndex >= 0)
  }

  /** `AlphaNameFromNumber(n, aIndex, alphabet)`: bijective base-`L`
      numbering with the letters of `alphabet` (1 is "A", 26 "Z", 27 "AA"
      with the defaults). The name is never empty, uses only letters of the
      alphabet, and ends in the letter for `(n - aIndex) mod L`. */
  function AlphaNameFromNumber(n: int, aIndex: int, alphabet: string): (name: string)
    requires Terminates(aIndex, alphabet)
    ensures |name| >= 1
    ensures forall c :: c in name ==> c in alphabet
    ensures name[|name| - 1] == alphabet[(n - aIndex) % |alphabet|]
    decreases if n < 0 then 0 else n
  {
    var div, mod := (n - aIndex) / |alphabet|, (n - aIndex) % |alphabet|;
    if div > 0 then
      QuotientDecreases(n, aIndex, |alphabet|);
      AlphaNameFromNumber(div, aIndex, alphabet) + [alphabet[mod]]
    else [alphabet[mod]]
  }

  /** The namer's recursion steps down: a positive quotient is smaller
      than `n`. */
  lemma QuotientDecreases(n: int, aIndex: int, letters: int)
    requires (letters >= 1 && aIndex >= 1) || (letters >= 2 && aIndex >= 0)
    requires (n - aIndex) / letters > 0
    ensures (n - aIndex) / letters < n
  {
    var d := (n - aIndex) / letters;
    assert n - aIndex == d * letters + (n - aIndex) % letters;
    MultipleAtLeast(d, letters - 1);
  }

  const Letters := "ABCDEFGHIJKLMNOPQRSTUVWXYZ"

  /** The first `L` numbers from `aIndex` on get one letter each, in
      alphabet order. */
  lemma AlphaNameSingleLetter(n: int, aIndex: int, alphabet: string)
    requires Terminates(aIndex, alphabet)
    requires aIndex <= n < aIndex + |alphabet|
    ensures AlphaNameFromNumber(n, aIndex, alphabet) == [alphabet[n - aIndex]]
  {
  }

  /** With the defaults, 26 is "Z", 27 is "AA" and 52 is "AZ"; counting from
      0, 26 is "BA". */
  lemma AlphaNameExamples()
    ensures AlphaNameFromNumber(26, 1, Letters) == "Z"
    ensures AlphaNameFromNumber(27, 1, Letters) == "AA"
    ensures AlphaNameFromNumber(52, 1, Letters) == "AZ"
    ensures AlphaNameFromNumber(26, 0, Letters) == "BA"
  {
    assert AlphaNameFromNumber(1, 1, Letters) == "A";
    assert AlphaNameFromNumber(1, 0, Letters) == "B";
  }

  predicate DistinctLetters(alphabet: string) {
    forall i, j :: 0 <= i < j < |alphabet| ==> alphabet[i] != alphabet[j]
  }

  /** Counting from 0 or 1 with distinct letters, different numbers (from
      `aIndex` on) get different names. */
  lemma {:induction false} AlphaNameInjective(n: int, m: int, aIndex: int, alphabet: string)
    requires Terminates(aIndex, alphabet) && aIndex <= 1 && DistinctLetters(alphabet)
    requires n >= aIndex && m >= aIndex
    requires AlphaNameFromNumber(n, aIndex, alphabet) == AlphaNameFromNumber(m, aIndex, alphabet)
    ensures n == m
    decreases n
  {
    var name := AlphaNameFromNumber(n, aIndex, alphabet);
    var dn, rn := AlphaNameStep(n, aIndex, alphabet);
    var dm, rm := AlphaNameStep(m, aIndex, alphabet);
    assert alphabet[rn] == name[|name| - 1] == alphabet[rm];
    DistinctLettersAt(alphabet, rn, rm);
    if dn > 0 && dm > 0 {
      assert name[..|name| - 1] == AlphaNameFromNumber(dn, aIndex, alphabet);
      assert name[..|name| - 1] == AlphaNameFromNumber(dm, aIndex, alphabet);
      AlphaNameInjective(dn, dm, aIndex, alphabet);
    }
  }

  /** One step of the namer: `n - aIndex` split into the quotient named by
      the prefix and the remainder naming the last letter. */
  lemma AlphaNameStep(n: int, aIndex: int, alphabet: string) returns (d: int, r: int)
    requires Terminates(aIndex, alphabet) && aIndex <= 1 && n >= aIndex
    ensures n - aIndex == d * |alphabet| + r && 0 <= r < |alphabet| && d >= 0
    ensures d > 0 ==> aIndex <= d < n
    ensures AlphaNameFromNumber(n, aIndex, alphabet)
         == if d > 0 then AlphaNameFromNumber(d, aIndex, alphabet) + [alphabet[r]] else [alphabet[r]]
  {
    var L := |alphabet|;
    d, r := (n - aIndex) / L, (n - aIndex) % L;
    if d > 0 {
      QuotientDecreases(n, aIndex, L);
    }
  }

  lemma DistinctLettersAt(alphabet: string, i: int, j: int)
    requires DistinctLetters(alphabet) && 0 <= i < |alphabet| && 0 <= j < |alphabet|
    requires alphabet[i] == alphabet[j]
    ensures i == j
  {
  }


  // ---------------------------------------------------------------------
  // The grid

  /** The pad number of grid cell `(x, y)` relative to the first pad:
      `nx * y + x`. */
  function GridIndex(nx: int, x: int, y: int): int {
    nx * y + x
  }

  /** The cells of an `nx` by `ny` grid are numbered `0 .. nx*ny - 1`. */
  lemma GridIndexInRange(nx: int, ny: int, x: int, y: int)
    requires 0 <= x < nx && 0 <= y < ny
    ensures 0 <= GridIndex(nx, x, y) < nx * ny
  {
    assert nx * y >= 0;
    assert nx * y + nx == nx * (y + 1) <= nx * ny;
  }

  /** No two cells share a number. */
  lemma GridIndexInjective(nx: int, x: int, y: int, x': int, y': int)
    requires 0 <= x < nx && 0 <= x' < nx && 0 <= y && 0 <= y'
    requires GridIndex(nx, x, y) == GridIndex(nx, x', y')
    ensures x == x' && y == y'
  {
    assert nx * (y - y') == x' - x;
    SmallMultiple(nx, y - y', x' - x);
  }

  /** The only multiple of `d` strictly between `-d` and `d` is 0. */
  lemma SmallMultiple(d: int, k: int, p: int)
    requires d > 0 && d * k == p && -d < p < d
    ensures k == 0
  {
    if k >= 1 {
      MultipleAtLeast(d, k);
    } else if k <= -1 {
      MultipleAtLeast(d, -k);
    }
  }

  lemma MultipleAtLeast(d: int, k: int)
    requires d > 0 && k >= 0
    ensures d * k >= 0
    ensures k >= 1 ==> d * k >= d
    ensures d * (k + 1) == d * k + d
  {
  }

  /** Every number `0 .. nx*ny - 1` is some cell's. */
  lemma GridIndexCovers(nx: int, ny: int, k: int)
    requires nx > 0 && 0 <= k < nx * ny
    ensures 0 <= k / nx < ny && GridIndex(nx, k % nx, k / nx) == k
  {
  }

  /** The parameters a pad grid is built from. */
  datatype GridSpec = GridSpec(firstPad: int, pinNames: Option<string>, pad: PadTemplate,
                               nx: int, ny: int, px: int, py: int, centre: IntPoint)

  /** The position of the first pad: the centre moved back by half the
      grid's extent, rounded down. The grid is then centred on `centre`:
      the first and last pads of a row (or column) sit symmetrically about
      it, one unit short when the extent is odd and halving it rounds
      down. */
  function Pin1(g: GridSpec): (p: IntPoint)
    ensures p.x + (p.x + (g.nx - 1) * g.px) == 2 * g.centre.x + (g.px * (g.nx - 1)) % 2
    ensures p.y + (p.y + (g.ny - 1) * g.py) == 2 * g.centre.y + (g.py * (g.ny - 1)) % 2
  {
    assert (g.nx - 1) * g.px == g.px * (g.nx - 1);
    assert (g.ny - 1) * g.py == g.py * (g.ny - 1);
    IntPoint(g.centre.x - g.px * (g.nx - 1) / 2, g.centre.y - g.py * (g.ny - 1) / 2)
  }

  /** `NamingFunction(x, y)`: `firstPad + nx*y + x`. */
  function PadNumber(g: GridSpec, x: int, y: int): int {
    g.firstPad + GridIndex(g.nx, x, y)
  }

  /** The pad numbers of the grid are exactly `firstPad .. firstPad +
      nx*ny - 1`, one per cell. */
  lemma PadNumbersAreARange(g: GridSpec, x: int, y: int)
    requires 0 <= x < g.nx && 0 <= y < g.ny
    ensures g.firstPad <= PadNumber(g, x, y) < g.firstPad + g.nx * g.ny
  {
    GridIndexInRange(g.nx, g.ny, x, y);
  }

  /** Changing the first pad number shifts every name by the same amount. */
  lemma FirstPadShiftsNumbers(g: GridSpec, fpNum: int, x: int, y: int)
    ensures PadNumber(g.(firstPad := fpNum), x, y) == PadNumber(g, x, y) + (fpNum - g.firstPad)
  {
  }

  /** A decimal numeral: digits, with a leading `-` allowed. */
  predicate IsNumeral(s: string) {
    |s| >= 1 && forall i :: 0 <= i < |s| ==> '0' <= s[i] <= '9' || (i == 0 && s[i] == '-')
  }

  /** The name of pad `(x, y)`: its number in decimal, or `pinNames` for
      every pad when given. */
  function PadName(g: GridSpec, x: int, y: int): (name: string)
    ensures g.pinNames.Some? ==> name == g.pinNames.value
    ensures g.pinNames.None? ==> IsNumeral(name) && (name[0] == '-' <==> PadNumber(g, x, y) < 0)
  {
    if g.pinNames.None? then IntString(PadNumber(g, x, y)) else g.pinNames.value
  }

  /** Without `pinNames`, no two pads of the grid share a name. */
  lemma PadNamesDistinct(g: GridSpec, x: int, y: int, x': int, y': int)
    requires g.pinNames.None?
    requires 0 <= x < g.nx && 0 <= x' < g.nx && 0 <= y < g.ny && 0 <= y' < g.ny
    requires (x, y) != (x', y')
    ensures PadName(g, x, y) != PadName(g, x', y')
  {
    if PadName(g, x, y) == PadName(g, x', y') {
      IntStringInjective(PadNumber(g, x, y), PadNumber(g, x', y'));
      GridIndexInjective(g.nx, x, y, x', y');
    }
  }

  /** The pad `AddPadsToModule` places for cell `(x, y)`: a copy of the
      template at `pin1 + (x*px, y*py)`. */
  function PadAt(g: GridSpec, x: int, y: int): Pad {
    Pad(g.pad, IntPoint(Pin1(g).x + x * g.px, Pin1(g).y + g.py * y), PadName(g, x, y))
  }

  /** Every pad is a copy of the template; the first sits at `Pin1`, and
      neighbouring pads are `px` apart along a row and `py` apart along a
      column. */
  lemma PadsAreEvenlySpaced(g: GridSpec, x: int, y: int)
    ensures PadAt(g, x, y).template == g.pad && PadAt(g, 0, 0).position == Pin1(g)
    ensures PadAt(g, x + 1, y).position == IntPoint(PadAt(g, x, y).position.x + g.px, PadAt(g, x, y).position.y)
    ensures PadAt(g, x, y + 1).position == IntPoint(PadAt(g, x, y).position.x, PadAt(g, x, y).position.y + g.py)
  {
  }

  /** The pads of column `x`, top to bottom. */
  function Column(g: GridSpec, x: int): (pads: seq<Pad>)
    ensures |pads| == Count(g.ny)
    ensures forall y :: 0 <= y < |pads| ==> pads[y] == PadAt(g, x, y)
  {
    seq(Count(g.ny), y requires 0 <= y < Count(g.ny) => PadAt(g, x, y))
  }

  /** The pads of the first `k` columns, column by column. */
  function Columns(g: GridSpec, k: nat): (pads: seq<Pad>)
    ensures |pads| == k * Count(g.ny)
    decreases k
  {
    if k == 0 then [] else Columns(g, k - 1) + Column(g, k - 1)
  }

  /** The pads `AddPadsToModule` adds, in the order it adds them. */
  function GridPads(g: GridSpec): seq<Pad> {
    Columns(g, Count(g.nx))
  }

  /** Cell `(x, y)` is the `(x*ny + y)`-th pad added: x-major order. */
  lemma {:induction false} ColumnsLayout(g: GridSpec, k: nat, x: int, y: int)
    requires 0 <= x < k && 0 <= y < g.ny
    ensures x * g.ny + y < |Columns(g, k)|
    ensures Columns(g, k)[x * g.ny + y] == PadAt(g, x, y)
    decreases k
  {
    var prefix := Columns(g, k - 1);
    assert |prefix| == (k - 1) * g.ny;
    assert k * g.ny == (k - 1) * g.ny + g.ny;
    if x == k - 1 {
      assert Columns(g, k)[x * g.ny + y] == Column(g, k - 1)[y];
    } else {
      ColumnsLayout(g, k - 1, x, y);
    }
  }

  /** `AddPadsToModule` adds `nx * ny` pads, cell `(x, y)` at position
      `x * ny + y`. */
  lemma GridPadsLayout(g: GridSpec, x: int, y: int)
    requires 0 <= x < g.nx && 0 <= y < g.ny
    ensures |GridPads(g)| == g.nx * g.ny
    ensures GridPads(g)[x * g.ny + y] == PadAt(g, x, y)
  {
    ColumnsLayout(g, g.nx, x, y);
  }

  // ---------------------------------------------------------------------
  // The array object

  /** `PadGridArray` (with its base `PadArray`): the template pad, whose
      parent footprint receives the pads, the grid parameters and the number
      of the first pad. */
  class PadGridArray {
    var firstPad: int
    const pinNames: Option<string>
    const pad: PadTemplate
    const footprint: Module
    const nx: int
    const ny: int
    const px: int
    const py: int
    const centre: IntPoint

    /** `PadGridArray(pad, nx, ny, px, py, centre, pinNames)`: `nx` and `ny`
        go through `int()`, and the first pad is numbered 1. */
    constructor (pad: PadTemplate, footprint: Module, nx: real, ny: real, px: int, py: int, centre: IntPoint,
                 pinNames: Option<string>)
      ensures Spec() == GridSpec(1, pinNames, pad, Trunc(nx), Trunc(ny), px, py, centre)
      ensures this.footprint == footprint
    {
      firstPad := 1;
      this.pinNames := pinNames;
      this.pad := pad;
      this.footprint := footprint;
      this.nx := Trunc(nx);
      this.ny := Trunc(ny);
      this.px := px;
      this.py := py;
      this.centre := centre;
    }

    /** `PadLineArray(pad, n, pitch, isVertical, centre, pinNames)`: a
        single column of `n` pads `pitch` apart when vertical, otherwise a
        single row. */
    constructor LineArray(pad: PadTemplate, footprint: Module, n: real, pitch: int, isVertical: bool, centre: IntPoint,
                          pinNames: Option<string>)
      ensures isVertical ==> Spec() == GridSpec(1, pinNames, pad, 1, Trunc(n), 0, pitch, centre)
      ensures !isVertical ==> Spec() == GridSpec(1, pinNames, pad, Trunc(n), 1, pitch, 0, centre)
      ensures this.footprint == footprint
    {
      firstPad := 1;
      this.pinNames := pinNames;
      this.pad := pad;
      this.footprint := footprint;
      if isVertical {
        nx, ny, px, py := Trunc(1.0), Trunc(n), 0, pitch;
      } else {
        nx, ny, px, py := Trunc(n), Trunc(1.0), pitch, 0;
      }
      this.centre := centre;
    }

    /** The grid parameters as a value. */
    function Spec(): GridSpec
      reads this
    {
      GridSpec(firstPad, pinNames, pad, nx, ny, px, py, centre)
    }

    method SetFirstPadInArray(fpNum: int)
      modifies this`firstPad
      ensures Spec() == old(Spec()).(firstPad := fpNum)
    {
      firstPad := fpNum;
    }

    /** `NamingFunction(x, y)`: numbers run along each row, then down the
        rows, from `firstPad`; inside the grid they stay within `firstPad ..
        firstPad + nx*ny - 1`. */
    function NamingFunction(x: int, y: int): (number: int)
      reads this
      ensures number == PadNumber(Spec(), x, y)
      ensures 0 <= x < nx && 0 <= y < ny ==> firstPad <= number < firstPad + nx * ny
    {
      if 0 <= x < nx && 0 <= y < ny then
        PadNumbersAreARange(Spec(), x, y);
        firstPad + (nx * y + x)
      else
        firstPad + (nx * y + x)
    }

    /** `AddPad`: the pad is added to the template's parent footprint. */
    method AddPad(p: Pad)
      modifies footprint`pads
      ensures footprint.pads == old(footprint.pads) + [p]
    {
      footprint.pads := footprint.pads + [p];
    }

    /** `AddPadsToModule`: one pad per cell, columns in the outer loop and
        rows in the inner loop. */
    method AddPadsToModule()
      modifies footprint`pads
      ensures footprint.pads == old(footprint.pads) + GridPads(Spec())
    {
      ghost var g := Spec();
      var pin1PosX := centre.x - px * (nx - 1) / 2;
      var pin1PosY := centre.y - py * (ny - 1) / 2;
      for x := 0 to Count(nx)
        invariant footprint.pads == old(footprint.pads) + Columns(g, x)
      {
        var posX := pin1PosX + x * px;
        for y := 0 to Count(ny)
          invariant footprint.pads == old(footprint.pads) + Columns(g, x) + Column(g, x)[..y]
        {
          var posY := pin1PosY + py * y;
          var name := if pinNames.None? then IntString(NamingFunction(x, y)) else pinNames.value;
          assert Pad(pad, IntPoint(posX, posY), name) == PadAt(g, x, y);
          AddPad(Pad(pad, IntPoint(posX, posY), name));
          assert Column(g, x)[..y + 1] == Column(g, x)[..y] + [PadAt(g, x, y)];
        }
        assert Column(g, x)[..Count(ny)] == Column(g, x);
      }
    }
  }
}
