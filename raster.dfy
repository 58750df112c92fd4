/** The per-cell meaning of the four render passes of `Galaxy::render` and
    of the text buffer `output` builds. Each pass is described one cell at
    a time: what a cell holds after the pass as a function of what it held
    before and of the points that land on it. */
module Raster {
  import opened Numeric

  datatype Option<T> = None | Some(value: T)

  /** The fixed brightness ramp `GRADIENT`, darkest to brightest. */
  const GRADIENT: string := " .:-=+*#%@"

  /** A point of light after truncation to a cell: the row and column that
      `static_cast<int>` gives for its position, and its brightness. */
  datatype Light = Light(row: int, col: int, value: real)

  predicate Hits(l: Light, y: int, x: int) {
    l.row == y && l.col == x
  }

  // ---------------------------------------------------------------------
  // Star pass (`render_stars`)

  /** The glyph a star of brightness `b` stamps, if any. */
  function StarGlyph(b: real): (g: Option<char>)
    ensures g.None? <==> b <= 0.2
    ensures g.Some? ==> g.value in "*+."
  {
    if b > 0.7 then Some('*')
    else if b > 0.4 then Some('+')
    else if b > 0.2 then Some('.')
    else None
  }

  /** Whether star `l` writes a glyph into cell (y, x). */
  predicate Stamps(l: Light, y: int, x: int) {
    Hits(l, y, x) && StarGlyph(l.value).Some?
  }

  /** Cell (y, x) after one star has been considered. */
  function StampStar(c: char, l: Light, y: int, x: int): char {
    if Stamps(l, y, x) then StarGlyph(l.value).value else c
  }

  /** Cell (y, x), initially `c0`, after the stars `ls` have been
      considered in order. */
  function StarCell(c0: char, ls: seq<Light>, y: int, x: int): char
    decreases |ls|
  {
    if |ls| == 0 then c0 else StampStar(StarCell(c0, ls[..|ls| - 1], y, x), ls[|ls| - 1], y, x)
  }

  /** A cell no star stamps keeps its glyph. */
  lemma {:induction false} StarCellUntouched(c0: char, ls: seq<Light>, y: int, x: int)
    requires forall k :: 0 <= k < |ls| ==> !Stamps(ls[k], y, x)
    ensures StarCell(c0, ls, y, x) == c0
    decreases |ls|
  {
    if |ls| > 0 {
      StarCellUntouched(c0, ls[..|ls| - 1], y, x);
    }
  }

  /** A cell some star stamps holds the glyph of the last star that stamps
      it: '*' above 0.7, '+' above 0.4, '.' above 0.2. */
  lemma {:induction false} StarCellLastWins(c0: char, ls: seq<Light>, k: int, y: int, x: int)
    requires 0 <= k < |ls| && Stamps(ls[k], y, x)
    requires forall j :: k < j < |ls| ==> !Stamps(ls[j], y, x)
    ensures StarCell(c0, ls, y, x) == StarGlyph(ls[k].value).value
    ensures ls[k].value > 0.7 ==> StarCell(c0, ls, y, x) == '*'
    ensures 0.4 < ls[k].value <= 0.7 ==> StarCell(c0, ls, y, x) == '+'
    ensures 0.2 < ls[k].value <= 0.4 ==> StarCell(c0, ls, y, x) == '.'
    decreases |ls|
  {
    if k < |ls| - 1 {
      StarCellLastWins(c0, ls[..|ls| - 1], k, y, x);
    }
  }

  // ---------------------------------------------------------------------
  // Particle pass (`accumulate_particles`)

  /** What particle `l` adds to cell (y, x). */
  function Hit(l: Light, y: int, x: int): real {
    if Hits(l, y, x) then l.value else 0.0
  }

  /** The sum of the brightness of the lights in `ls` that land on (y, x),
      added in order. */
  function CellIntensity(ls: seq<Light>, y: int, x: int): real
    decreases |ls|
  {
    if |ls| == 0 then 0.0 else CellIntensity(ls[..|ls| - 1], y, x) + Hit(ls[|ls| - 1], y, x)
  }

  lemma {:induction false} CellIntensityAppend(a: seq<Light>, b: seq<Light>, y: int, x: int)
    ensures CellIntensity(a + b, y, x) == CellIntensity(a, y, x) + CellIntensity(b, y, x)
    decreases |b|
  {
    if |b| == 0 {
      assert a + b == a;
    } else {
      var b' := b[..|b| - 1];
      assert (a + b)[..|a + b| - 1] == a + b';
      CellIntensityAppend(a, b', y, x);
    }
  }

  /** The accumulated intensity does not depend on the order of the
      particles: any rearrangement gives the same value in every cell. */
  lemma {:induction false} CellIntensityPermutation(a: seq<Light>, b: seq<Light>, y: int, x: int)
    requires multiset(a) == multiset(b)
    ensures CellIntensity(a, y, x) == CellIntensity(b, y, x)
    decreases |a|
  {
    if |a| == 0 {
      assert |b| == |multiset(b)| == 0;
    } else {
      var a' := a[..|a| - 1];
      var e := a[|a| - 1];
      assert a == a' + [e];
      assert e in multiset(b);
      var i :| 0 <= i < |b| && b[i] == e;
      var rest := b[..i] + b[i + 1..];
      assert b == b[..i] + [e] + b[i + 1..];
      assert multiset(a) == multiset(a') + multiset{e};
      assert multiset(b) == multiset(b[..i]) + multiset{e} + multiset(b[i + 1..]);
      assert multiset(rest) == multiset(b[..i]) + multiset(b[i + 1..]);
      assert multiset(a') == multiset(a) - multiset{e};
      assert multiset(rest) == multiset(b) - multiset{e};
      CellIntensityPermutation(a', rest, y, x);
      CellIntensityAppend(b[..i] + [e], b[i + 1..], y, x);
      CellIntensityAppend(b[..i], [e], y, x);
      CellIntensityAppend(b[..i], b[i + 1..], y, x);
      assert CellIntensity([e], y, x) == Hit(e, y, x) by {
        assert [e][..0] == [];
      }
    }
  }

  /** A cell no particle lands on stays at intensity 0; in particular a
      particle outside the grid adds nothing to any cell inside it. */
  lemma {:induction false} CellIntensityNoHits(ls: seq<Light>, y: int, x: int)
    requires forall k :: 0 <= k < |ls| ==> !Hits(ls[k], y, x)
    ensures CellIntensity(ls, y, x) == 0.0
    decreases |ls|
  {
    if |ls| > 0 {
      CellIntensityNoHits(ls[..|ls| - 1], y, x);
    }
  }

  /** With non-negative brightness, every particle that lands on a cell adds
      its full brightness there: the cell is at least as bright as each. */
  lemma {:induction false} CellIntensityAtLeast(ls: seq<Light>, k: int, y: int, x: int)
    requires forall j :: 0 <= j < |ls| ==> ls[j].value >= 0.0
    requires 0 <= k < |ls| && Hits(ls[k], y, x)
    ensures CellIntensity(ls, y, x) >= ls[k].value
    decreases |ls|
  {
    if k < |ls| - 1 {
      CellIntensityAtLeast(ls[..|ls| - 1], k, y, x);
    } else {
      CellIntensityNonNegative(ls[..|ls| - 1], y, x);
    }
  }

  lemma {:induction false} CellIntensityNonNegative(ls: seq<Light>, y: int, x: int)
    requires forall j :: 0 <= j < |ls| ==> ls[j].value >= 0.0
    ensures CellIntensity(ls, y, x) >= 0.0
    decreases |ls|
  {
    if |ls| > 0 {
      CellIntensityNonNegative(ls[..|ls| - 1], y, x);
    }
  }

  // ---------------------------------------------------------------------
  // Intensity pass (`apply_intensity`)

  /** `clamp(static_cast<int>(i * 3.0), 0, 9)`: the ramp position for
      intensity `i`, by truncation (not rounding) of `3 * i`. */
  function RampIndex(i: real): (k: int)
    ensures 0 <= k < |GRADIENT|
    ensures 0.0 <= i < 10.0 / 3.0 ==> k as real <= 3.0 * i < k as real + 1.0
    ensures i >= 10.0 / 3.0 ==> k == |GRADIENT| - 1
    ensures i < 1.0 / 3.0 ==> k == 0
  {
    Clamp(Trunc(i * 3.0), 0, |GRADIENT| - 1)
  }

  /** Higher intensity never gives a darker ramp position. */
  lemma RampIndexMonotone(i1: real, i2: real)
    requires i1 <= i2
    ensures RampIndex(i1) <= RampIndex(i2)
  {
    TruncMonotone(i1 * 3.0, i2 * 3.0);
    ClampMonotone(Trunc(i1 * 3.0), Trunc(i2 * 3.0), 0, |GRADIENT| - 1);
  }

  /** Cell `c` with accumulated intensity `i` after the intensity pass. */
  function ShadeCell(c: char, i: real): char {
    if i > 0.1 then GRADIENT[RampIndex(i)] else c
  }

  /** A dim cell keeps its glyph (a star's, or the blank); a lit cell takes
      the ramp glyph, whatever it held before. */
  lemma ShadeCellCases(c: char, i: real)
    ensures i <= 0.1 ==> ShadeCell(c, i) == c
    ensures i > 0.1 ==> ShadeCell(c, i) in GRADIENT
    ensures 0.1 < i < 1.0 / 3.0 ==> ShadeCell(c, i) == ' '
    ensures 1.0 <= i < 4.0 / 3.0 ==> ShadeCell(c, i) == '-'
    ensures i >= 3.0 ==> ShadeCell(c, i) == '@'
  {
    if 1.0 <= i < 4.0 / 3.0 {
      assert RampIndex(i) == 3;
    }
    if i >= 3.0 {
      assert 9.0 <= 3.0 * i;
    }
  }

  // ---------------------------------------------------------------------
  // Core pass (`render_core`)

  /** Whether the core marker is drawn: all three cells must fit. */
  predicate CoreFits(cx: int, cy: int, width: int, height: int) {
    0 < cx < width - 1 && 0 <= cy < height
  }

  /** Cell (y, x), holding `c`, after the core pass with marker centre
      (cy, cx). */
  function CoreCell(c: char, y: int, x: int, cx: int, cy: int, width: int, height: int): char {
    if CoreFits(cx, cy, width, height) && y == cy && cx - 1 <= x <= cx + 1 then
      (if x == cx - 1 then '(' else if x == cx then '@' else ')')
    else c
  }

  // ---------------------------------------------------------------------
  // The whole frame

  /** Cell (y, x) of a frame: a blank cell, then the star, particle,
      intensity and core passes. */
  function ComposeCell(stars: seq<Light>, particles: seq<Light>, y: int, x: int,
                       cx: int, cy: int, width: int, height: int): char
  {
    CoreCell(ShadeCell(StarCell(' ', stars, y, x), CellIntensity(particles, y, x)),
             y, x, cx, cy, width, height)
  }

  /** The rows of a frame of `height` rows of `width` cells. */
  function ComposeRows(stars: seq<Light>, particles: seq<Light>,
                       cx: int, cy: int, width: nat, height: nat): (rows: seq<string>)
    ensures |rows| == height
    ensures forall y :: 0 <= y < height ==> |rows[y]| == width
  {
    seq(height, y requires 0 <= y < height =>
      seq(width, x requires 0 <= x < width =>
        ComposeCell(stars, particles, y, x, cx, cy, width, height)))
  }

  /** A 10 x 6 frame with no stars and no particles, centre (5, 3): every
      row is blank except row 3, which carries the core marker at columns
      4 to 6. */
  lemma EmptyFrame()
    ensures var rows := ComposeRows([], [], 5, 3, 10, 6);
      rows[3] == "    (@)   " &&
      forall y :: 0 <= y < 6 && y != 3 ==> rows[y] == "          "
  {
    var rows := ComposeRows([], [], 5, 3, 10, 6);
    assert rows[3] == "    (@)   ";
    forall y | 0 <= y < 6 && y != 3
      ensures rows[y] == "          "
    {
      assert |rows[y]| == 10;
    }
  }

  /** Every row followed by a newline (the row loop of `output`). */
  function Lines(rows: seq<string>): string
    decreases |rows|
  {
    if |rows| == 0 then "" else Lines(rows[..|rows| - 1]) + rows[|rows| - 1] + "\n"
  }

  /** The status block after the grid: a blank line, then ` Time: <n>s`. */
  function Footer(seconds: int): string {
    "\n Time: " + IntToString(seconds) + "s"
  }

  /** The text buffer `output` writes for `rows` after `elapsed` seconds;
      the seconds are truncated toward zero. */
  function Frame(rows: seq<string>, elapsed: real): string {
    Lines(rows) + Footer(Trunc(elapsed))
  }

  /** Offset in the buffer at which row y starts: after y rows of `width`
      cells and a newline each. */
  function RowStart(y: nat, width: nat): nat
    decreases y
  {
    if y == 0 then 0 else RowStart(y - 1, width) + width + 1
  }

  lemma {:induction false} RowStartIsProduct(y: nat, width: nat)
    ensures RowStart(y, width) == y * (width + 1)
    decreases y
  {
    if y > 0 {
      RowStartIsProduct(y - 1, width);
    }
  }

  /** Rows start in order, a full row apart. */
  lemma {:induction false} RowStartOrdered(y: nat, n: nat, width: nat)
    requires y < n
    ensures RowStart(y, width) + width < RowStart(n, width)
    decreases n
  {
    if y < n - 1 {
      RowStartOrdered(y, n - 1, width);
    }
  }

  /** Offset in the buffer of column x of row y. */
  function Offset(y: nat, x: nat, width: nat): nat {
    RowStart(y, width) + x
  }

  /** The layout of the grid part of the buffer: each cell of row y at
      `Offset(y, x, width)`, a newline closing every row (at column
      `width`), and no other characters. */
  lemma {:induction false} LinesLayout(rows: seq<string>, width: nat)
    requires forall y :: 0 <= y < |rows| ==> |rows[y]| == width
    ensures |Lines(rows)| == RowStart(|rows|, width)
    ensures forall y: nat, x: nat :: y < |rows| && x <= width ==>
      Offset(y, x, width) < |Lines(rows)| &&
      Lines(rows)[Offset(y, x, width)] == if x < width then rows[y][x] else '\n'
    decreases |rows|
  {
    if |rows| > 0 {
      var n := |rows|;
      var prefix := rows[..n - 1];
      LinesLayout(prefix, width);
      var s := Lines(rows);
      var p := Lines(prefix);
      assert s == p + rows[n - 1] + "\n";
      forall y: nat, x: nat | y < n && x <= width
        ensures Offset(y, x, width) < |s|
        ensures s[Offset(y, x, width)] == if x < width then rows[y][x] else '\n'
      {
        if y < n - 1 {
          RowStartOrdered(y, n - 1, width);
          assert s[Offset(y, x, width)] == p[Offset(y, x, width)];
        }
      }
    }
  }

  /** The whole buffer: the grid of `|rows|` lines of `width` cells, then
      the footer. */
  lemma FrameLayout(rows: seq<string>, width: nat, elapsed: real)
    requires forall y :: 0 <= y < |rows| ==> |rows[y]| == width
    ensures |Frame(rows, elapsed)| == |rows| * (width + 1) + |Footer(Trunc(elapsed))|
    ensures forall y: nat, x: nat :: y < |rows| && x <= width ==>
      Offset(y, x, width) < |rows| * (width + 1) &&
      Frame(rows, elapsed)[Offset(y, x, width)] == if x < width then rows[y][x] else '\n'
    ensures Frame(rows, elapsed)[|rows| * (width + 1)..] == Footer(Trunc(elapsed))
  {
    LinesLayout(rows, width);
    RowStartIsProduct(|rows|, width);
  }

  /** The footer shows whole seconds by truncation: 7.9 s reads `Time: 7s`. */
  lemma FooterTruncatesSeconds()
    ensures Footer(Trunc(7.9)) == "\n Time: 7s"
  {
    assert Trunc(7.9) == 7;
    assert IntToString(7) == "7";
  }
}
