/**
 `qr_image`: the pixels of a QR code, every module a 6-by-6 square, inside a quiet
 zone four modules wide.  The modules come from the `qrcode` crate, row by row,
 `width * width` of them; true is dark, and a true pixel is black.
 */
module QrRaster {
  import opened Arithmetic
  import opened Wrappers

  const SCALE: nat := 6
  const QUIET: nat := 4

  datatype Code = Code(width: nat, modules: seq<bool>)

  /** What the crate hands over. */
  predicate Valid(code: Code)
  {
    |code.modules| == Area(code.width)
  }

  function Area(side: nat): nat
  {
    side * side
  }

  function Side(width: nat): (s: nat)
    ensures s > 0
  {
    (width + QUIET * 2) * SCALE
  }

  /** Where column `x` of row `y` is stored, ... */
  function At(side: nat, x: nat, y: nat): int
  {
    y * side + x
  }

  /** ... and back. */
  function Col(side: nat, p: nat): nat
  {
    if side == 0 then 0 else p % side
  }

  function Row(side: nat, p: nat): nat
  {
    if side == 0 then 0 else p / side
  }

  lemma AtIsInside(side: nat, x: nat, y: nat)
    requires x < side && y < side
    ensures 0 <= At(side, x, y) < Area(side)
    ensures Col(side, At(side, x, y)) == x && Row(side, At(side, x, y)) == y
  {
    InGrid(side, x, y);
    RowAndColumn(side, x, y);
  }

  lemma ColAndRow(side: nat, p: nat)
    requires p < Area(side)
    ensures side > 0 && Col(side, p) == p % side < side && Row(side, p) == p / side < side
    ensures At(side, Col(side, p), Row(side, p)) == p
  {
    RowInGrid(side, p);
  }

  /** Whether pixel (x, y) lies on the grid rather than in the quiet zone. */
  predicate OnGrid(width: nat, x: nat, y: nat)
  {
    QUIET <= x / SCALE < QUIET + width && QUIET <= y / SCALE < QUIET + width
  }

  /** Which module covers pixel (x, y). */
  function ModuleAt(width: nat, x: nat, y: nat): (m: nat)
    requires OnGrid(width, x, y)
    ensures m < Area(width)
  {
    AtIsInside(width, x / SCALE - QUIET, y / SCALE - QUIET);
    At(width, x / SCALE - QUIET, y / SCALE - QUIET)
  }

  /** What pixel (x, y) should be: black exactly on a dark module. */
  predicate Black(code: Code, x: nat, y: nat)
    requires Valid(code)
  {
    OnGrid(code.width, x, y) && code.modules[ModuleAt(code.width, x, y)]
  }

  /** Black, and among what is drawn once the modules before `i` are, together with
      the rows before `dy` of module `i` and the columns before `dx` of row `dy`. */
  predicate Ink(code: Code, x: nat, y: nat, i: nat, dy: nat, dx: nat)
    requires Valid(code)
  {
    Black(code, x, y) &&
    var m := ModuleAt(code.width, x, y);
    m < i || (m == i && (y % SCALE < dy || (y % SCALE == dy && x % SCALE < dx)))
  }

  /** A module covers the pixels of its own square. */
  lemma ModuleSquare(width: nat, i: nat, x: nat, y: nat)
    requires i < Area(width)
    ensures OnGrid(width, x, y) && ModuleAt(width, x, y) == i <==>
            x / SCALE == Col(width, i) + QUIET && y / SCALE == Row(width, i) + QUIET
  {
    hide Area, At, Col, Row;
    ColAndRow(width, i);
    if OnGrid(width, x, y) {
      AtIsInside(width, x / SCALE - QUIET, y / SCALE - QUIET);
    }
  }

  /** The pixel the innermost loop writes. */
  function TargetX(width: nat, i: nat, dx: nat): nat
  {
    (Col(width, i) + QUIET) * SCALE + dx
  }

  function TargetY(width: nat, i: nat, dy: nat): nat
  {
    (Row(width, i) + QUIET) * SCALE + dy
  }

  /** It is inside the image. */
  lemma TargetIsInside(width: nat, i: nat, dy: nat, dx: nat)
    requires i < Area(width) && dy < SCALE && dx < SCALE
    ensures var side := Side(width);
            var (x, y) := (TargetX(width, i, dx), TargetY(width, i, dy));
            && x < side && y < side
            && 0 <= At(side, x, y) < Area(side)
            && Col(side, At(side, x, y)) == x && Row(side, At(side, x, y)) == y
  {
    hide Area, At, Col, Row;
    ColAndRow(width, i);
    AtIsInside(Side(width), TargetX(width, i, dx), TargetY(width, i, dy));
  }

  /** Writing it draws one more pixel of the module, and no other. */
  lemma InkGrows(code: Code, i: nat, dy: nat, dx: nat, x: nat, y: nat)
    requires Valid(code) && i < |code.modules| && code.modules[i] && dy < SCALE && dx < SCALE
    ensures Ink(code, x, y, i, dy, dx + 1) <==>
            Ink(code, x, y, i, dy, dx) || (x == TargetX(code.width, i, dx) && y == TargetY(code.width, i, dy))
  {
    hide Area, Col, Row, ModuleAt;
    ModuleSquare(code.width, i, x, y);
  }

  /** The canvas holds what is drawn so far. */
  ghost predicate Holds(code: Code, canvas: seq<bool>, i: nat, dy: nat, dx: nat)
    requires Valid(code)
  {
    var side := Side(code.width);
    |canvas| == Area(side) &&
    forall p | 0 <= p < |canvas| :: canvas[p] == Ink(code, Col(side, p), Row(side, p), i, dy, dx)
  }

  lemma HoldsGrows(code: Code, canvas: seq<bool>, i: nat, dy: nat, dx: nat)
    requires Valid(code) && i < |code.modules| && code.modules[i] && dy < SCALE && dx < SCALE
    requires Holds(code, canvas, i, dy, dx)
    ensures var t := At(Side(code.width), TargetX(code.width, i, dx), TargetY(code.width, i, dy));
            0 <= t < |canvas| && Holds(code, canvas[t := true], i, dy, dx + 1)
  {
    hide Area, At, Col, Row, Ink, TargetX, TargetY, Side;
    var side := Side(code.width);
    var t := At(side, TargetX(code.width, i, dx), TargetY(code.width, i, dy));
    TargetIsInside(code.width, i, dy, dx);
    forall p | 0 <= p < |canvas|
      ensures canvas[t := true][p] == Ink(code, Col(side, p), Row(side, p), i, dy, dx + 1)
    {
      InkGrows(code, i, dy, dx, Col(side, p), Row(side, p));
      ColAndRow(side, p);
    }
  }

  /** A row drawn to its last column leaves what the next row starts from, and a
      module drawn to its last row, or light, what the next module starts from. */
  lemma HoldsCarries(code: Code, canvas: seq<bool>, i: nat, dy: nat)
    requires Valid(code)
    ensures Holds(code, canvas, i, dy, SCALE) <==> Holds(code, canvas, i, dy + 1, 0)
    ensures Holds(code, canvas, i, SCALE, 0) <==> Holds(code, canvas, i + 1, 0, 0)
    ensures i < |code.modules| && !code.modules[i] ==>
              (Holds(code, canvas, i, 0, 0) <==> Holds(code, canvas, i + 1, 0, 0))
  {
    hide Area, Col, Row, ModuleAt, Side, OnGrid;
  }

  /** Nothing is drawn at the start, and everything at the end. */
  lemma HoldsEnds(code: Code, canvas: seq<bool>)
    requires Valid(code) && |canvas| == Area(Side(code.width))
    ensures (forall p | 0 <= p < |canvas| :: !canvas[p]) ==> Holds(code, canvas, 0, 0, 0)
    ensures Holds(code, canvas, |code.modules|, 0, 0) <==> IsImageOf(code, canvas)
  {
    hide Area, Col, Row, OnGrid, Side;
  }

  /** Every pixel of the image is what it should be. */
  ghost predicate IsImageOf(code: Code, image: seq<bool>)
    requires Valid(code)
  {
    var side := Side(code.width);
    |image| == Area(side) &&
    forall p | 0 <= p < |image| :: image[p] == Black(code, Col(side, p), Row(side, p))
  }

  /** The image, or none when the text did not encode. */
  method QrImage(encoded: Option<Code>) returns (pixels: array?<bool>)
    requires encoded.Some? ==> Valid(encoded.value)
    ensures pixels == null <==> encoded.None?
    ensures pixels != null ==> fresh(pixels) && IsImageOf(encoded.value, pixels[..])
  {
    if encoded.None? {
      return null;
    }
    var code := encoded.value;
    var (width, modules) := (code.width, code.modules);
    var side := (width + QUIET * 2) * SCALE;
    assert side == Side(width) && side * side == Area(Side(width));
    var canvas := new bool[side * side](_ => false);
    hide Holds, Area, At, Col, Row, Side, IsImageOf;
    HoldsEnds(code, canvas[..]);
    for i := 0 to |modules|
      invariant Holds(code, canvas[..], i, 0, 0)
    {
      HoldsCarries(code, canvas[..], i, 0);
      if modules[i] {
        DrawModule(code, canvas, side, i);
      }
    }
    HoldsEnds(code, canvas[..]);
    pixels := canvas;
  }

  /** The two inner loops: the square of one dark module. */
  method DrawModule(code: Code, canvas: array<bool>, side: nat, i: nat)
    requires Valid(code) && i < |code.modules| && code.modules[i] && side == Side(code.width)
    requires canvas.Length == Area(side) && Holds(code, canvas[..], i, 0, 0)
    modifies canvas
    ensures Holds(code, canvas[..], i + 1, 0, 0)
  {
    hide Holds, Area, Side;
    var width := code.width;
    ColAndRow(width, i);
    var (mx, my) := (i % width + QUIET, i / width + QUIET);
    for dy := 0 to SCALE
      invariant Holds(code, canvas[..], i, dy, 0)
    {
      for dx := 0 to SCALE
        invariant Holds(code, canvas[..], i, dy, dx)
      {
        var (x, y) := (mx * SCALE + dx, my * SCALE + dy);
        HoldsGrows(code, canvas[..], i, dy, dx);
        ghost var before := canvas[..];
        canvas[y * side + x] := true;
        assert canvas[..] == before[y * side + x := true];
      }
      HoldsCarries(code, canvas[..], i, dy);
    }
    HoldsCarries(code, canvas[..], i, 0);
  }

  /** All thirty-six pixels of a module's square show that module. */
  lemma PixelsOfAModule(code: Code, i: nat, dx: nat, dy: nat)
    requires Valid(code) && i < |code.modules| && dx < SCALE && dy < SCALE
    ensures Black(code, TargetX(code.width, i, dx), TargetY(code.width, i, dy)) == code.modules[i]
  {
    hide Area, Col, Row, ModuleAt;
    ModuleSquare(code.width, i, TargetX(code.width, i, dx), TargetY(code.width, i, dy));
  }

  /** And the four-module border shows nothing. */
  lemma QuietZoneIsWhite(code: Code, x: nat, y: nat)
    requires Valid(code)
    requires x < QUIET * SCALE || y < QUIET * SCALE ||
             x >= Side(code.width) - QUIET * SCALE || y >= Side(code.width) - QUIET * SCALE
    ensures !Black(code, x, y)
  {}

  /** What a reader finds at one fixed place of module `i`'s square. */
  function Sample(width: nat, image: seq<bool>, i: nat, dx: nat, dy: nat): bool
    requires |image| == Area(Side(width)) && i < Area(width) && dx < SCALE && dy < SCALE
  {
    TargetIsInside(width, i, dy, dx);
    image[At(Side(width), TargetX(width, i, dx), TargetY(width, i, dy))]
  }

  /** A reader gets the code back, wherever in the squares it looks. */
  lemma SamplingRecoversTheCode(code: Code, image: seq<bool>, i: nat, dx: nat, dy: nat)
    requires Valid(code) && IsImageOf(code, image) && i < |code.modules| && dx < SCALE && dy < SCALE
    ensures Sample(code.width, image, i, dx, dy) == code.modules[i]
  {
    hide Area, At, Col, Row, Black, TargetX, TargetY, Side;
    TargetIsInside(code.width, i, dy, dx);
    PixelsOfAModule(code, i, dx, dy);
  }

  /** So an image belongs to one code of its width only. */
  lemma ImagesTellCodesApart(code: Code, other: Code, image: seq<bool>)
    requires Valid(code) && Valid(other) && code.width == other.width
    requires IsImageOf(code, image) && IsImageOf(other, image)
    ensures code == other
  {
    hide IsImageOf, Sample, Area, Side;
    forall i | 0 <= i < |code.modules|
      ensures code.modules[i] == other.modules[i]
    {
      SamplingRecoversTheCode(code, image, i, 0, 0);
      SamplingRecoversTheCode(other, image, i, 0, 0);
    }
  }

  // ----- In figures -----

  /** The image is 6 (width + 8) pixels wide and high, and pixel (x, y) is black exactly
      when x / 6 and y / 6 lie four modules in and that module is dark. */
  lemma EveryPixelInFigures(code: Code, image: seq<bool>, x: nat, y: nat)
    requires Valid(code) && IsImageOf(code, image)
    requires x < 6 * (code.width + 8) && y < 6 * (code.width + 8)
    ensures var side := 6 * (code.width + 8);
            && |image| == side * side
            && 0 <= y * side + x < |image|
            && (image[y * side + x] <==>
                && 4 <= x / 6 < 4 + code.width && 4 <= y / 6 < 4 + code.width
                && var m := (y / 6 - 4) * code.width + (x / 6 - 4);
                   0 <= m < |code.modules| && code.modules[m])
  {
    var side := 6 * (code.width + 8);
    assert side == Side(code.width);
    AtIsInside(side, x, y);
    if 4 <= x / 6 < 4 + code.width && 4 <= y / 6 < 4 + code.width {
      AtIsInside(code.width, x / 6 - 4, y / 6 - 4);
    }
  }
}
