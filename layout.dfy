/** Conversion between cube cells and pixel positions (hex/Layout.ts). */
module Layouts {
  import opened HexCoords
  import opened Points
  import opened Maths
  import opened Orientations

  /** A tiling, the size of one cell along each axis, and the pixel position of cell (0,0,0). */
  datatype Layout = Layout(orientation: Orientation, size: Point, origin: Point := Point(0.0, 0.0))

  type Corner = c: int | 0 <= c < 6

  /** Whether the cell size can be divided by, as `ToHex` does. */
  predicate NonZeroSize(l: Layout) {
    l.size.x != 0.0 && l.size.y != 0.0
  }

  /** Centre of a cell: the forward matrix times (q, r), scaled by the size and moved to the origin. */
  function ToPixel(l: Layout, h: Hex): Point {
    var o := l.orientation;
    Point((o.f0 * h.q as real + o.f1 * h.r as real) * l.size.x + l.origin.x,
          (o.f2 * h.q as real + o.f3 * h.r as real) * l.size.y + l.origin.y)
  }

  /** Fractional cell under a pixel: the backward matrix applied to the unscaled offset from the origin. */
  function ToHex(l: Layout, p: Point): (h: FracHex)
    requires NonZeroSize(l)
    ensures h.q + h.r + h.s == 0.0
  {
    var o := l.orientation;
    var pt := Unscale(l, p);
    var q := o.b0 * pt.x + o.b1 * pt.y;
    var r := o.b2 * pt.x + o.b3 * pt.y;
    FracHex(q, r, -q - r)
  }

  /** The offset of `p` from the origin, in units of the cell size. */
  function Unscale(l: Layout, p: Point): Point
    requires NonZeroSize(l)
  {
    Point((p.x - l.origin.x) / l.size.x, (p.y - l.origin.y) / l.size.y)
  }

  /** The cell whose area holds a pixel. */
  function ToHexRounded(l: Layout, p: Point): (h: Hex)
    requires NonZeroSize(l)
    ensures ZeroSum(h)
  {
    Round(ToHex(l, p))
  }

  /** Offset of a corner from the centre: `startAngle + corner` sixths of a turn, scaled by the size. */
  function GetCornerOffset(l: Layout, m: Maths, corner: Corner): Point {
    var angle := (Tau(m) * (l.orientation.startAngle + corner as real)) / 6.0;
    Point(l.size.x * m.cos(angle), l.size.y * m.sin(angle))
  }

  /** The six corner offsets, corner 0 first. */
  function GetCornerOffsets(l: Layout, m: Maths): (os: seq<Point>)
    ensures |os| == 6
    ensures forall c: Corner :: os[c] == GetCornerOffset(l, m, c)
  {
    [GetCornerOffset(l, m, 0), GetCornerOffset(l, m, 1), GetCornerOffset(l, m, 2),
     GetCornerOffset(l, m, 3), GetCornerOffset(l, m, 4), GetCornerOffset(l, m, 5)]
  }

  /** The six corners of a cell's polygon, each its corner offset away from the cell's centre. */
  function GetPolygonCorners(l: Layout, m: Maths, h: Hex): (cs: seq<Point>)
    ensures |cs| == 6
    ensures forall c: Corner :: cs[c] == Points.Add(ToPixel(l, h), GetCornerOffset(l, m, c))
  {
    var centre := ToPixel(l, h);
    var os := GetCornerOffsets(l, m);
    seq(6, i requires 0 <= i < 6 => Points.Add(centre, os[i]))
  }

  /** Cell (0,0,0) is centred on the origin. */
  lemma ToPixelOfCentre(l: Layout)
    ensures ToPixel(l, Hex(0, 0, 0)) == l.origin
  {
  }

  /** Relative to the origin, the pixel position is linear in the cell. */
  lemma ToPixelIsLinear(l: Layout, a: Hex, b: Hex)
    ensures Points.Subtract(ToPixel(l, HexCoords.Add(a, b)), l.origin)
         == Points.Add(Points.Subtract(ToPixel(l, a), l.origin), Points.Subtract(ToPixel(l, b), l.origin))
  {
    var o := l.orientation;
    var (aq, ar, bq, br) := (a.q as real, a.r as real, b.q as real, b.r as real);
    assert (o.f0 * (aq + bq) + o.f1 * (ar + br)) * l.size.x
        == (o.f0 * aq + o.f1 * ar) * l.size.x + (o.f0 * bq + o.f1 * br) * l.size.x;
    assert (o.f2 * (aq + bq) + o.f3 * (ar + br)) * l.size.y
        == (o.f2 * aq + o.f3 * ar) * l.size.y + (o.f2 * bq + o.f3 * br) * l.size.y;
  }

  /** Unscaling a scaled coordinate gives it back. */
  lemma UnscaleOfScale(u: real, size: real, origin: real)
    requires size != 0.0
    ensures ((u * size + origin) - origin) / size == u
  {
  }

  /** The backward matrix applied to the forward image (x, y) of (q, r) gives (q, r). */
  lemma BackwardOfForward(o: Orientation, q: real, r: real, x: real, y: real)
    requires MutualInverses(o)
    requires x == o.f0 * q + o.f1 * r && y == o.f2 * q + o.f3 * r
    ensures o.b0 * x + o.b1 * y == q && o.b2 * x + o.b3 * y == r
  {
    assert o.b0 * x + o.b1 * y == (o.b0 * o.f0 + o.b1 * o.f2) * q + (o.b0 * o.f1 + o.b1 * o.f3) * r;
    assert o.b2 * x + o.b3 * y == (o.b2 * o.f0 + o.b3 * o.f2) * q + (o.b2 * o.f1 + o.b3 * o.f3) * r;
  }

  /** Converting a cell's centre back gives the cell itself, as a fractional cell. */
  lemma ToHexOfToPixel(l: Layout, h: Hex)
    requires NonZeroSize(l) && MutualInverses(l.orientation) && ZeroSum(h)
    ensures ToHex(l, ToPixel(l, h)) == FracHex(h.q as real, h.r as real, h.s as real)
  {
    var o := l.orientation;
    var (q, r) := (h.q as real, h.r as real);
    var (u, v) := (o.f0 * q + o.f1 * r, o.f2 * q + o.f3 * r);
    UnscaleOfToPixel(l, h);
    BackwardOfForward(o, q, r, u, v);
  }

  /** Unscaling a cell's centre gives the forward image of the cell. */
  lemma UnscaleOfToPixel(l: Layout, h: Hex)
    requires NonZeroSize(l)
    ensures var o := l.orientation;
      Unscale(l, ToPixel(l, h)) == Point(o.f0 * h.q as real + o.f1 * h.r as real, o.f2 * h.q as real + o.f3 * h.r as real)
  {
    var o := l.orientation;
    UnscaleOfScale(o.f0 * h.q as real + o.f1 * h.r as real, l.size.x, l.origin.x);
    UnscaleOfScale(o.f2 * h.q as real + o.f3 * h.r as real, l.size.y, l.origin.y);
  }

  /** A cell's centre lies in that cell. */
  lemma ToHexRoundedOfToPixel(l: Layout, h: Hex)
    requires NonZeroSize(l) && MutualInverses(l.orientation) && ZeroSum(h)
    ensures ToHexRounded(l, ToPixel(l, h)) == h
  {
    ToHexOfToPixel(l, h);
    RoundOfCell(h);
  }

  /** Every cell's polygon is the same shape: the corners of `b` are those of `a` moved by the distance between their centres. */
  lemma PolygonsAreTranslates(l: Layout, m: Maths, a: Hex, b: Hex)
    ensures forall c: Corner ::
      GetPolygonCorners(l, m, b)[c]
        == Points.Add(GetPolygonCorners(l, m, a)[c], Points.Subtract(ToPixel(l, b), ToPixel(l, a)))
  {
  }

  /** In the pointy tiling, cells of one row share a vertical position. */
  lemma PointyRowsAreLevel(l: Layout, m: Maths, a: Hex, b: Hex)
    requires l.orientation == Pointy(m) && a.r == b.r
    ensures ToPixel(l, a).y == ToPixel(l, b).y
  {
  }

  /** In the flat tiling, cells of one offset column share a horizontal position. */
  lemma FlatColumnsAreUpright(l: Layout, m: Maths, offset: Parity, a: OffsetCoordinates, b: OffsetCoordinates)
    requires l.orientation == Flat(m) && a.col == b.col
    ensures ToPixel(l, FromQOffsetCoordinates(offset, a)).x == ToPixel(l, FromQOffsetCoordinates(offset, b)).x
  {
  }
}
