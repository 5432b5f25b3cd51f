/**
 * The bounding box of the polygon corners drawn so far, and the view box derived from it
 * (`CoordManager` in rendering.ts).
 */
module Extents {
  import opened Points

  /** A bound: a finite number or one of JavaScript's infinities. */
  datatype Bound = NegInf | Fin(v: real) | PosInf

  /** `Math.min(b, x)` for a finite `x`. */
  function Min(b: Bound, x: real): Bound {
    match b
    case NegInf => NegInf
    case Fin(v) => Fin(if x < v then x else v)
    case PosInf => Fin(x)
  }

  /** `Math.max(b, x)` for a finite `x`. */
  function Max(b: Bound, x: real): Bound {
    match b
    case NegInf => Fin(x)
    case Fin(v) => Fin(if x > v then x else v)
    case PosInf => PosInf
  }

  /** `b + x` for a finite `x`: infinities absorb it. */
  function Plus(b: Bound, x: real): Bound {
    match b
    case Fin(v) => Fin(v + x)
    case _ => b
  }

  /** `a - b`, where `a` and `b` are not the same infinity (that difference is NaN). */
  function Minus(a: Bound, b: Bound): Bound
    requires a.Fin? || b.Fin? || a != b
  {
    match (a, b)
    case (Fin(x), Fin(y)) => Fin(x - y)
    case (Fin(_), PosInf) => NegInf
    case (Fin(_), NegInf) => PosInf
    case (_, _) => a
  }

  /** The four tracked bounds. */
  datatype Box = Box(left: Bound, top: Bound, right: Bound, bot: Bound)

  /** Nothing seen yet: left and top at +Infinity, right and bottom at -Infinity. */
  const Unbounded := Box(PosInf, PosInf, NegInf, NegInf)

  /** One `hexConverter` step on the bounds. */
  function Widen(b: Box, p: Point): Box {
    Box(Min(b.left, p.x), Min(b.top, p.y), Max(b.right, p.x), Max(b.bot, p.y))
  }

  /** The bounds after the points `ps` have been submitted in order. */
  function Extent(ps: seq<Point>): Box {
    if ps == [] then Unbounded else Widen(Extent(ps[..|ps| - 1]), ps[|ps| - 1])
  }

  /** Before any point the box is unbounded; afterwards every bound is finite and contains every point. */
  lemma {:induction false} ExtentContains(ps: seq<Point>)
    ensures ps == [] ==> Extent(ps) == Unbounded
    ensures ps != [] ==> var b := Extent(ps);
      && b.left.Fin? && b.top.Fin? && b.right.Fin? && b.bot.Fin?
      && forall i :: 0 <= i < |ps| ==>
           b.left.v <= ps[i].x <= b.right.v && b.top.v <= ps[i].y <= b.bot.v
  {
    if ps != [] {
      var init := ps[..|ps| - 1];
      ExtentContains(init);
      forall i | 0 <= i < |init| ensures init[i] == ps[i] { }
    }
  }

  /** Each bound is one of the submitted coordinates. */
  lemma {:induction false} ExtentAttained(ps: seq<Point>)
    requires ps != []
    ensures var b := Extent(ps);
      && (exists i :: 0 <= i < |ps| && b.left == Fin(ps[i].x))
      && (exists i :: 0 <= i < |ps| && b.right == Fin(ps[i].x))
      && (exists i :: 0 <= i < |ps| && b.top == Fin(ps[i].y))
      && (exists i :: 0 <= i < |ps| && b.bot == Fin(ps[i].y))
  {
    var init := ps[..|ps| - 1];
    var last := |ps| - 1;
    if init != [] {
      ExtentAttained(init);
      ExtentContains(init);
      var b := Extent(init);
      var l :| 0 <= l < |init| && b.left == Fin(init[l].x);
      var r :| 0 <= r < |init| && b.right == Fin(init[r].x);
      var t :| 0 <= t < |init| && b.top == Fin(init[t].y);
      var d :| 0 <= d < |init| && b.bot == Fin(init[d].y);
      assert init[l] == ps[l] && init[r] == ps[r] && init[t] == ps[t] && init[d] == ps[d];
      var e := Extent(ps);
      assert e.left == Fin(ps[l].x) || e.left == Fin(ps[last].x);
      assert e.right == Fin(ps[r].x) || e.right == Fin(ps[last].x);
      assert e.top == Fin(ps[t].y) || e.top == Fin(ps[last].y);
      assert e.bot == Fin(ps[d].y) || e.bot == Fin(ps[last].y);
    } else {
      assert Extent(ps) == Widen(Unbounded, ps[last]);
    }
  }

  /** The bounds depend only on which points were submitted, not on their order or repetitions. */
  lemma ExtentIgnoresOrder(ps: seq<Point>, qs: seq<Point>)
    requires forall p :: p in ps <==> p in qs
    ensures Extent(ps) == Extent(qs)
  {
    ExtentContains(ps);
    ExtentContains(qs);
    BothEmptyOrNot(ps, qs);
    if ps != [] {
      ExtentAttained(ps);
      ExtentAttained(qs);
      var a, b := Extent(ps), Extent(qs);
      var i1 :| 0 <= i1 < |ps| && a.left == Fin(ps[i1].x);
      var j1 :| 0 <= j1 < |qs| && b.left == Fin(qs[j1].x);
      assert ps[i1] in qs && qs[j1] in ps;
      var i2 :| 0 <= i2 < |ps| && a.right == Fin(ps[i2].x);
      var j2 :| 0 <= j2 < |qs| && b.right == Fin(qs[j2].x);
      assert ps[i2] in qs && qs[j2] in ps;
      var i3 :| 0 <= i3 < |ps| && a.top == Fin(ps[i3].y);
      var j3 :| 0 <= j3 < |qs| && b.top == Fin(qs[j3].y);
      assert ps[i3] in qs && qs[j3] in ps;
      var i4 :| 0 <= i4 < |ps| && a.bot == Fin(ps[i4].y);
      var j4 :| 0 <= j4 < |qs| && b.bot == Fin(qs[j4].y);
      assert ps[i4] in qs && qs[j4] in ps;
    }
  }

  lemma BothEmptyOrNot(ps: seq<Point>, qs: seq<Point>)
    requires forall p :: p in ps <==> p in qs
    ensures ps == [] <==> qs == []
  {
    if ps != [] { assert ps[0] in qs; }
    if qs != [] { assert qs[0] in ps; }
  }

  /** The view box: the bounds pushed out by the margin on every side. */
  datatype ViewBox = ViewBox(left: Bound, top: Bound, width: Bound, height: Bound)

  /** A box as tracked: either nothing seen, or four finite bounds. */
  predicate Tracked(b: Box) {
    b == Unbounded || (b.left.Fin? && b.top.Fin? && b.right.Fin? && b.bot.Fin?)
  }

  function ViewBoxOf(b: Box, margin: real): ViewBox
    requires Tracked(b)
  {
    ViewBox(Plus(b.left, -margin), Plus(b.top, -margin),
            Plus(Minus(b.right, b.left), margin * 2.0), Plus(Minus(b.bot, b.top), margin * 2.0))
  }

  /** Every bounds state reached by submitting points is tracked. */
  lemma ExtentIsTracked(ps: seq<Point>)
    ensures Tracked(Extent(ps))
  {
    ExtentContains(ps);
  }

  /**
   * Once a point is seen, the view box is finite, at least twice the margin each way, and
   * holds every submitted point at least the margin away from its edges.
   */
  lemma ViewBoxHoldsPoints(ps: seq<Point>, margin: real)
    requires ps != []
    ensures Tracked(Extent(ps))
    ensures var vb := ViewBoxOf(Extent(ps), margin);
      && vb.left.Fin? && vb.top.Fin? && vb.width.Fin? && vb.height.Fin?
      && vb.width.v >= 2.0 * margin && vb.height.v >= 2.0 * margin
      && forall i :: 0 <= i < |ps| ==>
           && vb.left.v + margin <= ps[i].x <= vb.left.v + vb.width.v - margin
           && vb.top.v + margin <= ps[i].y <= vb.top.v + vb.height.v - margin
  {
    ExtentContains(ps);
  }

  /** With no point seen, the view box starts at +Infinity and has width and height -Infinity. */
  lemma EmptyViewBox(margin: real)
    ensures ViewBoxOf(Unbounded, margin) == ViewBox(PosInf, PosInf, NegInf, NegInf)
  {
  }

  /** The extent tracker: the four bounds, updated in place by `HexConverter`. */
  class CoordManager {
    var top: Bound
    var left: Bound
    var bot: Bound
    var right: Bound
    const margin: real

    /** The points submitted so far, in order. */
    ghost var Submitted: seq<Point>

    ghost predicate Valid()
      reads this
    {
      Box(left, top, right, bot) == Extent(Submitted)
    }

    constructor(margin: real)
      ensures Valid() && Submitted == []
      ensures this.margin == margin
      ensures left == PosInf && top == PosInf && right == NegInf && bot == NegInf
    {
      this.margin := margin;
      bot := NegInf;
      left := PosInf;
      right := NegInf;
      top := PosInf;
      Submitted := [];
    }

    /** `hexConverter`: widen the bounds to take in `p`; the point comes back for formatting. */
    method HexConverter(p: Point) returns (s: Point)
      requires Valid()
      modifies this
      ensures Valid() && Submitted == old(Submitted) + [p]
      ensures left == Min(old(left), p.x) && right == Max(old(right), p.x)
      ensures top == Min(old(top), p.y) && bot == Max(old(bot), p.y)
      ensures s == p
    {
      left := Min(left, p.x);
      right := Max(right, p.x);
      top := Min(top, p.y);
      bot := Max(bot, p.y);
      Submitted := Submitted + [p];
      assert Submitted[..|Submitted| - 1] == old(Submitted);
      s := p;
    }

    /** The `viewLeft`, `viewTop`, `viewWidth` and `viewHeight` getters together. */
    function CurrentViewBox(): (vb: ViewBox)
      requires Valid()
      reads this
      ensures Tracked(Extent(Submitted))
      ensures vb == ViewBoxOf(Extent(Submitted), margin)
    {
      ExtentIsTracked(Submitted);
      ViewBox(Plus(left, -margin), Plus(top, -margin),
              Plus(Minus(right, left), margin * 2.0), Plus(Minus(bot, top), margin * 2.0))
    }
  }
}
