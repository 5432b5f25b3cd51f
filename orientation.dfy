/** The forward and backward hex-to-pixel matrices of the two tilings (hex/Orientation.ts). */
module Orientations {
  import opened Maths

  /** Forward matrix (f0 f1; f2 f3), backward matrix (b0 b1; b2 b3), first corner angle in sixths of a turn. */
  datatype Orientation = Orientation(
    f0: real, f1: real, f2: real, f3: real,
    b0: real, b1: real, b2: real, b3: real,
    startAngle: real)

  /** Pointy-top cells. */
  function Pointy(m: Maths): (o: Orientation)
    ensures o.startAngle == 0.5 && o.f2 == 0.0
  {
    var r3 := m.sqrt(3.0);
    Orientation(r3, r3 / 2.0, 0.0, 3.0 / 2.0, r3 / 3.0, -1.0 / 3.0, 0.0, 2.0 / 3.0, 0.5)
  }

  /** Flat-top cells. */
  function Flat(m: Maths): (o: Orientation)
    ensures o.startAngle == 0.0 && o.f1 == 0.0
  {
    var r3 := m.sqrt(3.0);
    Orientation(3.0 / 2.0, 0.0, r3 / 2.0, r3, 2.0 / 3.0, 0.0, -1.0 / 3.0, r3 / 3.0, 0.0)
  }

  /** The backward matrix inverts the forward one, on either side. */
  ghost predicate MutualInverses(o: Orientation) {
    && o.b0 * o.f0 + o.b1 * o.f2 == 1.0 && o.b0 * o.f1 + o.b1 * o.f3 == 0.0
    && o.b2 * o.f0 + o.b3 * o.f2 == 0.0 && o.b2 * o.f1 + o.b3 * o.f3 == 1.0
    && o.f0 * o.b0 + o.f1 * o.b2 == 1.0 && o.f0 * o.b1 + o.f1 * o.b3 == 0.0
    && o.f2 * o.b0 + o.f3 * o.b2 == 0.0 && o.f2 * o.b1 + o.f3 * o.b3 == 1.0
  }

  lemma PointyMatricesInvert(m: Maths)
    requires ExactSqrt3(m)
    ensures MutualInverses(Pointy(m))
  {
    var r3 := m.sqrt(3.0);
    assert (r3 / 3.0) * r3 == r3 * r3 / 3.0;
    assert r3 * (r3 / 3.0) == r3 * r3 / 3.0;
    assert (r3 / 3.0) * (r3 / 2.0) == r3 * r3 / 6.0;
    assert (r3 / 2.0) * (2.0 / 3.0) == r3 / 3.0;
  }

  lemma FlatMatricesInvert(m: Maths)
    requires ExactSqrt3(m)
    ensures MutualInverses(Flat(m))
  {
    var r3 := m.sqrt(3.0);
    assert (r3 / 3.0) * r3 == r3 * r3 / 3.0;
    assert r3 * (r3 / 3.0) == r3 * r3 / 3.0;
    assert (r3 / 3.0) * (r3 / 2.0) == r3 * r3 / 6.0;
    assert (r3 / 2.0) * (2.0 / 3.0) == r3 / 3.0;
  }
}
