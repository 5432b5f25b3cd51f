/**
 * Cube coordinates of a hexagonal grid (hex/Hex.ts): construction, conversion to and
 * from q-offset coordinates, arithmetic, the grid metric, neighbours and rounding.
 */
module HexCoords {
  import opened Text
  import opened Numbers
  import opened Wrappers

  /** A cell in cube coordinates; a valid cell has `q + r + s == 0`. */
  datatype Hex = Hex(q: int, r: int, s: int)

  /** The fractional cube coordinates that pixel conversion produces before rounding. */
  datatype FracHex = FracHex(q: real, r: real, s: real)

  /** A cell in q-offset coordinates: a column and a row. */
  datatype OffsetCoordinates = OffsetCoordinates(col: int, row: int)

  /** The offset parameter: 1 shifts the even columns ("even-q"), -1 the odd ones ("odd-q"). */
  type Parity = o: int | o == 1 || o == -1 witness 1

  /** Indices of the six directions. */
  type DirectionIndex = d: int | 0 <= d < 6

  ghost predicate ZeroSum(h: Hex) { h.q + h.r + h.s == 0 }

  /** `new Hex(q, r, s)`; when `s` is omitted it is `-q - r`. */
  function MakeHex(q: int, r: int, s: int := -q - r): (h: Hex)
    ensures h.q == q && h.r == r
    ensures ZeroSum(h) <==> s == -q - r
  {
    Hex(q, r, s)
  }

  /** `x & 1` on an integer-valued number: its lowest bit, which is also `x` modulo 2. */
  function LowBit(x: int): (b: int)
    ensures b == 0 || b == 1
    ensures (x - b) % 2 == 0
  {
    x % 2
  }

  /** `Math.round`: the nearest integer, halves rounding up. */
  function JsRound(x: real): int {
    (x + 0.5).Floor
  }

  function AbsR(x: real): real { if x < 0.0 then -x else x }

  function Abs(x: int): nat { if x < 0 then -x else x }

  function FromQOffsetCoordinates(offset: Parity, h: OffsetCoordinates): (hex: Hex)
    ensures ZeroSum(hex) && hex.q == h.col
  {
    var q := h.col;
    var r := h.row - JsRound((h.col + offset * LowBit(h.col)) as real / 2.0);
    MakeHex(q, r)
  }

  /** The inverse conversion; without an argument the offset is 1. */
  function ToOffsetCoordinates(h: Hex, offset: Parity := 1): (c: OffsetCoordinates)
    ensures c.col == h.q
  {
    var col := h.q;
    var row := h.r + ((h.q + offset * LowBit(h.q)) as real / 2.0).Floor;
    OffsetCoordinates(col, row)
  }

  /** The column shift `col + offset * (col & 1)` is even, so halving it is exact. */
  lemma ShiftedColumnIsEven(col: int, offset: Parity)
    ensures (col + offset * LowBit(col)) % 2 == 0
  {
    if LowBit(col) == 1 {
      assert (col - 1) % 2 == 0;
      if offset == 1 {
        assert col + 1 == (col - 1) + 2;
      }
    }
  }

  /** On an even number, both `round(n / 2)` and `floor(n / 2)` are the exact half. */
  lemma HalfOfEven(n: int)
    requires n % 2 == 0
    ensures JsRound(n as real / 2.0) == n / 2
    ensures (n as real / 2.0).Floor == n / 2
  {
    var k := n / 2;
    assert n == 2 * k;
    assert n as real / 2.0 == k as real;
  }

  /** Offset coordinates survive the trip through cube coordinates. */
  lemma OffsetRoundTrip(offset: Parity, c: OffsetCoordinates)
    ensures ToOffsetCoordinates(FromQOffsetCoordinates(offset, c), offset) == c
  {
    ShiftedColumnIsEven(c.col, offset);
    HalfOfEven(c.col + offset * LowBit(c.col));
  }

  /** A valid cube coordinate survives the trip through offset coordinates. */
  lemma CubeRoundTrip(offset: Parity, h: Hex)
    requires ZeroSum(h)
    ensures FromQOffsetCoordinates(offset, ToOffsetCoordinates(h, offset)) == h
  {
    ShiftedColumnIsEven(h.q, offset);
    HalfOfEven(h.q + offset * LowBit(h.q));
  }

  /** Within one column, consecutive rows are neighbouring cells one step apart in `r`. */
  lemma SameColumnNextRow(offset: Parity, col: int, row: int)
    ensures var a := FromQOffsetCoordinates(offset, OffsetCoordinates(col, row));
            var b := FromQOffsetCoordinates(offset, OffsetCoordinates(col, row + 1));
            b == Add(a, Directions[5])
  {
  }

  function ToString(h: Hex): string {
    IntToString(h.q) + "," + IntToString(h.r) + "," + IntToString(h.s)
  }

  /** Reads a `q,r,s` key back into a cell. */
  function KeyOf(key: string): Option<Hex> {
    var k := IndexOf(key, ',');
    if k == |key| then None
    else
      var tail := key[k + 1..];
      var k2 := IndexOf(tail, ',');
      if k2 == |tail| then None
      else
        match (IntOfString(key[..k]), IntOfString(tail[..k2]), IntOfString(tail[k2 + 1..]))
        case (Some(q), Some(r), Some(z)) => Some(Hex(q, r, z))
        case _ => None
  }

  /** Every key reads back as the cell it was made from. */
  lemma KeyReadsBack(h: Hex)
    ensures KeyOf(ToString(h)) == Some(h)
  {
    var qa, ra, sa := IntToString(h.q), IntToString(h.r), IntToString(h.s);
    var tail := ra + "," + sa;
    assert ToString(h) == qa + "," + tail;
    SplitAtComma(qa, tail);
    SplitAtComma(ra, sa);
  }

  /** Distinct cells have distinct string keys. */
  lemma ToStringInjective(a: Hex, b: Hex)
    ensures ToString(a) == ToString(b) <==> a == b
  {
    KeyReadsBack(a);
    KeyReadsBack(b);
  }

  /** Cutting `x + "," + y` at its first comma gives back `x` and `y` when `x` has none. */
  lemma SplitAtComma(x: string, y: string)
    requires forall i :: 0 <= i < |x| ==> x[i] == '-' || IsDigit(x[i])
    ensures var s := x + "," + y; var k := IndexOf(s, ',');
            k == |x| && s[..k] == x && s[k + 1..] == y
  {
    var s := x + "," + y;
    IndexOfFirst(s, ',', |x|);
  }

  /** `equals`: all three components agree. */
  function Equals(h: Hex, other: Hex): (b: bool)
    ensures b <==> h == other
  {
    h.q == other.q && h.r == other.r && h.s == other.s
  }

  function Add(h: Hex, other: Hex): (sum: Hex)
    ensures ZeroSum(h) && ZeroSum(other) ==> ZeroSum(sum)
  {
    Hex(h.q + other.q, h.r + other.r, h.s + other.s)
  }

  function Subtract(h: Hex, other: Hex): (diff: Hex)
    ensures ZeroSum(h) && ZeroSum(other) ==> ZeroSum(diff)
  {
    Hex(h.q - other.q, h.r - other.r, h.s - other.s)
  }

  /** Subtracting undoes adding. */
  lemma SubtractUndoesAdd(a: Hex, b: Hex)
    ensures Subtract(Add(a, b), b) == a && Add(Subtract(a, b), b) == a
  {
  }

  function Max3(a: int, b: int, c: int): int {
    if a >= b && a >= c then a else if b >= c then b else c
  }

  /** JavaScript's `Math.floor(n / 2)`, computed over reals, is integer halving on a non-negative integer. */
  lemma FloorOfHalf(n: nat)
    ensures (n as real / 2.0).Floor == n / 2
  {
    var k := n / 2;
    assert n == 2 * k || n == 2 * k + 1;
    assert (n as real / 2.0) == k as real || (n as real / 2.0) == k as real + 0.5;
  }

  /**
   * `floor((|q| + |r| + |s|) / 2)`, written with integer halving (`FloorOfHalf`); on a valid
   * cell no flooring happens and it is the largest magnitude.
   */
  function Length(h: Hex): (n: nat)
    ensures ZeroSum(h) ==> 2 * n == Abs(h.q) + Abs(h.r) + Abs(h.s)
    ensures ZeroSum(h) ==> n == Max3(Abs(h.q), Abs(h.r), Abs(h.s))
  {
    MagnitudesOfValidCell(h);
    (Abs(h.q) + Abs(h.r) + Abs(h.s)) / 2
  }

  /** On a valid cell the magnitudes add up to twice the largest one. */
  lemma MagnitudesOfValidCell(h: Hex)
    ensures ZeroSum(h) ==> Abs(h.q) + Abs(h.r) + Abs(h.s) == 2 * Max3(Abs(h.q), Abs(h.r), Abs(h.s))
  {
    if ZeroSum(h) {
      if h.q >= 0 && h.r >= 0 {
        assert Max3(Abs(h.q), Abs(h.r), Abs(h.s)) == Abs(h.s);
      } else if h.q < 0 && h.r < 0 {
        assert Max3(Abs(h.q), Abs(h.r), Abs(h.s)) == Abs(h.s);
      } else if h.q >= 0 && h.s >= 0 {
        assert Max3(Abs(h.q), Abs(h.r), Abs(h.s)) == Abs(h.r);
      } else if h.q < 0 && h.s < 0 {
        assert Max3(Abs(h.q), Abs(h.r), Abs(h.s)) == Abs(h.r);
      } else {
        assert Max3(Abs(h.q), Abs(h.r), Abs(h.s)) == Abs(h.q);
      }
    }
  }

  function Distance(h: Hex, other: Hex): nat {
    Length(Subtract(h, other))
  }

  lemma DistanceToSelf(h: Hex)
    ensures Distance(h, h) == 0
  {
  }

  lemma DistanceSymmetric(a: Hex, b: Hex)
    ensures Distance(a, b) == Distance(b, a)
  {
    assert Subtract(b, a) == Hex(-(a.q - b.q), -(a.r - b.r), -(a.s - b.s));
  }

  /** On valid cells the distance is zero exactly for equal cells. */
  lemma DistanceZeroIffEqual(a: Hex, b: Hex)
    requires ZeroSum(a) && ZeroSum(b)
    ensures Distance(a, b) == 0 <==> a == b
  {
    var d := Subtract(a, b);
    assert Distance(a, b) == Length(d);
    LengthZeroIffOrigin(d);
    SubtractZeroIffEqual(a, b);
  }

  lemma SubtractZeroIffEqual(a: Hex, b: Hex)
    ensures Subtract(a, b) == Hex(0, 0, 0) <==> a == b
  {
  }

  /** Only the origin has length zero. */
  lemma LengthZeroIffOrigin(d: Hex)
    requires ZeroSum(d)
    ensures Length(d) == 0 <==> d == Hex(0, 0, 0)
  {
    assert 2 * Length(d) == Abs(d.q) + Abs(d.r) + Abs(d.s);
  }

  /** The grid distance satisfies the triangle inequality on valid cells. */
  lemma TriangleInequality(a: Hex, b: Hex, c: Hex)
    requires ZeroSum(a) && ZeroSum(b) && ZeroSum(c)
    ensures Distance(a, c) <= Distance(a, b) + Distance(b, c)
  {
    var ab, bc, ac := Subtract(a, b), Subtract(b, c), Subtract(a, c);
    assert Abs(ac.q) <= Abs(ab.q) + Abs(bc.q);
    assert Abs(ac.r) <= Abs(ab.r) + Abs(bc.r);
    assert Abs(ac.s) <= Abs(ab.s) + Abs(bc.s);
  }

  /** The six unit steps, in this order. */
  const Directions: seq<Hex> := [
    Hex(1, 0, -1), Hex(1, -1, 0), Hex(0, -1, 1),
    Hex(-1, 0, 1), Hex(-1, 1, 0), Hex(0, 1, -1)
  ]

  function Direction(dir: DirectionIndex): (d: Hex)
    ensures ZeroSum(d) && Length(d) == 1
  {
    Directions[dir]
  }

  function Neighbour(h: Hex, dir: DirectionIndex): (n: Hex)
    ensures ZeroSum(h) ==> ZeroSum(n) && Distance(h, n) == 1
  {
    Add(h, Directions[dir])
  }

  /** Opposite directions cancel. */
  lemma OppositeDirectionsCancel(d: DirectionIndex)
    ensures Add(Directions[d], Directions[(d + 3) % 6]) == Hex(0, 0, 0)
  {
    var e := (d + 3) % 6;
    assert e == if d < 3 then d + 3 else d - 3;
    CancelWhenNegated(Directions[d], Directions[e]);
  }

  lemma CancelWhenNegated(x: Hex, y: Hex)
    requires y == Hex(-x.q, -x.r, -x.s)
    ensures Add(x, y) == Hex(0, 0, 0)
  {
  }

  /** The neighbours are exactly the valid cells at distance one, and they are distinct. */
  lemma NeighboursAreCellsAtDistanceOne(h: Hex, x: Hex)
    requires ZeroSum(h) && ZeroSum(x)
    ensures Distance(h, x) == 1 <==> exists d: DirectionIndex :: x == Neighbour(h, d)
  {
    var v := Subtract(x, h);
    if Distance(h, x) == 1 {
      assert Length(Subtract(h, x)) == 1;
      DistanceSymmetric(h, x);
      assert Length(v) == 1;
      assert Max3(Abs(v.q), Abs(v.r), Abs(v.s)) == 1;
      var d: DirectionIndex :|
        v == Directions[d] by {
        if v == Directions[0] { assert v == Directions[0]; }
        else if v == Directions[1] { assert v == Directions[1]; }
        else if v == Directions[2] { assert v == Directions[2]; }
        else if v == Directions[3] { assert v == Directions[3]; }
        else if v == Directions[4] { assert v == Directions[4]; }
        else { assert v == Directions[5]; }
      }
      assert x == Neighbour(h, d);
    }
  }

  lemma NeighboursDistinct(h: Hex, d: DirectionIndex, e: DirectionIndex)
    requires d != e
    ensures Neighbour(h, d) != Neighbour(h, e)
  {
  }

  /** `round()`: rounds every axis, then recomputes the one with the largest error. */
  function Round(h: FracHex): (c: Hex)
    ensures ZeroSum(c)
    ensures (c.r == JsRound(h.r) && c.s == JsRound(h.s))
         || (c.q == JsRound(h.q) && c.s == JsRound(h.s))
         || (c.q == JsRound(h.q) && c.r == JsRound(h.r))
  {
    var q, r, s := JsRound(h.q), JsRound(h.r), JsRound(h.s);
    var qDiff, rDiff, sDiff := AbsR(q as real - h.q), AbsR(r as real - h.r), AbsR(s as real - h.s);
    if qDiff > rDiff && qDiff > sDiff then MakeHex(-r - s, r, s)
    else if rDiff > sDiff then MakeHex(q, -q - s, s)
    else MakeHex(q, r, -q - r)
  }

  /** The rounding error of one axis. */
  function RoundingError(x: real): real { AbsR(JsRound(x) as real - x) }

  /** An axis whose rounded value was replaced had an error no smaller than the others. */
  lemma RoundDiscardsLargestError(h: FracHex)
    ensures var c := Round(h);
            (c.q != JsRound(h.q) ==> RoundingError(h.q) > RoundingError(h.r) && RoundingError(h.q) > RoundingError(h.s))
            && (c.r != JsRound(h.r) ==> RoundingError(h.r) >= RoundingError(h.q) && RoundingError(h.r) > RoundingError(h.s))
            && (c.s != JsRound(h.s) ==> RoundingError(h.s) >= RoundingError(h.q) && RoundingError(h.s) >= RoundingError(h.r))
  {
  }

  /** `Math.round` lands within one half of its argument. */
  lemma JsRoundIsNear(x: real)
    ensures AbsR(JsRound(x) as real - x) <= 0.5
  {
  }

  /** From a zero-sum fractional point, every coordinate moves by at most one. */
  lemma RoundIsNear(h: FracHex)
    requires h.q + h.r + h.s == 0.0
    ensures var c := Round(h);
            AbsR(c.q as real - h.q) <= 1.0 && AbsR(c.r as real - h.r) <= 1.0 && AbsR(c.s as real - h.s) <= 1.0
  {
    JsRoundIsNear(h.q);
    JsRoundIsNear(h.r);
    JsRoundIsNear(h.s);
  }

  /** A valid integer cell rounds to itself. */
  lemma RoundOfCell(h: Hex)
    requires ZeroSum(h)
    ensures Round(FracHex(h.q as real, h.r as real, h.s as real)) == h
  {
  }

  /** Independent rounding of (0.5, 0.5, -1) would give (1, 1, -1); `round` gives a valid cell. */
  lemma RoundExample()
    ensures Round(FracHex(0.5, 0.5, -1.0)) == Hex(1, 0, -1)
  {
  }
}
