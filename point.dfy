/** Two-dimensional pixel points (hex/Point.ts), in exact arithmetic. */
module Points {

  /** An immutable point: every operation returns a new value. */
  datatype Point = Point(x: real, y: real)

  function Add(p: Point, o: Point): Point {
    Point(p.x + o.x, p.y + o.y)
  }

  function Subtract(p: Point, o: Point): Point {
    Point(p.x - o.x, p.y - o.y)
  }

  /** Both coordinates divided by `divisor`: the point that `divisor` times gives back `p`. */
  function Div(p: Point, divisor: real): (d: Point)
    requires divisor != 0.0
    ensures d.x * divisor == p.x && d.y * divisor == p.y
  {
    Point(p.x / divisor, p.y / divisor)
  }

  /** Subtracting undoes adding, and adding undoes subtracting. */
  lemma SubtractUndoesAdd(p: Point, o: Point)
    ensures Subtract(Add(p, o), o) == p
    ensures Add(Subtract(p, o), o) == p
  {
  }

  /** Adding is component-wise, so it commutes and associates. */
  lemma AddCommutesAndAssociates(a: Point, b: Point, c: Point)
    ensures Add(a, b) == Add(b, a)
    ensures Add(Add(a, b), c) == Add(a, Add(b, c))
  {
  }
}
