/** The radius of the circular reveal, in squared integer form: the farthest
    of the layout's four corners from the centre of the reveal. Square root
    is monotone, so the farthest corner is the same as with hypot. */
module CircleReveal {

  function Abs(x: int): (r: int)
    ensures r >= 0 && (r == x || r == -x)
  {
    if x < 0 then -x else x
  }

  /** The corners (0,0), (width,0), (0,height), (width,height), in the order
      getCircleRadius visits them. */
  function Corners(width: int, height: int): (r: seq<(int, int)>)
    ensures |r| == 4
    ensures forall i :: 0 <= i < 4 ==> (r[i].0 == 0 || r[i].0 == width) && (r[i].1 == 0 || r[i].1 == height)
    ensures forall x: int, y: int | (x == 0 || x == width) && (y == 0 || y == height) :: (x, y) in r
  {
    [(0, 0), (width, 0), (0, height), (width, height)]
  }

  /** hypot(dx, dy) squared. */
  function HypotSquared(dx: int, dy: int): (r: int)
    ensures r >= dx * dx && r >= dy * dy
  {
    dx * dx + dy * dy
  }

  function SquaredDistance(x: int, y: int, cx: int, cy: int): int {
    HypotSquared(x - cx, y - cy)
  }

  function CornerDistance(width: int, height: int, cx: int, cy: int, i: nat): int
    requires i < 4
  {
    SquaredDistance(Corners(width, height)[i].0, Corners(width, height)[i].1, cx, cy)
  }

  /** r reaches every corner of the layout from (cx, cy). */
  predicate ReachesEveryCorner(r: int, width: int, height: int, cx: int, cy: int) {
    forall i: nat :: i < 4 ==> CornerDistance(width, height, cx, cy, i) <= r
  }

  /** Taking absolute values first, as getCircleRadius does, changes nothing. */
  lemma HypotOfAbs(dx: int, dy: int)
    ensures HypotSquared(Abs(dx), Abs(dy)) == HypotSquared(dx, dy) >= 0
  {
    assert Abs(dx) * Abs(dx) == dx * dx;
    assert Abs(dy) * Abs(dy) == dy * dy;
  }

  lemma SquareMonotone(a: int, b: int)
    requires 0 <= a <= b
    ensures a * a <= b * b
  {
    calc {
      a * a;
    <= { assert a * (b - a) >= 0; }
      a * b;
    <= { assert (b - a) * b >= 0; }
      b * b;
    }
  }

  /** Along one axis, a point of the segment [0, size] is no farther from c
      than the farther end of the segment. */
  lemma AxisBound(p: int, size: int, c: int) returns (end: int)
    requires 0 <= p <= size
    ensures end == 0 || end == size
    ensures (p - c) * (p - c) <= (end - c) * (end - c)
  {
    if p >= c {
      end := size;
      SquareMonotone(p - c, size - c);
    } else {
      end := 0;
      SquareMonotone(c - p, c);
      assert (p - c) * (p - c) == (c - p) * (c - p);
    }
  }

  /** A radius that reaches every corner covers the whole layout: the reveal
      uncovers every point (x, y) with 0 <= x <= width and 0 <= y <= height. */
  lemma {:induction false} RevealCoversLayout(r: int, width: int, height: int, cx: int, cy: int, x: int, y: int)
    requires ReachesEveryCorner(r, width, height, cx, cy)
    requires 0 <= x <= width && 0 <= y <= height
    ensures SquaredDistance(x, y, cx, cy) <= r
  {
    var ex := AxisBound(x, width, cx);
    var ey := AxisBound(y, height, cy);
    var i: nat := (if ex == 0 then 0 else 1) + (if ey == 0 then 0 else 2);
    assert Corners(width, height)[i] == (ex, ey);
    assert CornerDistance(width, height, cx, cy, i) <= r;
  }
}
