// Drawing a line: the pixels plotted, in order.

module Lines {
  import opened Arithmetic

  datatype Point = Point(x: int, y: int)

  function Abs(i: int): nat { if i < 0 then -i else i }

  /**
   * After k steps of n along the major axis, with d as the extent of the minor one and m steps made along it, twice
   * the distance from the ideal line, times n.
   */
  function Error(k: int, m: int, n: int, d: int): int { 2 * (k * d - m * n) }

  /** Both errors of a step, without and with a step along the minor axis. */
  lemma ErrorStep(k: int, m: int, n: int, d: int)
    ensures Error(k + 1, m, n, d) == Error(k, m, n, d) + 2 * d
    ensures Error(k + 1, m + 1, n, d) == Error(k, m, n, d) + 2 * d - 2 * n
  {
    assert (k + 1) * d == k * d + d;
    assert (m + 1) * n == m * n + n;
  }

  /** After the last step the line has arrived. */
  lemma Arrived(m: int, n: int, d: int)
    requires n > 0 && -n <= Error(n, m, n, d) <= n
    ensures m == d
  {
    assert Error(n, m, n, d) == 2 * n * (d - m) by { Factor(n, d, m); }
    if d - m >= 1 {
      Scale(1, d - m, 2 * n);
    } else if d - m <= -1 {
      Scale(d - m, -1, 2 * n);
    }
  }

  lemma Factor(n: int, d: int, m: int)
    ensures 2 * (n * d - m * n) == 2 * n * (d - m)
  {
    assert n * (d - m) == n * d - n * m;
  }

  /** A point of the line after k steps along the x axis from (x0, y0): not further than half a pixel off. */
  ghost predicate OnX(q: Point, k: int, x0: int, y0: int, s: int, n: int, d: int) {
    q.x == x0 + k && -n <= Error(k, s * (q.y - y0), n, d) <= n
  }

  ghost predicate OnY(q: Point, k: int, x0: int, y0: int, s: int, n: int, d: int) {
    q.y == y0 + k && -n <= Error(k, s * (q.x - x0), n, d) <= n
  }

  lemma SignTwice(s: int, m: int)
    requires s == 1 || s == -1
    ensures s * (s * m) == m && s * (m + 1) == s * m + s
  {
  }

  /** A line that is not steeper than the diagonal. */
  method DrawFlat(x0: int, y0: int, xe: int, s: int, dx1: int, dy1: int) returns (p: seq<Point>)
    requires 0 <= dy1 <= dx1 && dx1 > 0 && xe == x0 + dx1 && (s == 1 || s == -1)
    ensures |p| == dx1 + 1 && p[0] == Point(x0, y0) && p[dx1] == Point(xe, y0 + s * dy1)
    ensures forall k :: 0 <= k < |p| ==> OnX(p[k], k, x0, y0, s, dx1, dy1)
  {
    hide Error;
    var x, y := x0, y0;
    var px := 2 * dy1 - dx1;
    p := [Point(x, y)];
    ghost var k, m := 0, 0;
    NoError(dx1, dy1);
    SignTwice(s, 0);
    while x < xe
      invariant 0 <= k <= dx1 && x == x0 + k && y == y0 + s * m
      invariant px == Error(k, m, dx1, dy1) + 2 * dy1 - dx1 && -dx1 <= Error(k, m, dx1, dy1) < dx1
      invariant |p| == k + 1 && p[0] == Point(x0, y0) && p[k] == Point(x, y)
      invariant forall j :: 0 <= j < |p| ==> OnX(p[j], j, x0, y0, s, dx1, dy1)
      decreases xe - x
    {
      ErrorStep(k, m, dx1, dy1);
      SignTwice(s, m);
      x := x + 1;
      if px < 0 {
        px := px + 2 * dy1;
      } else {
        y := y + s;
        px := px + 2 * (dy1 - dx1);
        m := m + 1;
      }
      k := k + 1;
      SignTwice(s, m);
      p := p + [Point(x, y)];
    }
    Arrived(m, dx1, dy1);
  }

  /** A line that is steeper. */
  method DrawSteep(x0: int, y0: int, ye: int, s: int, dx1: int, dy1: int) returns (p: seq<Point>)
    requires 0 <= dx1 < dy1 && ye == y0 + dy1 && (s == 1 || s == -1)
    ensures |p| == dy1 + 1 && p[0] == Point(x0, y0) && p[dy1] == Point(x0 + s * dx1, ye)
    ensures forall k :: 0 <= k < |p| ==> OnY(p[k], k, x0, y0, s, dy1, dx1)
  {
    hide Error;
    var x, y := x0, y0;
    var py := 2 * dx1 - dy1;
    p := [Point(x, y)];
    ghost var k, m := 0, 0;
    NoError(dy1, dx1);
    SignTwice(s, 0);
    while y < ye
      invariant 0 <= k <= dy1 && y == y0 + k && x == x0 + s * m
      invariant py == Error(k, m, dy1, dx1) + 2 * dx1 - dy1 && -dy1 < Error(k, m, dy1, dx1) <= dy1
      invariant |p| == k + 1 && p[0] == Point(x0, y0) && p[k] == Point(x, y)
      invariant forall j :: 0 <= j < |p| ==> OnY(p[j], j, x0, y0, s, dy1, dx1)
      decreases ye - y
    {
      ErrorStep(k, m, dy1, dx1);
      SignTwice(s, m);
      y := y + 1;
      if py <= 0 {
        py := py + 2 * dx1;
      } else {
        x := x + s;
        py := py + 2 * (dx1 - dy1);
        m := m + 1;
      }
      k := k + 1;
      SignTwice(s, m);
      p := p + [Point(x, y)];
    }
    Arrived(m, dy1, dx1);
  }

  lemma NoError(n: int, d: int)
    ensures Error(0, 0, n, d) == 0
  {
  }

  // ----- any line -----

  function Max(a: int, b: int): int { if a < b then b else a }

  /** How far a point is from the line through two others, as the area they span. */
  function Area(q: Point, a: Point, b: Point): int {
    (q.x - a.x) * (b.y - a.y) - (q.y - a.y) * (b.x - a.x)
  }

  /** The point is at most half a pixel from the line, measured along the minor axis. */
  predicate Near(q: Point, a: Point, b: Point) {
    2 * Abs(Area(q, a, b)) <= Max(Abs(b.x - a.x), Abs(b.y - a.y))
  }

  lemma NearBack(q: Point, a: Point, b: Point)
    requires Near(q, b, a)
    ensures Near(q, a, b)
  {
    var u, v, w, z := q.x - a.x, q.y - a.y, b.x - a.x, b.y - a.y;
    assert q.x - b.x == u - w && q.y - b.y == v - z;
    assert (u - w) * -z - (v - z) * -w == v * w - u * z by { Expand(u, v, w, z); }
    assert Area(q, b, a) == -Area(q, a, b);
  }

  lemma Expand(u: int, v: int, w: int, z: int)
    ensures (u - w) * -z - (v - z) * -w == v * w - u * z
  {
    assert (u - w) * -z == -(u * z) + w * z;
    assert (v - z) * -w == -(v * w) + z * w;
  }

  /** What the error along the major axis says about the area. */
  lemma OnXIsNear(q: Point, k: int, a: Point, b: Point, s: int, n: int, d: int)
    requires OnX(q, k, a.x, a.y, s, n, d) && b.x - a.x == n && b.y - a.y == s * d && (s == 1 || s == -1) && 0 <= d <= n
    ensures Near(q, a, b)
  {
    var v := q.y - a.y;
    assert k * (s * d) == s * (k * d) && v * n == s * (s * v * n) by { Signs(k, d, v, n, s); }
    assert Area(q, a, b) == s * (k * d - s * v * n);
  }

  lemma OnYIsNear(q: Point, k: int, a: Point, b: Point, s: int, n: int, d: int)
    requires OnY(q, k, a.x, a.y, s, n, d) && b.y - a.y == n && b.x - a.x == s * d && (s == 1 || s == -1) && 0 <= d <= n
    ensures Near(q, a, b)
  {
    var v := q.x - a.x;
    assert k * (s * d) == s * (k * d) && v * n == s * (s * v * n) by { Signs(k, d, v, n, s); }
    assert Area(q, a, b) == -(s * (k * d - s * v * n));
  }

  lemma Signs(k: int, d: int, v: int, n: int, s: int)
    requires s == 1 || s == -1
    ensures k * (s * d) == s * (k * d) && v * n == s * (s * v * n)
  {
    if s == -1 {
      assert k * -d == -(k * d);
      assert -1 * v * n == -(v * n);
    }
  }

  /** One pixel for each step along the major axis, from one end to the other, all near the line. */
  ghost predicate Straight(p: seq<Point>, a: Point, b: Point) {
    var n := Max(Abs(b.x - a.x), Abs(b.y - a.y));
    && |p| == n + 1
    && ((p[0] == a && p[n] == b) || (p[0] == b && p[n] == a))
    && (forall k :: 0 <= k <= n ==> Near(p[k], a, b))
    && (if Abs(b.y - a.y) <= Abs(b.x - a.x) then forall k :: 0 <= k <= n ==> p[k].x == p[0].x + k
        else forall k :: 0 <= k <= n ==> p[k].y == p[0].y + k)
  }

  /** A line that is parallel to no axis. */
  method DrawSlanted(x1: int, y1: int, x2: int, y2: int) returns (p: seq<Point>)
    requires x1 != x2 && y1 != y2
    ensures Straight(p, Point(x1, y1), Point(x2, y2))
  {
    hide Near, Area, OnX, OnY;
    var a, b := Point(x1, y1), Point(x2, y2);
    var dx, dy := x2 - x1, y2 - y1;
    var dx1, dy1 := Abs(dx), Abs(dy);
    var s: int := if (dx < 0 && dy < 0) || (dx > 0 && dy > 0) then 1 else -1;
    if dy1 <= dx1 {
      var c, e := if dx >= 0 then a else b, if dx >= 0 then b else a;
      p := DrawFlat(c.x, c.y, e.x, s, dx1, dy1);
      assert e.y - c.y == s * dy1;
      forall k | 0 <= k < |p| ensures Near(p[k], a, b) && p[k].x == c.x + k {
        FlatNear(p[k], k, a, b, c, e, s, dx1, dy1);
      }
    } else {
      var c, e := if dy >= 0 then a else b, if dy >= 0 then b else a;
      p := DrawSteep(c.x, c.y, e.y, s, dx1, dy1);
      assert e.x - c.x == s * dx1;
      forall k | 0 <= k < |p| ensures Near(p[k], a, b) && p[k].y == c.y + k {
        SteepNear(p[k], k, a, b, c, e, s, dy1, dx1);
      }
    }
  }

  lemma FlatNear(q: Point, k: int, a: Point, b: Point, c: Point, e: Point, s: int, n: int, d: int)
    requires (c == a && e == b) || (c == b && e == a)
    requires OnX(q, k, c.x, c.y, s, n, d) && e.x - c.x == n && e.y - c.y == s * d && (s == 1 || s == -1) && 0 <= d <= n
    ensures Near(q, a, b) && q.x == c.x + k
  {
    hide Near;
    OnXIsNear(q, k, c, e, s, n, d);
    if c == b { NearBack(q, a, b); }
  }

  lemma SteepNear(q: Point, k: int, a: Point, b: Point, c: Point, e: Point, s: int, n: int, d: int)
    requires (c == a && e == b) || (c == b && e == a)
    requires OnY(q, k, c.x, c.y, s, n, d) && e.y - c.y == n && e.x - c.x == s * d && (s == 1 || s == -1) && 0 <= d <= n
    ensures Near(q, a, b) && q.y == c.y + k
  {
    hide Near;
    OnYIsNear(q, k, c, e, s, n, d);
    if c == b { NearBack(q, a, b); }
  }

  // ----- lines along an axis -----

  function Clamp(v: int, limit: int): int {
    var w := if v < 0 then 0 else v;
    if w >= limit then limit - 1 else w
  }

  /** A horizontal line: the columns that are on the screen, in the nearest row that is. */
  method DrawHLine(left0: int, right0: int, y0: int, width: int, height: int) returns (p: seq<Point>)
    requires width > 0 && height > 0
    ensures forall q :: q in p <==> q.y == Clamp(y0, height) && left0 <= q.x <= right0 && 0 <= q.x < width
  {
    var left, right, y := left0, right0, y0;
    if left < 0 { left := 0; }
    if y < 0 { y := 0; }
    if right >= width { right := width - 1; }
    if y >= height { y := height - 1; }
    p := [];
    var x := left;
    while x <= right
      invariant left <= x
      invariant forall q :: q in p <==> q.y == y && left <= q.x < x && q.x <= right
    {
      p := p + [Point(x, y), Point(x, y)];
      x := x + 1;
    }
  }

  method DrawVLine(top0: int, bottom0: int, x0: int, width: int, height: int) returns (p: seq<Point>)
    requires width > 0 && height > 0
    ensures forall q :: q in p <==> q.x == Clamp(x0, width) && top0 <= q.y <= bottom0 && 0 <= q.y < height
  {
    var top, bottom, x := top0, bottom0, x0;
    if x < 0 { x := 0; }
    if top < 0 { top := 0; }
    if x >= width { x := width - 1; }
    if bottom >= height { bottom := height - 1; }
    p := [];
    var y := top;
    while y <= bottom
      invariant top <= y
      invariant forall q :: q in p <==> q.x == x && top <= q.y < y && q.y <= bottom
    {
      p := p + [Point(x, y), Point(x, y)];
      y := y + 1;
    }
  }

  /** The point is on the segment between two points of a line along an axis. */
  predicate Between(q: Point, a: Point, b: Point) {
    && (if a.x <= b.x then a.x <= q.x <= b.x else b.x <= q.x <= a.x)
    && (if a.y <= b.y then a.y <= q.y <= b.y else b.y <= q.y <= a.y)
  }

  predicate OnScreen(q: Point, width: int, height: int) { 0 <= q.x < width && 0 <= q.y < height }

  /**
   * Any line. Along an axis, the pixels plotted are those of the line that are on the screen, exactly when the line's
   * row or column is on the screen or nothing of it could be seen anyway.
   */
  method DrawLine(x1: int, y1: int, x2: int, y2: int, width: int, height: int) returns (p: seq<Point>)
    requires width > 0 && height > 0
    ensures x1 != x2 && y1 != y2 ==> Straight(p, Point(x1, y1), Point(x2, y2))
    ensures x1 == x2 ==> ((forall q :: q in p <==> Between(q, Point(x1, y1), Point(x2, y2)) && OnScreen(q, width, height))
      <==> 0 <= x1 < width || Max(y1, y2) < 0 || (if y1 < y2 then y1 else y2) >= height)
    ensures x1 != x2 && y1 == y2 ==>
      ((forall q :: q in p <==> Between(q, Point(x1, y1), Point(x2, y2)) && OnScreen(q, width, height))
        <==> 0 <= y1 < height || Max(x1, x2) < 0 || (if x1 < x2 then x1 else x2) >= width)
  {
    if x1 == x2 {
      var top, bottom := if y1 > y2 then y2 else y1, if y1 > y2 then y1 else y2;
      p := DrawVLine(top, bottom, x1, width, height);
      if !(0 <= x1 < width) && bottom >= 0 && top < height {
        var seen := Point(Clamp(x1, width), if top < 0 then 0 else top);
        assert seen in p && !Between(seen, Point(x1, y1), Point(x2, y2));
      }
    } else if y1 == y2 {
      var left, right := if x1 > x2 then x2 else x1, if x1 > x2 then x1 else x2;
      p := DrawHLine(left, right, y1, width, height);
      if !(0 <= y1 < height) && right >= 0 && left < width {
        var seen := Point(if left < 0 then 0 else left, Clamp(y1, height));
        assert seen in p && !Between(seen, Point(x1, y1), Point(x2, y2));
      }
    } else {
      p := DrawSlanted(x1, y1, x2, y2);
    }
  }
}
