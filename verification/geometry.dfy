/** Pure coordinate arithmetic of the snake grid. */
module Geometry {
  import opened Wrappers

  /** A grid cell, or a unit heading vector; `y` grows downwards. */
  datatype Pos = Pos(x: int, y: int)

  /** The four headings of the `coords` table. */
  datatype Dir = North | South | West | East

  function Abs(n: int): nat {
    if n < 0 then -n else n
  }

  /** The unit vector of a heading, as in the `coords` table. */
  function Delta(d: Dir): (v: Pos)
    ensures Abs(v.x) + Abs(v.y) == 1
  {
    match d
    case North => Pos(0, -1)
    case South => Pos(0, 1)
    case West => Pos(-1, 0)
    case East => Pos(1, 0)
  }

  /** The geometric opposite of a heading, defined independently of the vectors. */
  function Reverse(d: Dir): Dir {
    match d
    case North => South
    case South => North
    case West => East
    case East => West
  }

  /** Two headings are opposite exactly when their vectors cancel out. */
  lemma ReverseIsOppositeVector(d: Dir, m: Dir)
    ensures m == Reverse(d) <==> (Delta(d).x + Delta(m).x == 0 && Delta(d).y + Delta(m).y == 0)
  {
  }

  /** A positive multiple of a positive number is at least that number. */
  lemma MulAtLeast(n: int, d: int)
    requires n > 0 && d >= 1
    ensures n * d >= n
  {
  }

  /** Euclidean remainders are unique: any decomposition fixes `a % n`. */
  lemma ModUnique(a: int, n: int, q: int, m: int)
    requires n > 0 && 0 <= m < n && a == n * q + m
    ensures a % n == m
  {
    var q', m' := a / n, a % n;
    assert n * q' + m' == n * q + m;
    assert n * (q - q') == m' - m;
    if q > q' {
      MulAtLeast(n, q - q');
    } else if q < q' {
      MulAtLeast(n, q' - q);
    }
  }

  /** JavaScript's `%`: the remainder of truncating division, carrying the dividend's sign. */
  function JsRem(a: int, b: int): (r: int)
    requires b != 0
    ensures Abs(r) < Abs(b)
    ensures (a - r) % Abs(b) == 0
    ensures a >= 0 ==> r >= 0
    ensures a < 0 ==> r <= 0
  {
    var n := Abs(b);
    if a >= 0 then
      ModUnique(a - a % n, n, a / n, 0);
      a % n
    else
      var m := (-a) % n;
      ModUnique(a + m, n, -((-a) / n), 0);
      -m
  }

  /**
   * `getModHead(x, y)`: `((y % x) + x) % x` with JavaScript's remainder. For a positive
   * modulus it is the true (non-negative) modulo, even for negative `y`.
   */
  function ModHead(x: int, y: int): (r: int)
    requires x != 0
    ensures x > 0 ==> 0 <= r < x && r == y % x
    ensures x < 0 ==> x < r <= 0
  {
    var t := JsRem(y, x);
    var r := JsRem(t + x, x);
    if x > 0 then
      (if y >= 0 then
         ModUnique(t + x, x, 1, t);
         ModUnique(y, x, y / x, t);
         r
       else if t == 0 then
         ModUnique(t + x, x, 1, 0);
         ModUnique(-y, x, (-y) / x, 0);
         ModUnique(y, x, -((-y) / x), 0);
         r
       else
         ModUnique(t + x, x, 0, t + x);
         ModUnique(-y, x, (-y) / x, -t);
         ModUnique(y, x, -((-y) / x) - 1, t + x);
         r)
    else
      r
  }

  /** The cell lies on the `cols` by `rows` grid. */
  predicate InBounds(rows: int, cols: int, p: Pos) {
    0 <= p.x < cols && 0 <= p.y < rows
  }

  /** `hasSameCoords`: both present and on the same cell; an absent item never matches. */
  predicate HasSameCoords(a: Option<Pos>, b: Option<Pos>) {
    a.Some? && b.Some? && a.value.x == b.value.x && a.value.y == b.value.y
  }

  /** Comparing coordinates is plain equality of present cells. */
  lemma SameCoordsIsEquality(a: Option<Pos>, b: Option<Pos>)
    ensures HasSameCoords(a, b) <==> a.Some? && a == b
  {
  }

  /** `hasHitWall`, checked literally axis by axis. */
  predicate HitWall(rows: int, cols: int, p: Pos) {
    (p.x >= cols || p.x < 0) || (p.y >= rows || p.y < 0)
  }

  lemma HitWallIffOutside(rows: int, cols: int, p: Pos)
    ensures HitWall(rows, cols, p) <==> !InBounds(rows, cols, p)
  {
  }

  /** The length of `dots.filter(dot => hasSameCoords(dot, p))`. */
  function CountSame(dots: seq<Pos>, p: Pos): (n: nat)
    ensures n <= |dots|
    ensures n == 0 <==> p !in dots
  {
    if |dots| == 0 then 0
    else (if HasSameCoords(Some(dots[0]), Some(p)) then 1 else 0) + CountSame(dots[1..], p)
  }

  /** `hasHitBody`: some body cell has the same coordinates. */
  predicate HitBody(dots: seq<Pos>, p: Pos) {
    CountSame(dots, p) >= 1
  }

  /** No two cells of a body coincide. */
  predicate Distinct(dots: seq<Pos>) {
    forall i, j :: 0 <= i < j < |dots| ==> dots[i] != dots[j]
  }
}
