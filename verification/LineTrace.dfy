/**
 The grid trace between two cells.  Positions (i, j) count the columns and rows walked from
 the source; nx and ny are the extents.  The trace is the exact supercover of the segment
 between the two cell centres, with cells touched only at a corner left out.
 */
module LineTrace {
  import opened Results
  import opened Powers
  import opened Sequences
  import opened Grid
  import opened Movement

  type Position = (int, int)

  // How far a position is off the segment, scaled by nx + ny: ny more for every column walked,
  // nx less for every row.
  function Deviation(nx: int, ny: int, i: nat, j: nat): int {
    if i > 0 then Deviation(nx, ny, i - 1, j) + ny
    else if j > 0 then Deviation(nx, ny, i, j - 1) - nx
    else 0
  }

  lemma {:induction false} DeviationIsProduct(nx: int, ny: int, i: nat, j: nat)
    ensures Deviation(nx, ny, i, j) == i * ny - j * nx
  {
    if i > 0 {
      DeviationIsProduct(nx, ny, i - 1, j);
    } else if j > 0 {
      DeviationIsProduct(nx, ny, i, j - 1);
    }
  }

  // The positions in the bounding box whose open cell the segment crosses.
  predicate InBand(nx: int, ny: int, p: Position) {
    0 <= p.0 <= nx && 0 <= p.1 <= ny && 2 * Abs(Deviation(nx, ny, p.0, p.1)) < nx + ny
  }

  // ---------- the band is the set of cells that the segment crosses ----------

  // At time t the segment from (0, 0) to (x, y) is inside the open unit square around (a, b).
  ghost predicate InsideAt(x: real, y: real, a: real, b: real, t: real) {
    0.0 <= t <= 1.0 && -0.5 < t * x - a < 0.5 && -0.5 < t * y - b < 0.5
  }

  ghost predicate CrossesSquare(x: real, y: real, a: real, b: real) {
    exists t: real :: InsideAt(x, y, a, b, t)
  }

  // The segment between the cell centres meets the open cell at the position.
  ghost predicate Crosses(nx: int, ny: int, p: Position) {
    CrossesSquare(nx as real, ny as real, p.0 as real, p.1 as real)
  }

  lemma BandIsCrossed(nx: int, ny: int, p: Position)
    requires nx >= 0 && ny >= 0 && nx + ny > 0
    requires 0 <= p.0 <= nx && 0 <= p.1 <= ny
    ensures InBand(nx, ny, p) <==> Crosses(nx, ny, p)
  {
    var x, y, a, b := nx as real, ny as real, p.0 as real, p.1 as real;
    DeviationAsReal(nx, ny, p.0, p.1, x, y, a, b);
    SmallDeviation(Deviation(nx, ny, p.0, p.1), nx + ny, x, y, a, b);
    NearIsCrossed(x, y, a, b);
  }

  ghost predicate RealNear(x: real, y: real, a: real, b: real) {
    IsSmall(a * y - b * x, x + y)
  }

  ghost predicate IsSmall(d: real, n: real) {
    -n < 2.0 * d < n
  }

  lemma NearIsCrossed(x: real, y: real, a: real, b: real)
    requires x + y > 0.0 && 0.0 <= a <= x && 0.0 <= b <= y
    ensures RealNear(x, y, a, b) <==> CrossesSquare(x, y, a, b)
  {
    if RealNear(x, y, a, b) {
      var t := NearestPoint(x, y, a, b);
      assert InsideAt(x, y, a, b, t);
    }
    if CrossesSquare(x, y, a, b) {
      var t: real :| InsideAt(x, y, a, b, t);
      CrossedIsNear(x, y, a, b, t);
    }
  }

  lemma SmallDeviation(d: int, n: int, x: real, y: real, a: real, b: real)
    requires d as real == a * y - b * x && n as real == x + y
    ensures 2 * Abs(d) < n <==> RealNear(x, y, a, b)
  {
    SmallAsReal(d, n, a * y - b * x, x + y);
  }

  lemma SmallAsReal(d: int, n: int, rd: real, rn: real)
    requires d as real == rd && n as real == rn
    ensures 2 * Abs(d) < n <==> IsSmall(rd, rn)
  {
    assert 2.0 * d as real == (2 * d) as real;
  }

  lemma {:induction false} DeviationAsReal(nx: int, ny: int, i: nat, j: nat, x: real, y: real, a: real, b: real)
    requires x == nx as real && y == ny as real && a == i as real && b == j as real
    ensures Deviation(nx, ny, i, j) as real == a * y - b * x
  {
    if i > 0 {
      DeviationAsReal(nx, ny, i - 1, j, x, y, a - 1.0, b);
    } else if j > 0 {
      DeviationAsReal(nx, ny, i, j - 1, x, y, a, b - 1.0);
    }
  }

  // The point at (a + b) / (x + y) of the way is off by exactly the scaled deviation, in each
  // coordinate.
  lemma NearestPoint(x: real, y: real, a: real, b: real) returns (t: real)
    requires x + y > 0.0 && 0.0 <= a <= x && 0.0 <= b <= y
    requires -(x + y) < 2.0 * (a * y - b * x) < x + y
    ensures 0.0 <= t <= 1.0
    ensures -0.5 < t * x - a < 0.5 && -0.5 < t * y - b < 0.5
  {
    var n := x + y;
    t := (a + b) / n;
    Quotient(a + b, n);
    UnitFraction(t, n);
    Near(x, y, n, a, b, t);
    Near(y, x, n, b, a, t);
  }

  lemma Near(x: real, y: real, n: real, a: real, b: real, t: real)
    requires n == x + y && n > 0.0 && t * n == a + b
    requires -n < 2.0 * (b * x - a * y) < n
    ensures -0.5 < t * x - a < 0.5
  {
    Offset(x, y, n, a, b, t);
    HalfBound(t * x - a, n, b * x - a * y);
  }

  lemma Quotient(a: real, n: real)
    requires n > 0.0
    ensures a / n * n == a
  {
  }

  lemma Offset(x: real, y: real, n: real, a: real, b: real, t: real)
    requires n == x + y && t * n == a + b
    ensures (t * x - a) * n == b * x - a * y
  {
    calc {
      (t * x - a) * n;
      (t * n) * x - a * n;
      (a + b) * x - a * n;
      b * x + a * x - a * (x + y);
      b * x - a * y;
    }
  }

  lemma UnitFraction(t: real, n: real)
    requires n > 0.0 && 0.0 <= t * n <= n
    ensures 0.0 <= t <= 1.0
  {
    assert t < 0.0 ==> t * n < 0.0;
    assert t > 1.0 ==> (t - 1.0) * n > 0.0;
  }

  lemma HalfBound(e: real, n: real, d: real)
    requires n > 0.0 && e * n == d && -n < 2.0 * d < n
    ensures -0.5 < e < 0.5
  {
    assert e >= 0.5 ==> (e - 0.5) * n >= 0.0;
    assert e <= -0.5 ==> (-0.5 - e) * n >= 0.0;
  }

  lemma CrossedIsNear(x: real, y: real, a: real, b: real, t: real)
    requires x >= 0.0 && y >= 0.0 && x + y > 0.0
    requires -0.5 < t * x - a < 0.5 && -0.5 < t * y - b < 0.5
    ensures -(x + y) < 2.0 * (a * y - b * x) < x + y
  {
    var e, f := t * x - a, t * y - b;
    ScaledHalf(f, x);
    ScaledHalf(e, y);
    CrossDifference(x, y, a, b, t);
    assert x > 0.0 || y > 0.0;
    Difference(a * y - b * x, f * x, e * y, x, y);
  }

  lemma Difference(d: real, u: real, v: real, x: real, y: real)
    requires d == u - v && -x <= 2.0 * u <= x && -y <= 2.0 * v <= y
    requires (-x < 2.0 * u < x) || (-y < 2.0 * v < y)
    ensures -(x + y) < 2.0 * d < x + y
  {
  }

  lemma CrossDifference(x: real, y: real, a: real, b: real, t: real)
    ensures a * y - b * x == (t * y - b) * x - (t * x - a) * y
  {
  }

  lemma ScaledHalf(e: real, n: real)
    requires -0.5 < e < 0.5 && n >= 0.0
    ensures -n <= 2.0 * (e * n) <= n
    ensures n > 0.0 ==> -n < 2.0 * (e * n) < n
  {
    PositiveProduct(0.5 - e, n);
    PositiveProduct(e + 0.5, n);
    SplitHalf(e, n);
  }

  lemma SplitHalf(e: real, n: real)
    ensures (0.5 - e) * n == 0.5 * n - e * n && (e + 0.5) * n == e * n + 0.5 * n
  {
  }

  lemma PositiveProduct(a: real, b: real)
    requires a > 0.0 && b >= 0.0
    ensures a * b >= 0.0 && (b > 0.0 ==> a * b > 0.0)
  {
  }

  // ---------- walking the band ----------

  // The next position: along the axis whose grid line the segment meets first, or along both
  // through a corner.
  function NextPosition(nx: int, ny: int, p: Position): Position
    requires p.0 >= 0 && p.1 >= 0
  {
    var balance := ny - nx + 2 * Deviation(nx, ny, p.0, p.1);
    if balance == 0 then (p.0 + 1, p.1 + 1)
    else if balance < 0 then (p.0 + 1, p.1)
    else (p.0, p.1 + 1)
  }

  lemma DecisionIsDeviation(nx: int, ny: int, i: nat, j: nat)
    ensures (1 + 2 * i) * ny - (1 + 2 * j) * nx == ny - nx + 2 * Deviation(nx, ny, i, j)
    ensures Deviation(nx, ny, i + 1, j) == Deviation(nx, ny, i, j) + ny
    ensures Deviation(nx, ny, i, j + 1) == Deviation(nx, ny, i, j) - nx
    ensures Deviation(nx, ny, i + 1, j + 1) == Deviation(nx, ny, i, j) + ny - nx
  {
    DeviationIsProduct(nx, ny, i, j);
    DeviationIsProduct(nx, ny, i + 1, j);
    DeviationIsProduct(nx, ny, i, j + 1);
    DeviationIsProduct(nx, ny, i + 1, j + 1);
  }

  // At the far column only rows are left to walk, and the other way round.
  lemma DeviationAtEdge(nx: int, ny: int, i: int, j: int)
    requires 0 <= i <= nx && 0 <= j <= ny
    ensures i == nx && j < ny ==> Deviation(nx, ny, i, j) >= nx
    ensures j == ny && i < nx ==> Deviation(nx, ny, i, j) <= -ny
  {
    DeviationIsProduct(nx, ny, i, j);
    if i == nx && j < ny {
      WholeRowLeft(nx, ny, j);
    }
    if j == ny && i < nx {
      WholeRowLeft(ny, nx, i);
    }
  }

  lemma WholeRowLeft(m: int, n: int, j: int)
    requires m >= 0 && j < n
    ensures m * n - j * m >= m
  {
    MulNonNegative(m, n - 1 - j);
    assert m * (n - 1 - j) == m * n - m - j * m;
  }

  predicate IsGridStep(p: Position, q: Position) {
    0 <= q.0 - p.0 <= 1 && 0 <= q.1 - p.1 <= 1 && p != q
  }

  ghost predicate StepAt(s: seq<Position>, k: int) {
    0 <= k < |s| - 1 && IsGridStep(s[k], s[k + 1])
  }

  ghost predicate IsGridWalk(s: seq<Position>) {
    forall k {:trigger StepAt(s, k)} :: 0 <= k < |s| - 1 ==> StepAt(s, k)
  }

  lemma NextStaysInBand(nx: int, ny: int, p: Position)
    requires nx >= 0 && ny >= 0 && InBand(nx, ny, p) && p != (nx, ny)
    ensures InBand(nx, ny, NextPosition(nx, ny, p)) && IsGridStep(p, NextPosition(nx, ny, p))
  {
    DecisionIsDeviation(nx, ny, p.0, p.1);
    DeviationAtEdge(nx, ny, p.0, p.1);
  }

  predicate NotBefore(p: Position, q: Position) {
    q.0 <= p.0 && q.1 <= p.1
  }

  // Any two positions of the band are ordered.
  lemma BandIsChain(nx: int, ny: int, p: Position, q: Position)
    requires InBand(nx, ny, p) && InBand(nx, ny, q)
    ensures NotBefore(p, q) || NotBefore(q, p)
  {
    if p.0 < q.0 && p.1 > q.1 {
      Spread(nx, ny, p, q);
    } else if q.0 < p.0 && q.1 > p.1 {
      Spread(nx, ny, q, p);
    }
  }

  lemma Spread(nx: int, ny: int, p: Position, q: Position)
    requires nx >= 0 && ny >= 0 && 0 <= p.0 < q.0 && p.1 > q.1 >= 0
    ensures Deviation(nx, ny, q.0, q.1) - Deviation(nx, ny, p.0, p.1) >= nx + ny
  {
    DeviationIsProduct(nx, ny, p.0, p.1);
    DeviationIsProduct(nx, ny, q.0, q.1);
    MulNonNegative(q.0 - p.0 - 1, ny);
    MulNonNegative(p.1 - q.1 - 1, nx);
    assert (q.0 - p.0 - 1) * ny == q.0 * ny - p.0 * ny - ny;
    assert (p.1 - q.1 - 1) * nx == p.1 * nx - q.1 * nx - nx;
  }

  // Nothing of the band lies between a position and the next one.
  lemma NextIsAdjacent(nx: int, ny: int, p: Position, q: Position)
    requires nx >= 0 && ny >= 0 && InBand(nx, ny, p) && p != (nx, ny)
    requires InBand(nx, ny, q) && NotBefore(q, p) && q != p
    ensures NotBefore(q, NextPosition(nx, ny, p))
  {
    NextStaysInBand(nx, ny, p);
    BandIsChain(nx, ny, q, NextPosition(nx, ny, p));
    DecisionIsDeviation(nx, ny, p.0, p.1);
  }

  // The positions from p on.
  function TraceFrom(nx: int, ny: int, p: Position): (s: seq<Position>)
    requires nx >= 0 && ny >= 0 && InBand(nx, ny, p)
    ensures |s| > 0 && s[0] == p
    decreases nx - p.0 + ny - p.1
  {
    if p == (nx, ny) then [p]
    else
      NextStaysInBand(nx, ny, p);
      [p] + TraceFrom(nx, ny, NextPosition(nx, ny, p))
  }

  // The trace visits exactly the band, in monotone steps to adjacent positions.
  lemma {:induction false} TraceIsBand(nx: int, ny: int, p: Position)
    requires nx >= 0 && ny >= 0 && InBand(nx, ny, p)
    ensures var s := TraceFrom(nx, ny, p);
            && (forall q :: q in s <==> InBand(nx, ny, q) && NotBefore(q, p))
            && IsGridWalk(s)
            && s[|s| - 1] == (nx, ny)
    decreases nx - p.0 + ny - p.1
  {
    if p != (nx, ny) {
      var next := NextPosition(nx, ny, p);
      NextStaysInBand(nx, ny, p);
      TraceIsBand(nx, ny, next);
      var s, rest := TraceFrom(nx, ny, p), TraceFrom(nx, ny, next);
      forall k | 0 <= k < |s| - 1
        ensures StepAt(s, k)
      {
        assert k > 0 ==> StepAt(rest, k - 1);
      }
      forall q | InBand(nx, ny, q) && NotBefore(q, p)
        ensures q == p || NotBefore(q, next)
      {
        if q != p {
          NextIsAdjacent(nx, ny, p, q);
        }
      }
    }
  }

  function Origin(): Position {
    (0, 0)
  }

  lemma OriginInBand(nx: int, ny: int)
    requires nx >= 0 && ny >= 0 && nx + ny > 0
    ensures InBand(nx, ny, Origin()) && InBand(nx, ny, (nx, ny))
  {
    DeviationIsProduct(nx, ny, nx, ny);
  }

  // ---------- the trace backwards ----------

  function Mirror(nx: int, ny: int, p: Position): Position {
    (nx - p.0, ny - p.1)
  }

  lemma MirrorInBand(nx: int, ny: int, p: Position)
    requires nx >= 0 && ny >= 0
    ensures InBand(nx, ny, Mirror(nx, ny, p)) <==> InBand(nx, ny, p)
  {
    if 0 <= p.0 <= nx && 0 <= p.1 <= ny {
      DeviationIsProduct(nx, ny, p.0, p.1);
      DeviationIsProduct(nx, ny, nx - p.0, ny - p.1);
      assert (nx - p.0) * ny - (ny - p.1) * nx == -(p.0 * ny - p.1 * nx);
    }
  }

  // Which of two positions the trace reaches first.
  ghost function Walked(): (Position, Position) -> bool {
    (p: Position, q: Position) => p.0 + p.1 < q.0 + q.1
  }

  lemma {:induction false} StepsAreSorted(s: seq<Position>)
    requires IsGridWalk(s)
    ensures SortedBy(Walked(), s)
    decreases |s|
  {
    if |s| > 1 {
      var n := |s| - 1;
      forall k | 0 <= k < n - 1
        ensures StepAt(s[..n], k)
      {
        assert StepAt(s, k);
      }
      StepsAreSorted(s[..n]);
      assert StepAt(s, n - 1);
      forall i, j | 0 <= i < j < |s|
        ensures Walked()(s[i], s[j])
      {
        assert j < n ==> s[..n][i] == s[i] && s[..n][j] == s[j];
        assert i < n - 1 ==> Walked()(s[..n][i], s[..n][n - 1]);
      }
    }
  }

  ghost function MirroredTrace(nx: int, ny: int): (s: seq<Position>)
    requires nx >= 0 && ny >= 0 && nx + ny > 0
  {
    OriginInBand(nx, ny);
    var t := TraceFrom(nx, ny, Origin());
    seq(|t|, k requires 0 <= k < |t| => Mirror(nx, ny, t[|t| - 1 - k]))
  }

  lemma MirrorStep(nx: int, ny: int, p: Position, q: Position)
    requires IsGridStep(p, q)
    ensures IsGridStep(Mirror(nx, ny, q), Mirror(nx, ny, p))
  {
  }

  lemma MirroredSteps(nx: int, ny: int)
    requires nx >= 0 && ny >= 0 && nx + ny > 0
    ensures SortedBy(Walked(), MirroredTrace(nx, ny))
  {
    OriginInBand(nx, ny);
    TraceIsBand(nx, ny, Origin());
    var t, u := TraceFrom(nx, ny, Origin()), MirroredTrace(nx, ny);
    var n := |t|;
    forall k | 0 <= k < n - 1
      ensures StepAt(u, k)
    {
      var j := n - 2 - k;
      assert StepAt(t, j);
      MirrorStep(nx, ny, t[j], t[j + 1]);
      assert u[k] == Mirror(nx, ny, t[j + 1]);
      assert u[k + 1] == Mirror(nx, ny, t[j]);
    }
    StepsAreSorted(u);
  }

  // Walked from the other end, the trace passes the same positions.
  lemma TraceIsSymmetric(nx: int, ny: int)
    requires nx >= 0 && ny >= 0 && nx + ny > 0
    ensures InBand(nx, ny, Origin()) && MirroredTrace(nx, ny) == TraceFrom(nx, ny, Origin())
  {
    OriginInBand(nx, ny);
    TraceIsBand(nx, ny, Origin());
    MirroredSteps(nx, ny);
    var t, u := TraceFrom(nx, ny, Origin()), MirroredTrace(nx, ny);
    StepsAreSorted(t);
    forall p
      ensures p in u <==> p in t
    {
      MirroredMember(nx, ny, p);
    }
    SortedListingIsUnique(Walked(), u, t);
  }

  lemma MirroredMember(nx: int, ny: int, p: Position)
    requires nx >= 0 && ny >= 0 && nx + ny > 0 && InBand(nx, ny, Origin())
    ensures p in MirroredTrace(nx, ny) <==> p in TraceFrom(nx, ny, Origin())
  {
    TraceIsBand(nx, ny, Origin());
    var t, u := TraceFrom(nx, ny, Origin()), MirroredTrace(nx, ny);
    var n := |t|;
    MirrorInBand(nx, ny, p);
    if p in u {
      var k :| 0 <= k < n && u[k] == p;
      var r := t[n - 1 - k];
      assert r in t && u[k] == Mirror(nx, ny, r);
      assert r == (r.0, r.1) && Mirror(nx, ny, p) == r;
    }
    if p in t {
      var q := Mirror(nx, ny, p);
      assert InBand(nx, ny, q);
      assert q in t;
      var k :| 0 <= k < n && t[k] == q;
      assert u[n - 1 - k] == Mirror(nx, ny, q);
    }
  }

  // ---------- cells ----------

  // i cells from a towards b.
  function Towards(a: int, b: int, i: int): int {
    if b > a then a + i else if b < a then a - i else a
  }

  function Sign(d: int): int {
    if d == 0 then 0 else if d > 0 then 1 else -1
  }

  function CellOn(source: GridCell, target: GridCell, p: Position): GridCell {
    GridCell(Towards(source.x, target.x, p.0), Towards(source.y, target.y, p.1))
  }

  function Columns(source: GridCell, target: GridCell): nat {
    Abs(target.x - source.x)
  }

  function Rows(source: GridCell, target: GridCell): nat {
    Abs(target.y - source.y)
  }

  function PlaceAll(source: GridCell, target: GridCell, s: seq<Position>): (cells: seq<GridCell>)
    ensures |cells| == |s|
    ensures forall k | 0 <= k < |s| :: cells[k] == CellOn(source, target, s[k])
  {
    seq(|s|, k requires 0 <= k < |s| => CellOn(source, target, s[k]))
  }

  // The cells of the trace from source to target.
  function LineOf(source: GridCell, target: GridCell): (cells: seq<GridCell>)
    ensures |cells| > 0
  {
    if source == target then [source]
    else
      var nx, ny := Columns(source, target), Rows(source, target);
      OriginInBand(nx, ny);
      PlaceAll(source, target, TraceFrom(nx, ny, Origin()))
  }

  // What has been listed, up to and including position p, is the line so far.
  ghost predicate Listed(source: GridCell, target: GridCell, result: seq<GridCell>, p: Position)
    requires source != target && InBand(Columns(source, target), Rows(source, target), p)
  {
    var nx, ny := Columns(source, target), Rows(source, target);
    && |result| > 0 && result[|result| - 1] == CellOn(source, target, p)
    && result[..|result| - 1] + PlaceAll(source, target, TraceFrom(nx, ny, p)) == LineOf(source, target)
  }

  lemma ListFirst(source: GridCell, target: GridCell)
    requires source != target
    ensures InBand(Columns(source, target), Rows(source, target), Origin())
    ensures Tracing(source, target, [source], source, Origin())
  {
    OriginInBand(Columns(source, target), Rows(source, target));
  }

  lemma ListNext(source: GridCell, target: GridCell, result: seq<GridCell>, p: Position)
    requires source != target && InBand(Columns(source, target), Rows(source, target), p)
    requires Listed(source, target, result, p) && p != (Columns(source, target), Rows(source, target))
    ensures var next := NextPosition(Columns(source, target), Rows(source, target), p);
            && InBand(Columns(source, target), Rows(source, target), next) && IsGridStep(p, next)
            && Listed(source, target, result + [CellOn(source, target, next)], next)
            && CellOn(source, target, next) != CellOn(source, target, p)
  {
    var nx, ny := Columns(source, target), Rows(source, target);
    var next := NextPosition(nx, ny, p);
    TraceUnrolls(source, target, nx, ny, p);
    var more := result + [CellOn(source, target, next)];
    assert more[..|more| - 1] == result == result[..|result| - 1] + [CellOn(source, target, p)];
  }

  lemma ListLast(source: GridCell, target: GridCell, result: seq<GridCell>, p: Position)
    requires source != target && p == (Columns(source, target), Rows(source, target))
    requires InBand(Columns(source, target), Rows(source, target), p) && Listed(source, target, result, p)
    ensures result == LineOf(source, target)
  {
    assert PlaceAll(source, target, TraceFrom(p.0, p.1, p)) == [CellOn(source, target, p)];
  }

  // The state of the trace loop: standing on a cell at position p.
  ghost predicate Tracing(source: GridCell, target: GridCell, result: seq<GridCell>, cell: GridCell, p: Position) {
    && source != target && InBand(Columns(source, target), Rows(source, target), p)
    && cell == CellOn(source, target, p) && Listed(source, target, result, p)
  }

  lemma TraceTurn(space: SquareGridSpace, source: GridCell, target: GridCell, result: seq<GridCell>,
                  cell: GridCell, p: Position, next: Position, nextCell: GridCell, signX: int, signY: int)
    requires space.Contains(source) && space.Contains(target) && Tracing(source, target, result, cell, p)
    requires p != (Columns(source, target), Rows(source, target))
    requires next == NextPosition(Columns(source, target), Rows(source, target), p)
    requires signX == Sign(target.x - source.x) && signY == Sign(target.y - source.y)
    requires nextCell.x == if next.0 > p.0 then cell.x + signX else cell.x
    requires nextCell.y == if next.1 > p.1 then cell.y + signY else cell.y
    ensures space.Contains(nextCell) && result[|result| - 1] != nextCell
    ensures Tracing(source, target, result + [nextCell], nextCell, next)
    ensures p.0 + p.1 < next.0 + next.1 <= Columns(source, target) + Rows(source, target)
  {
    ListNext(source, target, result, p);
    assert nextCell == CellOn(source, target, next);
    BoxIsInside(space, source, target, next);
  }

  method LineCells(space: SquareGridSpace, source: GridCell, target: GridCell) returns (r: Result<seq<GridCell>>)
    ensures r.Raised? <==> !(space.Contains(source) && space.Contains(target))
    ensures r.Ok? ==> r.value == LineOf(source, target)
  {
    if !space.Contains(source) || !space.Contains(target) {
      return Raised;
    }
    if source == target {
      return Ok([source]);
    }
    var dx, dy := target.x - source.x, target.y - source.y;
    ListFirst(source, target);
    r := TraceLoop(space, source, target, Abs(dx), Abs(dy), Sign(dx), Sign(dy));
  }

  method TraceLoop(space: SquareGridSpace, source: GridCell, target: GridCell,
                   nx: int, ny: int, signX: int, signY: int)
    returns (r: Result<seq<GridCell>>)
    requires space.Contains(source) && space.Contains(target) && Tracing(source, target, [source], source, Origin())
    requires nx == Columns(source, target) && ny == Rows(source, target)
    requires signX == Sign(target.x - source.x) && signY == Sign(target.y - source.y)
    ensures r == Ok(LineOf(source, target))
  {
    var x, y, ix, iy := source.x, source.y, 0, 0;
    var result := [source];
    while ix < nx || iy < ny
      invariant ix >= 0 && iy >= 0 && Tracing(source, target, result, GridCell(x, y), (ix, iy))
      decreases nx + ny - ix - iy
    {
      ghost var p := (ix, iy);
      ghost var last := GridCell(x, y);
      x, y, ix, iy := TraceStep(nx, ny, x, y, ix, iy, signX, signY);
      var cell := GridCell(x, y);
      TraceTurn(space, source, target, result, last, p, (ix, iy), cell, signX, signY);
      if !space.Contains(cell) {
        return Raised;
      }
      if result[|result| - 1] != cell {
        result := result + [cell];
      }
    }
    ListLast(source, target, result, (ix, iy));
    return Ok(result);
  }

  // One turn of the loop: compare where the two grid lines are met, and move.
  method TraceStep(nx: int, ny: int, x: int, y: int, ix: int, iy: int, signX: int, signY: int)
    returns (x': int, y': int, ix': int, iy': int)
    requires ix >= 0 && iy >= 0
    ensures (ix', iy') == NextPosition(nx, ny, (ix, iy))
    ensures x' == if ix' > ix then x + signX else x
    ensures y' == if iy' > iy then y + signY else y
  {
    x', y', ix', iy' := x, y, ix, iy;
    var left := (1 + 2 * ix) * ny;
    var right := (1 + 2 * iy) * nx;
    DecisionIsDeviation(nx, ny, ix, iy);
    if left == right {
      x', y', ix', iy' := x + signX, y + signY, ix + 1, iy + 1;
    } else if left < right {
      x', ix' := x + signX, ix + 1;
    } else {
      y', iy' := y + signY, iy + 1;
    }
  }

  lemma TraceUnrolls(source: GridCell, target: GridCell, nx: int, ny: int, p: Position)
    requires nx >= 0 && ny >= 0 && InBand(nx, ny, p) && p != (nx, ny)
    ensures InBand(nx, ny, NextPosition(nx, ny, p)) && IsGridStep(p, NextPosition(nx, ny, p))
    ensures PlaceAll(source, target, TraceFrom(nx, ny, p))
         == [CellOn(source, target, p)] + PlaceAll(source, target, TraceFrom(nx, ny, NextPosition(nx, ny, p)))
  {
    NextStaysInBand(nx, ny, p);
  }

  lemma BoxIsInside(space: SquareGridSpace, source: GridCell, target: GridCell, p: Position)
    requires space.Contains(source) && space.Contains(target)
    requires 0 <= p.0 <= Columns(source, target) && 0 <= p.1 <= Rows(source, target)
    ensures space.Contains(CellOn(source, target, p))
  {
  }

  // ---------- what the trace is ----------

  // The cell lies in the box between the two ends, and the open segment crosses it.
  ghost predicate OnSegment(source: GridCell, target: GridCell, c: GridCell) {
    var p := (Abs(c.x - source.x), Abs(c.y - source.y));
    && c == CellOn(source, target, p)
    && p.0 <= Columns(source, target) && p.1 <= Rows(source, target)
    && (source == target || Crosses(Columns(source, target), Rows(source, target), p))
  }

  // The trace is exactly the supercover: it starts at the source, ends at the target, and
  // shows all and only the crossed cells.
  lemma LineIsSupercover(source: GridCell, target: GridCell)
    ensures var line := LineOf(source, target);
            && line[0] == source && line[|line| - 1] == target
            && (forall c :: c in line <==> OnSegment(source, target, c))
  {
    if source != target {
      var nx, ny := Columns(source, target), Rows(source, target);
      OriginInBand(nx, ny);
      TraceIsBand(nx, ny, Origin());
      forall c
        ensures c in LineOf(source, target) <==> OnSegment(source, target, c)
      {
        CellOnLine(source, target, c);
      }
    }
  }

  // The k-th cell of a line and the position it stands for.
  lemma LineEntry(source: GridCell, target: GridCell, k: nat) returns (p: Position)
    requires source != target && k < |LineOf(source, target)|
    ensures InBand(Columns(source, target), Rows(source, target), Origin())
    ensures var t := TraceFrom(Columns(source, target), Rows(source, target), Origin());
            |t| == |LineOf(source, target)| && t[k] == p
    ensures 0 <= p.0 <= Columns(source, target) && 0 <= p.1 <= Rows(source, target)
    ensures LineOf(source, target)[k] == CellOn(source, target, p)
  {
    var nx, ny := Columns(source, target), Rows(source, target);
    OriginInBand(nx, ny);
    TraceIsBand(nx, ny, Origin());
    p := TraceFrom(nx, ny, Origin())[k];
    assert p in TraceFrom(nx, ny, Origin());
  }

  lemma LineEntriesDiffer(source: GridCell, target: GridCell, i: nat, j: nat)
    requires i < j < |LineOf(source, target)|
    ensures LineOf(source, target)[i] != LineOf(source, target)[j]
  {
    var p := LineEntry(source, target, i);
    var q := LineEntry(source, target, j);
    var nx, ny := Columns(source, target), Rows(source, target);
    TraceIsBand(nx, ny, Origin());
    StepsAreSorted(TraceFrom(nx, ny, Origin()));
    assert Walked()(p, q);
    CellDeterminesPosition(source, target, p);
    CellDeterminesPosition(source, target, q);
  }

  ghost predicate Adjacent(a: GridCell, b: GridCell) {
    Abs(b.x - a.x) <= 1 && Abs(b.y - a.y) <= 1 && a != b
  }

  // It goes from each cell to an adjacent one, and through none of them twice.
  lemma LineIsConnected(source: GridCell, target: GridCell, i: nat, j: nat)
    requires i < j < |LineOf(source, target)|
    ensures LineOf(source, target)[i] != LineOf(source, target)[j]
    ensures Adjacent(LineOf(source, target)[i], LineOf(source, target)[i + 1])
  {
    LineEntriesDiffer(source, target, i, j);
    LineEntriesDiffer(source, target, i, i + 1);
    var p := LineEntry(source, target, i);
    var q := LineEntry(source, target, i + 1);
    var nx, ny := Columns(source, target), Rows(source, target);
    TraceIsBand(nx, ny, Origin());
    assert StepAt(TraceFrom(nx, ny, Origin()), i);
  }

  lemma CellDeterminesPosition(source: GridCell, target: GridCell, p: Position)
    requires 0 <= p.0 <= Columns(source, target) && 0 <= p.1 <= Rows(source, target)
    ensures var c := CellOn(source, target, p); p == (Abs(c.x - source.x), Abs(c.y - source.y))
  {
  }

  lemma CellOnLine(source: GridCell, target: GridCell, c: GridCell)
    requires source != target
    ensures c in LineOf(source, target) <==> OnSegment(source, target, c)
  {
    var nx, ny := Columns(source, target), Rows(source, target);
    var p := (Abs(c.x - source.x), Abs(c.y - source.y));
    OriginInBand(nx, ny);
    TraceIsBand(nx, ny, Origin());
    var t := TraceFrom(nx, ny, Origin());
    if c in LineOf(source, target) {
      var k :| 0 <= k < |LineOf(source, target)| && LineOf(source, target)[k] == c;
      var q := LineEntry(source, target, k);
      CellDeterminesPosition(source, target, q);
      assert q in t;
      BandIsCrossed(nx, ny, p);
    }
    if OnSegment(source, target, c) {
      BandIsCrossed(nx, ny, p);
      assert p in t;
      var k :| 0 <= k < |t| && t[k] == p;
      assert LineOf(source, target)[k] == c;
    }
  }

  lemma LineStaysInside(space: SquareGridSpace, source: GridCell, target: GridCell)
    requires space.Contains(source) && space.Contains(target)
    ensures forall c | c in LineOf(source, target) :: space.Contains(c)
  {
    LineIsSupercover(source, target);
    forall c | c in LineOf(source, target)
      ensures space.Contains(c)
    {
      BoxIsInside(space, source, target, (Abs(c.x - source.x), Abs(c.y - source.y)));
    }
  }

  // Tracing from target to source gives the same cells in reverse order.
  lemma LineReverses(source: GridCell, target: GridCell)
    ensures LineOf(target, source) == Reversed(LineOf(source, target))
  {
    if source != target {
      var there, back := LineOf(source, target), LineOf(target, source);
      forall k: nat | k < |back|
        ensures |there| == |back| && back[k] == there[|there| - 1 - k]
      {
        LineEntryReverses(source, target, k);
      }
    }
  }

  lemma LineEntryReverses(source: GridCell, target: GridCell, k: nat)
    requires source != target && k < |LineOf(target, source)|
    ensures |LineOf(source, target)| == |LineOf(target, source)|
    ensures LineOf(target, source)[k] == LineOf(source, target)[|LineOf(source, target)| - 1 - k]
  {
    var nx, ny := Columns(source, target), Rows(source, target);
    var p := LineEntry(target, source, k);
    var t := TraceFrom(nx, ny, Origin());
    var q := LineEntry(source, target, |t| - 1 - k);
    TraceIsSymmetric(nx, ny);
    assert MirroredTrace(nx, ny)[k] == Mirror(nx, ny, q) == p;
    CellFromOtherEnd(source, target, q);
  }

  lemma CellFromOtherEnd(source: GridCell, target: GridCell, p: Position)
    requires 0 <= p.0 <= Columns(source, target) && 0 <= p.1 <= Rows(source, target)
    ensures CellOn(target, source, Mirror(Columns(source, target), Rows(source, target), p)) == CellOn(source, target, p)
  {
  }
}
