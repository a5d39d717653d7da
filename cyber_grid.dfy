/**
 * The background grid: a loop over `i = -20, -18, ..., 20` pushes four
 * points per step (the ends of a line along x at z = i and of a line along
 * z at x = i), and the points are then paired up, each even index with its
 * successor, into line segments. Coordinates are whole numbers, so they are
 * modelled as integers.
 */
module Grid {
  import opened Optional

  const GridSize: int := 20
  const Step: int := 2

  datatype Point = Point(x: int, y: int, z: int)

  datatype Segment = Segment(from: Point, to: Point)

  /** The four points pushed by the iteration for `i`, in push order. */
  function RowPoints(i: int): seq<Point> {
    [Point(-GridSize, 0, i), Point(GridSize, 0, i), Point(i, 0, -GridSize), Point(i, 0, GridSize)]
  }

  /** The points pushed by the iterations from `i` on. */
  function PointsFrom(i: int): seq<Point>
    decreases GridSize + Step - i
  {
    if i > GridSize then [] else RowPoints(i) + PointsFrom(i + Step)
  }

  /** How many iterations the loop makes from `i` on. */
  function IterationsFrom(i: int): nat
    decreases GridSize + Step - i
  {
    if i > GridSize then 0 else 1 + IterationsFrom(i + Step)
  }

  /** The points built by the loop of the component. */
  method BuildPoints() returns (points: seq<Point>)
    ensures points == PointsFrom(-GridSize)
  {
    points := [];
    var i := -GridSize;
    while i <= GridSize
      invariant points + PointsFrom(i) == PointsFrom(-GridSize)
    {
      points := points + [Point(-GridSize, 0, i)];
      points := points + [Point(GridSize, 0, i)];
      points := points + [Point(i, 0, -GridSize)];
      points := points + [Point(i, 0, GridSize)];
      i := i + Step;
    }
  }

  /** From an `i` on the lattice `-20 + 2r`, the loop makes `(20 - i) / 2 + 1` iterations, four points each. */
  lemma {:induction false} PointsFromSize(i: int)
    requires -GridSize <= i <= GridSize + Step && (i + GridSize) % Step == 0
    ensures IterationsFrom(i) == (GridSize + Step - i) / Step
    ensures |PointsFrom(i)| == 4 * IterationsFrom(i)
    decreases GridSize + Step - i
  {
    if i <= GridSize {
      PointsFromSize(i + Step);
    }
  }

  /** The loop runs 21 times and builds 84 points. */
  lemma PointCount()
    ensures IterationsFrom(-GridSize) == 21
    ensures |PointsFrom(-GridSize)| == 84
  {
    PointsFromSize(-GridSize);
  }

  /** Point `k` from `i` on is point `k % 4` of the iteration for `i + 2 * (k / 4)`. */
  lemma {:induction false} PointsFromAt(i: int, k: nat)
    requires k < |PointsFrom(i)|
    ensures i + Step * (k / 4) <= GridSize
    ensures PointsFrom(i)[k] == RowPoints(i + Step * (k / 4))[k % 4]
    decreases GridSize + Step - i
  {
    if k >= 4 {
      PointsFromAt(i + Step, k - 4);
      assert (k - 4) / 4 == k / 4 - 1 && (k - 4) % 4 == k % 4;
    }
  }

  /** What the `map` callback returns for `index`: a line for an even index with a successor, otherwise nothing. */
  function LineAt(points: seq<Point>, index: nat): Option<Segment>
    requires index < |points|
  {
    if index % 2 == 0 && index + 1 < |points| then Some(Segment(points[index], points[index + 1])) else None
  }

  /** The lines rendered for indices `index` and on: the callback's results with the empty ones dropped. */
  function LinesFrom(points: seq<Point>, index: nat): seq<Segment>
    requires index <= |points|
    decreases |points| - index
  {
    if index == |points| then []
    else (match LineAt(points, index) case Some(s) => [s] case None => []) + LinesFrom(points, index + 1)
  }

  /** The segments: consecutive pairs of points, a trailing odd point left over. */
  function Pairs(points: seq<Point>): seq<Segment>
    decreases |points|
  {
    if |points| < 2 then [] else [Segment(points[0], points[1])] + Pairs(points[2..])
  }

  /** Pairing is exactly "segment m joins points 2m and 2m + 1". */
  lemma {:induction false} PairsAt(points: seq<Point>)
    ensures |Pairs(points)| == |points| / 2
    ensures forall m :: 0 <= m < |points| / 2 ==> Pairs(points)[m] == Segment(points[2 * m], points[2 * m + 1])
    decreases |points|
  {
    if |points| >= 2 {
      var rest := points[2..];
      PairsAt(rest);
      forall m | 1 <= m < |points| / 2
        ensures Pairs(points)[m] == Segment(points[2 * m], points[2 * m + 1])
      {
        assert Pairs(points)[m] == Pairs(rest)[m - 1];
        assert rest[2 * (m - 1)] == points[2 * m] && rest[2 * (m - 1) + 1] == points[2 * m + 1];
      }
    }
  }

  /** From an even index, the rendered lines are the pairs of the remaining points. */
  lemma {:induction false} LinesFromArePairs(points: seq<Point>, index: nat)
    requires index <= |points| && index % 2 == 0
    ensures LinesFrom(points, index) == Pairs(points[index..])
    decreases |points| - index
  {
    var rest := points[index..];
    if index + 1 < |points| {
      assert LineAt(points, index) == Some(Segment(rest[0], rest[1]));
      assert LineAt(points, index + 1) == None;
      assert LinesFrom(points, index + 1) == LinesFrom(points, index + 2);
      LinesFromArePairs(points, index + 2);
      assert rest[2..] == points[index + 2..];
    } else if index + 1 == |points| {
      assert LineAt(points, index) == None;
      assert LinesFrom(points, index + 1) == [];
    }
  }

  /** A segment lies along the x axis at a fixed z, or along the z axis at a fixed x, in the plane y = 0. */
  predicate AxisAligned(s: Segment) {
    s.from.y == 0 && s.to.y == 0 &&
    ((s.from.z == s.to.z && s.from.x == -GridSize && s.to.x == GridSize) ||
     (s.from.x == s.to.x && s.from.z == -GridSize && s.to.z == GridSize))
  }

  /** Every coordinate lies in [-gridSize, gridSize], and y is always 0. */
  predicate InBounds(p: Point) {
    -GridSize <= p.x <= GridSize && p.y == 0 && -GridSize <= p.z <= GridSize
  }

  predicate AllInBounds(points: seq<Point>) {
    forall k :: 0 <= k < |points| ==> InBounds(points[k])
  }

  /** Segment `m` joins points `2m` and `2m + 1`, and there is one segment per pair. */
  predicate JoinsPairs(lines: seq<Segment>, points: seq<Point>) {
    && |lines| == |points| / 2
    && forall m :: 0 <= m < |lines| ==> lines[m] == Segment(points[2 * m], points[2 * m + 1])
  }

  predicate AllAxisAligned(lines: seq<Segment>) {
    forall m :: 0 <= m < |lines| ==> AxisAligned(lines[m])
  }

  /** Every point the loop builds is in bounds. */
  lemma {:induction false} BuiltPointsInBounds()
    ensures |PointsFrom(-GridSize)| == 84 && AllInBounds(PointsFrom(-GridSize))
  {
    PointCount();
    var points := PointsFrom(-GridSize);
    forall k | 0 <= k < 84 ensures InBounds(points[k]) {
      PointsFromAt(-GridSize, k);
    }
  }

  /** Points `2m` and `2m + 1` are the two ends of one full-width line. */
  lemma {:induction false} BuiltPairsAxisAligned(m: nat)
    requires m < 42
    ensures |PointsFrom(-GridSize)| == 84
    ensures AxisAligned(Segment(PointsFrom(-GridSize)[2 * m], PointsFrom(-GridSize)[2 * m + 1]))
  {
    PointCount();
    PointsFromAt(-GridSize, 2 * m);
    PointsFromAt(-GridSize, 2 * m + 1);
    assert (2 * m + 1) / 4 == (2 * m) / 4;
  }

  /**
   * The grid the component draws: 84 points, all in bounds, paired into
   * 42 segments, segment `m` joining points `2m` and `2m + 1`, each one a
   * full-width line along one axis.
   */
  lemma GridLines(points: seq<Point>)
    requires points == PointsFrom(-GridSize)
    ensures |points| == 84 && AllInBounds(points)
    ensures |LinesFrom(points, 0)| == 42
    ensures JoinsPairs(LinesFrom(points, 0), points)
    ensures AllAxisAligned(LinesFrom(points, 0))
  {
    BuiltPointsInBounds();
    LinesFromArePairs(points, 0);
    assert points[0..] == points;
    PairsAt(points);
    forall m | 0 <= m < 42 ensures AxisAligned(Segment(points[2 * m], points[2 * m + 1])) {
      BuiltPairsAxisAligned(m);
    }
  }
}
