/** The discrete part of the rotating wireframe cube: its eight vertices, the twelve
    edges the draw loop emits, the matrix-vector product, the 2D projection and the
    depth-to-skew map, over real numbers. The three rotation matrices (sines and
    cosines) are not part of this model; `ProjectVertex` starts from an already rotated
    vertex. */
module Cube {

  /** `CamDistance`. */
  const CamDistance: real := 1.7
  /** The depth range `skewFactor` normalises over. */
  const DepthMin: real := -2.8
  const DepthMax: real := 2.8
  /** The `scaleFactor` the timer screen builds its cube with. */
  const ScreenScaleFactor: real := 1.55

  function Abs(x: real): (r: real)
    ensures 0.0 <= r && (r == x || r == -x)
  {
    if x < 0.0 then -x else x
  }

  /** `cubePoints`: the cube of half-edge `|scaleFactor|` centred at the origin. Vertices
      0-3 form the face at negative z, in order around it, and vertex i + 4 is vertex i
      mirrored through the xy-plane. */
  function CubePoints(scaleFactor: real): (points: seq<seq<real>>)
    ensures |points| == 8
    ensures forall i :: 0 <= i < 8 ==> |points[i]| == 3
    ensures forall i, k :: 0 <= i < 8 && 0 <= k < 3 ==>
      points[i][k] == Abs(scaleFactor) || points[i][k] == -Abs(scaleFactor)
    ensures forall i :: 0 <= i < 4 ==>
      points[i][2] == -Abs(scaleFactor) && points[i + 4] == [points[i][0], points[i][1], -points[i][2]]
    ensures scaleFactor != 0.0 ==> forall i, j :: 0 <= i < j < 8 ==> points[i] != points[j]
  {
    var a := Abs(scaleFactor);
    [[-a, -a, -a], [a, -a, -a], [a, a, -a], [-a, a, -a],
     [-a, -a, a], [a, -a, a], [a, a, a], [-a, a, a]]
  }

  /** A segment the draw loop emits, as (start, end) indices into the vertex list. */
  type Edge = (nat, nat)

  /** The three segments drawn in round `i` of the edge loop: one on each face and the
      one joining them. */
  function EdgeRound(i: nat): seq<Edge> {
    [(i, (i + 1) % 4), (i + 4, (i + 1) % 4 + 4), (i, i + 4)]
  }

  /** The segments drawn in the first `n` rounds. */
  function EdgeRounds(n: nat): seq<Edge> {
    if n == 0 then [] else EdgeRounds(n - 1) + EdgeRound(n - 1)
  }

  /** The number of the first `n` segments that end at vertex `v`. */
  function Degree(edges: seq<Edge>, v: nat, n: nat): nat
    requires n <= |edges|
  {
    if n == 0 then 0
    else Degree(edges, v, n - 1) + (if edges[n - 1].0 == v || edges[n - 1].1 == v then 1 else 0)
  }

  /** The number of coordinates in which two points differ. */
  function Differing(p: seq<real>, q: seq<real>): nat
    requires |p| == 3 && |q| == 3
  {
    (if p[0] != q[0] then 1 else 0) + (if p[1] != q[1] then 1 else 0) + (if p[2] != q[2] then 1 else 0)
  }

  /** The twelve segments of the edge loop, in drawing order. */
  const DrawnEdges: seq<Edge> :=
    [(0, 1), (4, 5), (0, 4), (1, 2), (5, 6), (1, 5),
     (2, 3), (6, 7), (2, 6), (3, 0), (7, 4), (3, 7)]

  lemma EdgeRoundsWrittenOut()
    ensures EdgeRounds(4) == DrawnEdges
  {
  }

  /** Twelve segments between the eight vertices, none drawn twice in either direction. */
  lemma EdgesDistinct()
    ensures |EdgeRounds(4)| == 12
    ensures forall i :: 0 <= i < 12 ==> EdgeRounds(4)[i].0 < 8 && EdgeRounds(4)[i].1 < 8
    ensures forall i, j :: 0 <= i < j < 12 ==>
      EdgeRounds(4)[i] != EdgeRounds(4)[j] && EdgeRounds(4)[i] != (EdgeRounds(4)[j].1, EdgeRounds(4)[j].0)
  {
    EdgeRoundsWrittenOut();
  }

  /** Three segments meet at every vertex. */
  lemma EdgesDegreeThree()
    ensures |EdgeRounds(4)| == 12
    ensures forall v :: 0 <= v < 8 ==> Degree(EdgeRounds(4), v, 12) == 3
  {
    BackFaceDegrees();
    FrontFaceDegrees();
  }

  /** Vertices 0 to 3 (the face at negative depth) each end three segments. */
  lemma BackFaceDegrees()
    ensures |EdgeRounds(4)| == 12
    ensures forall v :: 0 <= v < 4 ==> Degree(EdgeRounds(4), v, 12) == 3
  {
    EdgeRoundsWrittenOut();
    assert Degree(DrawnEdges, 0, 12) == 3 && Degree(DrawnEdges, 1, 12) == 3;
    assert Degree(DrawnEdges, 2, 12) == 3 && Degree(DrawnEdges, 3, 12) == 3;
  }

  /** Vertices 4 to 7 (the face at positive depth) each end three segments. */
  lemma FrontFaceDegrees()
    ensures |EdgeRounds(4)| == 12
    ensures forall v :: 4 <= v < 8 ==> Degree(EdgeRounds(4), v, 12) == 3
  {
    EdgeRoundsWrittenOut();
    assert Degree(DrawnEdges, 4, 12) == 3 && Degree(DrawnEdges, 5, 12) == 3;
    assert Degree(DrawnEdges, 6, 12) == 3 && Degree(DrawnEdges, 7, 12) == 3;
  }

  /** Every segment is an edge of the cube: its ends differ in exactly one coordinate. */
  lemma EdgesJoinNeighbours(scaleFactor: real)
    requires scaleFactor != 0.0
    ensures forall i :: 0 <= i < 12 ==>
      Differing(CubePoints(scaleFactor)[EdgeRounds(4)[i].0], CubePoints(scaleFactor)[EdgeRounds(4)[i].1]) == 1
  {
    EdgeRoundsWrittenOut();
  }

  /** The edge loop of `RotatingCube`. */
  method CubeEdges() returns (edges: seq<Edge>)
    ensures edges == EdgeRounds(4)
  {
    edges := [];
    for i := 0 to 4
      invariant edges == EdgeRounds(i)
    {
      edges := edges + [(i, (i + 1) % 4)];
      edges := edges + [(i + 4, (i + 1) % 4 + 4)];
      edges := edges + [(i, i + 4)];
    }
  }

  /** `Σ_{k < n} row[k] * v[k]`. */
  function Dot(row: seq<real>, v: seq<real>, n: nat): real
    requires n <= |row| && n <= |v|
  {
    if n == 0 then 0.0 else Dot(row, v, n - 1) + row[n - 1] * v[n - 1]
  }

  lemma DotOfThree(row: seq<real>, v: seq<real>)
    requires |row| == 3 && |v| == 3
    ensures Dot(row, v, 3) == row[0] * v[0] + row[1] * v[1] + row[2] * v[2]
  {
    assert Dot(row, v, 1) == row[0] * v[0];
  }

  /** `multiply`: accumulates `a[i][k] * b[k]` into `product[i]`, once for each of the
      `c2` columns, so each entry is `c2` times the dot product of row i with `b`. */
  method Multiply(a: seq<seq<real>>, b: seq<real>, r1: nat, c1: nat, c2: nat)
    returns (product: seq<real>)
    requires r1 <= |a| && c1 <= |b|
    requires forall i :: 0 <= i < r1 ==> c1 <= |a[i]|
    ensures |product| == r1
    ensures forall i :: 0 <= i < r1 ==> product[i] == (c2 as real) * Dot(a[i], b, c1)
  {
    var acc := new real[r1](_ => 0.0);
    for i := 0 to r1
      invariant forall i' :: 0 <= i' < i ==> acc[i'] == (c2 as real) * Dot(a[i'], b, c1)
      invariant forall i' :: i <= i' < r1 ==> acc[i'] == 0.0
    {
      ghost var row, others := Dot(a[i], b, c1), acc[..];
      for j := 0 to c2
        invariant forall i' :: 0 <= i' < r1 && i' != i ==> acc[i'] == others[i']
        invariant acc[i] == (j as real) * row
      {
        ghost var before := acc[i];
        for k := 0 to c1
          invariant forall i' :: 0 <= i' < r1 && i' != i ==> acc[i'] == others[i']
          invariant acc[i] == before + Dot(a[i], b, k)
        {
          acc[i] := acc[i] + a[i][k] * b[k];
        }
        assert acc[i] == (j as real) * row + row == ((j + 1) as real) * row;
      }
    }
    product := acc[..];
  }

  /** `skewed2DProjection`: drops the depth and scales x and y by `skew`. */
  function Skewed2DProjection(skew: real): (m: seq<seq<real>>)
    ensures |m| == 2 && |m[0]| == 3 && |m[1]| == 3
  {
    [[skew, 0.0, 0.0], [0.0, skew, 0.0]]
  }

  /** Through `multiply`, the projection's rows give x and y scaled by `skew`, whatever
      the depth. */
  lemma ProjectionDropsDepth(skew: real, v: seq<real>)
    requires |v| == 3
    ensures Dot(Skewed2DProjection(skew)[0], v, 3) == skew * v[0]
    ensures Dot(Skewed2DProjection(skew)[1], v, 3) == skew * v[1]
  {
    DotOfThree(Skewed2DProjection(skew)[0], v);
    DotOfThree(Skewed2DProjection(skew)[1], v);
  }

  /** `normalize`: where `value` lies between `min` (0) and `max` (1). */
  function Normalize(value: real, max: real, min: real): (r: real)
    requires max != min
    ensures value == min ==> r == 0.0
    ensures value == max ==> r == 1.0
    ensures min < max && min <= value <= max ==> 0.0 <= r <= 1.0
  {
    DivideWithinUnit(value - min, max - min);
    (value - min) / (max - min)
  }

  lemma DivideWithinUnit(n: real, d: real)
    requires d != 0.0
    ensures 0.0 < d && 0.0 <= n <= d ==> 0.0 <= n / d <= 1.0
    ensures n == d ==> n / d == 1.0
  {
    assert n / d * d == n;
  }

  /** `normalize` preserves the order of values when `max > min`. */
  lemma NormalizeMonotone(v1: real, v2: real, max: real, min: real)
    requires min < max && v1 <= v2
    ensures Normalize(v1, max, min) <= Normalize(v2, max, min)
  {
    var d := max - min;
    assert Normalize(v2, max, min) - Normalize(v1, max, min) == (v2 - v1) / d;
  }

  /** `skewFactor`: the camera distance less the normalised depth (last coordinate). */
  function SkewFactor(rotatedXYZ: seq<real>): (r: real)
    requires |rotatedXYZ| > 0
    ensures DepthMin <= rotatedXYZ[|rotatedXYZ| - 1] <= DepthMax ==>
      CamDistance - 1.0 <= r <= CamDistance && r != 0.0
  {
    CamDistance - Normalize(rotatedXYZ[|rotatedXYZ| - 1], DepthMax, DepthMin)
  }

  /** The scale `1 / skewFactor` applied to x and y lies in [1/1.7, 1/0.7] and grows with
      depth over the normalisation range. */
  lemma ProjectionScale(p: seq<real>, q: seq<real>)
    requires |p| == 3 && |q| == 3
    requires DepthMin <= p[2] <= q[2] <= DepthMax
    ensures 1.0 / CamDistance <= 1.0 / SkewFactor(p) <= 1.0 / SkewFactor(q) <= 1.0 / (CamDistance - 1.0)
  {
    NormalizeMonotone(p[2], q[2], DepthMax, DepthMin);
    var sp, sq := SkewFactor(p), SkewFactor(q);
    assert 0.0 < sq <= sp;
    assert 1.0 / sp <= 1.0 / sq by {
      assert 1.0 / sq - 1.0 / sp == (sp - sq) / (sp * sq);
    }
    assert 1.0 / CamDistance <= 1.0 / sp by {
      assert 1.0 / sp - 1.0 / CamDistance == (CamDistance - sp) / (sp * CamDistance);
    }
    assert 1.0 / sq <= 1.0 / (CamDistance - 1.0) by {
      assert 1.0 / (CamDistance - 1.0) - 1.0 / sq == (sq - (CamDistance - 1.0)) / (sq * (CamDistance - 1.0));
    }
  }

  function SquaredLength(p: seq<real>): real
    requires |p| == 3
  {
    p[0] * p[0] + p[1] * p[1] + p[2] * p[2]
  }

  /** On the timer screen's cube every point as far from the centre as a vertex (as every
      rotated vertex is) has its depth inside the normalisation range, so the skew factor
      there is positive and `1 / skewFactor` is defined. */
  lemma ScreenCubeDepthInRange(i: nat, p: seq<real>)
    requires i < 8 && |p| == 3
    requires SquaredLength(p) == SquaredLength(CubePoints(ScreenScaleFactor)[i])
    ensures DepthMin <= p[2] <= DepthMax
    ensures SkewFactor(p) > 0.0
  {
    var v := CubePoints(ScreenScaleFactor)[i];
    assert SquaredLength(v) == 3.0 * 1.55 * 1.55;
    assert p[2] * p[2] <= 7.2075;
  }

  /** The per-vertex projection of `RotatingCube` after the rotations: the skew factor of
      the rotated vertex, the skewed projection through `multiply`, then the pixel size.
      The result is x and y scaled by `size / skewFactor`; depth enters only through the
      skew factor. */
  method ProjectVertex(rotatedXYZ: seq<real>, size: real) returns (offset: (real, real))
    requires |rotatedXYZ| == 3
    requires SkewFactor(rotatedXYZ) != 0.0
    ensures offset.0 == rotatedXYZ[0] * size / SkewFactor(rotatedXYZ)
    ensures offset.1 == rotatedXYZ[1] * size / SkewFactor(rotatedXYZ)
  {
    var skewFactor := SkewFactor(rotatedXYZ);
    var projected2D := Multiply(Skewed2DProjection(1.0 / skewFactor), rotatedXYZ, 2, 3, 1);
    ProjectionDropsDepth(1.0 / skewFactor, rotatedXYZ);
    assert projected2D[0] == rotatedXYZ[0] / skewFactor;
    assert projected2D[1] == rotatedXYZ[1] / skewFactor;
    offset := (projected2D[0] * size, projected2D[1] * size);
  }
}
