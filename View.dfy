/**
 * Section 9 of las2potree.py (lines 167-184): the initial view. The center is
 * the middle of the shapefile's bounds and of the elevation range; the camera
 * is pulled back 1.2 diagonals along -y and raised half a diagonal; it looks
 * at the center. The diagonal (line 174, a square root) is taken as an
 * argument together with the fact that it is the non-negative root.
 */
module View {
  import opened Boundary

  datatype Point3 = Point3(x: real, y: real, z: real)

  datatype ViewParameters = ViewParameters(center: Point3, camera: Point3, lookAt: Point3)

  const PullBack: real := 1.2
  const Raise: real := 0.5

  /** d is the length of the horizontal diagonal of b. */
  predicate IsDiagonal(b: Bounds, d: real) {
    var sx, sy := b.maxx - b.minx, b.maxy - b.miny;
    d >= 0.0 && d * d == sx * sx + sy * sy
  }

  function ComputeView(b: Bounds, minZ: real, maxZ: real, d: real): (v: ViewParameters)
    requires IsDiagonal(b, d)
    ensures v.center.x - b.minx == b.maxx - v.center.x
    ensures v.center.y - b.miny == b.maxy - v.center.y
    ensures v.center.z - minZ == maxZ - v.center.z
    ensures v.lookAt == v.center
    ensures v.camera.x == v.center.x
    ensures v.center.y - v.camera.y == 1.2 * d && v.camera.z - v.center.z == 0.5 * d
    ensures v.camera.y <= v.center.y && v.camera.z >= v.center.z
  {
    var center := Point3((b.minx + b.maxx) / 2.0, (b.miny + b.maxy) / 2.0, (minZ + maxZ) / 2.0);
    var camera := Point3(center.x, center.y - d * PullBack, center.z + d * Raise);
    ViewParameters(center, camera, Point3(center.x, center.y, center.z))
  }

  // Arithmetic building blocks. Each step compares two different terms, never
  // a lone square with a constant, which keeps the solver on familiar ground.

  lemma ProductPositive(a: real, b: real)
    requires a > 0.0 && b > 0.0
    ensures a * b > 0.0
  {
  }

  lemma ProductNonNegative(a: real, b: real)
    requires a >= 0.0 && b >= 0.0
    ensures a * b >= 0.0
  {
  }

  lemma SquareStrictMono(a: real, b: real)
    requires 0.0 <= a < b
    ensures a * a < b * b
  {
    ProductPositive(b - a, b + a);
    assert (b - a) * (b + a) == b * b - a * a;
  }

  function Abs(a: real): real {
    if a < 0.0 then -a else a
  }

  lemma AbsSquare(a: real)
    ensures Abs(a) * Abs(a) == a * a
  {
    if a < 0.0 {
      assert (-a) * (-a) == a * a;
    }
  }

  /** A non-negative root that dominates a * a plus something non-negative is at least |a|. */
  lemma RootDominates(d: real, a: real, c: real)
    requires d >= 0.0 && d * d == a * a + c && c >= 0.0
    ensures Abs(a) <= d
  {
    AbsSquare(a);
    if d < Abs(a) {
      SquareStrictMono(d, Abs(a));
    }
  }

  /** The non-negative root is unique, so the view does not depend on how d was obtained. */
  lemma DiagonalUnique(b: Bounds, d1: real, d2: real)
    requires IsDiagonal(b, d1) && IsDiagonal(b, d2)
    ensures d1 == d2
  {
    if d1 < d2 {
      SquareStrictMono(d1, d2);
    }
    if d2 < d1 {
      SquareStrictMono(d2, d1);
    }
  }

  /** Neither horizontal extent exceeds the diagonal. */
  lemma SpanWithinDiagonal(b: Bounds, d: real)
    requires IsDiagonal(b, d)
    ensures Abs(b.maxx - b.minx) <= d && Abs(b.maxy - b.miny) <= d
  {
    var sx, sy := b.maxx - b.minx, b.maxy - b.miny;
    AbsSquare(sx);
    AbsSquare(sy);
    ProductNonNegative(Abs(sx), Abs(sx));
    ProductNonNegative(Abs(sy), Abs(sy));
    RootDominates(d, sx, sy * sy);
    assert d * d == sy * sy + sx * sx;
    RootDominates(d, sy, sx * sx);
  }

  /** The camera coincides with the look-at point exactly when the bounds have no horizontal extent. */
  lemma DegenerateView(b: Bounds, minZ: real, maxZ: real, d: real)
    requires IsDiagonal(b, d)
    ensures var v := ComputeView(b, minZ, maxZ, d);
      v.camera == v.lookAt <==> b.minx == b.maxx && b.miny == b.maxy
  {
    SpanWithinDiagonal(b, d);
    if b.minx == b.maxx && b.miny == b.maxy {
      DiagonalUnique(b, d, 0.0);
    }
  }

  /** The camera sits 1.3 diagonals from the point it looks at (1.2 back, 0.5 up). */
  lemma CameraDistance(b: Bounds, minZ: real, maxZ: real, d: real)
    requires IsDiagonal(b, d)
    ensures var v := ComputeView(b, minZ, maxZ, d);
      var dx, dy, dz := v.camera.x - v.lookAt.x, v.camera.y - v.lookAt.y, v.camera.z - v.lookAt.z;
      dx * dx + dy * dy + dz * dz == (1.3 * d) * (1.3 * d)
  {
    var v := ComputeView(b, minZ, maxZ, d);
    assert v.camera.y - v.lookAt.y == -1.2 * d;
    assert v.camera.z - v.lookAt.z == 0.5 * d;
    assert (-1.2 * d) * (-1.2 * d) == 1.44 * (d * d);
    assert (0.5 * d) * (0.5 * d) == 0.25 * (d * d);
    assert (1.3 * d) * (1.3 * d) == 1.69 * (d * d);
  }

  function Shift(b: Bounds, tx: real, ty: real): Bounds {
    Bounds(b.minx + tx, b.miny + ty, b.maxx + tx, b.maxy + ty)
  }

  function Translate(p: Point3, tx: real, ty: real, tz: real): Point3 {
    Point3(p.x + tx, p.y + ty, p.z + tz)
  }

  /** Moving the bounds and the elevation range moves every view point by the same offset. */
  lemma ViewTranslates(b: Bounds, minZ: real, maxZ: real, d: real, tx: real, ty: real, tz: real)
    requires IsDiagonal(b, d)
    ensures IsDiagonal(Shift(b, tx, ty), d)
    ensures var v, w := ComputeView(b, minZ, maxZ, d), ComputeView(Shift(b, tx, ty), minZ + tz, maxZ + tz, d);
      && w.center == Translate(v.center, tx, ty, tz)
      && w.camera == Translate(v.camera, tx, ty, tz)
      && w.lookAt == Translate(v.lookAt, tx, ty, tz)
  {
    var s := Shift(b, tx, ty);
    assert s.maxx - s.minx == b.maxx - b.minx;
    assert s.maxy - s.miny == b.maxy - b.miny;
  }

  /** Bounds (0, 0, 10, 10) and elevations (0, 10): center (5, 5, 5), camera near (5, -11.97, 12.07). */
  lemma SquareExample(d: real)
    requires IsDiagonal(Bounds(0.0, 0.0, 10.0, 10.0), d)
    ensures var v := ComputeView(Bounds(0.0, 0.0, 10.0, 10.0), 0.0, 10.0, d);
      && v.center == Point3(5.0, 5.0, 5.0) && v.lookAt == v.center
      && v.camera.x == 5.0
      && -11.9716 < v.camera.y < -11.9704
      && 12.071 < v.camera.z < 12.0715
  {
    if d < 14.142 {
      SquareStrictMono(d, 14.142);
    }
    if d > 14.143 {
      SquareStrictMono(14.143, d);
    }
  }

  /** Bounds (0, 0, 0, 0) and elevations (0, 0): every point of the view is the origin. */
  lemma PointExample(d: real)
    requires IsDiagonal(Bounds(0.0, 0.0, 0.0, 0.0), d)
    ensures var v := ComputeView(Bounds(0.0, 0.0, 0.0, 0.0), 0.0, 0.0, d);
      v.center == v.camera == v.lookAt == Point3(0.0, 0.0, 0.0)
  {
    DegenerateView(Bounds(0.0, 0.0, 0.0, 0.0), 0.0, 0.0, d);
  }
}
