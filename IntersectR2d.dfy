/**
 * Moments of the intersection of a source polygon with a target polygon
 * (portage/intersect/intersect_polys_r2d.h).
 *
 * Geometry is over `real`.  The routines of the r2d C library that the
 * driver calls -- building face planes from a vertex ring, clipping a
 * polygon by planes, reducing a polygon to its moments -- and the
 * axisymmetric moment shift are passed in as the fields of an `R2d` value:
 * the model fixes how the driver combines them, not what they compute.
 * r2d's orientation test is the signed area of a triangle and is defined
 * here.
 */
module IntersectR2d {
  import opened Sequences

  datatype Point = Point(x: real, y: real)

  function Add(p: Point, q: Point): Point { Point(p.x + q.x, p.y + q.y) }

  function Scale(k: real, p: Point): Point { Point(k * p.x, k * p.y) }

  /** A clip line of r2d (normal and offset); its content is never inspected here. */
  datatype Plane = Plane(n: Point, d: real)

  /** An r2d polygon, as the ring of vertices it was initialised from. */
  type Poly = seq<Point>

  datatype CoordSys = Cartesian | CylindricalAxisymmetric

  /** The tolerances argument: accepted and not used by this routine. */
  datatype NumericTolerances = NumericTolerances(minAbsoluteDistance: real, minAbsoluteVolume: real)

  /**
   * The foreign routines: r2d_poly_faces_from_verts, r2d_clip, r2d_reduce
   * and CylindricalAxisymmetricCoordinates::shift_moments_list.
   */
  datatype R2d = R2d(
    facesFromVerts: seq<Point> -> seq<Plane>,
    clip: (Poly, seq<Plane>) -> Poly,
    reduce: (Poly, nat) -> seq<real>,
    shiftMoments: seq<real> -> seq<real>)

  /** What the driver relies on: reduce fills a moment buffer of R2D_NUM_MOMENTS entries. */
  ghost predicate WellFormed(lib: R2d) {
    forall p: Poly, order: nat :: |lib.reduce(p, order)| == NumMoments(order)
  }

  /** R2D_NUM_MOMENTS: the number of monomials of degree at most `order` in two variables. */
  function NumMoments(order: nat): nat { (order + 1) * (order + 2) / 2 }

  /** Highest moment degree: 1 in Cartesian, 2 in cylindrical axisymmetric coordinates. */
  function PolyOrder(cs: CoordSys): nat { if cs == CylindricalAxisymmetric then 2 else 1 }

  function Zeros(n: nat): (z: seq<real>)
    ensures |z| == n && forall j :: 0 <= j < n ==> z[j] == 0.0
  {
    seq(n, _ => 0.0)
  }

  /** r2d_orient: the signed area of triangle (a, b, c), positive when counter-clockwise. */
  function Orient(a: Point, b: Point, c: Point): real {
    0.5 * ((a.x - c.x) * (b.y - c.y) - (b.x - c.x) * (a.y - c.y))
  }

  // ---------------------------------------------------------------------
  // Fan point selection
  // ---------------------------------------------------------------------

  /** The vertex after `t[i]` on the ring. */
  function Next(t: seq<Point>, i: nat): Point
    requires i < |t|
  {
    t[(i + 1) % |t|]
  }

  /** Signed area of the trial triangle (t[0], t[i], t[i+1]). */
  function FanArea(t: seq<Point>, i: nat): real
    requires i < |t|
  {
    Orient(t[0], t[i], Next(t, i))
  }

  /** Centroid of the trial triangle (t[0], t[i], t[i+1]). */
  function FanCentroid(t: seq<Point>, i: nat): Point
    requires i < |t|
  {
    Scale(1.0 / 3.0, Add(Add(t[0], t[i]), Next(t, i)))
  }

  /** Sum of the trial triangles' areas for i = 1 .. k-1 (`area_sum`). */
  function TrialArea(t: seq<Point>, k: nat): real
    requires 0 < k <= |t|
  {
    if k == 1 then 0.0 else TrialArea(t, k - 1) + FanArea(t, k - 1)
  }

  /** Area-weighted sum of the trial triangles' centroids for i = 1 .. k-1 (`cen` before division). */
  function TrialMoment(t: seq<Point>, k: nat): Point
    requires 0 < k <= |t|
  {
    if k == 1 then Point(0.0, 0.0)
    else Add(TrialMoment(t, k - 1), Scale(FanArea(t, k - 1), FanCentroid(t, k - 1)))
  }

  /** The first candidate fan point: area-weighted centroid; None when the areas sum to zero. */
  function TrialCentre(t: seq<Point>): Option<Point>
    requires |t| > 0
  {
    var a := TrialArea(t, |t|);
    if a == 0.0 then None else Some(Scale(1.0 / a, TrialMoment(t, |t|)))
  }

  /** `c` sees every edge of the ring with non-negative orientation. */
  predicate Visible(c: Point, t: seq<Point>) {
    forall i :: 0 <= i < |t| ==> Orient(c, t[i], Next(t, i)) >= 0.0
  }

  /**
   * The fallback candidate: centroid of the target clipped by its own face
   * lines; None when that feasible set has zero area.
   */
  function FeasibleCentre(t: seq<Point>, order: nat, lib: R2d): Option<Point>
    requires WellFormed(lib) && order >= 1
  {
    var fs := lib.clip(t, lib.facesFromVerts(t));
    var m := lib.reduce(fs, order);
    assert |m| >= 3;
    if m[0] == 0.0 then None else Some(Point(m[1] / m[0], m[2] / m[0]))
  }

  /**
   * The fan point the non-convex path triangulates around: the trial centre
   * when it is visible, otherwise the feasible-set centroid whether or not
   * that one is visible (the failure is never raised).
   */
  function FanCentre(t: seq<Point>, order: nat, lib: R2d): Option<Point>
    requires |t| > 0 && WellFormed(lib) && order >= 1
  {
    match TrialCentre(t)
    case None => None
    case Some(c) => if Visible(c, t) then Some(c) else FeasibleCentre(t, order, lib)
  }

  // ---------------------------------------------------------------------
  // The trial centre is the polygon's centroid
  // ---------------------------------------------------------------------

  function Cross(p: Point, q: Point): real { p.x * q.y - p.y * q.x }

  /** Edge i's shoelace term: the cross product of its end points. */
  function EdgeCross(t: seq<Point>, i: nat): real
    requires i < |t|
  {
    Cross(t[i], Next(t, i))
  }

  /** Shoelace sum over the edges 0 .. k-1. */
  function ShoelaceArea(t: seq<Point>, k: nat): real
    requires k <= |t|
  {
    if k == 0 then 0.0 else ShoelaceArea(t, k - 1) + EdgeCross(t, k - 1)
  }

  /** Twice the signed area of triangle (a, b, c) is the sum of its three edges' cross products. */
  lemma OrientByCrosses(a: Point, b: Point, c: Point)
    ensures 2.0 * Orient(a, b, c) == Cross(a, b) + Cross(b, c) + Cross(c, a)
  {}

  /** The vertex closing the first k-1 trial triangles: t[k], or t[0] once the ring is closed. */
  function Closing(t: seq<Point>, k: nat): Point
    requires 0 < k <= |t|
  {
    if k == |t| then t[0] else t[k]
  }

  lemma NextIsClosing(t: seq<Point>, i: nat)
    requires i < |t|
    ensures Next(t, i) == Closing(t, i + 1)
  {
    if i + 1 < |t| {
      assert (i + 1) % |t| == i + 1;
    } else {
      assert (i + 1) % |t| == 0;
    }
  }

  /** The fan's area after k triangles, against the shoelace sum of the first k edges. */
  lemma {:induction false} TrialAreaTelescope(t: seq<Point>, k: nat)
    requires 0 < k <= |t|
    ensures 2.0 * TrialArea(t, k) == ShoelaceArea(t, k) - Cross(t[0], Closing(t, k))
  {
    NextIsClosing(t, k - 1);
    if k > 1 {
      TrialAreaTelescope(t, k - 1);
      var a, b, c := t[0], t[k - 1], Closing(t, k);
      var prevArea, prevShoelace := TrialArea(t, k - 1), ShoelaceArea(t, k - 1);
      var o := Orient(a, b, c);
      assert 2.0 * prevArea == prevShoelace - Cross(a, b);
      assert TrialArea(t, k) == prevArea + o;
      assert ShoelaceArea(t, k) == prevShoelace + Cross(b, c);
      OrientByCrosses(a, b, c);
      CrossAntisymmetric(c, a);
    } else {
      assert EdgeCross(t, 0) == Cross(t[0], Closing(t, 1));
    }
  }

  lemma CrossAntisymmetric(p: Point, q: Point)
    ensures Cross(p, q) == -Cross(q, p)
  {}

  /**
   * Over the whole ring `area_sum` is the shoelace formula for the polygon's
   * signed area, whichever vertex the fan is rooted at.
   */
  lemma TrialAreaIsShoelace(t: seq<Point>)
    requires |t| > 0
    ensures TrialArea(t, |t|) == ShoelaceArea(t, |t|) / 2.0
  {
    TrialAreaTelescope(t, |t|);
    assert Cross(t[0], t[0]) == 0.0;
  }

  /**
   * For a counter-clockwise triangle the trial centre is the mean of its
   * vertices and it passes the visibility test: the fallback is not taken.
   */
  lemma TriangleTrialCentre(t: seq<Point>)
    requires |t| == 3 && Orient(t[0], t[1], t[2]) > 0.0
    ensures TrialCentre(t) == Some(Scale(1.0 / 3.0, Add(Add(t[0], t[1]), t[2])))
    ensures Visible(TrialCentre(t).value, t)
  {
    var a, b, c := t[0], t[1], t[2];
    var g := Scale(1.0 / 3.0, Add(Add(a, b), c));
    TriangleSums(t);
    CentreFromSums(TrialArea(t, 3), TrialMoment(t, 3), g);
    assert TrialCentre(t) == Some(g);
    MeanOrient(a, b, c);
    forall i | 0 <= i < 3 ensures Orient(g, t[i], Next(t, i)) >= 0.0 {
      assert Next(t, 0) == b && Next(t, 1) == c && Next(t, 2) == a;
    }
  }

  /** Dividing the moment by the non-zero area recovers the point it was taken about. */
  lemma CentreFromSums(area: real, moment: Point, g: Point)
    requires area != 0.0 && moment.x == area * g.x && moment.y == area * g.y
    ensures Scale(1.0 / area, moment) == g
  {
    CancelArea(area, g.x);
    CancelArea(area, g.y);
  }

  /** The running sums of a triangle: its whole signed area, on its mean vertex. */
  lemma TriangleSums(t: seq<Point>)
    requires |t| == 3
    ensures var o, g := Orient(t[0], t[1], t[2]), Scale(1.0 / 3.0, Add(Add(t[0], t[1]), t[2]));
            TrialArea(t, 3) == o && TrialMoment(t, 3).x == o * g.x && TrialMoment(t, 3).y == o * g.y
  {
    var a, b, c := t[0], t[1], t[2];
    var o := Orient(a, b, c);
    assert Next(t, 0) == b && Next(t, 1) == c && Next(t, 2) == a;
    var g := FanCentroid(t, 1);
    assert g == Scale(1.0 / 3.0, Add(Add(a, b), c));
    assert FanArea(t, 1) == o;
    assert FanArea(t, 2) == 0.0;
    assert TrialArea(t, 2) == o;
    var m2 := TrialMoment(t, 2);
    assert TrialMoment(t, 1) == Point(0.0, 0.0);
    assert m2 == Add(TrialMoment(t, 1), Scale(FanArea(t, 1), g));
    assert TrialMoment(t, 3) == Add(m2, Scale(0.0, FanCentroid(t, 2)));
  }

  /** The mean of a triangle's vertices splits it into three triangles of a third of its area each. */
  lemma MeanOrient(a: Point, b: Point, c: Point)
    ensures var g := Scale(1.0 / 3.0, Add(Add(a, b), c));
            Orient(g, a, b) == Orient(a, b, c) / 3.0 && Orient(g, b, c) == Orient(a, b, c) / 3.0
            && Orient(g, c, a) == Orient(a, b, c) / 3.0
  {}

  lemma CancelArea(o: real, v: real)
    requires o != 0.0
    ensures (1.0 / o) * (o * v) == v
  {}

  // ---------------------------------------------------------------------
  // Fan accumulation
  // ---------------------------------------------------------------------

  /** Moments of a fresh copy of the source clipped by triangle (c, t[i], t[i+1]). */
  function FanTerm(src: Poly, c: Point, t: seq<Point>, i: nat, order: nat, lib: R2d): seq<real>
    requires i < |t|
  {
    lib.reduce(lib.clip(src, lib.facesFromVerts([c, t[i], Next(t, i)])), order)
  }

  /** Entry `j` of the fan terms, summed over the edges i = 0 .. k-1. */
  function FanSum(src: Poly, c: Point, t: seq<Point>, k: nat, j: nat, order: nat, lib: R2d): real
    requires k <= |t| && WellFormed(lib) && j < NumMoments(order)
  {
    if k == 0 then 0.0 else FanSum(src, c, t, k - 1, j, order, lib) + FanTerm(src, c, t, k - 1, order, lib)[j]
  }

  /** Result of the routine: moments, or no real value where the double code divides by zero. */
  datatype IntersectResult = Moments(values: seq<real>) | Indeterminate

  /** The trial-centre loop: accumulates `area_sum` and the weighted centroid sum. */
  method TrialSums(targetPoly: seq<Point>) returns (areaSum: real, cen: Point)
    requires |targetPoly| > 0
    ensures areaSum == TrialArea(targetPoly, |targetPoly|)
    ensures cen == TrialMoment(targetPoly, |targetPoly|)
  {
    var size2 := |targetPoly|;
    cen := Point(0.0, 0.0);
    areaSum := 0.0;
    for i := 1 to size2
      invariant areaSum == TrialArea(targetPoly, i)
      invariant cen == TrialMoment(targetPoly, i)
    {
      var area := Orient(targetPoly[0], targetPoly[i], targetPoly[(i + 1) % size2]);
      areaSum := areaSum + area;
      var tricen := Scale(1.0 / 3.0, Add(Add(targetPoly[0], targetPoly[i]), targetPoly[(i + 1) % size2]));
      cen := Add(cen, Scale(area, tricen));
    }
  }

  /** An edge-orientation loop: clears `ok` when `cen` fails to see some edge, never sets it. */
  method CheckCentre(cen: Point, targetPoly: seq<Point>, ok: bool) returns (ok': bool)
    ensures ok' == (ok && Visible(cen, targetPoly))
  {
    ok' := ok;
    var size2 := |targetPoly|;
    for i := 0 to size2
      invariant ok' == (ok && forall k :: 0 <= k < i ==> Orient(cen, targetPoly[k], Next(targetPoly, k)) >= 0.0)
    {
      if Orient(cen, targetPoly[i], targetPoly[(i + 1) % size2]) < 0.0 {
        ok' := false;
      }
    }
  }

  /**
   * The fan loop: for every edge, clip a fresh copy of the source by the
   * triangle (cen, t[i], t[i+1]) and add moments 0..2 of the piece.
   */
  method AccumulateFan(srcpoly: Poly, cen: Point, targetPoly: seq<Point>, polyOrder: nat, lib: R2d)
    returns (moments: seq<real>)
    requires WellFormed(lib) && polyOrder >= 1 && |targetPoly| >= 3
    ensures |moments| == NumMoments(polyOrder)
    ensures forall j :: 0 <= j < 3 ==> moments[j] == FanSum(srcpoly, cen, targetPoly, |targetPoly|, j, polyOrder, lib)
    ensures forall j :: 3 <= j < |moments| ==> moments[j] == 0.0
  {
    var size2 := |targetPoly|;
    var nmoments := NumMoments(polyOrder);
    moments := Zeros(nmoments);
    var verts2 := targetPoly[0 := cen];
    for i := 0 to size2
      invariant |verts2| == size2 && verts2[0] == cen
      invariant |moments| == nmoments
      invariant forall j :: 0 <= j < 3 ==> moments[j] == FanSum(srcpoly, cen, targetPoly, i, j, polyOrder, lib)
      invariant forall j :: 3 <= j < nmoments ==> moments[j] == 0.0
    {
      verts2 := verts2[1 := targetPoly[i]][2 := targetPoly[(i + 1) % size2]];
      var faces := lib.facesFromVerts(verts2[..3]);
      var srcpolyCopy := srcpoly;
      srcpolyCopy := lib.clip(srcpolyCopy, faces);
      var om := lib.reduce(srcpolyCopy, polyOrder);
      assert verts2[..3] == [cen, targetPoly[i], Next(targetPoly, i)];
      assert om == FanTerm(srcpoly, cen, targetPoly, i, polyOrder, lib);
      moments := moments[0 := moments[0] + om[0]][1 := moments[1] + om[1]][2 := moments[2] + om[2]];
    }
  }

  /**
   * intersect_polys_r2d.  `centreOk` is the routine's `center_point_ok`
   * flag at the point where the (never thrown) error would be raised.
   */
  method IntersectPolys(sourcePoly: seq<Point>, targetPoly: seq<Point>, numTols: NumericTolerances,
                        trgConvex: bool, coordSys: CoordSys, lib: R2d)
    returns (r: IntersectResult, ghost centreOk: bool)
    requires WellFormed(lib)
    requires trgConvex || |sourcePoly| == 0 || |targetPoly| == 0 || |targetPoly| >= 3
    // Unless the foreign shift rewrites them, 3 moments in Cartesian and 6 in axisymmetric coordinates.
    ensures r.Moments? && !(|sourcePoly| > 0 && |targetPoly| > 0 && trgConvex && coordSys == CylindricalAxisymmetric) ==>
              |r.values| == if coordSys == CylindricalAxisymmetric then 6 else 3
    // Degenerate input: all-zero moments, nothing clipped.
    ensures |sourcePoly| == 0 || |targetPoly| == 0 ==>
              r == Moments(Zeros(NumMoments(PolyOrder(coordSys))))
    // Convex target: clip once by the target's faces, shift only in axisymmetric coordinates.
    ensures |sourcePoly| > 0 && |targetPoly| > 0 && trgConvex ==>
              var om := lib.reduce(lib.clip(sourcePoly, lib.facesFromVerts(targetPoly)), PolyOrder(coordSys));
              r == Moments(if coordSys == CylindricalAxisymmetric then lib.shiftMoments(om) else om)
    // Non-convex target: a fan around the selected centre, entries 0..2 summed, no shift.
    ensures |sourcePoly| > 0 && |targetPoly| > 0 && !trgConvex ==>
              var order := PolyOrder(coordSys);
              && (r.Indeterminate? <==> FanCentre(targetPoly, order, lib).None?)
              && (r.Moments? ==>
                    var c := FanCentre(targetPoly, order, lib).value;
                    && (forall j :: 0 <= j < 3 ==>
                          r.values[j] == FanSum(sourcePoly, c, targetPoly, |targetPoly|, j, order, lib))
                    && (forall j :: 3 <= j < |r.values| ==> r.values[j] == 0.0))
    // The flag is cleared by a failed trial centre and never set again.
    ensures |sourcePoly| > 0 && |targetPoly| > 0 && !trgConvex && TrialCentre(targetPoly).Some? ==>
              (centreOk <==> Visible(TrialCentre(targetPoly).value, targetPoly))
  {
    var polyOrder := 1;
    if coordSys == CylindricalAxisymmetric {
      polyOrder := 2;
    }
    var nmoments := NumMoments(polyOrder);
    var moments := Zeros(nmoments);
    var centerPointOk := true;
    centreOk := centerPointOk;

    var size1 := |sourcePoly|;
    var size2 := |targetPoly|;
    if size1 == 0 || size2 == 0 {
      return Moments(moments), centreOk;
    }

    var srcpoly: Poly := sourcePoly;
    var verts2 := targetPoly;

    if trgConvex {
      var faces := lib.facesFromVerts(verts2);
      srcpoly := lib.clip(srcpoly, faces);
      var om := lib.reduce(srcpoly, polyOrder);
      assert |om| == nmoments;
      for j := 0 to nmoments
        invariant |moments| == nmoments
        invariant moments[..j] == om[..j]
      {
        moments := moments[j := om[j]];
      }
      assert moments == om[..nmoments] == om;
      if coordSys == CylindricalAxisymmetric {
        moments := lib.shiftMoments(moments);
      }
      return Moments(moments), centreOk;
    }

    // Trial centre: area-weighted centroid of the fan rooted at vertex 0.
    var areaSum, cen := TrialSums(targetPoly);
    if areaSum == 0.0 {
      return Indeterminate, centreOk;
    }
    cen := Scale(1.0 / areaSum, cen);
    centerPointOk := CheckCentre(cen, targetPoly, centerPointOk);

    if !centerPointOk {
      // Feasible set: the target clipped by its own face lines.
      var fspoly: Poly := verts2;
      var faces := lib.facesFromVerts(verts2);
      fspoly := lib.clip(fspoly, faces);
      // An empty feasible set constructs a runtime_error here and drops it.
      var fsMoments := lib.reduce(fspoly, polyOrder);
      if fsMoments[0] == 0.0 {
        centreOk := centerPointOk;
        return Indeterminate, centreOk;
      }
      cen := Point(fsMoments[1] / fsMoments[0], fsMoments[2] / fsMoments[0]);
      centerPointOk := CheckCentre(cen, targetPoly, centerPointOk);
    }
    // A failed centre constructs a runtime_error here and drops it.
    centreOk := centerPointOk;
    assert FanCentre(targetPoly, polyOrder, lib) == Some(cen);

    moments := AccumulateFan(srcpoly, cen, targetPoly, polyOrder, lib);
    return Moments(moments), centreOk;
  }
}
