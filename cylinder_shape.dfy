/**
 * The vertex layout shared by both cylinder actors: `slices` points around a
 * circle of the given radius, each emitted twice, first at the bottom
 * (y = -halfHeight) and then at the top (y = +halfHeight), in ascending slice
 * order. `cos` and `sin` are left uninterpreted, and float rounding is not
 * modelled.
 */
module CylinderShape {
  import opened Basics

  /** PxPi. */
  const Pi: real := 3.141592653589793

  /** The angle of slice `i` of `slices`: `(PxPi * 2.0f * i) / slices`. */
  function SliceAngle(i: int, slices: int): real
    requires slices > 0
  {
    (Pi * 2.0 * i as real) / slices as real
  }

  /** The bottom (`top` false) or top vertex of slice `i`. */
  function Corner(radius: real, halfHeight: real, slices: int, cos: real -> real, sin: real -> real,
                  i: int, top: bool): (v: Vec3)
    requires slices > 0
    ensures v.y == if top then halfHeight else -halfHeight
    ensures v.x == radius * cos(SliceAngle(i, slices)) && v.z == radius * sin(SliceAngle(i, slices))
  {
    var angle := SliceAngle(i, slices);
    Vec3(radius * cos(angle), if top then halfHeight else -halfHeight, radius * sin(angle))
  }

  /** The first `n` slices of the layout: vertex `k` is the corner of slice `k / 2`, the top one when `k` is odd. */
  function Corners(radius: real, halfHeight: real, slices: int, cos: real -> real, sin: real -> real,
                   n: nat): (vs: seq<Vec3>)
    requires slices > 0
    ensures |vs| == 2 * n
    ensures forall k :: 0 <= k < |vs| ==> vs[k] == Corner(radius, halfHeight, slices, cos, sin, k / 2, k % 2 == 1)
  {
    seq(2 * n, k requires 0 <= k => Corner(radius, halfHeight, slices, cos, sin, k / 2, k % 2 == 1))
  }

  /** The whole layout: no vertex at all when `slices` is not positive. */
  function CylinderVertices(radius: real, halfHeight: real, slices: int, cos: real -> real, sin: real -> real): (vs: seq<Vec3>)
    ensures |vs| == 2 * MaxInt(slices, 0)
    ensures forall k :: 0 <= k < |vs| ==> vs[k].y == if k % 2 == 1 then halfHeight else -halfHeight
  {
    if slices <= 0 then [] else Corners(radius, halfHeight, slices, cos, sin, slices)
  }

  /** One more slice appends its bottom and then its top vertex. */
  lemma CornersSnoc(radius: real, halfHeight: real, slices: int, cos: real -> real, sin: real -> real, n: nat)
    requires slices > 0
    ensures Corners(radius, halfHeight, slices, cos, sin, n + 1)
      == Corners(radius, halfHeight, slices, cos, sin, n)
         + [Corner(radius, halfHeight, slices, cos, sin, n, false), Corner(radius, halfHeight, slices, cos, sin, n, true)]
  {
    var a := Corners(radius, halfHeight, slices, cos, sin, n + 1);
    var b := Corners(radius, halfHeight, slices, cos, sin, n)
         + [Corner(radius, halfHeight, slices, cos, sin, n, false), Corner(radius, halfHeight, slices, cos, sin, n, true)];
    assert |a| == |b|;
    forall k | 0 <= k < |a|
      ensures a[k] == b[k]
    {
      if k == 2 * n {
        assert k / 2 == n && k % 2 == 0;
      } else if k == 2 * n + 1 {
        assert k / 2 == n && k % 2 == 1;
      }
    }
  }

  /**
   * The layout has 2 * max(slices, 0) vertices; vertex 2i is at the bottom
   * and 2i + 1 at the top; both share the x and z of slice i; and the
   * slices follow each other in ascending order.
   */
  lemma CylinderLayout(radius: real, halfHeight: real, slices: int, cos: real -> real, sin: real -> real)
    ensures var vs := CylinderVertices(radius, halfHeight, slices, cos, sin);
      && |vs| == 2 * MaxInt(slices, 0)
      && (forall i :: 0 <= i < |vs| / 2 ==>
            && vs[2 * i].y == -halfHeight && vs[2 * i + 1].y == halfHeight
            && vs[2 * i].x == vs[2 * i + 1].x == radius * cos(SliceAngle(i, slices))
            && vs[2 * i].z == vs[2 * i + 1].z == radius * sin(SliceAngle(i, slices)))
  {
    var vs := CylinderVertices(radius, halfHeight, slices, cos, sin);
    forall i | 0 <= i < |vs| / 2
      ensures vs[2 * i].y == -halfHeight && vs[2 * i + 1].y == halfHeight
      ensures vs[2 * i].x == vs[2 * i + 1].x == radius * cos(SliceAngle(i, slices))
      ensures vs[2 * i].z == vs[2 * i + 1].z == radius * sin(SliceAngle(i, slices))
    {
      assert (2 * i) / 2 == i && (2 * i) % 2 == 0;
      assert (2 * i + 1) / 2 == i && (2 * i + 1) % 2 == 1;
    }
  }

  /** A convex mesh description: its points, with eCOMPUTE_CONVEX set. `count` is the length of `points`. */
  datatype ConvexMeshDesc = ConvexMeshDesc(points: seq<Vec3>, computeConvex: bool)

  /** A convex mesh as the SDK creates it from a cooked description. */
  datatype ConvexMesh = ConvexMesh(desc: ConvexMeshDesc)

  /** PxConvexMeshGeometry: a geometry over a mesh reference, which may be null. */
  datatype ConvexMeshGeometry = ConvexMeshGeometry(mesh: Option<ConvexMesh>)

  /** A shape created on an actor: its geometry and the density it was created with. */
  datatype Shape = Shape(geometry: ConvexMeshGeometry, density: real)
}
