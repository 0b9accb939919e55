/**
 * SZ_Cylinder: a dynamic actor whose shape is a convex mesh cooked from the
 * cylinder vertex layout. Cooking and mesh creation are SDK calls whose
 * success is given as `cookOk` and `createOk`.
 */
module SzCylinder {
  import opened Basics
  import opened CylinderShape

  /** GenerateCylinderVertices: for each slice in turn, its bottom and then its top vertex. */
  method GenerateCylinderVertices(radius: real, halfHeight: real, slices: int,
                                  cos: real -> real, sin: real -> real) returns (verts: seq<Vec3>)
    ensures verts == CylinderVertices(radius, halfHeight, slices, cos, sin)
  {
    verts := [];
    var i := 0;
    while i < slices
      invariant 0 <= i && (slices > 0 ==> i <= slices)
      invariant verts == if slices > 0 then Corners(radius, halfHeight, slices, cos, sin, i) else []
    {
      var angle := (Pi * 2.0 * i as real) / slices as real;
      var x := radius * cos(angle);
      var z := radius * sin(angle);
      ghost var before := verts;
      verts := verts + [Vec3(x, -halfHeight, z)];  // bottom
      verts := verts + [Vec3(x, halfHeight, z)];   // top
      assert Vec3(x, -halfHeight, z) == Corner(radius, halfHeight, slices, cos, sin, i, false);
      assert verts == before + [Corner(radius, halfHeight, slices, cos, sin, i, false),
                                Corner(radius, halfHeight, slices, cos, sin, i, true)];
      CornersSnoc(radius, halfHeight, slices, cos, sin, i);
      i := i + 1;
    }
  }

  class SzCylinder {
    const pose: Vec3
    const radius: real
    const halfHeight: real
    var shape: Option<Shape>

    /**
     * SZ_Cylinder::CreateConvexCylinder: a mesh over exactly the generated
     * vertices, or null when cooking or creation fails.
     */
    static method CreateConvexCylinder(radius: real, halfHeight: real, cos: real -> real, sin: real -> real,
                                       cookOk: bool, createOk: bool, slices: int := 16)
      returns (mesh: Option<ConvexMesh>)
      ensures mesh.Some? <==> cookOk && createOk
      ensures mesh.Some? ==> mesh.value.desc == ConvexMeshDesc(CylinderVertices(radius, halfHeight, slices, cos, sin), true)
    {
      var verts := GenerateCylinderVertices(radius, halfHeight, slices, cos, sin);
      var desc := ConvexMeshDesc(verts, true);
      if !cookOk {
        return None;
      }
      mesh := if createOk then Some(ConvexMesh(desc)) else None;
    }

    /** The constructor creates a shape only when a mesh came back; the mesh uses the default 16 slices. */
    constructor (pose: Vec3, radius: real, halfHeight: real, density: real,
                 cos: real -> real, sin: real -> real, cookOk: bool, createOk: bool)
      ensures this.pose == pose && this.radius == radius && this.halfHeight == halfHeight
      ensures shape.Some? <==> cookOk && createOk
      ensures shape.Some? ==> shape.value == Shape(ConvexMeshGeometry(Some(ConvexMesh(ConvexMeshDesc(
        CylinderVertices(radius, halfHeight, 16, cos, sin), true)))), density)
    {
      this.pose := pose;
      this.radius := radius;
      this.halfHeight := halfHeight;
      var mesh := CreateConvexCylinder(radius, halfHeight, cos, sin, cookOk, createOk);
      if mesh.Some? {
        shape := Some(Shape(ConvexMeshGeometry(mesh), density));
      } else {
        shape := None;
      }
    }
  }

  /** CylinderGeometry: the geometry over a 20-slice cylinder mesh, null when the mesh could not be made. */
  method CylinderGeometry(rad: real, halfHeight: real, cos: real -> real, sin: real -> real,
                          cookOk: bool, createOk: bool) returns (geometry: ConvexMeshGeometry)
    ensures geometry.mesh.Some? <==> cookOk && createOk
    ensures geometry.mesh.Some? ==> |geometry.mesh.value.desc.points| == 40
    ensures geometry.mesh.Some? ==> geometry.mesh.value.desc.points == CylinderVertices(rad, halfHeight, 20, cos, sin)
  {
    var slices := 20;
    var mesh := SzCylinder.CreateConvexCylinder(rad, halfHeight, cos, sin, cookOk, createOk, slices);
    geometry := ConvexMeshGeometry(mesh);
    CylinderLayout(rad, halfHeight, slices, cos, sin);
  }
}
