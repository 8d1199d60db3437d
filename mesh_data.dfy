/**
 * The mesh buffers of a chunk: FMeshData (five parallel arrays and Clear)
 * and the per-section buffer FThreadMeshData that the polygonizer appends to.
 */
module MeshBuffers {
  import opened Geometry

  /** FColor. Colours are cosmetic; only where they travel matters. */
  datatype Color = Color(r: int, g: int, b: int, a: int)

  /** FVector2D, the element type of the UV0 channel. */
  datatype Vec2 = Vec2(u: real, v: real)

  /** The contents of an FMeshData, as a value. */
  datatype Mesh = Mesh(
    vertices: seq<Vec>,
    triangles: seq<int>,
    normals: seq<Vec>,
    colors: seq<Color>,
    uv0: seq<Vec2>)

  const EmptyMesh: Mesh := Mesh([], [], [], [], [])

  /**
   * A mesh the renderer can take: triangles come in threes, every index names
   * a vertex, and normals and colours run parallel to the vertices.
   */
  ghost predicate WellIndexed(m: Mesh) {
    && |m.normals| == |m.vertices|
    && |m.colors| == |m.vertices|
    && |m.triangles| % 3 == 0
    && forall i :: 0 <= i < |m.triangles| ==> 0 <= m.triangles[i] < |m.vertices|
  }

  /** FMeshData: exactly five array fields. */
  class MeshData {
    var Vertices: seq<Vec>
    var Triangles: seq<int>
    var Normals: seq<Vec>
    var Colors: seq<Color>
    var UV0: seq<Vec2>

    function Value(): Mesh
      reads this
    {
      Mesh(Vertices, Triangles, Normals, Colors, UV0)
    }

    /** Default construction: every TArray starts empty. */
    constructor ()
      ensures Value() == EmptyMesh
    {
      Vertices, Triangles, Normals, Colors, UV0 := [], [], [], [], [];
    }

    /**
     * Empties all five arrays. The new state does not depend on the old one, so
     * a second Clear changes nothing.
     */
    method Clear()
      modifies this
      ensures Value() == EmptyMesh
      ensures old(Value()) == EmptyMesh ==> Value() == old(Value())
    {
      Vertices := [];
      Triangles := [];
      Normals := [];
      Colors := [];
      UV0 := [];
    }
  }

  /**
   * The contents of an FThreadMeshData, the buffer one polygonizer section
   * appends to: the four arrays the section fills and its running vertex count.
   */
  datatype ThreadMesh = ThreadMesh(
    vertices: seq<Vec>,
    triangles: seq<int>,
    normals: seq<Vec>,
    colors: seq<Color>,
    vertexCount: int)

  const EmptyThreadMesh: ThreadMesh := ThreadMesh([], [], [], [], 0)

  /**
   * The invariant the section buffer keeps: VertexCount counts the vertices,
   * the arrays run parallel, and every index is a vertex already emitted.
   */
  ghost predicate Consistent(t: ThreadMesh) {
    && t.vertexCount == |t.vertices|
    && |t.normals| == |t.vertices|
    && |t.colors| == |t.vertices|
    && |t.triangles| % 3 == 0
    && forall i :: 0 <= i < |t.triangles| ==> 0 <= t.triangles[i] < t.vertexCount
  }

  /**
   * FThreadMeshData. The struct is declared in MarchingCubeGen.h, which is not
   * part of this model; its fields are the ones the polygonizer and the merge use.
   */
  class ThreadMeshData {
    var Vertices: seq<Vec>
    var Triangles: seq<int>
    var Normals: seq<Vec>
    var Colors: seq<Color>
    var VertexCount: int

    function Value(): ThreadMesh
      reads this
    {
      ThreadMesh(Vertices, Triangles, Normals, Colors, VertexCount)
    }

    constructor ()
      ensures Value() == EmptyThreadMesh
    {
      Vertices, Triangles, Normals, Colors, VertexCount := [], [], [], [], 0;
    }

    /** Empties the arrays and sets the vertex count back to zero. */
    method Reset()
      modifies this
      ensures Value() == EmptyThreadMesh
    {
      Vertices := [];
      Triangles := [];
      Normals := [];
      Colors := [];
      VertexCount := 0;
    }
  }
}
