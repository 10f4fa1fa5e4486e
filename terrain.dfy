/** The generator's global state (seed, size, heightmap and the two mesh buffers)
    and the procedures that rebuild it: add_face, add_block, gen_map and the
    end-of-frame clamp of the configuration. */
module Terrain {
  import opened Grid
  import opened Mesh
  import HeightField
  import Config

  class Terrain {
    var seed: int
    var size: int
    var heightmap: seq<real>
    /** Flat x, y, z coordinates, twelve vertices per block. */
    var vertices: seq<real>
    /** Triangle list over `vertices`, six indices per face. */
    var indices: seq<int>

    /** The state before the first reseed and gen_map: seed 0, a 100 by 100 grid. */
    constructor ()
      ensures seed == 0 && size == 100
      ensures heightmap == [] && vertices == [] && indices == []
    {
      seed := 0;
      size := 100;
      heightmap := [];
      vertices := [];
      indices := [];
    }

    /** add_face: when `cond` holds, append the face pattern offset by the number of
        the first vertex of the block last appended. */
    method AddFace(face: seq<int>, cond: bool)
      requires |vertices| >= FloatsPerBlock
      modifies this`indices
      ensures indices == old(indices) + Emitted(face, cond, (|vertices| - FloatsPerBlock) / 3)
    {
      if cond {
        var base := (|vertices| - FloatsPerBlock) / 3;
        ShiftedAt(face, base);
        var i := 0;
        while i < |face|
          invariant 0 <= i <= |face|
          invariant indices == old(indices) + Shifted(face, base)[..i]
        {
          assert Shifted(face, base)[..i + 1] == Shifted(face, base)[..i] + [face[i] + base];
          indices := indices + [face[i] + base];
          i := i + 1;
        }
      }
    }

    /** The vertex loop of add_block: append the points of `verts`, each moved by
        (x, y, z). */
    method AppendTranslated(verts: seq<real>, x: real, y: real, z: real)
      requires |verts| % 3 == 0
      modifies this`vertices
      ensures vertices == old(vertices) + Translated(verts, x, y, z)
    {
      var i := 0;
      while i < |verts|
        invariant 0 <= i <= |verts| && i % 3 == 0
        invariant vertices == old(vertices) + Translated(verts, x, y, z)[..i]
      {
        TranslatedStep(old(vertices), verts, x, y, z, i);
        vertices := vertices + [verts[i] + x, verts[i + 1] + y, verts[i + 2] + z];
        i := i + 3;
      }
      assert Translated(verts, x, y, z)[..i] == Translated(verts, x, y, z);
    }

    /** add_block: append the twelve vertices of the column at (x, z) and the
        indices of its top face and its visible side faces. */
    method AddBlock(x: int, z: int)
      requires WellFormed(heightmap, size) && InGrid(size, x, z)
      modifies this`vertices, this`indices
      ensures vertices == old(vertices) + BlockVertices(old(heightmap), old(size), x, z)
      ensures indices == old(indices) + BlockIndices(old(heightmap), old(size), x, z, |old(vertices)| / 3)
    {
      var y := HeightAt(heightmap, size, x, z);
      var y0 := Delta(heightmap, size, x, z, PlusZ);
      var y1 := Delta(heightmap, size, x, z, MinusZ);
      var y2 := Delta(heightmap, size, x, z, PlusX);
      var y3 := Delta(heightmap, size, x, z, MinusX);
      AppendTranslated(Template(y0, y1, y2, y3), x as real, y, z as real);
      ghost var appended := vertices;
      assert appended == old(vertices) + BlockVertices(old(heightmap), old(size), x, z);

      var c0, c1, c2, c3 := y0 > A && z < size - 1, y1 > A && z > 0, y2 > A && x < size - 1, y3 > A && x > 0;
      ghost var before, base := indices, (|vertices| - FloatsPerBlock) / 3;
      assert before == old(indices) && base == |old(vertices)| / 3;
      ghost var e0, e1, e2 := Emitted(PlusZFace, c0, base), Emitted(MinusZFace, c1, base), Emitted(TopFace, true, base);
      ghost var e3, e4 := Emitted(PlusXFace, c2, base), Emitted(MinusXFace, c3, base);
      AddFace(PlusZFace, c0);
      assert indices == before + e0;
      AddFace(MinusZFace, c1);
      assert indices == before + e0 + e1;
      AddFace(TopFace, true);
      assert indices == before + e0 + e1 + e2;
      AddFace(PlusXFace, c2);
      assert indices == before + e0 + e1 + e2 + e3;
      AddFace(MinusXFace, c3);
      assert indices == before + e0 + e1 + e2 + e3 + e4;
      AppendBlockFaces(before, old(heightmap), old(size), x, z, base, c0, c1, c2, c3);
      assert vertices == appended;
    }

    /** The second half of gen_map: clear both buffers and add every block in
        row-major order. */
    method RebuildMesh()
      requires WellFormed(heightmap, size)
      modifies this`vertices, this`indices
      ensures vertices == MeshVertices(heightmap, size)
      ensures indices == MeshIndices(heightmap, size)
    {
      ghost var hm, n := heightmap, size;
      vertices := [];
      indices := [];
      var x := 0;
      while x < size
        invariant heightmap == hm && size == n
        invariant 0 <= x <= n
        invariant vertices == VerticesUpTo(hm, n, x, 0)
        invariant indices == IndicesUpTo(FacesOf(hm, n), n, x, 0)
      {
        var z := 0;
        while z < size
          invariant heightmap == hm && size == n
          invariant 0 <= z <= n
          invariant vertices == VerticesUpTo(hm, n, x, z)
          invariant indices == IndicesUpTo(FacesOf(hm, n), n, x, z)
        {
          WalkStep(hm, n, x, z);
          AddBlock(x, z);
          z := z + 1;
        }
        WalkRow(hm, n, x);
        x := x + 1;
      }
    }

    /** gen_map: refill the heightmap from the noise of the current seed, cell by
        cell in row-major order, then rebuild both buffers from it. A negative size
        (the settings field is clamped only at the end of the frame) runs neither
        loop: the heightmap is size*size zeros and both buffers end up empty. */
    method GenMap(noise: int -> ((real, real) -> real))
      modifies this`heightmap, this`vertices, this`indices
      ensures 0 <= size ==> heightmap == HeightField.Field(noise(seed), size)
      ensures 0 <= size ==> vertices == MeshVertices(heightmap, size)
      ensures 0 <= size ==> indices == MeshIndices(heightmap, size)
      ensures size < 0 ==> |heightmap| == size * size && (forall k :: 0 <= k < |heightmap| ==> heightmap[k] == 0.0)
      ensures size < 0 ==> vertices == [] && indices == []
    {
      heightmap := seq(size * size, _ => 0.0);
      if size < 0 {
        vertices := [];
        indices := [];
        return;
      }
      FillHeightmap(noise(seed));
      RebuildMesh();
    }

    /** The fill loop of gen_map over a zeroed heightmap of size*size cells. */
    method FillHeightmap(field: (real, real) -> real)
      requires 0 <= size && |heightmap| == size * size
      modifies this`heightmap
      ensures heightmap == HeightField.Field(field, size)
    {
      ghost var target := HeightField.Field(field, size);
      var x := 0;
      while x < size
        invariant 0 <= x <= size
        invariant |heightmap| == size * size
        invariant forall k :: 0 <= k < Idx(size, x, 0) && k < size * size ==> heightmap[k] == target[k]
      {
        var z := 0;
        while z < size
          invariant 0 <= z <= size
          invariant |heightmap| == size * size
          invariant forall k :: 0 <= k < Idx(size, x, z) && k < size * size ==> heightmap[k] == target[k]
        {
          IdxInBounds(size, x, z);
          HeightField.FieldAt(field, size, x, z);
          heightmap := heightmap[Idx(size, x, z) := HeightField.Height(field, size, x, z)];
          z := z + 1;
        }
        NextRow(size, x + 1);
        x := x + 1;
      }
      assert Idx(size, size, 0) == size * size;
      assert heightmap == target;
    }

    /** The end-of-frame clamp of the settings window's fields: the seed to the
        range of a short, the size to [2, 2500]. */
    method ClampConfig()
      modifies this`seed, this`size
      ensures seed == Config.Clamp(old(seed), Config.ShortMin, Config.ShortMax)
      ensures size == Config.Clamp(old(size), Config.MinSize, Config.MaxSize)
    {
      if seed < Config.ShortMin {
        seed := Config.ShortMin;
      }
      if seed > Config.ShortMax {
        seed := Config.ShortMax;
      }
      if size < Config.MinSize {
        size := Config.MinSize;
      }
      if size > Config.MaxSize {
        size := Config.MaxSize;
      }
    }
  }
}
