/** The mesh a heightmap turns into: per-block vertices, face culling and the
    indices of the visible faces, as pure functions of the heightmap. */
module Mesh {
  import opened Grid

  /** Half-extent of a column block (the float literal 0.4f, taken as a real). */
  const A: real := 0.4

  /** The delta add_block stores for a side that has no neighbour. */
  const NoNeighbour: real := -1.0

  /** Number of vertices emitted per block, and of floats (3 per vertex). */
  const VerticesPerBlock: int := 12
  const FloatsPerBlock: int := 36

  /** Number of indices emitted per visible face: two triangles. */
  const IndicesPerFace: int := 6

  /** The four side directions; the top (+y) face has no neighbour test. */
  datatype Side = PlusZ | MinusZ | PlusX | MinusX

  /** A heightmap that has exactly one height per grid cell. */
  predicate WellFormed(hm: seq<real>, size: int)
  {
    0 <= size && |hm| == size * size
  }

  /** The side faces the grid's border: add_block stores the sentinel delta here. */
  predicate AtEdge(size: int, x: int, z: int, side: Side)
  {
    match side
    case PlusZ => z == size - 1
    case MinusZ => z == 0
    case PlusX => x == size - 1
    case MinusX => x == 0
  }

  /** The explicit coordinate guard conjoined to each side face's condition. */
  predicate Guard(size: int, x: int, z: int, side: Side)
  {
    match side
    case PlusZ => z < size - 1
    case MinusZ => z > 0
    case PlusX => x < size - 1
    case MinusX => x > 0
  }

  /** The neighbouring cell in direction `side`. */
  function Neighbour(x: int, z: int, side: Side): (int, int)
  {
    match side
    case PlusZ => (x, z + 1)
    case MinusZ => (x, z - 1)
    case PlusX => (x + 1, z)
    case MinusX => (x - 1, z)
  }

  /** The flat index add_block reads for the neighbour, written as the source writes it. */
  function ReadIdx(size: int, x: int, z: int, side: Side): int
  {
    match side
    case PlusZ => x * size + z + 1
    case MinusZ => x * size + z - 1
    case PlusX => (x + 1) * size + z
    case MinusX => (x - 1) * size + z
  }

  /** A neighbour read that the edge test lets through names the neighbouring
      cell and stays inside the heightmap. */
  lemma ReadInBounds(size: int, x: int, z: int, side: Side)
    requires InGrid(size, x, z) && !AtEdge(size, x, z, side)
    ensures InGrid(size, Neighbour(x, z, side).0, Neighbour(x, z, side).1)
    ensures ReadIdx(size, x, z, side) == Idx(size, Neighbour(x, z, side).0, Neighbour(x, z, side).1)
    ensures 0 <= ReadIdx(size, x, z, side) < size * size
  {
    var (nx, nz) := Neighbour(x, z, side);
    IdxInBounds(size, nx, nz);
  }

  /** Inside the grid, the coordinate guard holds exactly when the side is not on the border. */
  lemma GuardIsInterior(size: int, x: int, z: int, side: Side)
    requires InGrid(size, x, z)
    ensures Guard(size, x, z, side) <==> !AtEdge(size, x, z, side)
  {
  }

  /** The height of cell (x, z). */
  function HeightAt(hm: seq<real>, size: int, x: int, z: int): real
    requires WellFormed(hm, size) && InGrid(size, x, z)
  {
    IdxInBounds(size, x, z);
    hm[Idx(size, x, z)]
  }

  /** The height add_block reads for the neighbour toward `side`: that of the neighbouring cell. */
  function NeighbourHeight(hm: seq<real>, size: int, x: int, z: int, side: Side): (r: real)
    requires WellFormed(hm, size) && InGrid(size, x, z) && !AtEdge(size, x, z, side)
    ensures InGrid(size, Neighbour(x, z, side).0, Neighbour(x, z, side).1)
    ensures r == HeightAt(hm, size, Neighbour(x, z, side).0, Neighbour(x, z, side).1)
  {
    ReadInBounds(size, x, z, side);
    hm[ReadIdx(size, x, z, side)]
  }

  /** The delta add_block computes toward `side` (y0, y1, y2, y3 in the source). */
  function Delta(hm: seq<real>, size: int, x: int, z: int, side: Side): real
    requires WellFormed(hm, size) && InGrid(size, x, z)
  {
    if AtEdge(size, x, z, side) then NoNeighbour
    else A - HeightAt(hm, size, x, z) + NeighbourHeight(hm, size, x, z, side)
  }

  /** Whether add_block emits the side face toward `side`: never on the border, and
      inside the grid exactly when the neighbouring column is strictly higher. */
  function Visible(hm: seq<real>, size: int, x: int, z: int, side: Side): (r: bool)
    requires WellFormed(hm, size) && InGrid(size, x, z)
    ensures AtEdge(size, x, z, side) ==> !r
    ensures !AtEdge(size, x, z, side) ==>
      (r <==> NeighbourHeight(hm, size, x, z, side) > HeightAt(hm, size, x, z))
  {
    Delta(hm, size, x, z, side) > A && Guard(size, x, z, side)
  }

  function Count(b: bool): nat
  {
    if b then 1 else 0
  }

  /** Which of a block's four side faces add_block emits. */
  datatype Faces = Faces(plusZ: bool, minusZ: bool, plusX: bool, minusX: bool)

  /** How many side faces are emitted. */
  function SideCount(f: Faces): (n: nat)
    ensures n <= 4
  {
    Count(f.plusZ) + Count(f.minusZ) + Count(f.plusX) + Count(f.minusX)
  }

  /** The side faces add_block emits for cell (x, z). */
  function BlockFaces(hm: seq<real>, size: int, x: int, z: int): Faces
    requires WellFormed(hm, size) && InGrid(size, x, z)
  {
    Faces(Visible(hm, size, x, z, PlusZ), Visible(hm, size, x, z, MinusZ),
          Visible(hm, size, x, z, PlusX), Visible(hm, size, x, z, MinusX))
  }

  /** The face index patterns add_block passes to add_face, relative to the block's first vertex. */
  const PlusZFace: seq<int> := [0, 1, 2, 2, 3, 0]
  const MinusZFace: seq<int> := [4, 5, 6, 6, 7, 4]
  const TopFace: seq<int> := [3, 2, 6, 6, 5, 3]
  const PlusXFace: seq<int> := [9, 11, 6, 6, 2, 9]
  const MinusXFace: seq<int> := [8, 3, 5, 5, 10, 8]

  /** A face pattern offset by `base`. */
  function Shifted(face: seq<int>, base: int): seq<int>
  {
    if face == [] then [] else [face[0] + base] + Shifted(face[1..], base)
  }

  /** Offsetting a pattern offsets each of its indices and keeps its length. */
  lemma {:induction false} ShiftedAt(face: seq<int>, base: int)
    ensures |Shifted(face, base)| == |face|
    ensures forall i :: 0 <= i < |face| ==> Shifted(face, base)[i] == face[i] + base
  {
    if face != [] {
      ShiftedAt(face[1..], base);
    }
  }

  /** Every index of `s` lies in [lo, hi). */
  predicate InRange(s: seq<int>, lo: int, hi: int)
  {
    forall i :: 0 <= i < |s| ==> lo <= s[i] < hi
  }

  lemma InRangeConcat(s: seq<int>, t: seq<int>, lo: int, hi: int)
    requires InRange(s, lo, hi) && InRange(t, lo, hi)
    ensures InRange(s + t, lo, hi)
  {
    forall i | 0 <= i < |s + t|
      ensures lo <= (s + t)[i] < hi
    {
      if i >= |s| {
        assert (s + t)[i] == t[i - |s|];
      }
    }
  }

  /** What add_face appends: the pattern offset by the block's first vertex, or nothing. */
  function Emitted(face: seq<int>, cond: bool, base: int): seq<int>
  {
    if cond then Shifted(face, base) else []
  }

  /** An emitted face has the pattern's length, and a pattern over the block's twelve
      vertices yields indices naming only those. */
  lemma EmittedShape(face: seq<int>, cond: bool, base: int)
    ensures |Emitted(face, cond, base)| == if cond then |face| else 0
    ensures InRange(face, 0, VerticesPerBlock) ==> InRange(Emitted(face, cond, base), base, base + VerticesPerBlock)
  {
    ShiftedAt(face, base);
  }

  /** The indices the five add_face calls of add_block append for a block whose first
      vertex is number `base`. */
  function FaceIndices(f: Faces, base: int): seq<int>
  {
    Emitted(PlusZFace, f.plusZ, base) + Emitted(MinusZFace, f.minusZ, base) + Emitted(TopFace, true, base)
      + Emitted(PlusXFace, f.plusX, base) + Emitted(MinusXFace, f.minusX, base)
  }

  /** Every face pattern names only the block's own twelve vertices. */
  lemma PatternsInRange()
    ensures InRange(PlusZFace, 0, VerticesPerBlock) && InRange(MinusZFace, 0, VerticesPerBlock)
    ensures InRange(TopFace, 0, VerticesPerBlock)
    ensures InRange(PlusXFace, 0, VerticesPerBlock) && InRange(MinusXFace, 0, VerticesPerBlock)
  {
  }

  /** A block contributes one face for the top and one per emitted side. */
  lemma FaceIndicesLength(f: Faces, base: int)
    ensures |FaceIndices(f, base)| == IndicesPerFace * (1 + SideCount(f))
  {
    EmittedShape(PlusZFace, f.plusZ, base);
    EmittedShape(MinusZFace, f.minusZ, base);
    EmittedShape(TopFace, true, base);
    EmittedShape(PlusXFace, f.plusX, base);
    EmittedShape(MinusXFace, f.minusX, base);
  }

  /** Every index a block contributes names one of the block's own twelve vertices. */
  lemma FaceIndicesInRange(f: Faces, base: int)
    ensures InRange(FaceIndices(f, base), base, base + VerticesPerBlock)
  {
    var pz := Emitted(PlusZFace, f.plusZ, base);
    var mz := Emitted(MinusZFace, f.minusZ, base);
    var top := Emitted(TopFace, true, base);
    var px := Emitted(PlusXFace, f.plusX, base);
    var mx := Emitted(MinusXFace, f.minusX, base);
    PatternsInRange();
    EmittedShape(PlusZFace, f.plusZ, base);
    EmittedShape(MinusZFace, f.minusZ, base);
    EmittedShape(TopFace, true, base);
    EmittedShape(PlusXFace, f.plusX, base);
    EmittedShape(MinusXFace, f.minusX, base);
    InRangeConcat(pz, mz, base, base + VerticesPerBlock);
    InRangeConcat(pz + mz, top, base, base + VerticesPerBlock);
    InRangeConcat(pz + mz + top, px, base, base + VerticesPerBlock);
    InRangeConcat(pz + mz + top + px, mx, base, base + VerticesPerBlock);
  }

  /** Appending the five faces one after another appends the block's FaceIndices. */
  lemma AppendFaces(s: seq<int>, f: Faces, base: int)
    ensures s + Emitted(PlusZFace, f.plusZ, base) + Emitted(MinusZFace, f.minusZ, base)
              + Emitted(TopFace, true, base) + Emitted(PlusXFace, f.plusX, base)
              + Emitted(MinusXFace, f.minusX, base)
            == s + FaceIndices(f, base)
  {
    var pz, mz, top := Emitted(PlusZFace, f.plusZ, base), Emitted(MinusZFace, f.minusZ, base), Emitted(TopFace, true, base);
    var px, mx := Emitted(PlusXFace, f.plusX, base), Emitted(MinusXFace, f.minusX, base);
    AppendAssoc(s, pz, mz);
    AppendAssoc(s, pz + mz, top);
    AppendAssoc(s, pz + mz + top, px);
    AppendAssoc(s, pz + mz + top + px, mx);
  }

  /** The five add_face calls of add_block, with the conditions add_block passes,
      append the block's indices. */
  lemma AppendBlockFaces(s: seq<int>, hm: seq<real>, size: int, x: int, z: int, base: int,
                         c0: bool, c1: bool, c2: bool, c3: bool)
    requires WellFormed(hm, size) && InGrid(size, x, z)
    requires c0 == (Delta(hm, size, x, z, PlusZ) > A && z < size - 1)
    requires c1 == (Delta(hm, size, x, z, MinusZ) > A && z > 0)
    requires c2 == (Delta(hm, size, x, z, PlusX) > A && x < size - 1)
    requires c3 == (Delta(hm, size, x, z, MinusX) > A && x > 0)
    ensures s + Emitted(PlusZFace, c0, base) + Emitted(MinusZFace, c1, base) + Emitted(TopFace, true, base)
              + Emitted(PlusXFace, c2, base) + Emitted(MinusXFace, c3, base)
            == s + BlockIndices(hm, size, x, z, base)
  {
    AppendFaces(s, Faces(c0, c1, c2, c3), base);
  }

  lemma AppendAssoc<T>(a: seq<T>, b: seq<T>, c: seq<T>)
    ensures a + b + c == a + (b + c)
  {
  }

  /** The indices add_block appends for cell (x, z). */
  function BlockIndices(hm: seq<real>, size: int, x: int, z: int, base: int): seq<int>
    requires WellFormed(hm, size) && InGrid(size, x, z)
  {
    FaceIndices(BlockFaces(hm, size, x, z), base)
  }

  /** Appended after a buffer of whole vertices, a block's indices name only the
      twelve vertices the block itself appended: none below the block's first
      vertex, none beyond the end of the grown vertex buffer. */
  lemma BlockIndicesInRange(hm: seq<real>, size: int, x: int, z: int, vs: seq<real>)
    requires WellFormed(hm, size) && InGrid(size, x, z) && |vs| % 3 == 0
    ensures InRange(BlockIndices(hm, size, x, z, |vs| / 3), |vs| / 3, |vs + BlockVertices(hm, size, x, z)| / 3)
  {
    FaceIndicesInRange(BlockFaces(hm, size, x, z), |vs| / 3);
    assert |vs + BlockVertices(hm, size, x, z)| / 3 == |vs| / 3 + VerticesPerBlock;
  }

  /** The top face is emitted for every block, whatever the side faces: it follows
      the +z and -z faces and names the four top corners 2, 3, 5 and 6. */
  lemma TopFaceEmitted(f: Faces, base: int)
    ensures var r, t := FaceIndices(f, base), IndicesPerFace * (Count(f.plusZ) + Count(f.minusZ));
      t + IndicesPerFace <= |r| &&
      r[t..t + IndicesPerFace] == [3 + base, 2 + base, 6 + base, 6 + base, 5 + base, 3 + base]
  {
    var front := Emitted(PlusZFace, f.plusZ, base) + Emitted(MinusZFace, f.minusZ, base);
    var top := Emitted(TopFace, true, base);
    EmittedShape(PlusZFace, f.plusZ, base);
    EmittedShape(MinusZFace, f.minusZ, base);
    ShiftedAt(TopFace, base);
    SliceOfConcat(front, top, Emitted(PlusXFace, f.plusX, base), Emitted(MinusXFace, f.minusX, base));
    assert top == [3 + base, 2 + base, 6 + base, 6 + base, 5 + base, 3 + base];
  }

  lemma SliceOfConcat<T>(a: seq<T>, b: seq<T>, c: seq<T>, d: seq<T>)
    ensures (a + b + c + d)[|a|..|a| + |b|] == b
  {
    assert (a + b + c + d) == a + b + (c + d);
  }

  /** The 36 coordinate offsets of a block's 12 vertices, before translation;
      y0..y3 are the deltas toward +z, -z, +x and -x. */
  function Template(y0: real, y1: real, y2: real, y3: real): seq<real>
  {
    [ -A, y0,  A,
       A, y0,  A,
       A,  A,  A,
      -A,  A,  A,
      -A, y1, -A,
      -A,  A, -A,
       A,  A, -A,
       A, y1, -A,
      -A, y3,  A,
       A, y2,  A,
      -A, y3, -A,
       A, y2, -A ]
  }

  /** The translation of coordinate i of a flat x, y, z buffer. */
  function Axis(i: int, x: real, y: real, z: real): real
  {
    if i % 3 == 0 then x else if i % 3 == 1 then y else z
  }

  /** A flat coordinate buffer moved by (x, y, z). */
  function Translated(t: seq<real>, x: real, y: real, z: real): seq<real>
  {
    seq(|t|, i requires 0 <= i < |t| => t[i] + Axis(i, x, y, z))
  }

  /** Translating a buffer three coordinates at a time: after any prefix, the next
      point of the translated buffer is the next point of the original moved by
      (x, y, z). */
  lemma TranslatedStep(prefix: seq<real>, t: seq<real>, x: real, y: real, z: real, i: int)
    requires 0 <= i && i % 3 == 0 && i < |t| && |t| % 3 == 0
    ensures i + 3 <= |t|
    ensures prefix + Translated(t, x, y, z)[..i + 3] ==
            prefix + Translated(t, x, y, z)[..i] + [t[i] + x, t[i + 1] + y, t[i + 2] + z]
  {
    assert (i + 1) % 3 == 1 && (i + 2) % 3 == 2;
    var r := Translated(t, x, y, z);
    assert r[..i + 3] == r[..i] + [t[i] + x, t[i + 1] + y, t[i + 2] + z];
    AppendAssoc(prefix, r[..i], [t[i] + x, t[i + 1] + y, t[i + 2] + z]);
  }

  /** The 36 floats add_block appends for cell (x, z). */
  function BlockVertices(hm: seq<real>, size: int, x: int, z: int): (r: seq<real>)
    requires WellFormed(hm, size) && InGrid(size, x, z)
    ensures |r| == FloatsPerBlock
  {
    Translated(
      Template(Delta(hm, size, x, z, PlusZ), Delta(hm, size, x, z, MinusZ),
               Delta(hm, size, x, z, PlusX), Delta(hm, size, x, z, MinusX)),
      x as real, HeightAt(hm, size, x, z), z as real)
  }

  /** Every vertex of a translated template lies over the square [x-A, x+A] by [z-A, z+A]. */
  lemma TemplateFootprint(y0: real, y1: real, y2: real, y3: real, x: real, y: real, z: real)
    ensures var r := Translated(Template(y0, y1, y2, y3), x, y, z);
      |r| == FloatsPerBlock &&
      (forall i :: 0 <= i < FloatsPerBlock && i % 3 == 0 ==> x - A <= r[i] <= x + A) &&
      (forall i :: 0 <= i < FloatsPerBlock && i % 3 == 2 ==> z - A <= r[i] <= z + A)
  {
    var t := Template(y0, y1, y2, y3);
    forall i | 0 <= i < FloatsPerBlock && i % 3 != 1
      ensures -A <= t[i] <= A
    {
    }
  }

  /** The four top corners of a translated template sit at y + A, and the lower
      corners of each side face at y plus that side's delta. */
  lemma TemplateHeights(y0: real, y1: real, y2: real, y3: real, x: real, y: real, z: real)
    ensures var r := Translated(Template(y0, y1, y2, y3), x, y, z);
      |r| == FloatsPerBlock &&
      r[7] == y + A && r[10] == y + A && r[16] == y + A && r[19] == y + A &&
      r[1] == r[4] == y + y0 && r[13] == r[22] == y + y1 &&
      r[28] == r[34] == y + y2 && r[25] == r[31] == y + y3
  {
  }

  /** The shape of a block: every vertex lies over the cell's footprint, the four
      top corners sit half a block above the column's height, and the lower corners
      of each interior side face sit half a block above the neighbour's height
      (one unit below the column's height on the border). */
  lemma BlockGeometry(hm: seq<real>, size: int, x: int, z: int)
    requires WellFormed(hm, size) && InGrid(size, x, z)
    ensures var r := BlockVertices(hm, size, x, z);
      (forall i :: 0 <= i < FloatsPerBlock && i % 3 == 0 ==> x as real - A <= r[i] <= x as real + A) &&
      (forall i :: 0 <= i < FloatsPerBlock && i % 3 == 2 ==> z as real - A <= r[i] <= z as real + A)
    ensures var r, h := BlockVertices(hm, size, x, z), HeightAt(hm, size, x, z);
      r[7] == h + A && r[10] == h + A && r[16] == h + A && r[19] == h + A
    ensures var r, h := BlockVertices(hm, size, x, z), HeightAt(hm, size, x, z);
      r[1] == r[4] == (if AtEdge(size, x, z, PlusZ) then h + NoNeighbour else NeighbourHeight(hm, size, x, z, PlusZ) + A) &&
      r[13] == r[22] == (if AtEdge(size, x, z, MinusZ) then h + NoNeighbour else NeighbourHeight(hm, size, x, z, MinusZ) + A) &&
      r[28] == r[34] == (if AtEdge(size, x, z, PlusX) then h + NoNeighbour else NeighbourHeight(hm, size, x, z, PlusX) + A) &&
      r[25] == r[31] == (if AtEdge(size, x, z, MinusX) then h + NoNeighbour else NeighbourHeight(hm, size, x, z, MinusX) + A)
  {
    var y0, y1 := Delta(hm, size, x, z, PlusZ), Delta(hm, size, x, z, MinusZ);
    var y2, y3 := Delta(hm, size, x, z, PlusX), Delta(hm, size, x, z, MinusX);
    TemplateFootprint(y0, y1, y2, y3, x as real, HeightAt(hm, size, x, z), z as real);
    TemplateHeights(y0, y1, y2, y3, x as real, HeightAt(hm, size, x, z), z as real);
  }

  /** A position of the row-major walk over the grid: before cell (x, z), where
      z == size stands for the end of row x and (size, 0) for the end of the walk.
      Idx(size, x, z) blocks precede it. */
  predicate Cursor(size: int, x: int, z: int)
  {
    (0 <= x < size && 0 <= z <= size) || (0 <= x == size && z == 0)
  }

  /** The vertex buffer the nested loops of the rebuild hold on reaching (x, z). */
  function VerticesUpTo(hm: seq<real>, size: int, x: int, z: int): (r: seq<real>)
    requires WellFormed(hm, size) && Cursor(size, x, z)
    ensures |r| == FloatsPerBlock * Idx(size, x, z)
    decreases x, z
  {
    if z > 0 then VerticesUpTo(hm, size, x, z - 1) + BlockVertices(hm, size, x, z - 1)
    else if x > 0 then VerticesUpTo(hm, size, x - 1, size)
    else []
  }

  /** After n blocks of 36 floats, the next vertex is number 12 * n. */
  lemma VertexNumber(n: int)
    ensures (FloatsPerBlock * n) / 3 == VerticesPerBlock * n
  {
  }

  /** The side faces chosen for every cell of the grid, as one function of the cell. */
  function FacesOf(hm: seq<real>, size: int): (int, int) -> Faces
  {
    (x: int, z: int) =>
      if WellFormed(hm, size) && InGrid(size, x, z) then BlockFaces(hm, size, x, z)
      else Faces(false, false, false, false)
  }

  /** The index buffer the nested loops of the rebuild hold on reaching (x, z), when
      cell (x, z) gets the side faces faces(x, z): each block's indices are offset by
      the number of vertices emitted before it, twelve per block (VerticesUpTo holds
      36 floats per block). */
  function IndicesUpTo(faces: (int, int) -> Faces, size: int, x: int, z: int): seq<int>
    requires Cursor(size, x, z)
    decreases x, z
  {
    if z > 0 then
      IndicesUpTo(faces, size, x, z - 1) + FaceIndices(faces(x, z - 1), VerticesPerBlock * Idx(size, x, z - 1))
    else if x > 0 then IndicesUpTo(faces, size, x - 1, size)
    else []
  }

  /** One step of the walk: adding block (x, z) extends both buffers by that block. */
  lemma WalkStep(hm: seq<real>, size: int, x: int, z: int)
    requires WellFormed(hm, size) && InGrid(size, x, z)
    ensures VerticesUpTo(hm, size, x, z + 1) == VerticesUpTo(hm, size, x, z) + BlockVertices(hm, size, x, z)
    ensures IndicesUpTo(FacesOf(hm, size), size, x, z + 1)
         == IndicesUpTo(FacesOf(hm, size), size, x, z) + BlockIndices(hm, size, x, z, |VerticesUpTo(hm, size, x, z)| / 3)
  {
    VertexNumber(Idx(size, x, z));
  }

  /** The end of row x is the start of row x + 1. */
  lemma WalkRow(hm: seq<real>, size: int, x: int)
    requires WellFormed(hm, size) && 0 <= x < size
    ensures VerticesUpTo(hm, size, x + 1, 0) == VerticesUpTo(hm, size, x, size)
    ensures IndicesUpTo(FacesOf(hm, size), size, x + 1, 0) == IndicesUpTo(FacesOf(hm, size), size, x, size)
  {
  }

  /** After n blocks the index buffer holds whole faces (two triangles each). */
  lemma {:induction false} IndicesUpToWholeFaces(faces: (int, int) -> Faces, size: int, x: int, z: int)
    requires Cursor(size, x, z)
    ensures |IndicesUpTo(faces, size, x, z)| % IndicesPerFace == 0
    decreases x, z
  {
    if z > 0 {
      IndicesUpToWholeFaces(faces, size, x, z - 1);
      FaceIndicesLength(faces(x, z - 1), VerticesPerBlock * Idx(size, x, z - 1));
      WholeFaces(|IndicesUpTo(faces, size, x, z - 1)|, 1 + SideCount(faces(x, z - 1)));
    } else if x > 0 {
      IndicesUpToWholeFaces(faces, size, x - 1, size);
    }
  }

  /** After n blocks the index buffer holds between one and five faces per block. */
  lemma {:induction false} IndicesUpToCount(faces: (int, int) -> Faces, size: int, x: int, z: int)
    requires Cursor(size, x, z)
    ensures var r, n := IndicesUpTo(faces, size, x, z), Idx(size, x, z);
      IndicesPerFace * n <= |r| <= 5 * IndicesPerFace * n
    decreases x, z
  {
    if z > 0 {
      IndicesUpToCount(faces, size, x, z - 1);
      FaceIndicesLength(faces(x, z - 1), VerticesPerBlock * Idx(size, x, z - 1));
    } else if x > 0 {
      IndicesUpToCount(faces, size, x - 1, size);
      NextRow(size, x);
    }
  }

  /** After n blocks every index names one of the 12*n vertices emitted so far. */
  lemma {:induction false} IndicesUpToInRange(faces: (int, int) -> Faces, size: int, x: int, z: int)
    requires Cursor(size, x, z)
    ensures InRange(IndicesUpTo(faces, size, x, z), 0, VerticesPerBlock * Idx(size, x, z))
    decreases x, z
  {
    if z > 0 {
      IndicesUpToInRange(faces, size, x, z - 1);
      var n := Idx(size, x, z - 1);
      var before := IndicesUpTo(faces, size, x, z - 1);
      var base := VerticesPerBlock * n;
      var block := FaceIndices(faces(x, z - 1), base);
      FaceIndicesInRange(faces(x, z - 1), base);
      InRangeWiden(before, 0, base, base + VerticesPerBlock);
      InRangeWiden(block, base, base + VerticesPerBlock, base + VerticesPerBlock);
      InRangeConcat(before, block, 0, base + VerticesPerBlock);
    } else if x > 0 {
      IndicesUpToInRange(faces, size, x - 1, size);
      NextRow(size, x);
    }
  }

  /** Adding whole faces to a buffer of whole faces leaves whole faces. */
  lemma WholeFaces(len: int, faces: int)
    requires len % IndicesPerFace == 0
    ensures (len + IndicesPerFace * faces) % IndicesPerFace == 0
  {
    var m := len / IndicesPerFace;
    assert len + IndicesPerFace * faces == IndicesPerFace * (m + faces);
  }

  lemma InRangeWiden(s: seq<int>, lo: int, hi: int, hi': int)
    requires InRange(s, lo, hi) && 0 <= lo && hi <= hi'
    ensures InRange(s, 0, hi')
  {
  }

  /** The whole vertex buffer: 12 vertices for every cell. */
  function MeshVertices(hm: seq<real>, size: int): (r: seq<real>)
    requires WellFormed(hm, size)
    ensures |r| == FloatsPerBlock * (size * size)
  {
    VerticesUpTo(hm, size, size, 0)
  }

  /** The whole index buffer: whole faces only, between one face (the top) and five
      per cell, every index naming a vertex of the buffer. */
  function MeshIndices(hm: seq<real>, size: int): (r: seq<int>)
    requires WellFormed(hm, size)
    ensures |r| % IndicesPerFace == 0
    ensures IndicesPerFace * (size * size) <= |r| <= 5 * IndicesPerFace * (size * size)
    ensures InRange(r, 0, |MeshVertices(hm, size)| / 3)
  {
    IndicesUpToWholeFaces(FacesOf(hm, size), size, size, 0);
    IndicesUpToCount(FacesOf(hm, size), size, size, 0);
    IndicesUpToInRange(FacesOf(hm, size), size, size, 0);
    IndicesUpTo(FacesOf(hm, size), size, size, 0)
  }

  /** All cells at the same height. */
  predicate Flat(hm: seq<real>)
  {
    forall i, j :: 0 <= i < |hm| && 0 <= j < |hm| ==> hm[i] == hm[j]
  }

  /** Where no cell gets a side face, the index buffer holds exactly one face per block. */
  lemma {:induction false} TopOnlyUpTo(faces: (int, int) -> Faces, size: int, x: int, z: int)
    requires forall cx, cz :: InGrid(size, cx, cz) ==> SideCount(faces(cx, cz)) == 0
    requires Cursor(size, x, z)
    ensures |IndicesUpTo(faces, size, x, z)| == IndicesPerFace * Idx(size, x, z)
    decreases x, z
  {
    if z > 0 {
      TopOnlyUpTo(faces, size, x, z - 1);
      assert InGrid(size, x, z - 1);
      FaceIndicesLength(faces(x, z - 1), VerticesPerBlock * Idx(size, x, z - 1));
    } else if x > 0 {
      TopOnlyUpTo(faces, size, x - 1, size);
      NextRow(size, x);
    }
  }

  /** On a flat heightmap no side face of any block is visible. */
  lemma FlatBlock(hm: seq<real>, size: int, x: int, z: int)
    requires WellFormed(hm, size) && Flat(hm) && InGrid(size, x, z)
    ensures SideCount(BlockFaces(hm, size, x, z)) == 0
  {
    NoSideOnFlat(hm, size, x, z, PlusZ);
    NoSideOnFlat(hm, size, x, z, MinusZ);
    NoSideOnFlat(hm, size, x, z, PlusX);
    NoSideOnFlat(hm, size, x, z, MinusX);
  }

  lemma NoSideOnFlat(hm: seq<real>, size: int, x: int, z: int, side: Side)
    requires WellFormed(hm, size) && Flat(hm) && InGrid(size, x, z)
    ensures !Visible(hm, size, x, z, side)
  {
    if !AtEdge(size, x, z, side) {
      var (nx, nz) := Neighbour(x, z, side);
      IdxInBounds(size, x, z);
      IdxInBounds(size, nx, nz);
      assert hm[Idx(size, nx, nz)] == hm[Idx(size, x, z)];
    }
  }

  /** A flat heightmap of size*size cells yields exactly 6*size*size indices. */
  lemma FlatMesh(hm: seq<real>, size: int)
    requires WellFormed(hm, size) && Flat(hm)
    ensures |MeshIndices(hm, size)| == IndicesPerFace * (size * size)
  {
    forall x, z | InGrid(size, x, z)
      ensures SideCount(FacesOf(hm, size)(x, z)) == 0
    {
      FlatBlock(hm, size, x, z);
    }
    TopOnlyUpTo(FacesOf(hm, size), size, size, 0);
  }

  /** With the size capped at 2500, every index fits a signed 32-bit int. */
  lemma IndicesFitInt32(hm: seq<real>, size: int)
    requires WellFormed(hm, size) && size <= 2500
    ensures forall i :: 0 <= i < |MeshIndices(hm, size)| ==> 0 <= MeshIndices(hm, size)[i] < 0x8000_0000
  {
    MulMonotone(size, 2500, size);
    MulMonotone(size, 2500, 2500);
  }
}
