# comanche terrain and camera, modelled in Dafny

comanche-cpp is a small OpenGL program. It generates a square heightmap from
seeded simplex noise and turns it into a mesh of columns, one per grid cell.
Each column contributes 12 vertices and the indices of its top face plus,
toward each strictly higher neighbour, the wall between the two tops (so each
wall is drawn once, by the lower column, and a peak has no side faces). A fly camera moves over the terrain.

This project models that core, as written in `main.cpp`:

- **`Grid`** (grid.dfy) covers row-major cell indexing (`x*size+z`) and the
  arithmetic facts the loops rely on.
- **`HeightField`** (heightfield.dfy) is the height `gen_map` stores per cell.
  The noise sample is rescaled from [-1, 1] to [0, size], and the whole heightmap
  is a function of the seeded noise.
- **`Mesh`** (mesh.dfy) holds the pure specification of the mesh:
  - the neighbour deltas of `add_block` and the face conditions;
  - the 36-float vertex block and the five index patterns;
  - the buffers the nested rebuild loop holds after each cell, and the whole mesh.

  Lemmas give:
  - the face counts;
  - the index ranges;
  - the heightmap read bounds;
  - edge culling;
  - "visible iff the neighbour is strictly higher";
  - the flat-terrain mesh;
  - the 32-bit fit of the indices.
- **`Config`** (config.dfy) is the end-of-frame clamp of `seed` and `size`, as a
  nearest-value clamp.
- **`Terrain`** (terrain.dfy) is the class `Terrain` over the program's global
  `seed`, `size`, `heightmap`, `vertices` and `indices`. Its methods are:
  - `AddFace` (`add_face`);
  - `AddBlock` (`add_block`), which uses `AppendTranslated` for its vertex loop;
  - `FillHeightmap` and `RebuildMesh` (the two halves of `gen_map`);
  - `GenMap`;
  - `ClampConfig` (lines 339-342 of `main`).

  Each method is proved against the `Mesh`/`HeightField` functions.
- **`Camera`** (camera.dfy) covers the orientation and movement of `get_matrix` and
  the Esc toggle of `key_callback`:
  - the yaw reset and the pitch clamp are functions;
  - the class `Camera` holds `yaw`, `pitch`, `position`, `direction`, `cursor`
    and the frame time;
  - `Turn`, `Walk` and `Update` are one frame.

Heights and coordinates are `real`. The float constant `0.4f` is the real 0.4.
The noise function, the pointer position, the key state and the clock are
parameters. So are the `sin`/`cos` basis vectors, passed as a function of yaw
and pitch.

The code and the system's design description disagree on three points. The model
follows the code:

- **Boundary side faces.** The description says a boundary-facing side face is
  always shown. The code culls it twice: the delta is set to -1, which is never
  greater than 0.4, and the condition also carries an explicit coordinate guard.
  `Mesh.Visible` states that the face is never emitted on the border.
- **Pitch limit.** The description states the pitch limit as strict
  (`|pitch| < 89.9°`). The code clamps to the closed interval, so the pitch can
  equal ±radians(89.9). `Camera.ClampPitch` states the closed bound.
- **Which side faces are drawn.** The description reads "delta > a" as "the
  neighbour sits low enough" for a wall to show. In the code the delta is
  a - y + h(neighbour), which exceeds a exactly when the neighbour is higher:
  a column draws the wall up to a higher neighbour, never down to a lower one.
  `Mesh.Visible` states this, and `Mesh.BlockGeometry` states that the wall
  spans between the two tops: the column's height plus a and the neighbour's
  height plus a.

## Model

| member | source | states |
|---|---|---|
| Grid.IdxInBounds | main.cpp:134 | the flat index x*size+z of any cell of the grid lies in [0, size*size) |
| Grid.DivMod | main.cpp:169-171 | the flat index determines the cell: dividing by size gives x back, the remainder gives z |
| Mesh.ReadInBounds | main.cpp:135-138 | each neighbour read that the edge test lets through names the neighbouring cell, which is in the grid, and its index lies in [0, size*size) |
| Mesh.NeighbourHeight | main.cpp:135-138 | the value read for the neighbour toward a side is the height of the neighbouring cell |
| Mesh.GuardIsInterior | main.cpp:135-160 | inside the grid, a face's coordinate guard holds exactly when the side is not on the border, i.e. when the delta was not set by the border branch |
| Mesh.Visible | main.cpp:135-160 | a side face is never emitted on the grid border; inside the grid it is emitted if and only if the neighbouring column is strictly higher (delta a - y + h > a) |
| Mesh.SideCount | main.cpp:156-160 | a block emits at most four side faces |
| Mesh.ShiftedAt | main.cpp:129 | offsetting a face pattern keeps its length and adds the offset to every index |
| Mesh.EmittedShape | main.cpp:127-130 | add_face appends the whole pattern (6 indices) when its condition holds and nothing otherwise; a pattern over vertices 0..11 yields indices in [base, base+12) |
| Mesh.PatternsInRange | main.cpp:156-160 | every one of the five index patterns names only the block's own vertices 0..11 |
| Mesh.FaceIndicesLength | main.cpp:156-160 | a block appends 6 indices for the top face plus 6 per emitted side face, hence between 6 and 30 |
| Mesh.FaceIndicesInRange | main.cpp:156-160 | every index a block appends lies in [base, base+12), i.e. names one of the block's own twelve vertices |
| Mesh.AppendBlockFaces | main.cpp:156-160 | the five add_face calls, each with the condition add_block passes, append exactly the block's specified indices |
| Mesh.BlockIndicesInRange | main.cpp:153-160 | after a buffer of whole vertices, the indices of a block are not below the block's first vertex and are below the vertex count once the block's 36 floats are appended |
| Mesh.TopFaceEmitted | main.cpp:158 | the top face is emitted for every block whatever the side faces, right after the +z and -z faces, naming top corners 3, 2, 6, 6, 5, 3 of the block |
| Mesh.BlockVertices | main.cpp:139-154 | add_block appends exactly 36 floats (12 vertices) |
| Mesh.TranslatedStep | main.cpp:153-154 | one step of the vertex loop appends the next point of the template moved by (x, y, z) |
| Mesh.TemplateFootprint | main.cpp:139-154 | every vertex of a block lies over the square [x-0.4, x+0.4] by [z-0.4, z+0.4] |
| Mesh.TemplateHeights | main.cpp:139-154 | the four top corners sit at y+0.4 and the lower corners of each side face at y plus that side's delta |
| Mesh.BlockGeometry | main.cpp:133-154 | for cell (x, z): footprint as above, top corners 0.4 above the column's height, lower corners of an interior side face 0.4 above the neighbour's height and of a border face one unit below the column's height |
| Mesh.VerticesUpTo | main.cpp:175-177 | after n blocks of the row-major walk the vertex buffer holds 36*n floats |
| Mesh.VertexNumber | main.cpp:129 | after n blocks of 36 floats the offset (size-36)/3 of the next block is 12*n, the number of vertices already emitted |
| Mesh.WalkStep | main.cpp:175-177 | adding block (x, z) extends the vertex buffer by the block's vertices and the index buffer by its indices offset by the vertex count before it |
| Mesh.WalkRow | main.cpp:175-176 | the state after the last cell of row x is the state before the first cell of row x+1 |
| Mesh.IndicesUpToWholeFaces | main.cpp:175-177 | after any number of blocks the index buffer holds whole faces (a multiple of 6 indices) |
| Mesh.IndicesUpToCount | main.cpp:175-177 | after n blocks the index buffer holds between 6*n and 30*n indices |
| Mesh.IndicesUpToInRange | main.cpp:175-177 | after n blocks every index is below 12*n, the number of vertices emitted |
| Mesh.MeshVertices | main.cpp:173-177 | after a rebuild the vertex buffer holds exactly 36*size*size floats |
| Mesh.MeshIndices | main.cpp:173-177 | after a rebuild the index buffer is whole faces, holds between 6*size*size and 30*size*size indices, and every index names a vertex of the vertex buffer |
| Mesh.NoSideOnFlat | main.cpp:135-160 | on a flat heightmap no side face toward any side is visible |
| Mesh.FlatBlock | main.cpp:156-160 | on a flat heightmap a block emits no side face |
| Mesh.TopOnlyUpTo | main.cpp:175-177 | when no cell gets a side face, n blocks yield exactly 6*n indices |
| Mesh.FlatMesh | main.cpp:173-177 | a flat heightmap yields exactly 6*size*size indices |
| Mesh.IndicesFitInt32 | main.cpp:129 | with the size capped at 2500 every index is non-negative and fits the signed 32-bit int of the index buffer |
| HeightField.Height | main.cpp:171 | a noise sample in [-1, 1] becomes a height in [0, size]; a zero sample becomes size/2 |
| HeightField.SamplePositions | main.cpp:171 | the sample of every cell is the noise at (x/size-0.5, z/size-0.5), a point of [-0.5, 0.5) on both axes |
| HeightField.Field | main.cpp:167-171 | the filled heightmap has exactly size*size cells |
| HeightField.FieldAt | main.cpp:169-171 | cell (x, z) of the heightmap, at x*size+z, holds that cell's height |
| HeightField.FieldInRange | main.cpp:167-171 | when the noise stays in [-1, 1] every height lies in [0, size] |
| Config.Clamp | main.cpp:339-342 | the clamped value lies in [lo, hi], equals the input when that is in range, and is the value of [lo, hi] nearest the input |
| Config.ClampIdempotent | main.cpp:339-342 | clamping twice is clamping once |
| Terrain.Terrain.constructor | main.cpp:26-31 | seed 0, size 100, empty heightmap and buffers |
| Terrain.Terrain.AddFace | main.cpp:127-130 | indices grow by the pattern offset by (vertices.size()-36)/3 when the condition holds, else stay the same; vertices untouched |
| Terrain.Terrain.AppendTranslated | main.cpp:153-154 | vertices grow by the 36-float template moved by (x, y, z); indices untouched |
| Terrain.Terrain.AddBlock | main.cpp:132-161 | vertices grow by the block's vertices and indices by the block's indices offset by the vertex count before the call; heightmap, size and seed untouched |
| Terrain.Terrain.FillHeightmap | main.cpp:169-171 | the nested fill loop leaves the heightmap equal to the noise height field of the size |
| Terrain.Terrain.RebuildMesh | main.cpp:173-177 | the rebuild leaves both buffers equal to the mesh of the heightmap, so rebuilding the same heightmap always yields the same buffers |
| Terrain.Terrain.GenMap | main.cpp:163-177 | for a non-negative size the heightmap is the seeded height field and the buffers its mesh; for a negative size the heightmap is size*size zeros and both buffers are empty |
| Terrain.Terrain.ClampConfig | main.cpp:339-342 | seed ends clamped to [SHRT_MIN, SHRT_MAX] and size to [2, 2500] |
| Camera.ResetYaw | main.cpp:195 | the yaw ends within one turn (360 degrees) either way; a yaw within it is kept and one beyond it is reset to exactly 0 |
| Camera.ClampPitch | main.cpp:197-201 | the pitch ends within [-max, max], is kept when in range, and is otherwise the nearest bound |
| Camera.PitchStaysBounded | main.cpp:197-201 | for any sequence of pointer deltas a pitch within the limits stays within them |
| Camera.PitchSaturates | main.cpp:197-201 | enough frames each raising the pitch by at least a fixed step take it to exactly the upper limit, not beyond |
| Camera.PitchSaturatesDown | main.cpp:197-201 | enough frames each lowering the pitch by at least a fixed step (1000 downward pointer moves, say) take it to exactly the lower limit, not beyond |
| Camera.MoveIdle | main.cpp:216-222 | with no movement key held the position does not change |
| Camera.MoveOpposite | main.cpp:216-222 | W with S and A with D cancel out |
| Camera.MoveForward | main.cpp:216-222 | W alone moves the camera s units along the viewing direction |
| Camera.Toggled | main.cpp:52-53 | Esc pressed flips the cursor flag; every other key event keeps it |
| Camera.ToggleTwice | main.cpp:52-53 | pressing Esc twice restores the cursor mode |
| Camera.Camera.constructor | main.cpp:33-41 | yaw 45 degrees, pitch -15 degrees, position (-100, 100, -100), cursor released, within the pitch and yaw limits |
| Camera.Camera.OnKey | main.cpp:51-55 | the cursor flag becomes Toggled of the old flag, key and action |
| Camera.Camera.Turn | main.cpp:194-201 | yaw and pitch become the guarded sums of the old values and the pointer offsets, within the limits |
| Camera.Camera.Walk | main.cpp:217-221 | the position moves by the held keys in the order W, A, S, D |
| Camera.Camera.Update | main.cpp:186-227 | the limits are kept; with the cursor released yaw, pitch and position do not change; with it captured they are turned, guarded and moved; the direction is recomputed and the frame time remembered |

## Left out

- OpenSimplex noise (`computeContextForSeed`, `noise2`) is a foreign library. The seeded noise is a function parameter of `GenMap`, from seed to a function of the sample position.
- `reseed` depends on `rand()` and is not modelled.
- GPU work is not modelled: the buffer uploads at the end of `gen_map`, shaders, `render`, and the window and main loop.
- GLFW input and time are parameters of `Camera.Camera.Update`: the pointer position, the window size, the held keys and the current time. Re-centring the pointer is not modelled, and neither is the `glfwSetInputMode` call with which `key_callback` shows or hides the cursor after the toggle (`OnKey` models the toggle itself).
- The trigonometry of `get_matrix` is a parameter: a function from yaw and pitch to the right and forward vectors. The `up` vector and the perspective and look-at matrices are not modelled.
- The ImGui settings window is not modelled. Its effect on `seed` and `size` is covered by `ClampConfig` and by `GenMap` accepting any size.
- Floating point is not modelled. Heights, coordinates and angles are reals, so float rounding is not modelled in:
  - the `a - y + h > a` comparison;
  - the `float` casts of `x`, `z` and the pointer offsets;
  - the double/float mix of `yaw` and `pitch`.
- Integer widths are only partly modelled. `seed`, `size` and the indices are unbounded integers, so the overflow of `size*size` beyond 46340 and the `size_t` arithmetic of the offset are not modelled. `Mesh.IndicesFitInt32` shows the indices fit an `int` under the size cap.
- Terrain.Terrain.AddFace: requires at least one block in the vertex buffer. The source only calls it right after `add_block` appended one; with fewer floats the unsigned subtraction would wrap.
- Terrain.Terrain.AddBlock: requires a heightmap of size*size cells and a cell inside the grid. `gen_map` calls it only that way.
- Camera.Camera.Update: the first frame's `last_time` is the time given to the constructor. The source initialises `last_time` at the first call of `get_matrix`, so its first step is 0; the model's first step spans the time since construction, unless the caller passes the same time to both.
- The camera and the terrain state are two classes, although the source keeps them as globals of one file. No operation touches both.
