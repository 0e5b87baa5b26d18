# SALVL2RBX geometry pipeline in Dafny

This project models the geometry core of SALVL2RBX, a converter from Sonic Adventure level files to Roblox assets. Several revisions of the same pipeline are modelled:

- **SA1 loader** (`Sa1`): walks a level's COL list. Each placed COL becomes a mesh instance with remapped surface flags, a rotation matrix and a position. The matrix is built with the shared library's rotations as written (`Rotation.LoaderMatrix`), the same as in the SA2 loader. Each model is decoded once into a mesh: one part per material id. Triangle, quad and strip primitives are decoded through the deduplicating vertex table `AddVertex`, which appends a flat index list.
- **SA2 loader** (`Sa2`): the same walk. Its basic decoder pushes one three-index face per triangle and reads quads differently, and a model may instead be routed to the chunk decoder, which leaves the model's mesh empty.
- **Older standalone converter** (`Standalone`, after `SALVL2RBX/Main.cpp`): its own vertex type, an `AABBCorrect` with a 0.1 clamp, rotations that save the overwritten row, the `.msh` writer and the placement with transparency.
- **Shared emitter** (`Emitter`, `MeshFile`, `Placement`, `Csg`, `Base64`, `UrlEncode`, `Texlist`, `Bytes`): `.mesh` files, rbxasset URLs and texture variants, the texlist reader with its mirrored texture copies, the collision-proxy ("CSGPHS") blob memoised per part, Base64 with 72-column lines, percent-encoding, little-endian pushes, and the routing of part instances to the collision or visual list.
- **Header** (`Salvl`, `Dedup`, `Bounds`, `Winding`): the vertex, the mesh part with `AddVertex` and `AABBCorrect`, the level container, and the winding-fix pass that opens `AutoNormals`.

Floats are modelled as `real`: `Mul` is exact multiplication and no rounding is modelled. A float's 32-bit pattern (`*(Uint32*)&x`) is an opaque parameter `bits: real -> Word`. Sine and cosine of an angle are parameters of the rotations. The MD5 digest is a parameter `md5`. Images come from a parameter `load`. The random choices of the texture mutation are parameters of `Texlist.Nudge`.

The unordered maps of the source are modelled as follows:
- The mesh part map keyed by material is a `map` plus the list of material ids in creation order.
- The level's mesh map is a `map` keyed by model.
- Where the emitter iterates one of these maps, the visiting order is a parameter.

The pipeline's revisions disagree on the type of a part's indices. `MeshPart<I>` is generic: the SA1 loader and the emitter use a flat `seq<int>`, the SA2 loader and the winding pass a `seq<Face>`.

The SA2 quad is modelled as written. Both faces use the points `(p2, p1, p3)`: the first with UV indices `(l+2, l+1, l+2)`, the second with `(l+2, l+1, l+3)`. So the triangle `(p0, p1, p2)` is never emitted (`Basic.QuadCorners`).

## Model

| member | source | states |
|---|---|---|
| Types.ToSint16 | SA2LVL2RBX/SA2LVL2RBX.cpp:97 | The Uint16 returned by AddVertex stored in a Sint16 face entry: equal modulo 2^16, unchanged below 0x8000 |
| Types.Widen32 | SALVL2RBX/Main.cpp:438-442 | A Sint16 index converted to unsigned int: same low 16 bits, sign-extended, so a negative index becomes at least 0xFFFF8000 |
| Types.WordSucc | SALVL2RBX/SALVL2RBX.cpp:674 | Incrementing the unsigned running file number modulo 2^32 agrees with counting and then reducing |
| Dedup.Position | SALVL2RBX/SALVL2RBX.h:89-103 | The position AddVertex finds: the first index holding the value, or the length exactly when the value is absent |
| Dedup.Lookup | SALVL2RBX/SALVL2RBX.h:92-98 | The linear scan returns the first equal position, and the length when none is equal |
| Dedup.InsertedFacts | SALVL2RBX/SALVL2RBX.h:89-103 | AddVertex grows the table by one exactly when the vertex is new, keeps the old prefix, puts the vertex at the returned position, and keeps the table free of duplicates |
| Dedup.PositionOfElement | SALVL2RBX/SALVL2RBX.h:92-98 | In a table without duplicates, the scan for entry i returns i |
| Dedup.InsertTwice | SALVL2RBX/SALVL2RBX.h:89-103 | Adding the same vertex twice changes nothing the second time and returns the same index |
| Dedup.DistinctValuesDistinctPositions | SALVL2RBX/SALVL2RBX.h:89-103 | Two different vertices added to a table get different indices |
| Dedup.InsertAllAppend | SA1LVL2RBX/SA1LVL2RBX.cpp:51 | Adding a vertex sequence in two runs gives the same table and index list as adding it in one |
| Dedup.InsertAllSnoc | SA1LVL2RBX/SA1LVL2RBX.cpp:51 | Adding one more vertex appends exactly one index, the vertex's position in the table built so far |
| Dedup.InsertAllFacts | SA1LVL2RBX/SA1LVL2RBX.cpp:51 | One index per added vertex; the table keeps its prefix, grows by at most the number added, holds exactly the old and added vertices, and stays duplicate-free |
| Dedup.PositionStable | SALVL2RBX/SALVL2RBX.h:89-103 | A vertex already in the table keeps its index however many vertices are added later |
| Dedup.IndicesValid | SA1LVL2RBX/SA1LVL2RBX.cpp:51 | Below 0x8000 vertices, every index pushed is in range of the final table and names the vertex that was added |
| Bounds.ExtremesBound | SALVL2RBX/SALVL2RBX.h:132-148 | The per-axis minimum and maximum bound every position and are attained by some position |
| Bounds.Scan | SALVL2RBX/SALVL2RBX.h:132-148 | The min/max loop computes the per-axis minimum and maximum of the positions |
| Bounds.Measure | SALVL2RBX/SALVL2RBX.h:150-164 | The measured size is the clamped extent and the correction is the per-axis midpoint |
| Bounds.ShiftedExtremes | SALVL2RBX/SALVL2RBX.h:166-171 | Shifting by c moves each axis's minimum and maximum by c |
| Bounds.RecentredBox | SALVL2RBX/SALVL2RBX.h:161-171 | After shifting by the midpoint, each axis has min + max = 0 and the same extent as before |
| Bounds.ClampedSizeBounds | SALVL2RBX/SALVL2RBX.h:150-159 | Each size axis is at least the floor and at least max − min, and equals max − min once that reaches the floor |
| Bounds.ShiftedInsideHalfExtent | SALVL2RBX/SALVL2RBX.h:161-171 | After recentring, every coordinate lies within half the extent of the origin |
| Salvl.InstanceSurfFlagBits | SA1LVL2RBX/SA1LVL2RBX.cpp:84-85 | SALVL_FLAG_REMAP of the COL flags: bit 0 iff a solid bit is set, bit 1 iff a visible bit is set, no other bit |
| Salvl.VertexEqIsEquality | SALVL2RBX/SALVL2RBX.h:43-51 | Comparing all sixteen fields is exactly value equality |
| Salvl.RecentredFacts | SALVL2RBX/SALVL2RBX.h:166-171 | Recentring shifts the positions and leaves every other field of every vertex unchanged |
| Salvl.MeshPart.constructor | SALVL2RBX/SALVL2RBX.h:105-122 | A new part is empty, untextured, diffuse 0xB2B2B2, unnamed, number 0, with zero box |
| Salvl.MeshPart.AddVertex | SALVL2RBX/SALVL2RBX.h:89-103 | The table becomes the old one with the vertex added if new; the result is the first equal position as a Uint16; a duplicate-free table stays duplicate-free |
| Salvl.MeshPart.AABBCorrect | SALVL2RBX/SALVL2RBX.h:124-172 | Size is the extent clamped to 0.2, the correction the midpoint, every vertex shifted by it; nothing else changes |
| Salvl.CorrectedPartCentred | SALVL2RBX/SALVL2RBX.h:150-171 | After AABBCorrect each axis is centred (min + max = 0) with the old extent, and the size is at least 0.2 and at least the extent |
| Salvl.Level.constructor | SALVL2RBX/SALVL2RBX.h:374-380 | A level starts with the given textures, no meshes and no instances |
| Bytes.LeUnfolded | SALVL2RBX/SALVL2RBX.cpp:157-168 | The 2- and 4-byte encodings put byte k = (x >> 8k) & 0xFF at position k |
| Bytes.Le16RoundTrip | SALVL2RBX/SALVL2RBX.cpp:157-161 | Reading back two little-endian bytes gives the value, and every 2-byte string is an encoding |
| Bytes.Le32RoundTrip | SALVL2RBX/SALVL2RBX.cpp:162-168 | Reading back four little-endian bytes gives the value, and every 4-byte string is an encoding |
| Bytes.ByteStream.constructor | SALVL2RBX/SALVL2RBX.cpp:887 | A new byte vector is empty |
| Bytes.ByteStream.Put | SALVL2RBX/SALVL2RBX.cpp:888 | push_back appends one byte and keeps the prefix |
| Bytes.ByteStream.PutAll | SALVL2RBX/SALVL2RBX.cpp:901-904 | A run of push_backs appends the bytes in order |
| Bytes.ByteStream.Push16 | SALVL2RBX/SALVL2RBX.cpp:157-161 | Appends exactly the 2 little-endian bytes of x and keeps the prefix |
| Bytes.ByteStream.Push32 | SALVL2RBX/SALVL2RBX.cpp:162-168 | Appends exactly the 4 little-endian bytes of x and keeps the prefix |
| Bytes.ByteStream.PushFloat | SALVL2RBX/SALVL2RBX.cpp:169-172 | Appends the 4 little-endian bytes of the float's bit pattern |
| Rotation.RotateX | SALVL2RBX/Main.cpp:172-192 | Rows 1 and 2 are mixed, both from their values before the call |
| Rotation.RotateY | SALVL2RBX/Main.cpp:194-214 | Rows 0 and 2 are mixed, both from their values before the call |
| Rotation.RotateZ | SALVL2RBX/Main.cpp:216-236 | Rows 0 and 1 are mixed, both from their values before the call |
| Rotation.RotateXAsWritten | SALVL2RBX/SALVL2RBX.cpp:88-103 | The shared library's rotation: row 2 is computed from the already overwritten row 1 |
| Rotation.RotateYAsWritten | SALVL2RBX/SALVL2RBX.cpp:105-120 | Row 2 is computed from the already overwritten row 0 |
| Rotation.RotateZAsWritten | SALVL2RBX/SALVL2RBX.cpp:122-137 | Row 1 is computed from the already overwritten row 0 |
| Rotation.RotXInverse | SALVL2RBX/Main.cpp:172-192 | With sin² + cos² = 1, rotating by −θ undoes rotating by θ |
| Rotation.RotYInverse | SALVL2RBX/Main.cpp:194-214 | With sin² + cos² = 1, rotating by −θ undoes rotating by θ |
| Rotation.RotZInverse | SALVL2RBX/Main.cpp:216-236 | With sin² + cos² = 1, rotating by −θ undoes rotating by θ |
| Rotation.RotationsKeepOtherRows | SALVL2RBX/Main.cpp:172-236 | X changes only M10..M13 and M20..M23, Y only rows 0 and 2, Z only rows 0 and 1 |
| Rotation.AsWrittenCollapses | SALVL2RBX/SALVL2RBX.cpp:88-103 | A quarter turn about X of the identity as written makes row 2 the negation of row 1 (0, 0, ±1, 0), and turning back does not restore the identity; the row-saving version gives row 2 = (0, −1, 0, 0) and does restore it |
| Rotation.BuildLoaderMatrix | SA1LVL2RBX/SA1LVL2RBX.cpp:87-98 | The instance matrix of both loaders (SA2LVL2RBX.cpp:209-220 is the same code): the shared library's as-written turns Z, Y, X when ROTATE_XYZ (0x20) is set, else Y, X, Z, starting from the identity |
| Rotation.BuildStandaloneMatrix | SALVL2RBX/Main.cpp:293-304 | The standalone instance matrix: X, Y, Z when 0x20 is set, else Z, X, Y |
| Rotation.OrderMatters | SA1LVL2RBX/SA1LVL2RBX.cpp:87-98 | With all three angles a quarter turn, the loaders' matrix has entry (1, 2) = −1 with ROTATE_XYZ and 1 without; the standalone converter's two orders also differ |
| Rotation.OneTurnOrderFree | SA1LVL2RBX/SA1LVL2RBX.cpp:87-98 | When only one angle turns, both orders give the same matrix: that single as-written rotation of the identity |
| Rotation.ZeroTurnAsWritten | SALVL2RBX/SALVL2RBX.cpp:88-137 | A zero angle (sin 0, cos 1) leaves the matrix unchanged in each as-written rotation |
| Rotation.AsWrittenAgrees | SALVL2RBX/SALVL2RBX.cpp:88-137 | The as-written rotations match the row-saving ones in the first mixed row and the untouched rows, and in every entry when the sine is 0 |
| Rotation.ZeroSineAgrees | SALVL2RBX/SALVL2RBX.cpp:88-137 | With sine 0 each as-written rotation equals the row-saving one |
| Rotation.LoaderMatchesIntendedWithoutTurns | SA1LVL2RBX/SA1LVL2RBX.cpp:87-98 | When all three sines are 0, the loaders' matrix equals the intended matrix of row-saving turns, for either flag |
| Rotation.LoaderMissesIntended | SA1LVL2RBX/SA1LVL2RBX.cpp:87-98 | A single quarter turn about X without ROTATE_XYZ gives row 2 = (0, 0, −1, 0) in the loaders' matrix; the intended matrix has (0, −1, 0, 0) |
| Placement.TransposedFacts | SALVL2RBX/SALVL2RBX.cpp:826-837 | Transposing the 3×3 block twice restores it, keeps the identity, and the added offset is the transposed block applied to the correction |
| Placement.PlacementKeepsWorld | SALVL2RBX/SALVL2RBX.cpp:835-837 | Part position plus the turned recentred vertex equals instance position plus the turned original vertex, so recentring does not move geometry |
| Placement.ContributionFlags | SALVL2RBX/SALVL2RBX.cpp:819-845 | Every part instance made from an instance carries its flags and transparency and goes to the list its flags select |
| Placement.RoutedFlags | SALVL2RBX/SALVL2RBX.cpp:840-844 | Every entry of a routed list was routed there by its own flags |
| Placement.ListFlags | SALVL2RBX/SALVL2RBX.cpp:840-844 | Collision entries have the solid bit; visual entries lack it, have the visible bit and transparency 0 |
| Placement.RoutedSound | SALVL2RBX/SALVL2RBX.cpp:815-846 | Every routed entry is the part instance of some part of some earlier instance with a non-null mesh |
| Placement.RoutedComplete | SALVL2RBX/SALVL2RBX.cpp:815-846 | Every part of every instance with a mesh appears in the list its flags select |
| Placement.PartsOfAt | SALVL2RBX/SALVL2RBX.cpp:819-838 | The n-th part instance of an instance is made from the n-th part |
| Placement.PartsOfFlags | SALVL2RBX/SALVL2RBX.cpp:838 | Every part instance of an instance carries the instance's flags and the matching transparency |
| Placement.Place | SALVL2RBX/SALVL2RBX.cpp:815-846 | The loop over instances builds exactly the routed collision and visual lists |
| Placement.PlaceInstance | SALVL2RBX/SALVL2RBX.cpp:819-845 | One instance appends its contribution to each list |
| Placement.BuildPart | SALVL2RBX/SALVL2RBX.cpp:822-838 | A part instance: transposed block, offset position, the instance's flags |
| Basic.MaterialId | SA1LVL2RBX/SA1LVL2RBX.cpp:120 | type_matId & 0x3FFF is below 0x4000 |
| Basic.PolyType | SA1LVL2RBX/SA1LVL2RBX.cpp:139 | type_matId >> 14 is below 4, and type and material id recompose type_matId |
| Basic.StraightParity | SA1LVL2RBX/SA1LVL2RBX.cpp:168-172 | After toggling bit 15 before each triangle, triangle l is wound straight iff l is even and the header bit is clear, or l is odd and it is set |
| Basic.Unsigned16 | SA1LVL2RBX/SA1LVL2RBX.cpp:168 | The strip header read into a Uint16 agrees with the Sint16 entry modulo 2^16 |
| Basic.StripCount | SA1LVL2RBX/SA1LVL2RBX.cpp:169 | The strip count is the low 15 bits of the header |
| Basic.PrimitiveShape | SA1LVL2RBX/SA1LVL2RBX.cpp:143-189 | Triangle: 3 corners, cursor and UV +3. Quad: 6 corners, +4. Type 2: nothing. Strip of n: 3·max(n−2, 0) corners, cursor +n+1, UV +max(n−2, 0)+2 |
| Basic.StripLength | SA1LVL2RBX/SA1LVL2RBX.cpp:169-184 | A strip from triangle l emits 3·max(n−2−l, 0) corners |
| Basic.StripTriangleAt | SA1LVL2RBX/SA1LVL2RBX.cpp:169-184 | Triangle k of a strip is (k, k+1, k+2) when wound straight and (k+1, k, k+2) otherwise, with matching UV indices |
| Basic.CornersTriples | SA1LVL2RBX/SA1LVL2RBX.cpp:141-190 | A meshset always emits a multiple of three corners |
| Basic.OnlyQuadsDiffer | SA2LVL2RBX/SA2LVL2RBX.cpp:138-170 | The SA1 and SA2 decoders read triangles, type 2 and strips identically |
| Basic.QuadCorners | SA1LVL2RBX/SA1LVL2RBX.cpp:154-165 | SA1 quad: p0,p1,p2,p2,p1,p3 with UV j..j+3; SA2 quad (SA2LVL2RBX.cpp:147-154): (p2,p1,p3) twice with UV (2,1,2) then (2,1,3) |
| Basic.CornersFromStream | SA1LVL2RBX/SA1LVL2RBX.cpp:140-190 | Every corner's point index is read from the meshset's index stream |
| Basic.StripFromStream | SA1LVL2RBX/SA1LVL2RBX.cpp:166-188 | Every strip corner's point index comes from the stream |
| Basic.CornersOkMeaning | SA1LVL2RBX/SA1LVL2RBX.cpp:34-43 | A corner list is readable iff each corner's point, normal and UV index is in range |
| Basic.CornersOkAppend | SA1LVL2RBX/SA1LVL2RBX.cpp:34-43 | Readability of a concatenation is readability of both halves |
| Basic.SelectMaterialFacts | SA1LVL2RBX/SA1LVL2RBX.cpp:120-136 | In range: attrflags, the texture only with USE_TEXTURE, diffuse r<<16\|g<<8\|b; out of range: the part's material is unchanged |
| Basic.CornerVerticesAppend | SA1LVL2RBX/SA1LVL2RBX.cpp:30-48 | Vertices of a concatenation are the concatenated vertices |
| Basic.CornerVerticesAt | SA1LVL2RBX/SA1LVL2RBX.cpp:30-48 | Vertex k is the vertex built from corner k |
| Basic.CornerVertexTex | SA1LVL2RBX/SA1LVL2RBX.cpp:40-48 | Without UVs tex is (0, 0); with UVs tex·256 = (u, v), tex·512 instead when FLIP_U / FLIP_V is set |
| Sa1.DecodeMeshsetIsInsertAll | SA1LVL2RBX/SA1LVL2RBX.cpp:119-190 | Decoding a meshset adds its corner vertices to the part's table and appends their indices, after selecting the material |
| Sa1.EmitCornersLength | SA1LVL2RBX/SA1LVL2RBX.cpp:30-52 | One index per corner; the table only grows |
| Sa1.EmitCornersAppend | SA1LVL2RBX/SA1LVL2RBX.cpp:30-52 | Indexing two corner lists in turn is indexing their concatenation |
| Sa1.EmitCornersIsInsertAll | SA1LVL2RBX/SA1LVL2RBX.cpp:30-52 | Indexing corners one by one equals adding all their vertices to the table and appending their positions |
| Sa1.IndexVertex | SA1LVL2RBX/SA1LVL2RBX.cpp:30-52 | Builds the corner's vertex and pushes AddVertex's index |
| Sa1.Triangle | SA1LVL2RBX/SA1LVL2RBX.cpp:147-149 | Three IndexVertex calls index the three corners in order |
| Sa1.StripTriangle | SA1LVL2RBX/SA1LVL2RBX.cpp:172-183 | One strip step indexes that triangle's corners in its winding |
| Sa1.StripLoop | SA1LVL2RBX/SA1LVL2RBX.cpp:168-184 | The strip loop indexes exactly the strip's corners |
| Sa1.StripPass | SA1LVL2RBX/SA1LVL2RBX.cpp:169-184 | One pass of the strip loop: after triangle l is indexed in the winding of its toggled bit, indexing the triangles from l+1 on still ends in the same vertex and index tables as indexing from l on did before the pass |
| Sa1.DecodeStrip | SA1LVL2RBX/SA1LVL2RBX.cpp:166-188 | Indexes the strip's corners and advances cursor and UV index as the strip primitive says |
| Sa1.DecodeTriangle | SA1LVL2RBX/SA1LVL2RBX.cpp:145-153 | Indexes the triangle's corners and advances by 3 |
| Sa1.DecodeQuad | SA1LVL2RBX/SA1LVL2RBX.cpp:154-165 | Indexes the quad's six corners and advances by 4 |
| Sa1.DecodePrimitive | SA1LVL2RBX/SA1LVL2RBX.cpp:143-189 | The switch on the polygon type indexes that primitive's corners |
| Sa1.ApplyMaterial | SA1LVL2RBX/SA1LVL2RBX.cpp:123-136 | The part's flags, texture and diffuse become the selected material |
| Sa1.DecodePrimitives | SA1LVL2RBX/SA1LVL2RBX.cpp:141-190 | The loop over nbMesh primitives indexes all of the meshset's corners |
| Sa1.PrimitivePass | SA1LVL2RBX/SA1LVL2RBX.cpp:141-190 | One pass of the nbMesh loop: the cursor and j move past one primitive, and indexing the remaining count−1 primitives from there gives the tables that indexing all count primitives gave from the old cursor and the old tables |
| Sa1.LoadMeshset | SA1LVL2RBX/SA1LVL2RBX.cpp:119-190 | The part becomes the decoded meshset value |
| Sa1.DecodeUpToNext | SA1LVL2RBX/SA1LVL2RBX.cpp:116-191 | The mesh after k+1 meshsets is the mesh after k with meshset k decoded into its material's part |
| Sa1.DecodeNextKeys | SA1LVL2RBX/SA1LVL2RBX.cpp:120-121 | Decoding adds the meshset's material to the parts, and the creation order stays a duplicate-free list of exactly the parts |
| Sa1.DecodeUpToKeys | SA1LVL2RBX/SA1LVL2RBX.cpp:116-121 | The parts of a decoded mesh are exactly the material ids of its meshsets, listed once each |
| Sa1.DecodeMeshsetIndices | SA1LVL2RBX/SA1LVL2RBX.cpp:51 | Below 0x8000 vertices every index is in range, the k-th new index names the k-th corner vertex, the old table is a prefix, no duplicates appear |
| Sa1.PartFor | SA1LVL2RBX/SA1LVL2RBX.cpp:121 | mesh.parts[material] finds the part or creates a default one, recorded at the end of the order |
| Sa1.DecodeInto | SA1LVL2RBX/SA1LVL2RBX.cpp:123-190 | Only the material's part changes, to its decoded value |
| Sa1.PlaceMeshset | SA1LVL2RBX/SA1LVL2RBX.cpp:119-190 | The mesh becomes the next step of the decoding |
| Sa1.LoadModel | SA1LVL2RBX/SA1LVL2RBX.cpp:113-191 | The mesh built for a model is its decoding: parts per material, in creation order |
| Sa1.InstancesFacts | SA1LVL2RBX/SA1LVL2RBX.cpp:70-202 | At most one instance per COL; every placed COL's instance is present and every instance comes from a placed COL, refers to a model used so far, and has flags only in bits 0 and 1 |
| Sa1.MakeInstance | SA1LVL2RBX/SA1LVL2RBX.cpp:82-102 | The instance of a placed COL: remapped flags, the rotation matrix, the position, the model key |
| Sa1.CacheModel | SA1LVL2RBX/SA1LVL2RBX.cpp:193-195 | Stores the model's mesh under its key without touching other meshes |
| Sa1.LoadCol | SA1LVL2RBX/SA1LVL2RBX.cpp:73-200 | A placed COL pushes its instance and decodes its model only the first time it is seen; other meshes are unchanged |
| Sa1.Loader | SA1LVL2RBX/SA1LVL2RBX.cpp:54-205 | The level gains the instances of all COLs and one mesh per model used, each the decoding of its model; earlier meshes are kept |
| Sa2.FlattenAt | SA2LVL2RBX/SA2LVL2RBX.cpp:101 | Face k's three entries sit at flat positions 3k, 3k+1, 3k+2 |
| Sa2.EmitFacesAppend | SA2LVL2RBX/SA2LVL2RBX.cpp:72-102 | Emitting two corner lists of whole triangles in turn is emitting their concatenation |
| Sa2.EmitTriangleFlat | SA2LVL2RBX/SA2LVL2RBX.cpp:72-102 | One face of three AddVertex results flattens to the three indices the SA1 decoder would push |
| Sa2.EmitFacesFlat | SA2LVL2RBX/SA2LVL2RBX.cpp:72-102 | Face emission agrees with flat index emission, one face per three corners |
| Sa2.BuildVertex | SA2LVL2RBX/SA2LVL2RBX.cpp:79-94 | Builds the corner's vertex: position, normal, scaled UV |
| Sa2.IndexVertexBasic | SA2LVL2RBX/SA2LVL2RBX.cpp:72-102 | Appends exactly one face, the AddVertex results of the three corner vertices |
| Sa2.DecodeTriangle | SA2LVL2RBX/SA2LVL2RBX.cpp:140-146 | Face (p0, p1, p2) with UV (l, l+1, l+2); cursor and l advance by 3 |
| Sa2.DecodeQuad | SA2LVL2RBX/SA2LVL2RBX.cpp:147-154 | Two faces, (p2, p1, p3) with UV (l+2, l+1, l+2) then (l+2, l+1, l+3); advance by 4 |
| Sa2.StripTriangle | SA2LVL2RBX/SA2LVL2RBX.cpp:161-164 | One strip step emits that triangle's face in its winding |
| Sa2.StripLoop | SA2LVL2RBX/SA2LVL2RBX.cpp:157-166 | The strip loop emits max(n−2, 0) faces and advances l by max(n−2, 0) |
| Sa2.StripPass | SA2LVL2RBX/SA2LVL2RBX.cpp:158-165 | One pass of the strip loop: `first` keeps the length n and its 0x8000 bit is toggled to the winding of triangle x+1, l moves by one, and emitting the faces from x+1 on still ends in the same tables |
| Sa2.DecodeStrip | SA2LVL2RBX/SA2LVL2RBX.cpp:155-169 | Emits the strip's faces; cursor +n+1 and l +max(n−2, 0)+2, as the strip primitive says |
| Sa2.DecodePrimitive | SA2LVL2RBX/SA2LVL2RBX.cpp:138-170 | The switch on the polygon type emits that primitive's faces |
| Sa2.DecodeFacesIsInsertAll | SA2LVL2RBX/SA2LVL2RBX.cpp:109-172 | A meshset adds one face per three corners, its vertices to the table, and flattened faces are the vertices' positions |
| Sa2.DecodeFacesValid | SA2LVL2RBX/SA2LVL2RBX.cpp:97-101 | Below 0x8000 vertices every face entry is in range and new face m names corner vertices 3m, 3m+1, 3m+2 |
| Sa2.DecodePrimitives | SA2LVL2RBX/SA2LVL2RBX.cpp:136-171 | The loop over nbMesh primitives emits the meshset's faces |
| Sa2.PrimitivePass | SA2LVL2RBX/SA2LVL2RBX.cpp:136-171 | One pass of the nbMesh loop: emitting the remaining count−1 primitives' faces from the new cursor and l gives the tables that emitting all count primitives gave before the pass |
| Sa2.LoadMeshset | SA2LVL2RBX/SA2LVL2RBX.cpp:112-171 | The part becomes the decoded meshset value |
| Sa2.FacesUpToNext | SA2LVL2RBX/SA2LVL2RBX.cpp:109-172 | The mesh after k+1 meshsets is the mesh after k with meshset k decoded |
| Sa2.FacesNextFlat | SA2LVL2RBX/SA2LVL2RBX.cpp:138-170 | Without quads, one SA2 decoding step flattened is the SA1 step |
| Sa2.FacesUpToFlat | SA2LVL2RBX/SA2LVL2RBX.cpp:104-176 | For a model without quads, the SA2 basic decoder flattened equals the SA1 decoder |
| Sa2.NoQuadsOk | SA2LVL2RBX/SA2LVL2RBX.cpp:147-154 | Without quads, the two decoders accept the same models |
| Sa2.PartFor | SA2LVL2RBX/SA2LVL2RBX.cpp:113-114 | mesh.parts[material] finds the part or creates a default one at the end of the order |
| Sa2.DecodeInto | SA2LVL2RBX/SA2LVL2RBX.cpp:116-171 | Only the material's part changes, to its decoded value |
| Sa2.PlaceMeshset | SA2LVL2RBX/SA2LVL2RBX.cpp:112-171 | The mesh becomes the next step of the decoding |
| Sa2.BuildMesh | SA2LVL2RBX/SA2LVL2RBX.cpp:104-172 | The mesh built for a model is its basic decoding |
| Sa2.LoadBasic | SA2LVL2RBX/SA2LVL2RBX.cpp:104-176 | Stores the decoded mesh under the model's key and keeps the other meshes |
| Sa2.ModelsUsedMeaning | SA2LVL2RBX/SA2LVL2RBX.cpp:196-241 | A model is cached iff some COL so far is placed with it |
| Sa2.ChoicesKeys | SA2LVL2RBX/SA2LVL2RBX.cpp:227-241 | A decoder choice is made exactly for the models first seen in this walk |
| Sa2.ChoicesFirst | SA2LVL2RBX/SA2LVL2RBX.cpp:236-239 | The choice for a model is the chunk test of the first COL that uses it: i < VisibleModelCount when that is non-negative, else the visible flag |
| Sa2.LoadCol | SA2LVL2RBX/SA2LVL2RBX.cpp:198-245 | A placed COL pushes its instance; a new model gets the empty mesh when the chunk decoder is chosen, else its basic decoding |
| Sa2.Loader | SA2LVL2RBX/SA2LVL2RBX.cpp:179-250 | Instances of all COLs; one mesh per model used, empty when its first COL chose the chunk decoder, else its basic decoding |
| Standalone.VertexEqIsEquality | SALVL2RBX/Main.cpp:42-50 | Comparing all sixteen fields is exactly value equality |
| Standalone.PointVertex | SALVL2RBX/Main.cpp:82-92 | The vertex has the point's position and normal and every other field at its default |
| Standalone.EmitPointsIsInsertAll | SALVL2RBX/Main.cpp:82-95 | Indexing points one by one equals adding all their vertices and appending their positions |
| Standalone.Recentred | SALVL2RBX/Main.cpp:139-144 | Recentring changes only positions |
| Standalone.CentreFacts | SALVL2RBX/Main.cpp:97-145 | Each axis ends centred with its old extent; size is at least 0.1 and at least the extent |
| Standalone.MeshPart.constructor | SALVL2RBX/Main.cpp:57-64 | A new part is empty with number 0 and zero box |
| Standalone.MeshPart.AddVertex | SALVL2RBX/Main.cpp:66-80 | The table becomes the old one with the vertex added if new; the result is the first equal position as a Uint16 |
| Standalone.MeshPart.IndexVertex | SALVL2RBX/Main.cpp:82-95 | Builds the point's vertex and pushes AddVertex's index |
| Standalone.MeshPart.AABBCorrect | SALVL2RBX/Main.cpp:97-145 | Size is the extent clamped to 0.1, the correction the midpoint, every vertex shifted by it |
| Standalone.Triangle | SALVL2RBX/Main.cpp:338-340 | Three IndexVertex calls index three points in order |
| Standalone.StripLoop | SALVL2RBX/Main.cpp:357-373 | The strip loop indexes exactly the strip's corners |
| Standalone.StripTriangle | SALVL2RBX/Main.cpp:360-372 | One strip triangle: points l, l+1, l+2 after the header, the first two swapped when the toggled winding bit is clear, are indexed into the part's tables |
| Standalone.StripPass | SALVL2RBX/Main.cpp:358-373 | One pass of the strip loop: indexing the triangles from l+1 on after the pass ends in the same tables as indexing from l on before it |
| Standalone.DecodeStrip | SALVL2RBX/Main.cpp:355-376 | Indexes the strip's corners and advances the cursor by n+1 |
| Standalone.DecodeTriangle | SALVL2RBX/Main.cpp:336-343 | Indexes p0, p1, p2 and advances by 3 |
| Standalone.DecodeQuad | SALVL2RBX/Main.cpp:344-354 | Indexes p0, p1, p2, p2, p1, p3 and advances by 4 |
| Standalone.DecodePrimitive | SALVL2RBX/Main.cpp:334-377 | The switch on the polygon type indexes that primitive's points |
| Standalone.DecodePrimitives | SALVL2RBX/Main.cpp:331-378 | The loop over nbMesh primitives indexes all of the meshset's points |
| Standalone.PrimitivePass | SALVL2RBX/Main.cpp:332-378 | One pass of the nbMesh loop: indexing the remaining count−1 primitives from the new cursor gives the tables that indexing all count primitives gave before the pass |
| Standalone.DecodeMeshsetIndices | SALVL2RBX/Main.cpp:94 | Below 0x8000 vertices every index is in range and names its point's vertex; the old table is a prefix |
| Standalone.DecodeUpToKeys | SALVL2RBX/Main.cpp:323-329 | The parts are exactly the meshsets' material ids, listed once each |
| Standalone.PartFor | SALVL2RBX/Main.cpp:329 | mesh.parts[material] finds the part or creates an empty one at the end of the order |
| Standalone.DecodeInto | SALVL2RBX/Main.cpp:331-378 | Only the material's part changes, to its decoded value |
| Standalone.PlaceMeshset | SALVL2RBX/Main.cpp:323-379 | The mesh becomes the next step of the decoding |
| Standalone.LoadModel | SALVL2RBX/Main.cpp:319-383 | The mesh built for a model is its decoding |
| Standalone.InstancesFacts | SALVL2RBX/Main.cpp:277-390 | At most one instance per COL; every placed COL's instance is present, and every instance comes from a placed COL and carries its flags unchanged |
| Standalone.InstancesUsable | SALVL2RBX/Main.cpp:277-390 | Every instance has a 4×4 matrix and refers to a cached model |
| Standalone.MakeInstance | SALVL2RBX/Main.cpp:289-308 | The instance of a placed COL: raw flags, standalone rotation order, position |
| Standalone.ReadCol | SALVL2RBX/Main.cpp:280-389 | Pushes the instance and decodes the model only on first sight into fresh parts |
| Standalone.ReadCols | SALVL2RBX/Main.cpp:273-390 | All instances and one mesh per model used, each its decoding, no part shared between meshes |
| Standalone.PairsDistinct | SALVL2RBX/Main.cpp:396-403 | The (mesh, material) visiting order lists every part exactly once |
| Standalone.WritePart | SALVL2RBX/Main.cpp:404-445 | Numbers the part, corrects its box and returns its .msh bytes |
| Standalone.WriteParts | SALVL2RBX/Main.cpp:392-447 | Part n gets number n modulo 2^32 and the .msh file of its contents |
| Standalone.MeshOrders | SALVL2RBX/Main.cpp:392-403 | The meshes' part orders are those of the decoded models |
| Standalone.RefsAfterWrite | SALVL2RBX/Main.cpp:404-407 | After writing, each part's correction is the box centre of the vertices it was decoded with |
| Standalone.InstancesPlaceable | SALVL2RBX/Main.cpp:453-455 | Every instance's mesh is present when placement dereferences it |
| Standalone.FilesOfValues | SALVL2RBX/Main.cpp:392-447 | The files written are the .msh files of the decoded parts in visiting order |
| Standalone.WriteMeshes | SALVL2RBX/Main.cpp:392-447 | Writes every part's file in order and leaves each part's correction for placement |
| Standalone.Convert | SALVL2RBX/Main.cpp:239-482 | The whole geometry path: decoded files, and collision and visual lists routed on bits 0x1 and 0x80000000 |
| MeshFile.FileHeader | SALVL2RBX/SALVL2RBX.cpp:647-657 | "version 2.00\n", bytes 0C 00 28 0C, LE vertex count and LE \|indices\|/3 (both mod 2^32); total 25 + 40·V + 4·I |
| MeshFile.FileRecord | SALVL2RBX/SALVL2RBX.cpp:659-667 | Vertex k occupies bytes 25+40k..25+40k+40 as its record |
| MeshFile.FileIndex | SALVL2RBX/SALVL2RBX.cpp:669-671 | Index k is the LE word at 25+40V+4k, equal to the index modulo 2^32 |
| MeshFile.IndexWordOfSint16 | SALVL2RBX/Main.cpp:438-442 | The word of a Sint16 index is its sign extension and gives the index back |
| MeshFile.WriteFile | SALVL2RBX/SALVL2RBX.cpp:647-671 | Appends the whole .mesh file |
| MeshFile.WriteHeader | SALVL2RBX/SALVL2RBX.cpp:647-657 | Appends magic and header |
| MeshFile.WriteRecords | SALVL2RBX/SALVL2RBX.cpp:660-667 | Appends one record per vertex in order |
| MeshFile.WriteIndices | SALVL2RBX/SALVL2RBX.cpp:670-671 | Appends one LE word per index in order |
| MeshFile.WriteRecord | SALVL2RBX/SALVL2RBX.cpp:662-666 | Position, normal, tex words, four zero tangent bytes, four 0xFF tint bytes |
| MeshFile.WriteVec3 | SALVL2RBX/SALVL2RBX.cpp:662 | Three float words in x, y, z order |
| Emitter.Decimal | SALVL2RBX/SALVL2RBX.cpp:632 | std::to_string: decimal digits, leading zero only for 0 |
| Emitter.DecimalRoundTrip | SALVL2RBX/SALVL2RBX.cpp:632 | Reading the digits back gives the number |
| Emitter.MeshNamesDistinct | SALVL2RBX/SALVL2RBX.cpp:632 | Different numbers give different "n.mesh" names |
| Emitter.WritePart | SALVL2RBX/SALVL2RBX.cpp:627-672 | AABBCorrect, name and number, and the part's .mesh bytes |
| Emitter.WriteMeshes | SALVL2RBX/SALVL2RBX.cpp:617-676 | Part n in visiting order gets number n modulo 2^32, its name and its file |
| Emitter.WrittenNamesDistinct | SALVL2RBX/SALVL2RBX.cpp:619-674 | Below 2^32 parts, no two written parts share a file name |
| Emitter.AssetName | SALVL2RBX/SALVL2RBX.cpp:782 | The rbxasset URL ends with the name, so different names give different URLs |
| Emitter.WithUrlsFacts | SALVL2RBX/SALVL2RBX.cpp:780-786 | Setting URLs keeps names, size and transparency, gives each variant its name's URL, and is idempotent |
| Emitter.TextureUrls | SALVL2RBX/SALVL2RBX.cpp:780-786 | Every texture gets its four URLs and nothing else changes |
| Emitter.VariantOfTexture | SALVL2RBX/SALVL2RBX.cpp:792-804 | The variant shown is the flip prefix selected by FLIP_U/FLIP_V plus the name, with that name's URL |
| Emitter.PartUrl | SALVL2RBX/SALVL2RBX.cpp:791-804 | The part's URL from its name; a textured part's texture name and URL from the variant; untextured parts keep theirs |
| Emitter.PartUrls | SALVL2RBX/SALVL2RBX.cpp:787-806 | The same for every part, names, flags and textures unchanged |
| Emitter.RefsOf | SALVL2RBX/SALVL2RBX.cpp:819-837 | Placement sees each part by material id and box correction, in order |
| Emitter.PlaceInstances | SALVL2RBX/SALVL2RBX.cpp:809-846 | The emitter's routing on bits 0 and 1: collision entries solid, visual entries not solid but visible |
| Csg.PreludeFields | SALVL2RBX/SALVL2RBX.cpp:899-913 | Record header: 16, sixteen zeros, 16, zeros, float 1.0 (0x3F800000), 18 coordinates, 4 bytes each |
| Csg.ClosingFields | SALVL2RBX/SALVL2RBX.cpp:923-926 | Record tail: 6 indices 0, 1, 2, 5, 4, 3 |
| Csg.CornersTwoSided | SALVL2RBX/SALVL2RBX.cpp:925-926 | The back triangle is the front one reversed on the inset points |
| Csg.TriRecordFields | SALVL2RBX/SALVL2RBX.cpp:899-926 | A triangle's 148-byte record: header, the 3 points then the 3 points inset by 0.125 along the normal, the closing indices |
| Csg.TrisAt | SALVL2RBX/SALVL2RBX.cpp:892-927 | Record s of the blob body is the record of face s |
| Csg.TrisNext | SALVL2RBX/SALVL2RBX.cpp:892-927 | One more face appends its record |
| Csg.BlobLayout | SALVL2RBX/SALVL2RBX.cpp:886-927 | "CSGPHS", LE 3, then one 148-byte record per triangle: length 10 + 148·T |
| Csg.PushPoint | SALVL2RBX/SALVL2RBX.cpp:915 | Three float words of a point |
| Csg.PartBytes | SALVL2RBX/SALVL2RBX.cpp:900-913 | The literal header bytes are the fields they stand for |
| Csg.PushTriIndices | SALVL2RBX/SALVL2RBX.cpp:900-904 | Appends 16 then sixteen zero bytes |
| Csg.PushTransform | SALVL2RBX/SALVL2RBX.cpp:906-909 | Appends 16 then the transform offsets ending in float 1.0 |
| Csg.PushCounts | SALVL2RBX/SALVL2RBX.cpp:912-913 | Appends 18 and 4 |
| Csg.PushPrelude | SALVL2RBX/SALVL2RBX.cpp:899-913 | Appends the record header |
| Csg.PushPoints | SALVL2RBX/SALVL2RBX.cpp:915-921 | Appends the six points' coordinates |
| Csg.PushNextPoint | SALVL2RBX/SALVL2RBX.cpp:915-921 | Pushing point k after points 0..k−1 leaves the stream holding the little-endian float words of points 0..k |
| Csg.ClosingBytes | SALVL2RBX/SALVL2RBX.cpp:924-926 | The literal index words are 6, 0, 1, 2 and 5, 4, 3 |
| Csg.PushClosing | SALVL2RBX/SALVL2RBX.cpp:923-926 | Appends the record tail |
| Csg.PushFront | SALVL2RBX/SALVL2RBX.cpp:924-925 | Appends the index count 6 and the front triangle 0, 1, 2 as little-endian words, after the old contents |
| Csg.PushBack | SALVL2RBX/SALVL2RBX.cpp:926 | Appends the back triangle 5, 4, 3 as little-endian words, after the old contents |
| Csg.PushTriangle | SALVL2RBX/SALVL2RBX.cpp:894-926 | Appends one triangle's record |
| Csg.PushHead | SALVL2RBX/SALVL2RBX.cpp:888-889 | Appends "CSGPHS" and LE 3 |
| Csg.PushFace | SALVL2RBX/SALVL2RBX.cpp:892-927 | One loop step appends the next face's record |
| Csg.BuildBlob | SALVL2RBX/SALVL2RBX.cpp:886-927 | The bytes built are the blob of the part's faces |
| Csg.EncodedDecodes | SALVL2RBX/SALVL2RBX.cpp:72-84 | The stored text decodes to the blob, and the hash text decodes to the digest of the stored text |
| Csg.Encode | SALVL2RBX/SALVL2RBX.cpp:72-84 | SALVL_CSGMesh::Encode: Base64 of the data, then Base64 of the digest of that text |
| Csg.Entry | SALVL2RBX/SALVL2RBX.cpp:886-933 | A new entry is the encoding of the part's blob |
| Csg.CachedHit | SALVL2RBX/SALVL2RBX.cpp:935-938 | A part already in the memo reuses its entry and builds nothing |
| Csg.CachedMiss | SALVL2RBX/SALVL2RBX.cpp:884-933 | A new part gets a freshly built entry |
| Csg.CollisionStep | SALVL2RBX/SALVL2RBX.cpp:878-939 | One collision entry keeps the memo invariant |
| Csg.CollisionMeshes | SALVL2RBX/SALVL2RBX.cpp:878-939 | The memo holds exactly the collision parts, each with the encoding of its blob; each entry uses its part's hash; each part built once |
| Csg.FirstByKeyFacts | SALVL2RBX/SALVL2RBX.cpp:1067-1075 | Keeping the first mesh per hash leaves distinct hashes, all from the input, covering every hash |
| Csg.SharedStrings | SALVL2RBX/SALVL2RBX.cpp:1065-1076 | One shared string per distinct hash, in visiting order, covering every memo entry |
| Base64.ValueOfSextet | SALVL2RBX/SALVL2RBX.cpp:35 | The lookup alphabet is invertible and holds neither '=' nor newline |
| Base64.EncodeLength | SALVL2RBX/SALVL2RBX.cpp:32-58 | The padded output has 4·⌈n/3⌉ characters |
| Base64.EncodeAppend | SALVL2RBX/SALVL2RBX.cpp:43-52 | Encoding is group by group: a prefix of whole triples encodes separately |
| Base64.EncodeNoNewline | SALVL2RBX/SALVL2RBX.cpp:35 | The unbroken output has no newline |
| Base64.LinesUnbroken | SALVL2RBX/SALVL2RBX.cpp:60-67 | Removing the inserted newlines gives back the unbroken text |
| Base64.LinesAt | SALVL2RBX/SALVL2RBX.cpp:60-67 | Line j holds characters 72j.. of the text, at most 72, followed by a newline unless it is the last |
| Base64.LinesLength | SALVL2RBX/SALVL2RBX.cpp:60-67 | One newline per 72 characters after the first line, none trailing |
| Base64.UngroupGroup | SALVL2RBX/SALVL2RBX.cpp:43-52 | Four characters of a full group decode to its three bytes |
| Base64.DecodeTail | SALVL2RBX/SALVL2RBX.cpp:54-58 | The padded last group decodes to its one or two bytes |
| Base64.DecodeEncode | SALVL2RBX/SALVL2RBX.cpp:32-58 | Decoding the padded output gives back the data (section 4 of RFC 4648) |
| Base64.DecodeOutput | SALVL2RBX/SALVL2RBX.cpp:32-70 | The line-broken output decodes back to the data |
| Base64.DrainLoop | SALVL2RBX/SALVL2RBX.cpp:47-51 | The inner loop emits one sextet per step while valb ≥ 0 and ends with valb in [−6, 0) when it started at −6 or above |
| Base64.EncodeTriple | SALVL2RBX/SALVL2RBX.cpp:43-52 | Three more bytes add their four-character group |
| Base64.EncodeSplit | SALVL2RBX/SALVL2RBX.cpp:54-58 | The output is the whole groups followed by the padded tail |
| Base64.FlushNone | SALVL2RBX/SALVL2RBX.cpp:54-58 | With n divisible by 3 the accumulated text is already the encoding |
| Base64.FlushOne | SALVL2RBX/SALVL2RBX.cpp:54-58 | With one trailing byte, the flushed sextet and "==" complete the encoding |
| Base64.FlushTwo | SALVL2RBX/SALVL2RBX.cpp:54-58 | With two trailing bytes, the flushed sextet and "=" complete the encoding |
| Base64.Base64 | SALVL2RBX/SALVL2RBX.cpp:32-70 | The method returns the line-broken standard encoding |
| Base64.Accumulate | SALVL2RBX/SALVL2RBX.cpp:40-52 | The byte loop emits every complete sextet and keeps the unsent bits in val/valb |
| Base64.AccStep | SALVL2RBX/SALVL2RBX.cpp:45-51 | One byte step keeps the accumulator invariant |
| Base64.Pad | SALVL2RBX/SALVL2RBX.cpp:57-58 | Appends '=' until the length is a multiple of 4 |
| Base64.BreakLines | SALVL2RBX/SALVL2RBX.cpp:60-67 | The line-break loop builds the 72-column text |
| UrlEncode.HexDigitValue | SALVL2RBX/SALVL2RBX.cpp:191-192 | Uppercase hex digits read back as their value |
| UrlEncode.EncodedAppend | SALVL2RBX/SALVL2RBX.cpp:181-194 | Encoding is character by character |
| UrlEncode.EncodedLength | SALVL2RBX/SALVL2RBX.cpp:181-194 | Output length is n + 2·(number of escaped bytes) |
| UrlEncode.EncodedAlphabet | SALVL2RBX/SALVL2RBX.cpp:184-192 | The output holds only unreserved characters, '%' and uppercase hex digits (sections 2.1 and 2.3 of RFC 3986) |
| UrlEncode.EncodedUnreserved | SALVL2RBX/SALVL2RBX.cpp:184-187 | Text of unreserved characters is kept unchanged |
| UrlEncode.DecodedEncoded | SALVL2RBX/SALVL2RBX.cpp:175-197 | Percent-decoding the output gives back the bytes |
| UrlEncode.URLEncode | SALVL2RBX/SALVL2RBX.cpp:175-197 | The loop builds the percent-encoding |
| Texlist.FirstOf | SALVL2RBX/SALVL2RBX.cpp:508 | find_first_of: the first matching position, or none when no character matches |
| Texlist.LastOf | SALVL2RBX/SALVL2RBX.cpp:509 | find_last_of: the last matching position, or none |
| Texlist.LineNameNone | SALVL2RBX/SALVL2RBX.cpp:508-511 | A line is skipped iff it has no comma |
| Texlist.LineNameOneComma | SALVL2RBX/SALVL2RBX.cpp:508-513 | With one comma, the name is everything after it |
| Texlist.LineNameBetween | SALVL2RBX/SALVL2RBX.cpp:508-513 | With two or more, the name is strictly between the first and last comma |
| Texlist.TexBase | SALVL2RBX/SALVL2RBX.cpp:484-486 | The texture folder is the texlist path up to and including its last '/' or '\\', else empty |
| Texlist.FlipNamesDistinct | SALVL2RBX/SALVL2RBX.cpp:516-518 | The names fu_, fv_, fuv_ + name differ from each other and from the name and give the name back |
| Texlist.TexturesCount | SALVL2RBX/SALVL2RBX.cpp:499-608 | At most one texture per line, none from lines without a comma |
| Texlist.ReadTexlist | SALVL2RBX/SALVL2RBX.cpp:499-609 | Status 0 iff every named texture loads, then one texture per named line in order; status 1 stops at the first failed load, keeping the textures before it |
| Texlist.ReadLine | SALVL2RBX/SALVL2RBX.cpp:500-608 | One line: skip, append its texture, or fail on a missing image |
| Texlist.LoadTexture | SALVL2RBX/SALVL2RBX.cpp:513-537 | The texture's names, size and transparency from the image |
| Texlist.TranslucentArray | SALVL2RBX/SALVL2RBX.cpp:534-537 | The image is transparent iff some pixel's alpha is not 0xFF |
| Texlist.FlatToRowColumn | SALVL2RBX/SALVL2RBX.cpp:535-536 | A flat pixel index names a row and column |
| Texlist.RowColumnToFlat | SALVL2RBX/SALVL2RBX.cpp:535-536 | Every row and column has a flat index |
| Texlist.Transparent | SALVL2RBX/SALVL2RBX.cpp:534-537 | The scan finds a non-opaque pixel iff one exists |
| Texlist.MirrorFacts | SALVL2RBX/SALVL2RBX.cpp:553-555 | The mirrored source column is in range, symmetric, and the identity on the left half |
| Texlist.FlipU | SALVL2RBX/SALVL2RBX.cpp:550-558 | fu is 2w wide; column x shows source column x, or 2w−1−x on the right half |
| Texlist.CopyRow | SALVL2RBX/SALVL2RBX.cpp:563 | Copies one row and leaves the others |
| Texlist.FlipV | SALVL2RBX/SALVL2RBX.cpp:560-563 | fv is 2h tall; the top half is the source and row h+y is source row h−1−y |
| Texlist.FlippedCopies | SALVL2RBX/SALVL2RBX.cpp:550-568 | The three mirrored copies; fuv mirrors fu vertically, so both coordinates mirror |
| Texlist.BumpedFacts | SALVL2RBX/SALVL2RBX.cpp:579-582 | A nudge moves one channel by at most 1, saturating at 0 and 0xFF, and leaves the other channels and alpha |
| Texlist.Nudge | SALVL2RBX/SALVL2RBX.cpp:570-583 | Only the chosen pixel changes, in the chosen channel, up or down by the coin |
| Winding.FlippedReverses | SALVL2RBX/SALVL2RBX.h:209-233 | A flipped face keeps its vertices and runs a shared edge the other way |
| Winding.FlipCorners | SALVL2RBX/SALVL2RBX.h:210 | A swap keeps the face's multiset of indices |
| Winding.EdgeListMembers | SALVL2RBX/SALVL2RBX.h:180-188 | The list of a directed edge holds exactly the faces that have that edge |
| Winding.Listed | SALVL2RBX/SALVL2RBX.h:177-188 | Every face listed under an edge is a valid face with that edge |
| Winding.Push | SALVL2RBX/SALVL2RBX.h:185 | edges[e].push_back(o) appends o under e only |
| Winding.AddFace | SALVL2RBX/SALVL2RBX.h:182-187 | A face is listed under each of its three edges |
| Winding.BuildEdges | SALVL2RBX/SALVL2RBX.h:177-188 | The edge map lists every face under each of its edges |
| Winding.BuiltIndexed | SALVL2RBX/SALVL2RBX.h:177-188 | The built map is sound and lists every face under each of its edges |
| Winding.Fix | SALVL2RBX/SALVL2RBX.h:190-265 | fix(i) fixes every face sharing a directed edge with face i; each one it flips now runs that edge the other way; already fixed faces are untouched |
| Winding.Reversed | SALVL2RBX/SALVL2RBX.h:203-234 | After the three swap loops, each newly fixed neighbour runs the shared edge opposite to face i |
| Winding.FlipStep | SALVL2RBX/SALVL2RBX.h:209-211 | Swap and recurse: the neighbour ends fixed and the pass makes progress |
| Winding.FlipList | SALVL2RBX/SALVL2RBX.h:203-212 | Every face under the edge ends fixed |
| Winding.VisitList | SALVL2RBX/SALVL2RBX.h:236-244 | Every face under the edge ends fixed; when all already were, nothing changes |
| Winding.FixFrom | SALVL2RBX/SALVL2RBX.h:267-274 | The top loop keeps every face before i fixed |
| Winding.FlippedCorners | SALVL2RBX/SALVL2RBX.h:210-232 | Any flip keeps the face's vertices |
| Winding.FixWinding | SALVL2RBX/SALVL2RBX.h:176-274 | Every face ends fixed; starting faces are unchanged, every other face is flipped once and keeps its multiset of indices; face 0 is a starting face |

## Left out

- Reading the level, texlist and images (LandTableInfo, stb_image), writing files, the XML text of the .rbxmx, console output and `system("pause")`. Files written are returned as byte sequences; the texlist is given as its lines, the images through `load`.
- Failing to open the texlist, a mesh file or the .rbxmx, failing to allocate the flip buffers, and failing to write the textures. None of these failure paths is modelled.
- Asset upload: HTTP, XSRF retry, response reading, cookie import, WSA start-up and the `BackingAssetId` extraction that only matters there.
- MD5 is a parameter `md5`; the bit pattern of a float is a parameter `bits`; `sinf`/`cosf` of an angle are the parameters `s` and `c`.
- Float rounding and special values: positions and UVs are exact reals. NaN, infinities and the difference between 0.0 and −0.0 are not represented, so field-wise `==` is value equality.
- Salvl.MeshPart.AABBCorrect: on a part with no vertices the source computes size and correction from ±infinity; the model gives the clamp size and a zero correction instead.
- Standalone.MeshPart.AABBCorrect: the same for an empty part.
- Texlist.Nudge: the `rand()` values are parameters. The four buffers are nudged by the same method, and the pixel address arithmetic is stated as row, column and channel.
- Base64: `int val` is unbounded in the model. In the source it overflows after a few bytes, but only its low bits are ever read.
- UrlEncode: `isalnum` is taken as ASCII letters and digits, the C locale. A negative `char` passed to `isalnum` is not modelled.
- The unordered maps' iteration order is not modelled. Parts are visited in creation order and meshes in an order given by the caller.
- The CSG memo is keyed by the part object, as in the source; the text of a string is hashed as its characters modulo 256.
- Counters are unbounded integers apart from the wrap-arounds stated in the contracts: the Uint16 vertex index, the Sint16 face entries and the unsigned file number. The Uint16 UV counter of SA1 and the Sint16 `l` of SA2 are not wrapped; the decoders require every UV index they read to be in range.
- The SA2 chunk decoder `SA2LVL_LoadChunk` only walks an external chunk list and logs; it stores nothing. The model gives a chunk-routed model the empty mesh that `lvl.meshes[object->model]` creates.
- `AutoNormals` after the winding fix: clearing and accumulating the vertex normals (SALVL2RBX.h:276-336) is square roots and division and is not modelled.
- The winding fix is modelled as a method over the part's faces rather than a recursive lambda. The second group of loops in `fix` (SALVL2RBX.h:236-264) walks the same edge lists as the first, so it never finds an unfixed face; `Winding.VisitList` states this.
- Winding.FixWinding does not claim that the final winding is consistent across every shared edge. A face fixed through one edge may still disagree with another neighbour that was fixed earlier; only the edge-by-edge facts of `Winding.Fix` are proved.

## Findings

| source | as written | input that shows it | evidently intended | confidence | as-written member | corrected member |
|---|---|---|---|---|---|---|
| SALVL2RBX/SALVL2RBX.cpp:88-137 | `Reimp_njRotateX/Y/Z` overwrite the first row and then compute the second row from the new first row | identity matrix, sin = 1, cos = 0 about X: rows 1 and 2 become (0,0,1,0) and (0,0,−1,0), and rotating back by sin = −1 does not restore the identity | compute both rows from their values before the call, as SALVL2RBX/Main.cpp:172-236 does | not executed | Rotation.AsWrittenCollapses, Rotation.LoaderMissesIntended | Rotation.RotXInverse |

The SA1 and SA2 loaders call these rotations, so their instance matrix (`Rotation.LoaderMatrix`, built by `Rotation.BuildLoaderMatrix`) is modelled as written. The matrix they evidently intend is `Rotation.IntendedLoaderMatrix`, made of the row-saving turns. The two agree when no angle turns (`Rotation.LoaderMatchesIntendedWithoutTurns`). The standalone converter already uses the row-saving rotations.
