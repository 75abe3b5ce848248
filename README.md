# Voxel engine core, modelled in Dafny

This project models the engine of a browser voxel game. A world is an unbounded
plane of 16×16×16 chunks, one per column. Each chunk keeps its cells in a byte
array. The pieces modelled are:

- a layered terrain rule fills each chunk;
- the world streams chunks in and out around the player, keyed by `"cx,cz"` strings;
- a mesher turns the visible faces of a chunk into vertex, colour and index lists;
- saves compress each chunk's cells with run-length encoding;
- a seeded Perlin noise generator, `Noise.js`, is modelled on its own. The world
  builds a `SimplexNoise` for its heights, not a `Noise`, so in the model the height
  field is a parameter.

The modules follow the source files:

- `Blocks` (`blocks.dfy`) holds what the others share: the byte type of a stored
  cell, the `Uint8Array` write truncation, and an `Option` type.
- `Save` (`save.dfy`) is `Save.js`: the run-length codec on sequences, and
  compression and decompression over a key → blocks map. The encoder and decoder
  are methods with the source's loops. Each is proved against `Expand`, which
  turns a run list back into its cells, and the round trip and the uniqueness of
  the encoding are proved about that function.
- `Chunk` (`chunk.dfy`) is `Chunk.js`: `class Chunk` owns its `array<byte>` and
  updates it in place:
  - the cell index maps `[0,16)³` onto `[0,4096)` one-to-one;
  - `getBlock` and `setBlock` check their ranges;
  - `GenerateTerrain` is the triple loop that writes the layering rule;
  - `BuildMesh` and its loop pieces are proved to produce `MeshOf(Faces(world))`.
    `Faces` is defined in the loop's own x, y, z, direction order. The culling rule
    is proved as an if-and-only-if about which faces appear.
- `World` (`world.dfy`) is `World.js`:
  - chunk keys are decimal strings and are proved to parse back, hence injective;
  - `class World` holds a `map<string, Chunk>`;
  - getChunk, getBlock, setBlock, markChunkDirty, loadChunk, unloadChunk, clear,
    loadChunks, the initial generation and the streaming part of `update` are
    methods over that map, with frame conditions saying which chunks change;
  - the window of keys around the player is a set with exactly (2r+1)² members,
    and `Update` leaves exactly that set loaded.
- `Noise` (`noise.dfy`) is the integer side of `Noise.js`:
  - the seed recurrence;
  - the `p`, `perm` and `gradP` tables built by the constructor, tied to pure
    functions of the initial seed;
  - the lattice hashing of `noise`, whose every table index is proved in range.

The terrain's column height, `floor(octaveNoise(...) * 10 + 30)`, is floating-point
noise. The model takes it as a parameter `height: (int, int) -> int` of the world.
The mesher also takes a parameter: `world`, its block lookup across chunk
borders. `World.GetBlock` is the function the engine passes for it.

Where the source's calls do not fit together, the model follows the evident intent:

- `World` calls `chunk.generate()`, which does not exist. The model runs the
  terrain generator there.
- `World` writes `chunk.dirty`, but `Chunk` reads `needsUpdate`. The model uses
  `needsUpdate` throughout.
- `World` builds chunks with `new Chunk(x, z, world)` against the four-argument
  constructor. The model uses column chunks `(cx, cz)` with local y = world y.
- `update` unloads through `unloadChunk(chunk.x, chunk.z)`. On a column chunk those
  are its own coordinates, so the model unloads that chunk.
- `compressChunks` walks a `Map` with `for ... in`. `loadChunks` calls `.entries()`
  on a plain object. Both are modelled over an abstract key → value map.

## Model

| member | source | states |
|---|---|---|
| Blocks.ToUint8 | js/engine/Chunk.js:28 | storing a number in the `Uint8Array` keeps it unchanged when it is in [0,256) and otherwise congruent to it modulo 256 |
| Save.RepeatFacts | js/engine/Save.js:84-86 | the inner decode loop pushes `value` exactly `count` times, nothing for a count ≤ 0 |
| Save.ExpandLength | js/engine/Save.js:81-89 | the decoded length is the sum of the counts |
| Save.Expand | js/engine/Save.js:81-89 | the cells a run list decodes to, runs in order; `ExpandSnoc` and the codec's round trip are stated about it |
| Save.ExpandSnoc | js/engine/Save.js:83-87 | decoding one more pair appends that pair's run after the earlier output, so values come out in pair order |
| Save.LastRunIsMaximal | js/engine/Save.js:69-77 | in a well-formed encoding the last pair's value ends the output, and its run is maximal: exactly `count` trailing cells equal it, and what precedes them decodes from the earlier pairs |
| Save.WellFormedUnique | js/engine/Save.js:63-79 | two well-formed encodings (counts ≥ 1, neighbouring values different) that decode to the same cells are equal, so the encoder's output is the only maximal-run encoding |
| Save.ConstantEncoding | js/engine/Save.js:63-78 | a constant array of length n > 0 has the single well-formed encoding `[[v, n]]` (4096 zeros give `[[0, 4096]]`) |
| Save.RunLengthEncode | js/engine/Save.js:63-79 | for a non-empty array the output is well formed (counts ≥ 1, neighbouring values different), decodes to the input, and its counts sum to the input length |
| Save.WellFormedSnoc | js/engine/Save.js:72 | pushing a pair with a positive count whose value differs from the last pair keeps an encoding well formed |
| Save.ExtendRun | js/engine/Save.js:69-70 | when the next block equals the open run's value, counting it keeps closed pairs plus the open run equal to the blocks read so far |
| Save.CloseRun | js/engine/Save.js:71-75 | when the next block differs, pushing the open run keeps the pairs well formed, and they plus a new run of the next block expand to the blocks read so far |
| Save.EncodeNext | js/engine/Save.js:69-75 | one loop iteration keeps the encoder's invariant: closed pairs well formed, the open run's value different from the last closed pair, and closed pairs plus open run expanding to the blocks read, one more than before |
| Save.FinishEncode | js/engine/Save.js:77 | the final push closes the open run into a well-formed encoding of the whole input whose counts sum to its length |
| Save.RunLengthDecode | js/engine/Save.js:81-89 | the output is `Expand` of the pairs, and its length is the sum of the counts |
| Save.EncodeDecodeRoundTrip | js/engine/Save.js:63-89 | `runLengthDecode(runLengthEncode(b)) == b` for every non-empty `b` |
| Save.CompressChunks | js/engine/Save.js:42-51 | exactly the entries that have blocks are encoded, each to a well-formed encoding of its blocks |
| Save.DecompressChunks | js/engine/Save.js:53-61 | every key is kept, and each value is decoded from its pairs |
| Save.CompressRoundTrip | js/engine/Save.js:42-61 | decompressing after compressing gives back exactly the entries that had blocks, and their blocks |
| Chunk.BlockIndex | js/engine/Chunk.js:13-15 | the index `x + 16y + 256z` of an in-range cell lies in [0,4096), the length of `blocks` |
| Chunk.CellOf | js/engine/Chunk.js:13-15 | every index of `blocks` names an in-range cell |
| Chunk.CellOfBlockIndex | js/engine/Chunk.js:13-15 | `CellOf` undoes `getBlockIndex` |
| Chunk.BlockIndexOfCell | js/engine/Chunk.js:13-15 | `getBlockIndex` undoes `CellOf`, so the index is onto [0,4096) |
| Chunk.BlockIndexInjective | js/engine/Chunk.js:13-15 | distinct in-range cells have distinct indices |
| Chunk.Layer | js/engine/Chunk.js:47-57 | the layering rule for one cell: always one of stone, dirt, grass, water or air, and air exactly when the cell is at or above both the surface and the sea level 25; `ColumnProfile` states each layer's range |
| Chunk.ColumnProfile | js/engine/Chunk.js:44-57 | a cell is stone iff y < h−5, dirt iff h−5 ≤ y < h−1, grass iff y = h−1, water iff h ≤ y < 25, air iff y ≥ h and y ≥ 25 |
| Chunk.GeneratedCellsAreNeverAir | js/engine/Chunk.js:44-57 | inside a 16-high column the sea level 25 lies above every cell, so no generated cell is air, and one at or above the surface is water |
| Chunk.Terrain | js/engine/Chunk.js:32-61 | the generated contents cover every one of the 4096 cells |
| Chunk.Direction | js/engine/Chunk.js:99-106 | the normal of each of the six face directions is a unit vector along one axis |
| Chunk.Corner | js/engine/Chunk.js:99-106 | every corner offset lies in the unit cube, on the face's side of it: coordinate 1 on the axis of a positive normal, 0 on that of a negative one |
| Chunk.BlockColor | js/engine/Chunk.js:78-97 | the colour of a block type is three channels in [0,1]; a type without an entry gets the fallback white |
| Chunk.Visible | js/engine/Chunk.js:112 | the culling test: a face is drawn only against air or water, always against air, and never between two water cells |
| Chunk.AddQuad | js/engine/Chunk.js:113-127 | the pushes of one face: its four corners, their four colours and six indices based on the vertex count so far; `MeshLengths` and `MeshIndexPattern` state the resulting lengths and index pattern |
| Chunk.MeshOf | js/engine/Chunk.js:87-132 | the geometry of a face list, faces appended in order; `MeshSnoc` states that order and `MeshIndicesInRange` that every index names a vertex |
| Chunk.MeshSnoc | js/engine/Chunk.js:113-127 | meshing one more face appends that face's quad to the geometry of the earlier faces |
| Chunk.QuadLengths | js/engine/Chunk.js:115-122 | the corner loop pushes three coordinates and three colour components per corner |
| Chunk.MeshLengths | js/engine/Chunk.js:113-127 | each emitted face adds 4 vertices (12 coordinates), 12 colour components and 6 indices |
| Chunk.MeshIndexPattern | js/engine/Chunk.js:113-127 | the indices of face j are `b, b+1, b+2, b, b+2, b+3` with `b = 4j`, the vertex count before that face |
| Chunk.MeshIndicesInRange | js/engine/Chunk.js:113-127 | every index is below the vertex count |
| Chunk.Chunk.constructor | js/engine/Chunk.js:2-11 | a new chunk has 4096 air cells, no mesh and `needsUpdate` set |
| Chunk.Chunk.FromSaved | js/engine/World.js:163-167 | a chunk rebuilt from saved cells holds exactly those cells, has no mesh and is marked for meshing |
| Chunk.Chunk.GetBlock | js/engine/Chunk.js:17-22 | air outside [0,16)³; otherwise the cell at `getBlockIndex` |
| Chunk.Chunk.SetBlock | js/engine/Chunk.js:24-30 | out of range nothing changes, `needsUpdate` included; in range only that index changes, to the truncated type, `needsUpdate` is set, and `getBlock` there returns the type while every other cell reads as before |
| Chunk.Chunk.GenerateTerrain | js/engine/Chunk.js:32-61 | every cell is written by the layering rule for its column height, and the chunk is marked for meshing |
| Chunk.Chunk.FillColumn | js/engine/Chunk.js:39-58 | one column: its height is read once and the y loop writes all of its cells by the layering rule, after the cells already filled, and the chunk is marked dirty |
| Chunk.Chunk.TerrainFilled | js/engine/Chunk.js:38-60 | once every cell has been filled in loop order, the array is the terrain of the height field |
| Chunk.Chunk.GetNeighborBlock | js/engine/Chunk.js:155-165 | in range it reads the chunk; otherwise it asks the world at `chunk * 16 + local` |
| Chunk.Chunk.AirCellHasNoFaces | js/engine/Chunk.js:90-91 | an air cell emits no face |
| Chunk.Chunk.CellFacesMembers | js/engine/Chunk.js:108-129 | the faces of one cell are exactly its faces, in the directions before d, that pass the culling test |
| Chunk.Chunk.FacesUpToMembers | js/engine/Chunk.js:87-132 | the faces emitted before a loop position are exactly the visible faces of solid cells earlier in x, y, z order |
| Chunk.Chunk.FacesAreExactlyTheVisibleOnes | js/engine/Chunk.js:87-132 | a face of cell c in direction d is in the mesh iff c is solid and its neighbour in d is air, or is water while c is not |
| Chunk.Chunk.CellFacesNext | js/engine/Chunk.js:108-129 | one more direction of the face loop adds its face exactly when the culling test passes |
| Chunk.Chunk.AppendQuad | js/engine/Chunk.js:113-127 | the pushes for one face produce exactly that face's quad |
| Chunk.Chunk.MeshCell | js/engine/Chunk.js:90-129 | meshing one solid cell appends the quads of its visible faces |
| Chunk.Chunk.MeshFace | js/engine/Chunk.js:108-128 | one direction of the face loop appends that face's quad exactly when the culling test passes, and otherwise leaves the geometry as it was |
| Chunk.Chunk.MeshRow | js/engine/Chunk.js:89-130 | the z loop appends the quads of one row of cells |
| Chunk.Chunk.MeshSlice | js/engine/Chunk.js:88-131 | the y loop appends the quads of one slice |
| Chunk.Chunk.MeshGeometry | js/engine/Chunk.js:72-132 | the three loops build exactly the mesh of the visible faces, in loop order |
| Chunk.Chunk.BuildMesh | js/engine/Chunk.js:63-153 | a clean chunk is left alone; a dirty one gets the mesh of its visible faces, or keeps its old mesh when no face is visible, and ends clean |
| World.DigitChar | js/engine/World.js:28 | a decimal digit's character is a digit character of that value |
| World.NatToString | js/engine/World.js:28 | a non-negative number prints as a non-empty digit string without a leading zero |
| World.IntToString | js/engine/World.js:28 | a printed number is non-empty and has no comma |
| World.IndexOfComma | js/engine/World.js:162 | the first comma of a string, or its length when it has none |
| World.DigitsOfNat | js/engine/World.js:28 | the digits of a number read back as that number |
| World.ParseIntToString | js/engine/World.js:162 | `Number` of a printed coordinate is that coordinate, negative ones included |
| World.ParseChunkKey | js/engine/World.js:162 | splitting a chunk key at the comma and reading both halves gives back its coordinates |
| World.ChunkKey | js/engine/World.js:27-29 | the string `${cx},${cz}`; `ParseChunkKey` reads it back and `ChunkKeyInjective` makes it a faithful key |
| World.ParseInt | js/engine/World.js:162 | `Number` on a key field: an optional minus and decimal digits give that value, anything else none; `ParseIntToString` reads printed coordinates back |
| World.ParseKey | js/engine/World.js:162 | `key.split(',')` followed by `Number` on the first two fields, none when either is not a number; `ParseChunkKey` inverts `ChunkKey` with it |
| World.ChunkKeyInjective | js/engine/World.js:27-29 | two chunk keys are equal iff their coordinates are |
| World.ChunkCoord | js/engine/World.js:67-68 | `Math.floor(x / 16)` is the chunk c with 16c ≤ x < 16c+16, negative x included |
| World.LocalCoord | js/engine/World.js:73-74 | the local coordinate lies in [0,16) and rebuilds x with its chunk coordinate |
| World.SplitCoord | js/engine/World.js:67-74 | chunk c and local l are the chunk and local coordinates of 16c + l |
| World.WindowMembership | js/engine/World.js:108-111 | a key is in the window iff its chunk is within the render distance on both axes |
| World.WindowCount | js/engine/World.js:108-111 | the window holds exactly (2r+1)² keys |
| World.PlayerChunk | js/engine/World.js:102-103 | the player's chunk c satisfies 16c ≤ p < 16c+16 |
| World.World.constructor | js/engine/World.js:1-7 | a new world is empty, with render distance 8 |
| World.World.ChunkAtKey | js/engine/World.js:31-34 | the chunk stored under a key sits at that key's coordinates |
| World.World.SeparateArrays | js/engine/World.js:43-44 | two loaded chunks are distinct objects with distinct block arrays |
| World.World.GetChunk | js/engine/World.js:31-34 | a chunk is returned iff its key is loaded, and it is the loaded chunk with those coordinates |
| World.World.GetBlock | js/engine/World.js:64-77 | air when y is outside [0,16) or no chunk holds the column |
| World.World.GetBlockOfChunk | js/engine/World.js:64-77 | any world position in a loaded chunk reads that chunk's cell at the local position, negative positions included |
| World.World.SetBlock | js/engine/World.js:79-92 | when y is in [0,16) and the column's chunk is loaded, that chunk's array changes in exactly the cell at the local position, to the truncated type, the chunk becomes dirty and `getBlock` there returns the type; every other chunk keeps its cells and flag, the map is unchanged, and no mesh changes |
| World.World.MarkChunkDirty | js/engine/World.js:94-99 | exactly the chunk at (cx, cz), if loaded, becomes dirty |
| World.World.LoadChunk | js/engine/World.js:36-49 | a loaded key returns its chunk and changes nothing; otherwise exactly one entry is added, a new chunk holding the generated terrain, marked for meshing, without a mesh |
| World.World.UnloadChunk | js/engine/World.js:51-62 | the key of (cx, cz) is removed, if present, and nothing else |
| World.World.PlanRow | js/engine/World.js:109-116 | the inner planning loop adds one row of the window to the keep set and lists exactly its unloaded chunks |
| World.World.PlanCell | js/engine/World.js:110-115 | one cell of the planning loop adds its key to the keep set and lists it for loading exactly when it is not loaded |
| World.World.StreamingPlan | js/engine/World.js:105-117 | the keep set is the window, and the load list holds exactly the window's chunks that are not loaded |
| World.World.UnloadOutside | js/engine/World.js:119-123 | afterwards the loaded keys are the old ones inside the window, and they keep their chunks |
| World.World.LoadNext | js/engine/World.js:126 | one `loadChunk` of the last loop adds that key, keeps every old chunk, and any new chunk is fresh and generated |
| World.World.LoadAll | js/engine/World.js:125-127 | every listed chunk is loaded, old chunks are kept, and each new one is fresh and generated |
| World.World.Update | js/engine/World.js:101-128 | afterwards exactly the window around the player's chunk is loaded; chunks that stay are the same objects; the others are new and generated; when the window was already loaded, nothing changes |
| World.World.LoadRow | js/engine/World.js:19-21 | the inner loop of the initial generation loads one row of the window and keeps the chunks already there |
| World.World.LoadColumn | js/engine/World.js:18-22 | one pass of the outer loop of the initial generation adds one more column of the window to the loaded keys and keeps the chunks already there |
| World.World.GenerateInitialChunks | js/engine/World.js:14-25 | the window around chunk (0, 0) is added to the loaded keys, and chunks already loaded are kept |
| World.World.LoadChunks | js/engine/World.js:158-170 | the world then holds exactly the saved keys, each with a chunk at the key's coordinates holding the saved blocks and marked for meshing |
| World.World.RestoreChunk | js/engine/World.js:162-169 | one saved entry becomes a new chunk at its key's coordinates, with the saved blocks, and is stored under that key |
| World.World.Clear | js/engine/World.js:148-156 | no chunk is left loaded |
| World.World.NeighborLookupIsWorldLookup | js/engine/Chunk.js:155-165 | when the mesher is handed the world's own `getBlock`, the neighbour it reads, inside the chunk or across a border, is the world's block at that position |
| Noise.Grad3IsEdgeMidpoints | js/engine/Noise.js:6-10 | each of the twelve gradients has two components ±1 and one 0 |
| Noise.NextSeed | js/engine/Noise.js:21-24 | for a non-negative seed the next seed lies in [0, 233280) |
| Noise.SeedAfter | js/engine/Noise.js:11-14 | every seed drawn by the constructor is non-negative and below 233280 |
| Noise.Sample | js/engine/Noise.js:13 | the integer sample of a seed; `SampleRange` bounds it and `SampleIsFloor` ties it to `Math.floor(seededRandom() * 256)` |
| Noise.SampleRange | js/engine/Noise.js:13 | each sample `floor(seed / 233280 * 256)` lies in [0,256) |
| Noise.SampleIsFloor | js/engine/Noise.js:13 | the integer sample is exactly the floor of `seededRandom() * 256` |
| Noise.PTable | js/engine/Noise.js:11-14 | `p` has 256 entries, each in [0,256) |
| Noise.PermRepeats | js/engine/Noise.js:15-16 | `perm[i] == perm[i + 256] == p[i]` for i < 256 |
| Noise.PermRange | js/engine/Noise.js:15-16 | every entry of `perm` lies in [0,256) |
| Noise.GradPInTable | js/engine/Noise.js:17 | the gradient index `perm[i] % 12` lies in [0,12), so every `gradP` entry is one of the twelve gradients |
| Noise.PermTableRange | js/engine/Noise.js:15-16 | every entry of `perm` is an index into the 512-entry tables |
| Noise.GradTableEntries | js/engine/Noise.js:17 | every entry of `gradP` is one of the twelve gradients |
| Noise.LatticeCoord | js/engine/Noise.js:39-41 | `Math.floor(x) & 255` lies in [0,256) and is congruent to the cell coordinate modulo 256 |
| Noise.CellHashes | js/engine/Noise.js:51-56 | the hashes A, B, AA, AB, BA, BB of a lattice cell; `HashIndicesInRange` proves every table index they produce in range |
| Noise.HashIndicesInRange | js/engine/Noise.js:51-56 | for X, Y, Z in [0,256), `X + 1`, A, A+1, B, B+1, AA, AB, BA, BB and each hash + 1 all lie in [0,512) |
| Noise.CellGradients | js/engine/Noise.js:51-84 | the eight corner lookups of a lattice cell are in range and each gives one of the twelve gradients |
| Noise.Noise.constructor | js/engine/Noise.js:2-19 | after 256 seed steps `p` is the table drawn from the initial seed, `perm[i] == p[i & 255]`, and `gradP[i] == grad3[perm[i] % 12]`; the tables depend on the initial seed alone, so construction is deterministic |
| Noise.Noise.FillSamples | js/engine/Noise.js:12-14 | the first loop steps the seed 256 times and fills `p` with exactly the table of samples drawn from the initial seed |
| Noise.Noise.FillPermutation | js/engine/Noise.js:15-18 | the second loop makes `perm[i] == p[i & 255]` and `gradP[i] == grad3[perm[i] % 12]` for every i < 512 |
| Noise.Noise.SeededRandom | js/engine/Noise.js:21-24 | the seed steps once and the result is the new seed / 233280, in [0,1) |
| Noise.Noise.CornerGradients | js/engine/Noise.js:38-87 | `noise` reads eight gradients, all in range, and each is one of the twelve |

## Left out

- Rendering: THREE.js geometry, materials, scene add and remove, `dispose`, `updateChunkMeshes` and `getRenderableChunks` are GPU work. The model keeps only the vertex, colour and index lists and the dirty flag.
- `buildMesh`'s early return when the world has no scene: the model assumes a scene is present.
- The floating-point side of `Noise.js` is not modelled: `fade`, `mix`, `dot`, the interpolated value of `noise`, and `octaveNoise`. The terrain's column height is a parameter.
- `Save.js` `save`, `load` and `clear` are localStorage, JSON and `Date.now()` I/O.
- Save.RunLengthEncode: requires a non-empty input. On an empty array the source emits the pair `[undefined, 1]`, which decodes to one `undefined`, and that has no byte value to model.
- Save.RunLengthDecode: the source caps neither the run lengths nor the decoded length, and neither does the model. Nothing checks that a decoded chunk has 4096 cells.
- World.World.LoadChunks: requires every saved key to be a canonical chunk key and every saved array to have 4096 cells. `Number()` accepts more spellings (`"+1"`, `" 1"`, `"1e2"`), and a short array would leave the chunk out of range.
- World.World.LoadChunks: copies the saved cells into the chunk's own array. The source assigns the decoded plain array itself, which then neither truncates to bytes nor can be shared.
- The `generated` and `modified` flags that `loadChunks` copies are never read by the core, so they are not modelled.
- `World`'s `new SimplexNoise(Math.random() * 1000)` refers to a class that is not part of this model and has a random seed. The world takes its height function as a parameter.
- Noise.Noise.constructor: requires a non-negative integer seed, which the default 12345 is. Seeds −5 to −1 also work in the source, because `seed * 9301 + 49297` is still positive for them; they are excluded so that every seed of the model is non-negative. From −6 down the JavaScript remainder is negative and the table lookups are undefined. A fractional seed is not modelled either.
- Noise.NextSeed: exact integer arithmetic. For a seed above about 9.68·10¹¹, `seed * 9301` exceeds 2⁵³ and the source's double product is rounded, which the model does not capture. Every later seed is below 233280, so only the first step from such a seed is affected.
- Noise.Noise.SeededRandom: returns the exact rational `seed / 233280`, not an IEEE double. The rounding error of `seed / 233280 * 256` in doubles is smaller than the distance from the exact quotient to the next integer, so the samples in `p` are the same either way.
- World.IntToString: prints integers in plain decimal; JavaScript switches to exponent notation beyond 10²¹.
- World.World.GenerateInitialChunks: does not restate that each new chunk holds generated terrain. That fact is proved for each call in `LoadChunk` but is not carried through the two loops.
- `async`/`await` and `Promise.all` in `generateInitialChunks` and `loadChunk` wrap plain sequential calls and are modelled as such.
- World.World.GetBlock and World.World.SetBlock: world coordinates are integers. Fractional coordinates from the renderer are not modelled.
- World.World.SetBlock: does not mark neighbouring chunks dirty when an edge cell changes, because neither does the source. It also marks the chunk dirty when the value is unchanged.
- Chunk.Chunk.BuildMesh: when no face is visible, the source disposes the old mesh but keeps the reference, and so does the model. The disposal itself is not modelled.
- The order in which `update` meets loaded chunks (Map insertion order) is abstracted into a set walk. The outcome does not depend on it.
