/**
 * A chunk of the voxel world in the column topology: a 16 x 16 x 16 grid of block codes
 * at chunk coordinates (cx, cz), stored flat in a byte array, with one dirty flag
 * (`needsUpdate`) and the geometry its last remesh produced.
 */
module Chunk {
  import opened Blocks

  /** Edge length of a chunk, and the number of cells it holds. */
  const Size: int := 16
  const Volume: int := 4096

  /** Block codes used by terrain generation and face culling. */
  const Air: byte := 0
  const Grass: byte := 1
  const Dirt: byte := 2
  const Stone: byte := 3
  const Water: byte := 5

  /** World height up to which empty space above the terrain is filled with water. */
  const SeaLevel: int := 25

  predicate InRange(x: int, y: int, z: int)
  {
    0 <= x < Size && 0 <= y < Size && 0 <= z < Size
  }

  /** `getBlockIndex`: the linearisation x + 16y + 256z. */
  function BlockIndex(x: int, y: int, z: int): (i: int)
    requires InRange(x, y, z)
    ensures 0 <= i < Volume
  {
    x + y * Size + z * Size * Size
  }

  /** The cell a flat index stands for: the inverse of `BlockIndex`. */
  function CellOf(i: int): (c: (int, int, int))
    requires 0 <= i < Volume
    ensures InRange(c.0, c.1, c.2)
  {
    (i % Size, (i / Size) % Size, i / (Size * Size))
  }

  /** `BlockIndex` is a bijection from the cube [0,16)^3 onto [0,4096): each direction. */
  lemma CellOfBlockIndex(x: int, y: int, z: int)
    requires InRange(x, y, z)
    ensures CellOf(BlockIndex(x, y, z)) == (x, y, z)
  {
    var i := BlockIndex(x, y, z);
    assert i / Size == y + z * Size;
    assert i / (Size * Size) == z;
  }

  lemma BlockIndexOfCell(i: int)
    requires 0 <= i < Volume
    ensures BlockIndex(CellOf(i).0, CellOf(i).1, CellOf(i).2) == i
  {
    var c := CellOf(i);
    assert i == c.0 + (i / Size) * Size;
    assert i / Size == c.1 + c.2 * Size;
  }

  /** Two in-range cells share an index only if they are the same cell. */
  lemma BlockIndexInjective(x: int, y: int, z: int, x': int, y': int, z': int)
    requires InRange(x, y, z) && InRange(x', y', z')
    requires BlockIndex(x, y, z) == BlockIndex(x', y', z')
    ensures x == x' && y == y' && z == z'
  {
    CellOfBlockIndex(x, y, z);
    CellOfBlockIndex(x', y', z');
  }

  /**
   * The layering rule of terrain generation: the block at world height `y` of a column
   * whose surface height is `h`.
   */
  function Layer(y: int, h: int): (b: byte)
    ensures b in {Stone, Dirt, Grass, Water, Air}
    ensures b == Air <==> y >= h && y >= SeaLevel
  {
    if y < h - 5 then Stone
    else if y < h - 1 then Dirt
    else if y < h then Grass
    else if y < SeaLevel then Water
    else Air
  }

  /**
   * The column profile the layering rule produces: below the surface, one grass cell on
   * top of four dirt cells on top of stone; above it, water up to sea level and air above.
   */
  lemma ColumnProfile(y: int, h: int)
    ensures y < h ==> Layer(y, h) in {Grass, Dirt, Stone}
    ensures Layer(y, h) == Grass <==> y == h - 1
    ensures Layer(y, h) == Dirt <==> h - 5 <= y < h - 1
    ensures Layer(y, h) == Stone <==> y < h - 5
    ensures Layer(y, h) == Water <==> h <= y < SeaLevel
    ensures Layer(y, h) == Air <==> h <= y && SeaLevel <= y
  {
  }

  /**
   * With a fixed column height of 16 below the sea level of 25, a generated chunk never
   * holds air: cells above the surface are water.
   */
  lemma GeneratedCellsAreNeverAir(y: int, h: int)
    requires 0 <= y < Size
    ensures Layer(y, h) != Air
    ensures Layer(y, h) == Water || y < h
  {
  }

  /**
   * The block contents terrain generation gives the chunk at (cx, cz): cell (x, y, z)
   * gets the layer rule for world height y and the height of world column
   * (16 cx + x, 16 cz + z).
   */
  function Terrain(cx: int, cz: int, height: (int, int) -> int): (s: seq<byte>)
    ensures |s| == Volume
  {
    seq(Volume, i requires 0 <= i < Volume =>
      var c := CellOf(i);
      Layer(c.1, height(cx * Size + c.0, cz * Size + c.2)))
  }

  /** Loop order of terrain generation: x outermost, then z, then y. */
  predicate TerrainBefore(x': int, z': int, y': int, x: int, z: int, y: int)
  {
    x' < x || (x' == x && (z' < z || (z' == z && y' < y)))
  }


  /** The six face directions of a cube, in the order the mesher visits them. */
  type FaceDir = d: int | 0 <= d < 6

  /** Face `d`'s outward direction: up, down, +x, -x, +z, -z. */
  function Direction(d: FaceDir): (n: (int, int, int))
    ensures n.0 * n.0 + n.1 * n.1 + n.2 * n.2 == 1
  {
    [(0, 1, 0), (0, -1, 0), (1, 0, 0), (-1, 0, 0), (0, 0, 1), (0, 0, -1)][d]
  }

  /** Corner `k` (0..3) of face `d`, as an offset from the cell's minimal corner. */
  function Corner(d: FaceDir, k: int): (c: (int, int, int))
    requires 0 <= k < 4
    ensures 0 <= c.0 <= 1 && 0 <= c.1 <= 1 && 0 <= c.2 <= 1
    ensures Direction(d).0 != 0 ==> c.0 == (if Direction(d).0 > 0 then 1 else 0)
    ensures Direction(d).1 != 0 ==> c.1 == (if Direction(d).1 > 0 then 1 else 0)
    ensures Direction(d).2 != 0 ==> c.2 == (if Direction(d).2 > 0 then 1 else 0)
  {
    [[(0, 1, 1), (1, 1, 1), (1, 1, 0), (0, 1, 0)],
     [(0, 0, 0), (1, 0, 0), (1, 0, 1), (0, 0, 1)],
     [(1, 0, 0), (1, 1, 0), (1, 1, 1), (1, 0, 1)],
     [(0, 0, 1), (0, 1, 1), (0, 1, 0), (0, 0, 0)],
     [(1, 0, 1), (1, 1, 1), (0, 1, 1), (0, 0, 1)],
     [(0, 0, 0), (0, 1, 0), (1, 1, 0), (1, 0, 0)]][d][k]
  }

  /** Vertex colour of a block code; codes outside the table are white. */
  function BlockColor(t: byte): (rgb: seq<real>)
    ensures |rgb| == 3
    ensures forall i | 0 <= i < 3 :: 0.0 <= rgb[i] <= 1.0
  {
    if t == 1 then [0.2, 0.8, 0.2]
    else if t == 2 then [0.6, 0.4, 0.2]
    else if t == 3 then [0.5, 0.5, 0.5]
    else if t == 4 then [0.9, 0.8, 0.3]
    else if t == 5 then [0.2, 0.4, 0.8]
    else if t == 6 then [0.4, 0.2, 0.1]
    else [1.0, 1.0, 1.0]
  }

  /**
   * The culling rule: a face of a solid cell is drawn when the cell next to it is air,
   * or is water while the cell itself is not water.
   */
  predicate Visible(blockType: byte, neighborType: byte)
    ensures Visible(blockType, neighborType) ==> neighborType == Air || neighborType == Water
    ensures neighborType == Air ==> Visible(blockType, neighborType)
    ensures blockType == Water && neighborType == Water ==> !Visible(blockType, neighborType)
  {
    neighborType == Air || (neighborType == Water && blockType != Water)
  }

  /** The geometry buffers: 3 coordinates per vertex, 3 colour channels per vertex, triangle indices. */
  datatype Geometry = Geometry(vertices: seq<int>, colors: seq<real>, indices: seq<int>)

  /** An emitted face: the cell, the direction and the cell's block code. */
  datatype Face = Face(x: int, y: int, z: int, dir: FaceDir, block: byte)

  /** The coordinates pushed for corner `k` of face `f` in chunk (cx, cz). */
  function CornerVertex(f: Face, cx: int, cz: int, k: int): (v: seq<int>)
    requires 0 <= k < 4
    ensures |v| == 3
  {
    var c := Corner(f.dir, k);
    [cx * Size + f.x + c.0, f.y + c.1, cz * Size + f.z + c.2]
  }

  /** The coordinates of the first `k` corners of a face. */
  function QuadVertices(f: Face, cx: int, cz: int, k: int): seq<int>
    requires 0 <= k <= 4
  {
    if k == 0 then [] else QuadVertices(f, cx, cz, k - 1) + CornerVertex(f, cx, cz, k - 1)
  }

  /** The colours of the first `k` corners of a face of block code `t`. */
  function QuadColors(t: byte, k: int): seq<real>
    requires 0 <= k <= 4
  {
    if k == 0 then [] else QuadColors(t, k - 1) + BlockColor(t)
  }

  /** The six indices of a quad whose first vertex is number `b`: triangles (b, b+1, b+2) and (b, b+2, b+3). */
  function QuadIndices(b: int): seq<int>
  {
    [b, b + 1, b + 2, b, b + 2, b + 3]
  }

  /** Appending one face: 4 vertices, their colours, and 6 indices based at the prior vertex count. */
  function AddQuad(g: Geometry, f: Face, cx: int, cz: int): Geometry
  {
    var baseIndex := |g.vertices| / 3;
    Geometry(g.vertices + QuadVertices(f, cx, cz, 4),
             g.colors + QuadColors(f.block, 4),
             g.indices + QuadIndices(baseIndex))
  }

  /** The geometry of a face list: its faces appended one by one, in order. */
  function MeshOf(faces: seq<Face>, cx: int, cz: int): Geometry
  {
    if faces == [] then Geometry([], [], [])
    else AddQuad(MeshOf(faces[..|faces| - 1], cx, cz), faces[|faces| - 1], cx, cz)
  }

  lemma MeshSnoc(faces: seq<Face>, f: Face, cx: int, cz: int)
    ensures MeshOf(faces + [f], cx, cz) == AddQuad(MeshOf(faces, cx, cz), f, cx, cz)
  {
    assert (faces + [f])[..|faces|] == faces;
  }

  lemma QuadLengths(f: Face, cx: int, cz: int, k: int)
    requires 0 <= k <= 4
    ensures |QuadVertices(f, cx, cz, k)| == 3 * k && |QuadColors(f.block, k)| == 3 * k
  {
    if k > 0 {
      QuadLengths(f, cx, cz, k - 1);
    }
  }

  /** Offset of the i-th index of a quad from its first vertex number. */
  function QuadOffset(i: int): int
    requires 0 <= i < 6
  {
    [0, 1, 2, 0, 2, 3][i]
  }

  /** Buffer lengths of a mesh of n faces: 12 coordinates, 12 colour channels and 6 indices per face. */
  lemma {:induction false} MeshLengths(faces: seq<Face>, cx: int, cz: int)
    ensures var g := MeshOf(faces, cx, cz);
      && |g.vertices| == 12 * |faces|
      && |g.colors| == 12 * |faces|
      && |g.indices| == 6 * |faces|
  {
    if faces != [] {
      MeshLengths(faces[..|faces| - 1], cx, cz);
      QuadLengths(faces[|faces| - 1], cx, cz, 4);
    }
  }

  /**
   * The index pattern of a mesh: index i is 4 (i / 6) + [0,1,2,0,2,3][i % 6], so face j's
   * six indices are b, b+1, b+2, b, b+2, b+3 with b = 4j, the vertex count before it.
   */
  lemma {:induction false} MeshIndexPattern(faces: seq<Face>, cx: int, cz: int)
    ensures var g := MeshOf(faces, cx, cz);
      forall i | 0 <= i < |g.indices| :: g.indices[i] == 4 * (i / 6) + QuadOffset(i % 6)
  {
    if faces != [] {
      var init := faces[..|faces| - 1];
      MeshIndexPattern(init, cx, cz);
      MeshLengths(init, cx, cz);
      var g0 := MeshOf(init, cx, cz);
      var g := MeshOf(faces, cx, cz);
      var n := |init|;
      assert |g0.vertices| / 3 == 4 * n;
      assert g.indices == g0.indices + QuadIndices(4 * n);
      PatternSnoc(g0.indices, g.indices, n);
    }
  }

  /** Appending the six indices of quad n to the pattern of n quads gives the pattern of n + 1. */
  lemma PatternSnoc(idx0: seq<int>, idx: seq<int>, n: int)
    requires |idx0| == 6 * n && idx == idx0 + QuadIndices(4 * n)
    requires forall i | 0 <= i < |idx0| :: idx0[i] == 4 * (i / 6) + QuadOffset(i % 6)
    ensures forall i | 0 <= i < |idx| :: idx[i] == 4 * (i / 6) + QuadOffset(i % 6)
  {
    forall i | 0 <= i < |idx|
      ensures idx[i] == 4 * (i / 6) + QuadOffset(i % 6)
    {
      if i >= 6 * n {
        var j := i - 6 * n;
        assert i / 6 == n && i % 6 == j;
        assert idx[i] == QuadIndices(4 * n)[j];
      } else {
        assert idx[i] == idx0[i];
      }
    }
  }

  /** Every index of a mesh names an emitted vertex: it lies below the vertex count. */
  lemma MeshIndicesInRange(faces: seq<Face>, cx: int, cz: int)
    ensures var g := MeshOf(faces, cx, cz);
      forall i | 0 <= i < |g.indices| :: 0 <= g.indices[i] < |g.vertices| / 3
  {
    MeshLengths(faces, cx, cz);
    MeshIndexPattern(faces, cx, cz);
    var g := MeshOf(faces, cx, cz);
    forall i | 0 <= i < |g.indices|
      ensures 0 <= g.indices[i] < |g.vertices| / 3
    {
      PatternBound(i, |faces|);
    }
  }

  /** Index i of the pattern, with i below 6 n, names one of the first 4 n vertices. */
  lemma PatternBound(i: int, n: int)
    requires 0 <= i < 6 * n
    ensures 0 <= 4 * (i / 6) + QuadOffset(i % 6) < (12 * n) / 3
  {
    assert i / 6 < n;
    assert 0 <= QuadOffset(i % 6) <= 3;
    assert (12 * n) / 3 == 4 * n;
  }

  /** Cell (x', y', z') comes before (x, y, z) in the mesher's loop order: x outermost, then y, then z. */
  predicate MeshBefore(x': int, y': int, z': int, x: int, y: int, z: int)
  {
    x' < x || (x' == x && (y' < y || (y' == y && z' < z)))
  }

  /** A position of the mesher's three loop counters, the end value 16 included. */
  predicate LoopPoint(x: int, y: int, z: int)
  {
    0 <= x <= Size && 0 <= y <= Size && 0 <= z <= Size
  }

  class Chunk {
    const cx: int
    const cz: int
    const blocks: array<byte>
    var needsUpdate: bool
    var mesh: Option<Geometry>

    ghost predicate Valid()
    {
      blocks.Length == Volume
    }

    /**
     * A new chunk: all air, dirty, without geometry. The source's constructor takes
     * (x, y, z, world) with a vertical chunk index y; `World` calls it as
     * `new Chunk(x, z, world)`, so its y receives z. The model takes the column (cx, cz).
     */
    constructor (cx: int, cz: int)
      ensures Valid() && fresh(blocks)
      ensures this.cx == cx && this.cz == cz
      ensures forall i | 0 <= i < Volume :: blocks[i] == Air
      ensures needsUpdate && mesh == None
    {
      this.cx := cx;
      this.cz := cz;
      blocks := new byte[Volume](_ => Air);
      needsUpdate := true;
      mesh := None;
    }

    /** A chunk restored from saved blocks, marked dirty so that it is remeshed. */
    constructor FromSaved(cx: int, cz: int, saved: seq<byte>)
      requires |saved| == Volume
      ensures Valid() && fresh(blocks)
      ensures this.cx == cx && this.cz == cz
      ensures blocks[..] == saved
      ensures needsUpdate && mesh == None
    {
      this.cx := cx;
      this.cz := cz;
      blocks := new byte[Volume](i requires 0 <= i < Volume => saved[i]);
      needsUpdate := true;
      mesh := None;
    }

    /** `getBlock`: air outside the cube, the stored code inside it. */
    function GetBlock(x: int, y: int, z: int): (b: byte)
      requires Valid()
      reads blocks
      ensures !InRange(x, y, z) ==> b == Air
      ensures InRange(x, y, z) ==> b == blocks[BlockIndex(x, y, z)]
    {
      if !InRange(x, y, z) then Air else blocks[BlockIndex(x, y, z)]
    }

    /**
     * `setBlock`: outside the cube nothing changes, the dirty flag included; inside it
     * exactly one cell is written (with the byte truncation of the array) and the
     * chunk becomes dirty.
     */
    method SetBlock(x: int, y: int, z: int, blockType: int)
      requires Valid()
      modifies this, blocks
      ensures Valid() && mesh == old(mesh)
      ensures !InRange(x, y, z) ==> blocks[..] == old(blocks[..]) && needsUpdate == old(needsUpdate)
      ensures InRange(x, y, z) ==>
        blocks[..] == old(blocks[..])[BlockIndex(x, y, z) := ToUint8(blockType)] && needsUpdate
      ensures InRange(x, y, z) ==> GetBlock(x, y, z) == ToUint8(blockType)
      ensures forall x', y', z' | (x', y', z') != (x, y, z) ::
        GetBlock(x', y', z') == old(GetBlock(x', y', z'))
    {
      if !InRange(x, y, z) {
        return;
      }
      blocks[BlockIndex(x, y, z)] := ToUint8(blockType);
      needsUpdate := true;
      forall x', y', z' | (x', y', z') != (x, y, z) && InRange(x', y', z')
        ensures BlockIndex(x', y', z') != BlockIndex(x, y, z)
      {
        if BlockIndex(x', y', z') == BlockIndex(x, y, z) {
          BlockIndexInjective(x', y', z', x, y, z);
        }
      }
    }

    /** The terrain cells filled so far, in the generation loop's order. */
    ghost predicate FilledBefore(height: (int, int) -> int, x: int, z: int, y: int)
      requires Valid()
      reads blocks
    {
      forall x', y', z' | InRange(x', y', z') && TerrainBefore(x', z', y', x, z, y) ::
        blocks[BlockIndex(x', y', z')] == Layer(y', height(cx * Size + x', cz * Size + z'))
    }

    /**
     * `generateTerrain`: every cell is assigned by the layering rule, from the height of
     * its world column, and the chunk is dirty. `height` stands for the noise-derived
     * column height floor(octaveNoise(...) * 10 + 30).
     */
    method GenerateTerrain(height: (int, int) -> int)
      requires Valid()
      modifies this, blocks
      ensures Valid() && mesh == old(mesh)
      ensures blocks[..] == Terrain(cx, cz, height)
      ensures needsUpdate
    {
      needsUpdate := true;
      for x := 0 to Size
        invariant needsUpdate && mesh == old(mesh)
        invariant FilledBefore(height, x, 0, 0)
      {
        for z := 0 to Size
          invariant needsUpdate && mesh == old(mesh)
          invariant FilledBefore(height, x, z, 0)
        {
          FillColumn(height, x, z);
        }
      }
      TerrainFilled(height);
    }

    /** The innermost loop of `generateTerrain`: the cells (x, 0, z) .. (x, 15, z) of one column. */
    method FillColumn(height: (int, int) -> int, x: int, z: int)
      requires Valid() && 0 <= x < Size && 0 <= z < Size
      requires FilledBefore(height, x, z, 0)
      modifies this, blocks
      ensures Valid() && needsUpdate && mesh == old(mesh)
      ensures FilledBefore(height, x, z + 1, 0)
    {
      var worldX, worldZ := cx * Size, cz * Size;
      var h := height(worldX + x, worldZ + z);
      needsUpdate := true;
      for y := 0 to Size
        invariant needsUpdate && mesh == old(mesh)
        invariant FilledBefore(height, x, z, y)
      {
        SetBlock(x, y, z, Layer(y, h));
      }
    }

    /** Once every cell is filled, the array is the terrain. */
    lemma TerrainFilled(height: (int, int) -> int)
      requires Valid() && FilledBefore(height, Size, 0, 0)
      ensures blocks[..] == Terrain(cx, cz, height)
    {
      forall i | 0 <= i < Volume
        ensures blocks[i] == Terrain(cx, cz, height)[i]
      {
        BlockIndexOfCell(i);
      }
    }

    /**
     * `getNeighborBlock`: inside the cube the chunk's own cell; outside it the world's
     * block at world coordinates (16 cx + x, y, 16 cz + z), supplied by `world`.
     */
    function GetNeighborBlock(x: int, y: int, z: int, world: (int, int, int) -> byte): (b: byte)
      requires Valid()
      reads blocks
      ensures InRange(x, y, z) ==> b == GetBlock(x, y, z)
      ensures !InRange(x, y, z) ==> b == world(cx * Size + x, y, cz * Size + z)
    {
      if InRange(x, y, z) then GetBlock(x, y, z) else world(cx * Size + x, y, cz * Size + z)
    }

    /** Whether the mesher emits face `d` of cell (x, y, z). */
    predicate Emits(x: int, y: int, z: int, d: FaceDir, world: (int, int, int) -> byte)
      requires Valid()
      reads blocks
    {
      var t := GetBlock(x, y, z);
      var n := Direction(d);
      t != Air && Visible(t, GetNeighborBlock(x + n.0, y + n.1, z + n.2, world))
    }

    /** The faces of cell (x, y, z) among the first `d` directions, in direction order. */
    function CellFaces(x: int, y: int, z: int, d: int, world: (int, int, int) -> byte): seq<Face>
      requires Valid() && 0 <= d <= 6
      reads blocks
    {
      if d == 0 then []
      else
        CellFaces(x, y, z, d - 1, world)
        + (if Emits(x, y, z, d - 1, world) then [Face(x, y, z, d - 1, GetBlock(x, y, z))] else [])
    }

    /** The faces of the cells that come before (x, y, z) in loop order, in emission order. */
    function FacesUpTo(x: int, y: int, z: int, world: (int, int, int) -> byte): seq<Face>
      requires Valid() && LoopPoint(x, y, z)
      reads blocks
      decreases x, y, z
    {
      if z > 0 then FacesUpTo(x, y, z - 1, world) + CellFaces(x, y, z - 1, 6, world)
      else if y > 0 then FacesUpTo(x, y - 1, Size, world)
      else if x > 0 then FacesUpTo(x - 1, Size, 0, world)
      else []
    }

    /** Every face the mesher emits, in emission order. */
    function Faces(world: (int, int, int) -> byte): seq<Face>
      requires Valid()
      reads blocks
    {
      FacesUpTo(Size, 0, 0, world)
    }

    lemma {:induction false} AirCellHasNoFaces(x: int, y: int, z: int, d: int, world: (int, int, int) -> byte)
      requires Valid() && 0 <= d <= 6 && GetBlock(x, y, z) == Air
      ensures CellFaces(x, y, z, d, world) == []
    {
      if d > 0 {
        AirCellHasNoFaces(x, y, z, d - 1, world);
      }
    }

    lemma {:induction false} CellFacesMembers(x: int, y: int, z: int, d: int, world: (int, int, int) -> byte)
      requires Valid() && 0 <= d <= 6
      ensures forall f | f in CellFaces(x, y, z, d, world) ::
        f.x == x && f.y == y && f.z == z && f.dir < d && f.block == GetBlock(x, y, z) && Emits(x, y, z, f.dir, world)
      ensures forall e: FaceDir | e < d && Emits(x, y, z, e, world) ::
        Face(x, y, z, e, GetBlock(x, y, z)) in CellFaces(x, y, z, d, world)
    {
      if d > 0 {
        CellFacesMembers(x, y, z, d - 1, world);
      }
    }

    lemma {:induction false} FacesUpToMembers(x: int, y: int, z: int, world: (int, int, int) -> byte)
      requires Valid() && LoopPoint(x, y, z)
      ensures forall f | f in FacesUpTo(x, y, z, world) ::
        && InRange(f.x, f.y, f.z) && MeshBefore(f.x, f.y, f.z, x, y, z)
        && f.block == GetBlock(f.x, f.y, f.z) && Emits(f.x, f.y, f.z, f.dir, world)
      ensures forall x', y', z', e: FaceDir |
          InRange(x', y', z') && MeshBefore(x', y', z', x, y, z) && Emits(x', y', z', e, world) ::
        Face(x', y', z', e, GetBlock(x', y', z')) in FacesUpTo(x, y, z, world)
      decreases x, y, z
    {
      if z > 0 {
        FacesUpToMembers(x, y, z - 1, world);
        CellFacesMembers(x, y, z - 1, 6, world);
      } else if y > 0 {
        FacesUpToMembers(x, y - 1, Size, world);
      } else if x > 0 {
        FacesUpToMembers(x - 1, Size, 0, world);
      }
    }

    /**
     * The culling rule, both directions: a face is in the mesh exactly when its cell is
     * in the chunk and not air and the neighbour across that face is air, or water while
     * the cell is not water. In particular air cells emit nothing.
     */
    lemma FacesAreExactlyTheVisibleOnes(world: (int, int, int) -> byte)
      requires Valid()
      ensures forall f | f in Faces(world) :: InRange(f.x, f.y, f.z) && f.block == GetBlock(f.x, f.y, f.z) && f.block != Air
      ensures forall x, y, z, e: FaceDir | InRange(x, y, z) ::
        var t := GetBlock(x, y, z);
        var n := Direction(e);
        Face(x, y, z, e, t) in Faces(world) <==>
          t != Air && Visible(t, GetNeighborBlock(x + n.0, y + n.1, z + n.2, world))
    {
      FacesUpToMembers(Size, 0, 0, world);
    }


    /** One step of the face loop over the faces of cell (x, y, z). */
    lemma CellFacesNext(before: seq<Face>, x: int, y: int, z: int, d: FaceDir, world: (int, int, int) -> byte)
      requires Valid()
      ensures Emits(x, y, z, d, world) ==>
        before + CellFaces(x, y, z, d + 1, world)
        == (before + CellFaces(x, y, z, d, world)) + [Face(x, y, z, d, GetBlock(x, y, z))]
      ensures !Emits(x, y, z, d, world) ==>
        before + CellFaces(x, y, z, d + 1, world) == before + CellFaces(x, y, z, d, world)
    {
    }

    /**
     * The corner loop of one emitted face: pushes its 4 vertices and their colours, then
     * its 6 indices based at the prior vertex count.
     */
    method AppendQuad(face: Face, g: Geometry) returns (g': Geometry)
      ensures g' == AddQuad(g, face, cx, cz)
    {
      var worldX, worldY, worldZ := cx * Size + face.x, face.y, cz * Size + face.z;
      var color := BlockColor(face.block);
      var baseIndex := |g.vertices| / 3;
      var vertices, colors := g.vertices, g.colors;
      for k := 0 to 4
        invariant vertices == g.vertices + QuadVertices(face, cx, cz, k)
        invariant colors == g.colors + QuadColors(face.block, k)
      {
        var corner := Corner(face.dir, k);
        var v := [worldX + corner.0, worldY + corner.1, worldZ + corner.2];
        assert v == CornerVertex(face, cx, cz, k);
        AppendAssoc(g.vertices, QuadVertices(face, cx, cz, k), v);
        AppendAssoc(g.colors, QuadColors(face.block, k), color);
        vertices := vertices + v;
        colors := colors + color;
      }
      var indices := g.indices + [baseIndex, baseIndex + 1, baseIndex + 2, baseIndex, baseIndex + 2, baseIndex + 3];
      g' := Geometry(vertices, colors, indices);
    }

    /** The face loop of one solid cell: appends the geometry of its visible faces. */
    method MeshCell(x: int, y: int, z: int, world: (int, int, int) -> byte, ghost before: seq<Face>, g: Geometry)
      returns (g': Geometry)
      requires Valid() && GetBlock(x, y, z) != Air
      requires g == MeshOf(before, cx, cz)
      ensures g' == MeshOf(before + CellFaces(x, y, z, 6, world), cx, cz)
    {
      g' := g;
      assert before + CellFaces(x, y, z, 0, world) == before;
      for d := 0 to 6
        invariant g' == MeshOf(before + CellFaces(x, y, z, d, world), cx, cz)
      {
        g' := MeshFace(x, y, z, d, world, before, g');
      }
    }

    /** One face of a solid cell: its quad is appended when the neighbour lets it show. */
    method MeshFace(x: int, y: int, z: int, d: FaceDir, world: (int, int, int) -> byte, ghost before: seq<Face>, g: Geometry)
      returns (g': Geometry)
      requires Valid() && GetBlock(x, y, z) != Air
      requires g == MeshOf(before + CellFaces(x, y, z, d, world), cx, cz)
      ensures g' == MeshOf(before + CellFaces(x, y, z, d + 1, world), cx, cz)
    {
      var blockType := GetBlock(x, y, z);
      var dir := Direction(d);
      var neighborType := GetNeighborBlock(x + dir.0, y + dir.1, z + dir.2, world);
      ghost var done := before + CellFaces(x, y, z, d, world);
      assert Emits(x, y, z, d, world) == Visible(blockType, neighborType);
      CellFacesNext(before, x, y, z, d, world);
      if Visible(blockType, neighborType) {
        var face := Face(x, y, z, d, blockType);
        g' := AppendQuad(face, g);
        MeshSnoc(done, face, cx, cz);
      } else {
        g' := g;
      }
    }

    /** The innermost loop of the mesher: the cells (x, y, 0) .. (x, y, 15). */
    method MeshRow(x: int, y: int, world: (int, int, int) -> byte, g: Geometry) returns (g': Geometry)
      requires Valid() && 0 <= x < Size && 0 <= y < Size
      requires g == MeshOf(FacesUpTo(x, y, 0, world), cx, cz)
      ensures g' == MeshOf(FacesUpTo(x, y + 1, 0, world), cx, cz)
    {
      g' := g;
      for z := 0 to Size
        invariant g' == MeshOf(FacesUpTo(x, y, z, world), cx, cz)
      {
        ghost var before := FacesUpTo(x, y, z, world);
        assert FacesUpTo(x, y, z + 1, world) == before + CellFaces(x, y, z, 6, world);
        var blockType := GetBlock(x, y, z);
        if blockType != Air {
          g' := MeshCell(x, y, z, world, before, g');
        } else {
          AirCellHasNoFaces(x, y, z, 6, world);
          assert before + CellFaces(x, y, z, 6, world) == before;
        }
      }
    }

    /** The middle loop of the mesher: the rows (x, 0, _) .. (x, 15, _). */
    method MeshSlice(x: int, world: (int, int, int) -> byte, g: Geometry) returns (g': Geometry)
      requires Valid() && 0 <= x < Size
      requires g == MeshOf(FacesUpTo(x, 0, 0, world), cx, cz)
      ensures g' == MeshOf(FacesUpTo(x + 1, 0, 0, world), cx, cz)
    {
      g' := g;
      for y := 0 to Size
        invariant g' == MeshOf(FacesUpTo(x, y, 0, world), cx, cz)
      {
        g' := MeshRow(x, y, world, g');
      }
    }

    /**
     * The three nested cell loops of the mesher: the buffers of every visible face, in
     * loop order.
     */
    method MeshGeometry(world: (int, int, int) -> byte) returns (g: Geometry)
      requires Valid()
      ensures g == MeshOf(Faces(world), cx, cz)
    {
      g := Geometry([], [], []);
      for x := 0 to Size
        invariant g == MeshOf(FacesUpTo(x, 0, 0, world), cx, cz)
      {
        g := MeshSlice(x, world, g);
      }
    }

    /**
     * `buildMesh`: nothing happens unless the chunk is dirty; otherwise the buffers are
     * those of the visible faces in loop order (a mesh is kept only if some vertex was
     * emitted, else the previous reference stays). The chunk always ends clean.
     * `world` is the world's block lookup, consulted for cells outside the chunk.
     */
    method BuildMesh(world: (int, int, int) -> byte)
      requires Valid()
      modifies this
      ensures Valid() && !needsUpdate
      ensures !old(needsUpdate) ==> mesh == old(mesh)
      ensures old(needsUpdate) ==>
        var g := MeshOf(Faces(world), cx, cz);
        mesh == (if |g.vertices| > 0 then Some(g) else old(mesh))
    {
      if !needsUpdate {
        return;
      }
      var g := MeshGeometry(world);
      if |g.vertices| > 0 {
        mesh := Some(g);
      }
      needsUpdate := false;
    }
  }
}
