/**
 * The world's chunk map (js/engine/World.js): chunks keyed by the string "cx,cz",
 * the world-to-chunk coordinate translation, and the streaming of chunks around the
 * player.
 */
module World {
  import opened Blocks
  import opened Chunk

  // ---------------------------------------------------------------------------
  // Chunk keys: the template string `${chunkX},${chunkZ}` and its parse
  // `key.split(',').map(Number)`.
  // ---------------------------------------------------------------------------

  predicate IsDigit(c: char)
  {
    '0' <= c <= '9'
  }

  predicate IsDigits(s: string)
  {
    forall i | 0 <= i < |s| :: IsDigit(s[i])
  }

  function DigitChar(d: int): (c: char)
    requires 0 <= d < 10
    ensures IsDigit(c) && c as int - '0' as int == d
  {
    ('0' as int + d) as char
  }

  /** The decimal digits of a natural number, most significant first, without leading zeros. */
  function NatToString(n: nat): (s: string)
    ensures |s| > 0 && IsDigits(s)
    ensures |s| > 1 ==> s[0] != '0'
    decreases n
  {
    if n < 10 then [DigitChar(n)] else NatToString(n / 10) + [DigitChar(n % 10)]
  }

  /** The number a string of decimal digits denotes. */
  function DigitsValue(s: string): nat
    requires IsDigits(s)
  {
    if |s| == 0 then 0 else 10 * DigitsValue(s[..|s| - 1]) + (s[|s| - 1] as int - '0' as int)
  }

  /** The decimal form of an integer, as JavaScript prints an integer-valued number. */
  function IntToString(n: int): (s: string)
    ensures |s| > 0 && forall i | 0 <= i < |s| :: s[i] != ','
  {
    if n < 0 then "-" + NatToString(-n) else NatToString(n)
  }

  /** `Number` on an optionally signed string of decimal digits; anything else is `None`. */
  function ParseInt(s: string): Option<int>
  {
    if |s| > 1 && s[0] == '-' && IsDigits(s[1..]) then Some(-(DigitsValue(s[1..]) as int))
    else if |s| > 0 && IsDigits(s) then Some(DigitsValue(s))
    else None
  }

  /** The position of the first comma of `s`, or `|s|` when there is none. */
  function IndexOfComma(s: string): (i: nat)
    ensures i <= |s|
    ensures i < |s| ==> s[i] == ','
    ensures forall j | 0 <= j < i :: s[j] != ','
  {
    if |s| == 0 || s[0] == ',' then 0 else 1 + IndexOfComma(s[1..])
  }

  /** `getChunkKey`: the chunk coordinates joined by a comma. */
  function ChunkKey(cx: int, cz: int): string
  {
    IntToString(cx) + "," + IntToString(cz)
  }

  /**
   * The coordinates `loadChunks` reads back from a key: the first two comma-separated
   * fields, each converted by `Number`; `None` when either is not a number.
   */
  function ParseKey(key: string): Option<(int, int)>
  {
    var i := IndexOfComma(key);
    if i == |key| then None
    else
      var rest := key[i + 1..];
      var x, z := ParseInt(key[..i]), ParseInt(rest[..IndexOfComma(rest)]);
      if x.Some? && z.Some? then Some((x.value, z.value)) else None
  }

  /** A key of the form `getChunkKey` produces. */
  ghost predicate IsChunkKey(key: string)
  {
    exists cx, cz :: key == ChunkKey(cx, cz)
  }

  lemma {:induction false} DigitsOfNat(n: nat)
    ensures DigitsValue(NatToString(n)) == n
    decreases n
  {
    if n >= 10 {
      var s := NatToString(n / 10);
      DigitsOfNat(n / 10);
      assert NatToString(n) == s + [DigitChar(n % 10)];
      assert (s + [DigitChar(n % 10)])[..|s|] == s;
    }
  }

  lemma ParseIntToString(n: int)
    ensures ParseInt(IntToString(n)) == Some(n)
  {
    if n < 0 {
      var d := NatToString(-n);
      DigitsOfNat(-n);
      assert ("-" + d)[1..] == d;
    } else {
      DigitsOfNat(n);
    }
  }

  lemma FirstCommaOfJoin(a: string, b: string)
    requires forall i | 0 <= i < |a| :: a[i] != ','
    ensures IndexOfComma(a + "," + b) == |a|
  {
    var s := a + "," + b;
    assert s[|a|] == ',';
  }

  /** Reading a key back gives the coordinates it was made from. */
  lemma ParseChunkKey(cx: int, cz: int)
    ensures ParseKey(ChunkKey(cx, cz)) == Some((cx, cz))
  {
    var a, b := IntToString(cx), IntToString(cz);
    var key := ChunkKey(cx, cz);
    FirstCommaOfJoin(a, b);
    assert key[..|a|] == a;
    assert key[|a| + 1..] == b;
    assert IndexOfComma(b) == |b|;
    assert b[..|b|] == b;
    ParseIntToString(cx);
    ParseIntToString(cz);
  }

  /** Distinct chunk coordinates have distinct keys. */
  lemma ChunkKeyInjective(cx: int, cz: int, cx': int, cz': int)
    ensures ChunkKey(cx, cz) == ChunkKey(cx', cz') <==> cx == cx' && cz == cz'
  {
    ParseChunkKey(cx, cz);
    ParseChunkKey(cx', cz');
  }

  // ---------------------------------------------------------------------------
  // World-to-chunk coordinates.
  // ---------------------------------------------------------------------------

  /** Math.floor(x / 16): the chunk coordinate of a world coordinate. */
  function ChunkCoord(x: int): (c: int)
    ensures Size * c <= x < Size * c + Size
  {
    x / Size
  }

  /** x - chunkX * 16: the position inside its chunk. */
  function LocalCoord(x: int): (l: int)
    ensures 0 <= l < Size
    ensures Size * ChunkCoord(x) + l == x
  {
    x - ChunkCoord(x) * Size
  }

  /** A world coordinate is split into exactly one chunk and one local position. */
  lemma SplitCoord(c: int, l: int)
    requires 0 <= l < Size
    ensures ChunkCoord(Size * c + l) == c && LocalCoord(Size * c + l) == l
  {
  }

  // ---------------------------------------------------------------------------
  // The streaming window.
  // ---------------------------------------------------------------------------

  /** The keys of the chunks (x, z) with x0 <= x < x1 and z0 <= z < z1. */
  function RectKeys(x0: int, x1: int, z0: int, z1: int): set<string>
  {
    set x, z | x0 <= x < x1 && z0 <= z < z1 :: ChunkKey(x, z)
  }

  /** The keys within Chebyshev distance r of chunk (pcx, pcz). */
  function WindowKeys(pcx: int, pcz: int, r: int): set<string>
  {
    RectKeys(pcx - r, pcx + r + 1, pcz - r, pcz + r + 1)
  }

  /** The window around (pcx, pcz) is exactly the keys of the chunks at most r away on both axes. */
  lemma WindowMembership(pcx: int, pcz: int, r: int, x: int, z: int)
    ensures ChunkKey(x, z) in WindowKeys(pcx, pcz, r) <==>
      pcx - r <= x <= pcx + r && pcz - r <= z <= pcz + r
  {
    if ChunkKey(x, z) in WindowKeys(pcx, pcz, r) {
      var x', z' :| pcx - r <= x' <= pcx + r && pcz - r <= z' <= pcz + r && ChunkKey(x, z) == ChunkKey(x', z');
      ChunkKeyInjective(x, z, x', z');
    }
  }

  /** One more key at the end of a row. */
  lemma RectExtendZ(x: int, x1: int, z0: int, z: int, z1: int)
    requires x1 == x + 1 && z0 <= z && z1 == z + 1
    ensures RectKeys(x, x1, z0, z1) == RectKeys(x, x1, z0, z) + {ChunkKey(x, z)}
  {
    forall k | k in RectKeys(x, x1, z0, z1)
      ensures k in RectKeys(x, x1, z0, z) + {ChunkKey(x, z)}
    {
      var x', z' :| x <= x' < x1 && z0 <= z' < z1 && k == ChunkKey(x', z');
      if z' < z {
        assert k in RectKeys(x, x1, z0, z);
      }
    }
  }

  /** One more row of keys. */
  lemma RectExtendX(x0: int, x: int, x1: int, z0: int, z1: int)
    requires x0 <= x && x1 == x + 1
    ensures RectKeys(x0, x1, z0, z1) == RectKeys(x0, x, z0, z1) + RectKeys(x, x1, z0, z1)
  {
    forall k | k in RectKeys(x0, x1, z0, z1)
      ensures k in RectKeys(x0, x, z0, z1) + RectKeys(x, x1, z0, z1)
    {
      var x', z' :| x0 <= x' < x1 && z0 <= z' < z1 && k == ChunkKey(x', z');
      if x' < x {
        assert k in RectKeys(x0, x, z0, z1);
      } else {
        assert k in RectKeys(x, x1, z0, z1);
      }
    }
  }

  /** Rectangles over disjoint column ranges share no key. */
  lemma RectsDisjoint(x0: int, x: int, x1: int, z0: int, z1: int)
    requires x0 <= x <= x1
    ensures RectKeys(x0, x, z0, z1) * RectKeys(x, x1, z0, z1) == {}
  {
    forall k | k in RectKeys(x0, x, z0, z1)
      ensures k !in RectKeys(x, x1, z0, z1)
    {
      var xa, za :| x0 <= xa < x && z0 <= za < z1 && k == ChunkKey(xa, za);
      if k in RectKeys(x, x1, z0, z1) {
        var xb, zb :| x <= xb < x1 && z0 <= zb < z1 && k == ChunkKey(xb, zb);
        ChunkKeyInjective(xa, za, xb, zb);
      }
    }
  }

  /** A row of the window holds one key per chunk. */
  lemma {:induction false} RowCount(x: int, x1: int, z0: int, z1: int)
    requires x1 == x + 1 && z0 <= z1
    ensures |RectKeys(x, x1, z0, z1)| == z1 - z0
    decreases z1 - z0
  {
    if z1 == z0 {
      assert RectKeys(x, x1, z0, z1) == {};
    } else {
      var z := z1 - 1;
      RowCount(x, x1, z0, z);
      RectExtendZ(x, x1, z0, z, z1);
      if ChunkKey(x, z) in RectKeys(x, x1, z0, z) {
        var xb, zb :| x <= xb < x1 && z0 <= zb < z && ChunkKey(x, z) == ChunkKey(xb, zb);
        ChunkKeyInjective(x, z, xb, zb);
      }
    }
  }

  /**
   * One more row of width w adds w to a count of n rows. A plain arithmetic step, stated
   * as a lemma so RectCount's proof stays small.
   */
  lemma RowsTimesWidth(total: int, rows: int, row: int, m: int, n: int, w: int)
    requires n == m + 1 && rows == m * w && row == w && total == rows + row
    ensures total == n * w
  {
  }

  // The built-in size of a disjoint union, stated as a lemma so RectCount's proof stays small.
  lemma DisjointUnionCount(all: set<string>, left: set<string>, row: set<string>)
    requires all == left + row && left * row == {}
    ensures |all| == |left| + |row|
  {
  }

  /** A rectangle of chunks has one key per chunk: (x1 - x0) (z1 - z0) keys. */
  lemma {:induction false} RectCount(x0: int, x1: int, z0: int, z1: int)
    requires x0 <= x1 && z0 <= z1
    ensures |RectKeys(x0, x1, z0, z1)| == (x1 - x0) * (z1 - z0)
    decreases x1 - x0
  {
    if x1 == x0 {
      assert RectKeys(x0, x1, z0, z1) == {};
      assert (x1 - x0) * (z1 - z0) == 0 * (z1 - z0) == 0;
    } else {
      var x, w := x1 - 1, z1 - z0;
      var all, left, row := RectKeys(x0, x1, z0, z1), RectKeys(x0, x, z0, z1), RectKeys(x, x1, z0, z1);
      RectCount(x0, x, z0, z1);
      RowCount(x, x1, z0, z1);
      RectExtendX(x0, x, x1, z0, z1);
      RectsDisjoint(x0, x, x1, z0, z1);
      DisjointUnionCount(all, left, row);
      RowsTimesWidth(|all|, |left|, |row|, x - x0, x1 - x0, w);
    }
  }

  /** The streaming window holds (2r + 1)^2 chunks. */
  lemma WindowCount(pcx: int, pcz: int, r: int)
    requires r >= 0
    ensures |WindowKeys(pcx, pcz, r)| == (2 * r + 1) * (2 * r + 1)
  {
    RectCount(pcx - r, pcx + r + 1, pcz - r, pcz + r + 1);
  }

  /** The keys of a list of chunk coordinates. */
  function KeysOf(cs: seq<(int, int)>): set<string>
  {
    if |cs| == 0 then {} else KeysOf(cs[..|cs| - 1]) + {ChunkKey(cs[|cs| - 1].0, cs[|cs| - 1].1)}
  }

  /** One more position adds its key. */
  lemma KeysOfExtend(cs: seq<(int, int)>, i: int)
    requires 0 <= i < |cs|
    ensures KeysOf(cs[..i + 1]) == KeysOf(cs[..i]) + {ChunkKey(cs[i].0, cs[i].1)}
  {
    assert cs[..i + 1][..i] == cs[..i];
  }

  lemma {:induction false} KeysOfWithin(cs: seq<(int, int)>, keys: set<string>)
    requires forall i | 0 <= i < |cs| :: ChunkKey(cs[i].0, cs[i].1) in keys
    ensures KeysOf(cs) <= keys
  {
    if |cs| > 0 {
      var init := cs[..|cs| - 1];
      assert forall i | 0 <= i < |init| :: init[i] == cs[i];
      KeysOfWithin(init, keys);
    }
  }

  lemma {:induction false} KeysOfContains(cs: seq<(int, int)>, c: (int, int))
    requires c in cs
    ensures ChunkKey(c.0, c.1) in KeysOf(cs)
  {
    var init := cs[..|cs| - 1];
    if c != cs[|cs| - 1] {
      assert cs == init + [cs[|cs| - 1]];
      KeysOfContains(init, c);
    }
  }

  /**
   * Visiting one more key of the unload loop keeps its set invariant. Set algebra only:
   * kept as a lemma so the unloading loop's proof stays small.
   */
  lemma KeptAfterStep(all: set<string>, keep: set<string>, todo: set<string>, keys: set<string>, key: string)
    requires keys == all * keep + todo && key in todo && todo <= all
    ensures key !in keep ==> keys - {key} == all * keep + (todo - {key})
    ensures key in keep ==> keys == all * keep + (todo - {key})
  {
  }

  /**
   * Adding one more row of keys to the loaded set keeps the loop's set invariant. Set
   * algebra only: kept as a lemma so the loading loops' proofs stay small.
   */
  lemma UnionStep(base: set<string>, done: set<string>, row: set<string>, done': set<string>,
                  pre: set<string>, post: set<string>)
    requires done' == done + row && pre == base + done && post == pre + row
    ensures post == base + done'
  {
  }

  /** The key of the chunk holding world column (x, z). */
  function ColumnKey(x: int, z: int): string
  {
    ChunkKey(ChunkCoord(x), ChunkCoord(z))
  }

  /** Math.floor(p / 16) for a player coordinate: the chunk the player stands in. */
  function PlayerChunk(p: real): (c: int)
    ensures 16.0 * (c as real) <= p < 16.0 * (c as real) + 16.0
  {
    (p / 16.0).Floor
  }

  /** The distance, in chunks, that `update` keeps loaded around the player. */
  const RenderDistance: int := 8

  class World {
    var chunks: map<string, Chunk>
    /** The key of the chunk each block array belongs to; it records that no two chunks share one. */
    ghost var owner: map<array<byte>, string>
    const renderDistance: int
    /**
     * The column height the terrain generator uses, floor(octaveNoise(x * 0.01, 0,
     * z * 0.01, 4) * 10 + 30), as a function of the world column.
     */
    const height: (int, int) -> int

    /**
     * Every chunk is well formed and stored under the key of its own coordinates, and its
     * block array belongs to it alone.
     */
    ghost predicate Valid()
      reads this
    {
      && renderDistance >= 0
      && forall k | k in chunks ::
        && chunks[k].Valid() && k == ChunkKey(chunks[k].cx, chunks[k].cz)
        && chunks[k].blocks in owner && owner[chunks[k].blocks] == k
    }

    /** No two loaded chunks share a block array. */
    lemma SeparateArrays(k: string, k': string)
      requires Valid() && k in chunks && k' in chunks && k != k'
      ensures chunks[k] != chunks[k'] && chunks[k].blocks != chunks[k'].blocks
    {
    }

    ghost function Loaded(): set<object>
      reads this
    {
      set k | k in chunks :: chunks[k]
    }

    ghost function BlockArrays(): set<object>
      reads this
    {
      set k | k in chunks :: chunks[k].blocks
    }

    /** A chunk exactly as `loadChunk` leaves a freshly generated one. */
    ghost predicate Generated(c: Chunk)
      reads c, c.blocks
    {
      c.Valid() && c.blocks[..] == Terrain(c.cx, c.cz, height) && c.needsUpdate && c.mesh == None
    }

    /** An empty world with render distance 8. */
    constructor (height: (int, int) -> int)
      ensures Valid()
      ensures chunks == map[] && renderDistance == RenderDistance && this.height == height
    {
      chunks := map[];
      owner := map[];
      renderDistance := RenderDistance;
      this.height := height;
    }

    /** The chunk stored under a key is the chunk at the coordinates of that key. */
    lemma ChunkAtKey(cx: int, cz: int)
      requires Valid() && ChunkKey(cx, cz) in chunks
      ensures chunks[ChunkKey(cx, cz)].cx == cx && chunks[ChunkKey(cx, cz)].cz == cz
    {
      var c := chunks[ChunkKey(cx, cz)];
      ChunkKeyInjective(cx, cz, c.cx, c.cz);
    }

    /** `getChunk`: the loaded chunk at (cx, cz), if there is one. */
    function GetChunk(cx: int, cz: int): (r: Option<Chunk>)
      requires Valid()
      reads this
      ensures r.Some? <==> ChunkKey(cx, cz) in chunks
      ensures r.Some? ==> r.value in Loaded() && r.value.cx == cx && r.value.cz == cz
    {
      var key := ChunkKey(cx, cz);
      if key in chunks then ChunkAtKey(cx, cz); Some(chunks[key]) else None
    }

    /**
     * `getBlock`: air above or below the chunk column or where no chunk is loaded;
     * otherwise the block of the chunk containing (x, z), at the position inside it.
     */
    function GetBlock(x: int, y: int, z: int): (b: byte)
      requires Valid()
      reads this, BlockArrays()
      ensures (y < 0 || y >= Size || GetChunk(ChunkCoord(x), ChunkCoord(z)).None?) ==> b == Air
    {
      if y < 0 || y >= Size then Air
      else
        var chunkX, chunkZ := ChunkCoord(x), ChunkCoord(z);
        var chunk := GetChunk(chunkX, chunkZ);
        if chunk.None? then Air
        else chunk.value.GetBlock(x - chunkX * Size, y, z - chunkZ * Size)
    }

    /** Every world position names the block of one loaded chunk, negative positions included. */
    lemma GetBlockOfChunk(cx: int, cz: int, lx: int, y: int, lz: int)
      requires Valid() && ChunkKey(cx, cz) in chunks && InRange(lx, y, lz)
      ensures GetBlock(cx * Size + lx, y, cz * Size + lz) == chunks[ChunkKey(cx, cz)].blocks[BlockIndex(lx, y, lz)]
    {
      SplitCoord(cx, lx);
      SplitCoord(cz, lz);
    }

    /**
     * What the mesher's neighbour lookup means once the engine passes the world's own
     * `getBlock` for `world`: inside the chunk and across its borders alike, the
     * neighbour read by `getNeighborBlock` is the world's block at the same position.
     */
    lemma NeighborLookupIsWorldLookup(k: string, x: int, y: int, z: int, world: (int, int, int) -> byte)
      requires Valid() && k in chunks
      requires forall a, b, c {:trigger world(a, b, c)} :: world(a, b, c) == GetBlock(a, b, c)
      ensures chunks[k].GetNeighborBlock(x, y, z, world)
        == GetBlock(chunks[k].cx * Size + x, y, chunks[k].cz * Size + z)
    {
      var c := chunks[k];
      if InRange(x, y, z) {
        GetBlockOfChunk(c.cx, c.cz, x, y, z);
      }
    }

    /**
     * `setBlock`: when the column position is loaded and y is inside it, the chunk holding
     * it changes in exactly one cell, the one at the local position, which becomes the
     * (truncated) type and reads back as such, and the chunk is dirty; no other chunk
     * changes.
     */
    method SetBlock(x: int, y: int, z: int, blockType: int)
      requires Valid()
      modifies Loaded(), BlockArrays()
      ensures Valid() && chunks == old(chunks)
      ensures 0 <= y < Size && ColumnKey(x, z) in chunks ==>
        && chunks[ColumnKey(x, z)].blocks[..] ==
          old(chunks[ColumnKey(x, z)].blocks[..])[BlockIndex(LocalCoord(x), y, LocalCoord(z)) := ToUint8(blockType)]
        && chunks[ColumnKey(x, z)].needsUpdate
        && GetBlock(x, y, z) == ToUint8(blockType)
      ensures forall k | k in chunks && (k != ColumnKey(x, z) || y < 0 || y >= Size) ::
        chunks[k].blocks[..] == old(chunks[k].blocks[..]) && chunks[k].needsUpdate == old(chunks[k].needsUpdate)
      ensures forall k | k in chunks :: chunks[k].mesh == old(chunks[k].mesh)
    {
      if y < 0 || y >= 16 {
        return;
      }
      var chunkX, chunkZ := ChunkCoord(x), ChunkCoord(z);
      var chunk := GetChunk(chunkX, chunkZ);
      if chunk.None? {
        return;
      }
      var localX, localZ := x - chunkX * Size, z - chunkZ * Size;
      chunk.value.SetBlock(localX, y, localZ, blockType);
    }

    /** `markChunkDirty`: the chunk at (cx, cz), if loaded, becomes dirty; nothing else changes. */
    method MarkChunkDirty(cx: int, cz: int)
      requires Valid()
      modifies Loaded()
      ensures Valid() && chunks == old(chunks)
      ensures forall k | k in chunks ::
        chunks[k].needsUpdate == (old(chunks[k].needsUpdate) || k == ChunkKey(cx, cz))
      ensures forall k | k in chunks :: chunks[k].mesh == old(chunks[k].mesh)
    {
      var chunk := GetChunk(cx, cz);
      if chunk.Some? {
        // The source sets `chunk.dirty`, a field `Chunk` never reads; the flag the mesher reads is `needsUpdate`.
        chunk.value.needsUpdate := true;
      }
    }

    /**
     * `loadChunk`: an already loaded chunk is returned and the map is left as it was;
     * otherwise exactly one new entry is added, a new chunk filled by the terrain rule.
     */
    method LoadChunk(cx: int, cz: int) returns (c: Chunk)
      requires Valid()
      modifies this
      ensures Valid()
      ensures c.cx == cx && c.cz == cz
      ensures ChunkKey(cx, cz) in old(chunks) ==> chunks == old(chunks) && c == old(chunks[ChunkKey(cx, cz)])
      ensures ChunkKey(cx, cz) !in old(chunks) ==>
        chunks == old(chunks)[ChunkKey(cx, cz) := c] && fresh(c) && fresh(c.blocks) && Generated(c)
    {
      var key := ChunkKey(cx, cz);
      if key in chunks {
        ChunkAtKey(cx, cz);
        return chunks[key];
      }
      // The source builds `new Chunk(x, z, this)`, stores it, and calls `chunk.generate()`,
      // which `Chunk` does not define; the model runs the terrain generator there.
      c := new Chunk(cx, cz);
      chunks := chunks[key := c];
      owner := owner[c.blocks := key];
      c.GenerateTerrain(height);
    }

    /** `unloadChunk`: the key of (cx, cz) is removed if present; nothing else changes. */
    method UnloadChunk(cx: int, cz: int)
      requires Valid()
      modifies this
      ensures Valid()
      ensures chunks == old(chunks) - {ChunkKey(cx, cz)}
    {
      var key := ChunkKey(cx, cz);
      if key in chunks {
        chunks := chunks - {key};
      }
    }

    /** The chunks of `keep` that are not loaded are exactly those listed in `load`. */
    ghost predicate Planned(keep: set<string>, load: seq<(int, int)>)
      reads this
    {
      && (forall i | 0 <= i < |load| :: ChunkKey(load[i].0, load[i].1) in keep && ChunkKey(load[i].0, load[i].1) !in chunks)
      && (forall x, z | ChunkKey(x, z) in keep && ChunkKey(x, z) !in chunks :: (x, z) in load)
    }

    /** The inner loop of the first loop of `update`: the keys (x, z0) .. (x, z1 - 1). */
    method PlanRow(x: int, x1: int, z0: int, z1: int, keep: set<string>, load: seq<(int, int)>)
      returns (keep': set<string>, load': seq<(int, int)>)
      requires x1 == x + 1 && z0 <= z1 && Planned(keep, load)
      ensures keep' == keep + RectKeys(x, x1, z0, z1) && Planned(keep', load')
    {
      keep', load' := keep, load;
      assert RectKeys(x, x1, z0, z0) == {};
      for z := z0 to z1
        invariant keep' == keep + RectKeys(x, x1, z0, z) && Planned(keep', load')
      {
        RectExtendZ(x, x1, z0, z, z + 1);
        keep', load' := PlanCell(x, z, keep', load');
      }
    }

    /** One step of that loop: keep chunk (x, z), and list it for loading when it is not loaded. */
    method PlanCell(x: int, z: int, keep: set<string>, load: seq<(int, int)>)
      returns (keep': set<string>, load': seq<(int, int)>)
      requires Planned(keep, load)
      ensures keep' == keep + {ChunkKey(x, z)} && Planned(keep', load')
    {
      var key := ChunkKey(x, z);
      forall x', z' | ChunkKey(x', z') == key
        ensures x' == x && z' == z
      {
        ChunkKeyInjective(x', z', x, z);
      }
      keep' := keep + {key};
      if key !in chunks {
        load' := load + [(x, z)];
      } else {
        load' := load;
      }
    }

    /**
     * The first loop of `update`: the keys to keep, which are exactly the window around
     * chunk (pcx, pcz), and the coordinates of the window's chunks that are not loaded.
     */
    method StreamingPlan(pcx: int, pcz: int) returns (keep: set<string>, load: seq<(int, int)>)
      requires Valid()
      ensures keep == WindowKeys(pcx, pcz, renderDistance)
      ensures forall i | 0 <= i < |load| :: ChunkKey(load[i].0, load[i].1) in keep - chunks.Keys
      ensures forall x, z | ChunkKey(x, z) in keep - chunks.Keys :: (x, z) in load
    {
      var r := renderDistance;
      var x0, x1, z0, z1 := pcx - r, pcx + r + 1, pcz - r, pcz + r + 1;
      keep, load := {}, [];
      assert RectKeys(x0, x0, z0, z1) == {};
      for x := x0 to x1
        invariant keep == RectKeys(x0, x, z0, z1) && Planned(keep, load)
      {
        RectExtendX(x0, x, x + 1, z0, z1);
        keep, load := PlanRow(x, x + 1, z0, z1, keep, load);
      }
    }

    /**
     * The second loop of `update`: every loaded chunk whose key is not kept is unloaded,
     * through `unloadChunk` at the chunk's own coordinates.
     */
    method UnloadOutside(keep: set<string>)
      requires Valid()
      modifies this
      ensures Valid()
      ensures chunks.Keys == old(chunks.Keys) * keep
      ensures forall k | k in chunks :: chunks[k] == old(chunks[k])
    {
      var todo := chunks.Keys;
      while todo != {}
        invariant Valid() && todo <= chunks.Keys
        invariant chunks.Keys == old(chunks.Keys) * keep + todo
        invariant forall k | k in chunks :: k in old(chunks) && chunks[k] == old(chunks[k])
        decreases todo
      {
        var key :| key in todo;
        var chunk := chunks[key];
        ghost var pre := chunks.Keys;
        if key !in keep {
          UnloadChunk(chunk.cx, chunk.cz);
          assert chunks.Keys == pre - {key};
        }
        KeptAfterStep(old(chunks.Keys), keep, todo, pre, key);
        todo := todo - {key};
      }
    }

    /** One step of the last loop of `update`: `loadChunk` at (cx, cz), seen as a key-set update. */
    method LoadNext(cx: int, cz: int)
      requires Valid()
      modifies this
      ensures Valid()
      ensures chunks.Keys == old(chunks.Keys) + {ChunkKey(cx, cz)}
      ensures forall k | k in old(chunks) :: chunks[k] == old(chunks[k])
      ensures forall k | k in chunks && k !in old(chunks) ::
        fresh(chunks[k]) && fresh(chunks[k].blocks) && Generated(chunks[k])
    {
      var _ := LoadChunk(cx, cz);
    }

    /** The last loop of `update`: `loadChunk` at each planned position. */
    method LoadAll(load: seq<(int, int)>)
      requires Valid()
      modifies this
      ensures Valid()
      ensures chunks.Keys == old(chunks.Keys) + KeysOf(load)
      ensures forall k | k in old(chunks) :: chunks[k] == old(chunks[k])
      ensures forall k | k in chunks && k !in old(chunks) ::
        fresh(chunks[k]) && fresh(chunks[k].blocks) && Generated(chunks[k])
    {
      for i := 0 to |load|
        invariant Valid()
        invariant chunks.Keys == old(chunks.Keys) + KeysOf(load[..i])
        invariant forall k | k in old(chunks) :: chunks[k] == old(chunks[k])
        invariant forall k | k in chunks && k !in old(chunks) ::
          fresh(chunks[k]) && fresh(chunks[k].blocks) && Generated(chunks[k])
      {
        var cx, cz := load[i].0, load[i].1;
        KeysOfExtend(load, i);
        ghost var pre := chunks;
        LoadNext(cx, cz);
        UnionStep(old(chunks.Keys), KeysOf(load[..i]), {ChunkKey(cx, cz)}, KeysOf(load[..i + 1]), pre.Keys, chunks.Keys);
        forall k | k in chunks && k !in old(chunks)
          ensures fresh(chunks[k]) && fresh(chunks[k].blocks) && Generated(chunks[k])
        {
          if k in pre {
            assert chunks[k] == pre[k];
          }
        }
      }
      assert load[..|load|] == load;
    }

    /**
     * The streaming part of `update`: afterwards exactly the chunks within the render
     * distance of the player's chunk are loaded. Chunks that stay are the same objects;
     * the others are newly generated. When the window was already loaded, nothing
     * changes, so a second update from the same chunk loads and unloads nothing.
     */
    method Update(px: real, pz: real)
      requires Valid()
      modifies this
      ensures Valid()
      ensures chunks.Keys == WindowKeys(PlayerChunk(px), PlayerChunk(pz), renderDistance)
      ensures forall k | k in chunks && k in old(chunks) :: chunks[k] == old(chunks[k])
      ensures forall k | k in chunks && k !in old(chunks) ::
        fresh(chunks[k]) && fresh(chunks[k].blocks) && Generated(chunks[k])
      ensures old(chunks.Keys) == WindowKeys(PlayerChunk(px), PlayerChunk(pz), renderDistance) ==>
        chunks == old(chunks)
    {
      var playerChunkX := PlayerChunk(px);
      var playerChunkZ := PlayerChunk(pz);
      var keep, load := StreamingPlan(playerChunkX, playerChunkZ);
      ghost var before := chunks;
      UnloadOutside(keep);
      ghost var kept := chunks;
      LoadAll(load);
      KeysOfWithin(load, keep - before.Keys);
      forall k | k in keep - before.Keys
        ensures k in KeysOf(load)
      {
        var x, z :| k == ChunkKey(x, z);
        KeysOfContains(load, (x, z));
      }
      assert KeysOf(load) == keep - before.Keys;
      assert kept.Keys == before.Keys * keep;
      assert chunks.Keys == keep;
      if before.Keys == keep {
        assert forall k | k in chunks :: k in before && chunks[k] == before[k];
        assert chunks == before;
      }
    }

    /** The inner loop of `generateInitialChunks`: `loadChunk` at (x, z0) .. (x, z1 - 1). */
    method LoadRow(x: int, x1: int, z0: int, z1: int)
      requires Valid() && x1 == x + 1 && z0 <= z1
      modifies this
      ensures Valid()
      ensures chunks.Keys == old(chunks.Keys) + RectKeys(x, x1, z0, z1)
      ensures forall k | k in old(chunks) :: chunks[k] == old(chunks[k])
    {
      assert RectKeys(x, x1, z0, z0) == {};
      for z := z0 to z1
        invariant Valid()
        invariant chunks.Keys == old(chunks.Keys) + RectKeys(x, x1, z0, z)
        invariant forall k | k in old(chunks) :: chunks[k] == old(chunks[k])
      {
        RectExtendZ(x, x1, z0, z, z + 1);
        ghost var pre := chunks.Keys;
        LoadNext(x, z);
        UnionStep(old(chunks.Keys), RectKeys(x, x1, z0, z), {ChunkKey(x, z)}, RectKeys(x, x1, z0, z + 1), pre, chunks.Keys);
      }
    }

    /**
     * `generateInitialChunks`: `loadChunk` for every chunk within the render distance of
     * chunk (0, 0). Afterwards exactly those keys are loaded besides the ones that were;
     * chunks already loaded are kept as they are. (Each new chunk is made by `LoadChunk`;
     * that its terrain is generated is stated there and not carried through this loop.)
     */
    method GenerateInitialChunks()
      requires Valid()
      modifies this
      ensures Valid()
      ensures chunks.Keys == old(chunks.Keys) + WindowKeys(0, 0, renderDistance)
      ensures forall k | k in old(chunks) :: chunks[k] == old(chunks[k])
    {
      var r := renderDistance;
      assert RectKeys(-r, -r, -r, r + 1) == {};
      // The window is centred on chunk (0, 0), so chunk (0 + x, 0 + z) is chunk (x, z).
      for x := -r to r + 1
        invariant Valid()
        invariant chunks.Keys == old(chunks.Keys) + RectKeys(-r, x, -r, r + 1)
        invariant forall k | k in old(chunks) :: chunks[k] == old(chunks[k])
      {
        LoadColumn(old(chunks.Keys), r, x);
      }
      assert 0 - r == -r && 0 + r + 1 == r + 1;
      assert WindowKeys(0, 0, r) == RectKeys(-r, r + 1, -r, r + 1);
    }

    /**
     * One pass of the outer loop of `generateInitialChunks`: the keys (x, -r) .. (x, r)
     * join the loaded ones.
     */
    method LoadColumn(ghost base: set<string>, r: int, x: int)
      requires Valid() && 0 <= r && -r <= x && chunks.Keys == base + RectKeys(-r, x, -r, r + 1)
      modifies this
      ensures Valid()
      ensures chunks.Keys == base + RectKeys(-r, x + 1, -r, r + 1)
      ensures forall k | k in old(chunks) :: chunks[k] == old(chunks[k])
    {
      RectExtendX(-r, x, x + 1, -r, r + 1);
      ghost var pre := chunks.Keys;
      LoadRow(x, x + 1, -r, r + 1);
      UnionStep(base, RectKeys(-r, x, -r, r + 1), RectKeys(x, x + 1, -r, r + 1),
        RectKeys(-r, x + 1, -r, r + 1), pre, chunks.Keys);
    }

    /** A chunk exactly as `loadChunks` leaves one restored from `blocks`. */
    ghost predicate Restored(c: Chunk, key: string, blocks: seq<byte>)
      reads c, c.blocks
    {
      && c.Valid() && key == ChunkKey(c.cx, c.cz)
      && c.blocks[..] == blocks && c.needsUpdate && c.mesh == None
    }

    /**
     * `loadChunks`: the map is cleared and then holds exactly the saved keys, each with a
     * new chunk at the coordinates parsed from its key, holding the saved blocks and
     * marked dirty.
     */
    method LoadChunks(saved: map<string, seq<byte>>)
      requires Valid()
      requires forall k | k in saved :: IsChunkKey(k) && |saved[k]| == Volume
      modifies this
      ensures Valid()
      ensures chunks.Keys == saved.Keys
      ensures forall k | k in chunks :: Restored(chunks[k], k, saved[k])
    {
      Clear();
      var todo := saved.Keys;
      while todo != {}
        invariant Valid() && todo <= saved.Keys
        invariant chunks.Keys == saved.Keys - todo
        invariant forall k | k in chunks :: Restored(chunks[k], k, saved[k])
        decreases todo
      {
        var key :| key in todo;
        RestoreChunk(key, saved[key]);
        todo := todo - {key};
      }
    }

    /**
     * The body of the loop of `loadChunks`: a new chunk at the coordinates read back from
     * `key`, holding `blocks`, stored under `key`.
     */
    method RestoreChunk(key: string, blocks: seq<byte>)
      requires Valid() && IsChunkKey(key) && |blocks| == Volume
      modifies this
      ensures Valid()
      ensures key in chunks && chunks == old(chunks)[key := chunks[key]]
      ensures fresh(chunks[key]) && Restored(chunks[key], key, blocks)
    {
      ghost var cx, cz :| key == ChunkKey(cx, cz);
      ParseChunkKey(cx, cz);
      var xz := ParseKey(key).value;
      var chunk := new Chunk.FromSaved(xz.0, xz.1, blocks);
      chunks := chunks[key := chunk];
      owner := owner[chunk.blocks := key];
    }

    /** `clear`: no chunk is left loaded. */
    method Clear()
      requires Valid()
      modifies this
      ensures Valid() && chunks == map[]
    {
      chunks := map[];
    }
  }
}
