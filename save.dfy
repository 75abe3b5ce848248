/**
 * The persistence format of the save manager: a run-length codec over the flat block
 * array of a chunk, and the per-key compression of a whole key-to-chunk map.
 */
module Save {
  import opened Blocks

  /** One pair `[value, count]` of the encoded form. Decoded data may carry any count. */
  datatype Run = Run(value: byte, count: int)

  /**
   * `n` copies of `v`; a count below one yields nothing, as the decoder's `i < count`
   * loop does.
   */
  function Repeat(v: byte, n: int): seq<byte>
    decreases n
  {
    if n <= 0 then [] else Repeat(v, n - 1) + [v]
  }

  /** What decoding means: each pair's value repeated `count` times, the pairs in order. */
  function Expand(runs: seq<Run>): seq<byte>
  {
    if runs == [] then []
    else Expand(runs[..|runs| - 1]) + Repeat(runs[|runs| - 1].value, runs[|runs| - 1].count)
  }

  /** Sum of the counts, where a count below one contributes nothing. */
  function TotalCount(runs: seq<Run>): nat
  {
    if runs == [] then 0
    else
      var c := runs[|runs| - 1].count;
      TotalCount(runs[..|runs| - 1]) + (if c <= 0 then 0 else c)
  }

  /**
   * The shape of an encoder output: every count positive and no two adjacent pairs share
   * a value.
   */
  predicate WellFormed(runs: seq<Run>)
  {
    && (forall i | 0 <= i < |runs| :: runs[i].count >= 1)
    && (forall i | 0 < i < |runs| :: runs[i - 1].value != runs[i].value)
  }

  /** A run with a positive count and a new value extends a well-formed encoding. */
  lemma WellFormedSnoc(runs: seq<Run>, r: Run)
    requires WellFormed(runs) && r.count >= 1
    requires runs != [] ==> runs[|runs| - 1].value != r.value
    ensures WellFormed(runs + [r])
  {
  }

  /** Number of copies of `v` at the very end of `s`. */
  function TrailingCount(s: seq<byte>, v: byte): nat
  {
    if s == [] || s[|s| - 1] != v then 0 else 1 + TrailingCount(s[..|s| - 1], v)
  }

  lemma {:induction false} RepeatFacts(v: byte, n: int)
    ensures |Repeat(v, n)| == (if n <= 0 then 0 else n)
    ensures forall i | 0 <= i < |Repeat(v, n)| :: Repeat(v, n)[i] == v
    decreases n
  {
    if n > 0 {
      RepeatFacts(v, n - 1);
    }
  }

  /** Decoded length is the sum of the counts. */
  lemma {:induction false} ExpandLength(runs: seq<Run>)
    ensures |Expand(runs)| == TotalCount(runs)
  {
    if runs != [] {
      ExpandLength(runs[..|runs| - 1]);
      RepeatFacts(runs[|runs| - 1].value, runs[|runs| - 1].count);
    }
  }

  /** Decoding a sequence extended by one pair appends that pair's expansion. */
  lemma ExpandSnoc(runs: seq<Run>, r: Run)
    ensures Expand(runs + [r]) == Expand(runs) + Repeat(r.value, r.count)
  {
    assert (runs + [r])[..|runs|] == runs;
  }

  lemma {:induction false} TrailingAppend(a: seq<byte>, v: byte, n: int)
    ensures TrailingCount(a + Repeat(v, n), v) == TrailingCount(a, v) + (if n <= 0 then 0 else n)
    decreases n
  {
    if n > 0 {
      TrailingAppend(a, v, n - 1);
      TrailingStep(a, v, n);
    } else {
      assert a + Repeat(v, n) == a;
    }
  }

  /** The inductive step of TrailingAppend: one more copy of `v` at the end counts once more. */
  lemma TrailingStep(a: seq<byte>, v: byte, n: int)
    requires n > 0
    requires TrailingCount(a + Repeat(v, n - 1), v) == TrailingCount(a, v) + (n - 1)
    ensures TrailingCount(a + Repeat(v, n), v) == TrailingCount(a, v) + n
  {
    var r := Repeat(v, n - 1);
    assert Repeat(v, n) == r + [v];
    AppendAssoc(a, r, [v]);
    TrailingSnoc(a + r, v);
  }

  /** Appending one more `v` adds one to the trailing count of `v`. */
  lemma TrailingSnoc(b: seq<byte>, v: byte)
    ensures TrailingCount(b + [v], v) == 1 + TrailingCount(b, v)
  {
    assert (b + [v])[..|b|] == b;
  }

  /** What a well-formed, non-empty encoding ends with: its last value, exactly `count` times. */
  lemma {:induction false} LastRunIsMaximal(runs: seq<Run>)
    requires WellFormed(runs) && runs != []
    ensures var last := runs[|runs| - 1];
      && |Expand(runs)| >= last.count
      && Expand(runs)[|Expand(runs)| - 1] == last.value
      && TrailingCount(Expand(runs), last.value) == last.count
      && Expand(runs)[..|Expand(runs)| - last.count] == Expand(runs[..|runs| - 1])
  {
    var init, last := runs[..|runs| - 1], runs[|runs| - 1];
    var a := Expand(init);
    RepeatFacts(last.value, last.count);
    TrailingAppend(a, last.value, last.count);
    assert Expand(runs) == a + Repeat(last.value, last.count);
    if init != [] {
      assert WellFormed(init);
      LastRunIsMaximal(init);
      assert init[|init| - 1] == runs[|runs| - 2];
    }
    assert TrailingCount(a, last.value) == 0;
    assert (a + Repeat(last.value, last.count))[..|a|] == a;
  }

  /**
   * The encoded form is canonical: two well-formed pair lists that decode to the same
   * blocks are equal. So the runs the encoder emits are the maximal runs of its input.
   */
  lemma {:induction false} WellFormedUnique(r1: seq<Run>, r2: seq<Run>)
    requires WellFormed(r1) && WellFormed(r2)
    requires Expand(r1) == Expand(r2)
    ensures r1 == r2
    decreases |r1|
  {
    if r1 == [] || r2 == [] {
      if r1 != [] {
        LastRunIsMaximal(r1);
      } else if r2 != [] {
        LastRunIsMaximal(r2);
      }
    } else {
      var e := Expand(r1);
      var l1, l2 := r1[|r1| - 1], r2[|r2| - 1];
      LastRunIsMaximal(r1);
      LastRunIsMaximal(r2);
      assert l1.value == e[|e| - 1] == l2.value;
      assert l1.count == TrailingCount(e, l1.value) == l2.count;
      var i1, i2 := r1[..|r1| - 1], r2[..|r2| - 1];
      assert Expand(i1) == e[..|e| - l1.count] == Expand(i2);
      WellFormedInit(r1);
      WellFormedInit(r2);
      WellFormedUnique(i1, i2);
      InitPlusLast(r1);
      InitPlusLast(r2);
    }
  }

  // A built-in sequence identity, stated as a lemma so WellFormedUnique's proof stays small.
  lemma InitPlusLast(runs: seq<Run>)
    requires runs != []
    ensures runs == runs[..|runs| - 1] + [runs[|runs| - 1]]
  {
  }

  /**
   * Dropping the last pair keeps an encoding well formed. Follows from the definition
   * alone; a lemma so WellFormedUnique's proof stays small.
   */
  lemma WellFormedInit(runs: seq<Run>)
    requires WellFormed(runs) && runs != []
    ensures WellFormed(runs[..|runs| - 1])
  {
  }

  /** A constant array of length `n` has the one-pair encoding `[v, n]` and no other. */
  lemma ConstantEncoding(v: byte, n: int, runs: seq<Run>)
    requires n > 0
    requires WellFormed(runs) && Expand(runs) == Repeat(v, n)
    ensures runs == [Run(v, n)]
  {
    assert Expand([Run(v, n)]) == Repeat(v, n) by {
      ExpandSnoc([], Run(v, n));
    }
    WellFormedUnique(runs, [Run(v, n)]);
  }

  /**
   * `runLengthEncode`: the output decodes back to the input, every count is at least one,
   * adjacent pairs differ and the counts add up to the input length.
   * The source reads `blocks[0]` unconditionally and emits a pair even for an empty input,
   * so the model asks for a non-empty array (a chunk always holds 4096 cells).
   */
  method RunLengthEncode(blocks: seq<byte>) returns (encoded: seq<Run>)
    requires |blocks| > 0
    ensures WellFormed(encoded)
    ensures Expand(encoded) == blocks
    ensures TotalCount(encoded) == |blocks|
  {
    encoded := [];
    var currentValue := blocks[0];
    var count := 1;
    var i := 1;
    assert blocks[..1] == [blocks[0]];
    while i < |blocks|
      invariant 1 <= i <= |blocks|
      invariant EncoderState(encoded, currentValue, count, blocks[..i])
    {
      encoded, currentValue, count := EncodeNext(encoded, currentValue, count, blocks, i);
      i := i + 1;
    }
    assert blocks[..i] == blocks;
    FinishEncode(encoded, currentValue, count, blocks);
    encoded := encoded + [Run(currentValue, count)];
  }

  /** After the last block the open run is closed, which completes the encoding. */
  lemma FinishEncode(runs: seq<Run>, v: byte, n: int, blocks: seq<byte>)
    requires EncoderState(runs, v, n, blocks)
    ensures WellFormed(runs + [Run(v, n)])
    ensures Expand(runs + [Run(v, n)]) == blocks
    ensures TotalCount(runs + [Run(v, n)]) == |blocks|
  {
    ExpandSnoc(runs, Run(v, n));
    WellFormedSnoc(runs, Run(v, n));
    ExpandLength(runs + [Run(v, n)]);
  }

  /**
   * What the encoder's loop keeps: the closed runs are well formed, the open run of
   * `n` copies of `v` has a value different from the last closed one, and together
   * they expand to the blocks read so far.
   */
  predicate EncoderState(runs: seq<Run>, v: byte, n: int, prefix: seq<byte>)
  {
    && n >= 1 && WellFormed(runs)
    && (runs != [] ==> runs[|runs| - 1].value != v)
    && Expand(runs) + Repeat(v, n) == prefix
  }

  /** One iteration of the encoder's loop: extend the open run or close it and start a new one. */
  method EncodeNext(runs: seq<Run>, v: byte, n: int, blocks: seq<byte>, i: int)
    returns (runs': seq<Run>, v': byte, n': int)
    requires 0 < i < |blocks| && EncoderState(runs, v, n, blocks[..i])
    ensures EncoderState(runs', v', n', blocks[..i + 1])
    ensures v' == blocks[i]
  {
    var b := blocks[i];
    ghost var prefix := blocks[..i];
    assert blocks[..i + 1] == prefix + [b];
    if b == v {
      ExtendRun(runs, v, n, prefix, prefix + [b]);
      runs', v', n' := runs, v, n + 1;
    } else {
      CloseRun(runs, v, n, prefix, b, prefix + [b]);
      runs', v', n' := runs + [Run(v, n)], b, 1;
    }
  }

  /** The encoder's step when the next block continues the open run. */
  lemma ExtendRun(runs: seq<Run>, v: byte, n: int, prefix: seq<byte>, next: seq<byte>)
    requires n >= 1 && Expand(runs) + Repeat(v, n) == prefix
    requires next == prefix + [v]
    ensures Expand(runs) + Repeat(v, n + 1) == next
  {
  }

  /** The encoder's step when the next block differs: the open run is closed. */
  lemma CloseRun(runs: seq<Run>, v: byte, n: int, prefix: seq<byte>, b: byte, next: seq<byte>)
    requires n >= 1 && WellFormed(runs) && Expand(runs) + Repeat(v, n) == prefix
    requires runs != [] ==> runs[|runs| - 1].value != v
    requires next == prefix + [b] && b != v
    ensures WellFormed(runs + [Run(v, n)])
    ensures Expand(runs + [Run(v, n)]) + Repeat(b, 1) == next
  {
    ExpandSnoc(runs, Run(v, n));
    WellFormedSnoc(runs, Run(v, n));
    assert Repeat(b, 1) == [b];
  }

  /** `runLengthDecode`: pushes each pair's value `count` times, the pairs in order. */
  method RunLengthDecode(encoded: seq<Run>) returns (blocks: seq<byte>)
    ensures blocks == Expand(encoded)
    ensures |blocks| == TotalCount(encoded)
  {
    blocks := [];
    var j := 0;
    while j < |encoded|
      invariant 0 <= j <= |encoded|
      invariant blocks == Expand(encoded[..j])
    {
      var value, count := encoded[j].value, encoded[j].count;
      var i := 0;
      while i < count
        invariant 0 <= i <= (if count <= 0 then 0 else count)
        invariant blocks == Expand(encoded[..j]) + Repeat(value, i)
      {
        blocks := blocks + [value];
        i := i + 1;
      }
      assert Repeat(value, i) == Repeat(value, count);
      assert encoded[..j + 1] == encoded[..j] + [encoded[j]];
      ExpandSnoc(encoded[..j], encoded[j]);
      j := j + 1;
    }
    assert encoded[..j] == encoded;
    ExpandLength(encoded);
  }

  /** Encoding then decoding a non-empty block array gives it back. */
  method EncodeDecodeRoundTrip(blocks: seq<byte>) returns (restored: seq<byte>)
    requires |blocks| > 0
    ensures restored == blocks
  {
    var encoded := RunLengthEncode(blocks);
    restored := RunLengthDecode(encoded);
  }

  /** The keys `compressChunks` keeps: those whose entry has a block array. */
  function KeysWithBlocks(chunks: map<string, Option<seq<byte>>>): set<string>
  {
    set k | k in chunks && chunks[k].Some?
  }

  /**
   * `compressChunks`: one encoded entry per key whose chunk has blocks, and nothing else.
   * A chunk's array is never empty in the engine; the requires says so for the encoder.
   */
  method CompressChunks(chunks: map<string, Option<seq<byte>>>) returns (compressed: map<string, seq<Run>>)
    requires forall k | k in chunks && chunks[k].Some? :: |chunks[k].value| > 0
    ensures compressed.Keys == KeysWithBlocks(chunks)
    ensures forall k | k in compressed :: chunks[k].Some? && WellFormed(compressed[k])
    ensures forall k | k in compressed :: Expand(compressed[k]) == chunks[k].value
  {
    compressed := map[];
    var todo := chunks.Keys;
    while todo != {}
      invariant todo <= chunks.Keys
      invariant compressed.Keys == KeysWithBlocks(chunks) - todo
      invariant forall k | k in compressed :: chunks[k].Some? && WellFormed(compressed[k])
      invariant forall k | k in compressed :: Expand(compressed[k]) == chunks[k].value
      decreases todo
    {
      var key :| key in todo;
      if chunks[key].Some? {
        var encoded := RunLengthEncode(chunks[key].value);
        compressed := compressed[key := encoded];
      }
      todo := todo - {key};
    }
  }

  /** `decompressChunks`: every key of the saved form, each with its pairs expanded. */
  method DecompressChunks(compressed: map<string, seq<Run>>) returns (chunks: map<string, seq<byte>>)
    ensures chunks.Keys == compressed.Keys
    ensures forall k | k in chunks :: chunks[k] == Expand(compressed[k])
  {
    chunks := map[];
    var todo := compressed.Keys;
    while todo != {}
      invariant todo <= compressed.Keys
      invariant chunks.Keys == compressed.Keys - todo
      invariant forall k | k in chunks :: chunks[k] == Expand(compressed[k])
      decreases todo
    {
      var key :| key in todo;
      var blocks := RunLengthDecode(compressed[key]);
      chunks := chunks[key := blocks];
      todo := todo - {key};
    }
  }

  /**
   * Saving then loading a chunk map keeps exactly the keys that had blocks, each with its
   * blocks unchanged.
   */
  method CompressRoundTrip(chunks: map<string, Option<seq<byte>>>) returns (restored: map<string, seq<byte>>)
    requires forall k | k in chunks && chunks[k].Some? :: |chunks[k].value| > 0
    ensures restored.Keys == KeysWithBlocks(chunks)
    ensures forall k | k in restored :: Some(restored[k]) == chunks[k]
  {
    var compressed := CompressChunks(chunks);
    restored := DecompressChunks(compressed);
  }
}
