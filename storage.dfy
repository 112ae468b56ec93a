/**
 * Chunk ingestion from an object store (crates/network-scheduler/src/storage.rs):
 * parsing listed objects, grouping them by key prefix into chunks, and the
 * block-continuity check with its cursor.
 *
 * The store's paginated listing is not modelled: `ListAllNewChunks` takes the
 * objects it returned. `DataChunk::new`, which parses the chunk's key, is not
 * part of this model and is the parameter `parseChunk`.
 */
module Storage {
  import opened Wrappers
  import opened DataChunks

  /** Signed 64-bit integers, the type of a listed object's size. */
  type I64 = x: int | -0x8000_0000_0000_0000 <= x < 0x8000_0000_0000_0000

  const U64_MODULUS: nat := 0x1_0000_0000_0000_0000

  /** `x as u64` for a signed 64-bit `x`: a negative value wraps around. */
  function AsU64(x: I64): (r: nat)
    ensures r < U64_MODULUS
    ensures (r - x) % U64_MODULUS == 0
    ensures x >= 0 ==> r == x
  {
    if x < 0 then x + U64_MODULUS else x
  }

  /** An object as the store lists it: key and size may be absent. */
  datatype Object = Object(key: Option<string>, size: Option<I64>)

  /** A listed object with its key split into the chunk prefix and the file name. */
  datatype S3Object = S3Object(prefix: string, fileName: string, size: nat)
  {
    /**
     * The object's key: prefix and file name joined by `/`. When the file
     * name holds no `/`, splitting the key at its last `/` gives both back.
     */
    function Key(): (key: string)
      ensures |key| == |prefix| + 1 + |fileName|
      ensures key[..|prefix|] == prefix && key[|prefix|] == '/' && key[|prefix| + 1..] == fileName
    {
      prefix + "/" + fileName
    }
  }

  // ---------------------------------------------------------------------------
  // Parsing a listed object

  /** Splits `s` at the last occurrence of `sep`, if any. */
  function RSplitOnce(s: string, sep: char): (r: Option<(string, string)>)
    ensures r.None? <==> sep !in s
    ensures r.Some? ==> s == r.value.0 + [sep] + r.value.1 && sep !in r.value.1
  {
    if |s| == 0 then None
    else if s[|s| - 1] == sep then
      assert s == s[..|s| - 1] + [sep] + "";
      Some((s[..|s| - 1], ""))
    else
      match RSplitOnce(s[..|s| - 1], sep)
      case None =>
        assert s == s[..|s| - 1] + [s[|s| - 1]];
        None
      case Some((p, f)) =>
        assert s == s[..|s| - 1] + [s[|s| - 1]];
        Some((p, f + [s[|s| - 1]]))
  }

  function TryFrom(obj: Object): (r: Result<S3Object, string>)
    ensures obj.key.None? ==> r == Err("Object key missing")
    ensures obj.key.Some? && '/' !in obj.key.value ==> r == Err("Invalid key (no prefix)")
    ensures obj.key.Some? && '/' in obj.key.value ==>
              && r.Ok?
              && r.value.Key() == obj.key.value
              && '/' !in r.value.fileName
              && r.value.size == if obj.size.Some? then AsU64(obj.size.value) else 0
  {
    if obj.key.None? then Err("Object key missing")
    else
      match RSplitOnce(obj.key.value, '/')
      case None => Err("Invalid key (no prefix)")
      case Some((prefix, fileName)) =>
        Ok(S3Object(prefix, fileName, if obj.size.Some? then AsU64(obj.size.value) else 0))
  }

  /** A key splits at its last `/` in exactly one way. */
  lemma {:induction false} SplitAtLastUnique(p: string, f: string, p': string, f': string)
    requires p + "/" + f == p' + "/" + f'
    requires '/' !in f && '/' !in f'
    ensures p == p' && f == f'
  {
    var s := p + "/" + f;
    assert s[|p|] == '/' && s[|p'|] == '/';
    assert forall i :: |p| < i < |s| ==> s[i] == f[i - |p| - 1];
    assert forall i :: |p'| < i < |s| ==> s[i] == f'[i - |p'| - 1];
    assert |p| == |p'|;
    assert p == s[..|p|] == p';
    assert f == s[|p| + 1..] == f';
  }

  /** Joining a prefix and a `/`-free file name, then splitting at the last `/`, gives both back. */
  lemma SplitKey(p: string, f: string)
    ensures '/' !in f ==> RSplitOnce(p + "/" + f, '/') == Some((p, f))
  {
    if '/' !in f {
      var s := p + "/" + f;
      assert s[|p|] == '/';
      var r := RSplitOnce(s, '/');
      SplitAtLastUnique(r.value.0, r.value.1, p, f);
    }
  }

  /**
   * Printing an object's key and parsing it back gives the object again,
   * when its file name holds no `/` and its size fits the listing's signed
   * size field.
   */
  lemma KeyRoundTrip(o: S3Object)
    requires '/' !in o.fileName
    requires o.size < 0x8000_0000_0000_0000
    ensures TryFrom(Object(Some(o.Key()), Some(o.size as I64))) == Ok(o)
  {
    var r := TryFrom(Object(Some(o.Key()), Some(o.size as I64)));
    assert '/' in o.Key() by {
      assert o.Key()[|o.prefix|] == '/';
    }
    SplitAtLastUnique(r.value.prefix, r.value.fileName, o.prefix, o.fileName);
  }

  // ---------------------------------------------------------------------------
  // Grouping objects into chunks

  function FlattenObjects(groups: seq<seq<S3Object>>): seq<S3Object>
  {
    if groups == [] then [] else groups[0] + FlattenObjects(groups[1..])
  }

  /**
   * Runs of consecutive objects with equal prefixes, in listing order: the
   * groups are non-empty, share one prefix each, neighbouring groups have
   * different prefixes, and together they are the listing.
   */
  function GroupByPrefix(objs: seq<S3Object>): (groups: seq<seq<S3Object>>)
    ensures GroupedByPrefix(groups, objs)
  {
    if objs == [] then []
    else
      var rest := GroupByPrefix(objs[1..]);
      if rest != [] && rest[0][0].prefix == objs[0].prefix then
        JoinFirstGroup(objs, rest);
        [[objs[0]] + rest[0]] + rest[1..]
      else
        StartNewGroup(objs, rest);
        [[objs[0]]] + rest
  }

  /**
   * `groups` splits `objs` into non-empty runs of consecutive objects with
   * one prefix each, neighbouring runs differing in prefix.
   */
  ghost predicate GroupedByPrefix(groups: seq<seq<S3Object>>, objs: seq<S3Object>)
  {
    && (forall k :: 0 <= k < |groups| ==> |groups[k]| > 0)
    && (forall k, i :: 0 <= k < |groups| && 0 <= i < |groups[k]| ==> groups[k][i].prefix == groups[k][0].prefix)
    && (forall k :: 0 <= k < |groups| - 1 ==> groups[k][0].prefix != groups[k + 1][0].prefix)
    && FlattenObjects(groups) == objs
    && (|groups| == 0 <==> |objs| == 0)
  }

  /** The first object joins the first run of the rest when it has the same prefix. */
  lemma JoinFirstGroup(objs: seq<S3Object>, rest: seq<seq<S3Object>>)
    requires objs != [] && GroupedByPrefix(rest, objs[1..])
    requires rest != [] && rest[0][0].prefix == objs[0].prefix
    ensures GroupedByPrefix([[objs[0]] + rest[0]] + rest[1..], objs)
  {
    var groups := [[objs[0]] + rest[0]] + rest[1..];
    assert [objs[0]] + objs[1..] == objs;
    assert groups[1..] == rest[1..];
    assert FlattenObjects(rest) == rest[0] + FlattenObjects(rest[1..]);
    assert forall k :: 1 <= k < |groups| ==> groups[k] == rest[k];
  }

  /** Otherwise the first object starts a run of its own. */
  lemma StartNewGroup(objs: seq<S3Object>, rest: seq<seq<S3Object>>)
    requires objs != [] && GroupedByPrefix(rest, objs[1..])
    requires !(rest != [] && rest[0][0].prefix == objs[0].prefix)
    ensures GroupedByPrefix([[objs[0]]] + rest, objs)
  {
    var groups := [[objs[0]]] + rest;
    assert [objs[0]] + objs[1..] == objs;
    assert groups[1..] == rest;
    assert forall k :: 1 <= k < |groups| ==> groups[k] == rest[k - 1];
  }


  /** `DataChunk::new(bucket, key, size)`, with its failure as `None`. */
  type ChunkParser = (string, string, nat) -> Option<DataChunk>

  const BLOCKS_FILE: string := "blocks.parquet"

  predicate HasBlocksFile(objs: seq<S3Object>)
  {
    exists i :: 0 <= i < |objs| && objs[i].fileName == BLOCKS_FILE
  }

  /** The total size of a group, summed in listing order. */
  function SumObjectSizes(objs: seq<S3Object>): nat
  {
    if objs == [] then 0 else SumObjectSizes(objs[..|objs| - 1]) + objs[|objs| - 1].size
  }

  /**
   * What a group of objects becomes: an error when it is empty or has no
   * `blocks.parquet`, otherwise the chunk parsed from the bucket, the last
   * object's key and the group's total size.
   */
  function GroupToChunk(bucket: string, objs: seq<S3Object>, parseChunk: ChunkParser): Result<DataChunk, string>
  {
    if objs == [] then Err("Empty object group")
    else if !HasBlocksFile(objs) then Err("blocks.parquet missing")
    else
      match parseChunk(bucket, objs[|objs| - 1].Key(), SumObjectSizes(objs))
      case None => Err("Invalid data chunk")
      case Some(chunk) => Ok(chunk)
  }

  /** Collecting results: every group's chunk in order, or the first group's error. */
  function CollectChunks(bucket: string, groups: seq<seq<S3Object>>, parseChunk: ChunkParser): Result<seq<DataChunk>, string>
  {
    if groups == [] then Ok([])
    else
      match CollectChunks(bucket, groups[..|groups| - 1], parseChunk)
      case Err(e) => Err(e)
      case Ok(chunks) =>
        match GroupToChunk(bucket, groups[|groups| - 1], parseChunk)
        case Err(e) => Err(e)
        case Ok(chunk) => Ok(chunks + [chunk])
  }

  /** Once a group fails, later groups do not change the error. */
  lemma {:induction false} CollectChunksFailed(bucket: string, groups: seq<seq<S3Object>>, n: nat, parseChunk: ChunkParser)
    requires n <= |groups|
    requires CollectChunks(bucket, groups[..n], parseChunk).Err?
    ensures CollectChunks(bucket, groups, parseChunk) == CollectChunks(bucket, groups[..n], parseChunk)
    decreases |groups| - n
  {
    if n < |groups| {
      assert groups[..n + 1][..n] == groups[..n];
      CollectChunksFailed(bucket, groups, n + 1, parseChunk);
    } else {
      assert groups[..n] == groups;
    }
  }

  /**
   * Collecting succeeds iff every group makes a chunk, and then it yields
   * one chunk per group, in order: each group is non-empty, holds
   * `blocks.parquet`, and its chunk is parsed from its last key and its
   * total size.
   */
  lemma {:induction false} CollectChunksOk(bucket: string, groups: seq<seq<S3Object>>, parseChunk: ChunkParser)
    ensures CollectChunks(bucket, groups, parseChunk).Ok? <==>
            forall k :: 0 <= k < |groups| ==> GroupToChunk(bucket, groups[k], parseChunk).Ok?
    ensures CollectChunks(bucket, groups, parseChunk).Ok? ==>
              var chunks := CollectChunks(bucket, groups, parseChunk).value;
              && |chunks| == |groups|
              && forall k :: 0 <= k < |groups| ==>
                   && |groups[k]| > 0
                   && HasBlocksFile(groups[k])
                   && Some(chunks[k]) == parseChunk(bucket, groups[k][|groups[k]| - 1].Key(), SumObjectSizes(groups[k]))
  {
    if groups != [] {
      var init := groups[..|groups| - 1];
      CollectChunksOk(bucket, init, parseChunk);
      assert forall k :: 0 <= k < |init| ==> init[k] == groups[k];
    }
  }

  // ---------------------------------------------------------------------------
  // Continuity

  /** The first block expected after the cursor: one past the last seen, or 0. */
  function NextBlock(lastBlock: Option<nat>): nat
  {
    if lastBlock.Some? then lastBlock.value + 1 else 0
  }

  /** The chunks start at `next` and each begins right after the previous one ends. */
  predicate Continuous(chunks: seq<DataChunk>, next: nat)
  {
    chunks == [] ||
    (chunks[0].blockRange.begin == next && Continuous(chunks[1..], chunks[0].blockRange.end + 1))
  }

  /** The first discontinuity, as (the block expected, the begin found instead). */
  function FirstGap(chunks: seq<DataChunk>, next: nat): Option<(nat, nat)>
  {
    if chunks == [] then None
    else if chunks[0].blockRange.begin != next then Some((next, chunks[0].blockRange.begin))
    else FirstGap(chunks[1..], chunks[0].blockRange.end + 1)
  }

  /** The check finds no gap exactly when the chunks are continuous; a gap it reports is real. */
  lemma {:induction false} FirstGapIffContinuous(chunks: seq<DataChunk>, next: nat)
    ensures FirstGap(chunks, next).None? <==> Continuous(chunks, next)
    ensures FirstGap(chunks, next).Some? ==> FirstGap(chunks, next).value.0 != FirstGap(chunks, next).value.1
  {
    if chunks != [] && chunks[0].blockRange.begin == next {
      FirstGapIffContinuous(chunks[1..], chunks[0].blockRange.end + 1);
    }
  }

  /** In a continuous list every chunk begins right after the previous one ends. */
  lemma {:induction false} ContinuousAdjacent(chunks: seq<DataChunk>, next: nat, k: nat)
    requires Continuous(chunks, next)
    requires 0 < k < |chunks|
    ensures chunks[k].blockRange.begin == chunks[k - 1].blockRange.end + 1
  {
    if k > 1 {
      ContinuousAdjacent(chunks[1..], chunks[0].blockRange.end + 1, k - 1);
    }
  }

  datatype ListError =
    | InvalidGroup(message: string)
    | BlocksMissing(expected: nat, found: nat, bucket: string)

  /**
   * The outcome of one listing: nothing for an empty listing; otherwise the
   * chunks of the prefix groups, rejected if any group fails or if they do
   * not continue from the cursor without a gap.
   */
  function NewChunks(bucket: string, objects: seq<S3Object>, lastBlock: Option<nat>, parseChunk: ChunkParser)
    : Result<seq<DataChunk>, ListError>
  {
    if objects == [] then Ok([])
    else
      match CollectChunks(bucket, GroupByPrefix(objects), parseChunk)
      case Err(e) => Err(InvalidGroup(e))
      case Ok(chunks) =>
        match FirstGap(chunks, NextBlock(lastBlock))
        case Some((expected, found)) => Err(BlocksMissing(expected, found, bucket))
        case None => Ok(chunks)
  }

  /**
   * What a successful listing guarantees: one chunk per prefix group, in
   * listing order, each from a group holding `blocks.parquet`, and the chunks
   * continue from the cursor without a gap.
   */
  lemma NewChunksOk(bucket: string, objects: seq<S3Object>, lastBlock: Option<nat>, parseChunk: ChunkParser)
    requires NewChunks(bucket, objects, lastBlock, parseChunk).Ok?
    ensures var chunks := NewChunks(bucket, objects, lastBlock, parseChunk).value;
            var groups := GroupByPrefix(objects);
            && Continuous(chunks, NextBlock(lastBlock))
            && |chunks| == |groups|
            && (objects != [] ==> |chunks| > 0)
            && forall k :: 0 <= k < |groups| ==>
                 && HasBlocksFile(groups[k])
                 && Some(chunks[k]) == parseChunk(bucket, groups[k][|groups[k]| - 1].Key(), SumObjectSizes(groups[k]))
  {
    if objects != [] {
      var groups := GroupByPrefix(objects);
      CollectChunksOk(bucket, groups, parseChunk);
      FirstGapIffContinuous(CollectChunks(bucket, groups, parseChunk).value, NextBlock(lastBlock));
    }
  }

  /** A listing whose chunks are not continuous from the cursor is rejected. */
  lemma GapRejected(bucket: string, objects: seq<S3Object>, lastBlock: Option<nat>, parseChunk: ChunkParser)
    requires CollectChunks(bucket, GroupByPrefix(objects), parseChunk).Ok?
    requires !Continuous(CollectChunks(bucket, GroupByPrefix(objects), parseChunk).value, NextBlock(lastBlock))
    ensures NewChunks(bucket, objects, lastBlock, parseChunk).Err?
    ensures NewChunks(bucket, objects, lastBlock, parseChunk).error.BlocksMissing?
  {
    FirstGapIffContinuous(CollectChunks(bucket, GroupByPrefix(objects), parseChunk).value, NextBlock(lastBlock));
  }

  /** Blocks 0 to 99 followed by blocks 150 to 199 report blocks 100 onwards missing. */
  lemma GapExample(a: DataChunk, b: DataChunk)
    requires a.blockRange == BlockRange(0, 99) && b.blockRange == BlockRange(150, 199)
    ensures FirstGap([a, b], NextBlock(None)) == Some((100, 150))
    ensures !Continuous([a, b], 0)
  {
    assert [a, b][1..] == [b];
    FirstGapIffContinuous([a, b], 0);
  }

  // ---------------------------------------------------------------------------
  // The per-bucket reader

  /**
   * Walks the chunks in order, expecting each to begin at `next` and moving
   * `next` past its end; returns the first expected and found block that differ.
   */
  method FindGap(chunks: seq<DataChunk>, next: nat) returns (gap: Option<(nat, nat)>)
    ensures gap == FirstGap(chunks, next)
  {
    var expected: nat := next;
    var j := 0;
    while j < |chunks|
      invariant 0 <= j <= |chunks|
      invariant FirstGap(chunks, next) == FirstGap(chunks[j..], expected)
    {
      assert chunks[j..][1..] == chunks[j + 1..];
      if chunks[j].blockRange.begin != expected {
        return Some((expected, chunks[j].blockRange.begin));
      }
      expected := chunks[j].blockRange.end + 1;
      j := j + 1;
    }
    return None;
  }

  class DatasetStorage {
    const bucket: string
    /** The last key seen, where the next listing starts after. */
    var lastKey: Option<string>
    /** The last block of the last accepted chunk. */
    var lastBlock: Option<nat>

    constructor (bucket: string)
      ensures this.bucket == bucket && lastKey == None && lastBlock == None
    {
      this.bucket := bucket;
      lastKey := None;
      lastBlock := None;
    }

    /** Folds one group of objects into a chunk. */
    method ObjectsToChunk(objs: seq<S3Object>, parseChunk: ChunkParser) returns (r: Result<DataChunk, string>)
      ensures r == GroupToChunk(bucket, objs, parseChunk)
    {
      var lastKeySeen: Option<string> := None;
      var blocksFilePresent := false;
      var sizeBytes := 0;
      for i := 0 to |objs|
        invariant lastKeySeen == if i == 0 then None else Some(objs[i - 1].Key())
        invariant blocksFilePresent <==> exists j :: 0 <= j < i && objs[j].fileName == BLOCKS_FILE
        invariant sizeBytes == SumObjectSizes(objs[..i])
      {
        lastKeySeen := Some(objs[i].Key());
        blocksFilePresent := blocksFilePresent || objs[i].fileName == BLOCKS_FILE;
        assert objs[..i + 1][..i] == objs[..i];
        sizeBytes := sizeBytes + objs[i].size;
      }
      assert objs[..|objs|] == objs;
      if lastKeySeen.None? {
        return Err("Empty object group");
      }
      if !blocksFilePresent {
        return Err("blocks.parquet missing");
      }
      match parseChunk(bucket, lastKeySeen.value, sizeBytes)
      case None =>
        r := Err("Invalid data chunk");
      case Some(chunk) =>
        r := Ok(chunk);
    }

    /** Builds every group's chunk in order, stopping at the first group that fails. */
    method CollectGroupChunks(groups: seq<seq<S3Object>>, parseChunk: ChunkParser)
      returns (r: Result<seq<DataChunk>, string>)
      ensures r == CollectChunks(bucket, groups, parseChunk)
    {
      var chunks: seq<DataChunk> := [];
      var i := 0;
      while i < |groups|
        invariant 0 <= i <= |groups|
        invariant CollectChunks(bucket, groups[..i], parseChunk) == Ok(chunks)
      {
        var c := ObjectsToChunk(groups[i], parseChunk);
        assert groups[..i + 1][..i] == groups[..i];
        if c.Err? {
          CollectChunksFailed(bucket, groups, i + 1, parseChunk);
          return Err(c.error);
        }
        chunks := chunks + [c.value];
        i := i + 1;
      }
      assert groups[..i] == groups;
      return Ok(chunks);
    }

    /**
     * Turns a listing into chunks. An empty listing yields none and leaves the
     * cursor alone. Otherwise every prefix group must make a chunk and the
     * chunks must continue from the cursor without a gap; only then does the
     * cursor move to the last object's key and the last chunk's end.
     */
    method ListAllNewChunks(objects: seq<S3Object>, parseChunk: ChunkParser)
      returns (r: Result<seq<DataChunk>, ListError>)
      modifies this`lastKey, this`lastBlock
      ensures r == NewChunks(bucket, objects, old(lastBlock), parseChunk)
      ensures r.Ok? && objects != [] ==>
                && lastKey == Some(objects[|objects| - 1].Key())
                && lastBlock == (if r.value == [] then None else Some(r.value[|r.value| - 1].blockRange.end))
      ensures r.Err? || objects == [] ==> lastKey == old(lastKey) && lastBlock == old(lastBlock)
    {
      if objects == [] {
        return Ok([]);
      }
      var newLastKey := objects[|objects| - 1].Key();
      var collected := CollectGroupChunks(GroupByPrefix(objects), parseChunk);
      if collected.Err? {
        return Err(InvalidGroup(collected.error));
      }
      var chunks := collected.value;
      var gap := FindGap(chunks, NextBlock(lastBlock));
      if gap.Some? {
        return Err(BlocksMissing(gap.value.0, gap.value.1, bucket));
      }
      lastKey := Some(newLastKey);
      lastBlock := if chunks == [] then None else Some(chunks[|chunks| - 1].blockRange.end);
      r := Ok(chunks);
    }
  }
}
