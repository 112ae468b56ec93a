/**
 * Scheduling units and the bundler that cuts the stream of newly found chunks
 * into units of `unitSize` chunks (crates/network-scheduler/src/scheduling_unit.rs).
 *
 * The bundler's task, channels and async receive are not modelled: one call of
 * `BundleBatch` is one iteration of its `while let` loop (one batch received),
 * and `BundleChunks` folds it over a sequence of batches.
 */
module SchedulingUnits {
  import opened Wrappers
  import opened DataChunks

  /** A unit is identified by its first chunk. */
  type UnitId = ChunkId

  /** The non-empty chunk list a unit holds. */
  type ChunkList = s: seq<DataChunk> | |s| > 0 witness [DataChunk("", "", BlockRange(0, 0), 0)]

  datatype SchedulingUnit = SchedulingUnit(chunks: ChunkList)
  {
    function NumChunks(): (n: nat)
      ensures n >= 1
    {
      |chunks|
    }

    /** The total size of the unit's chunks; no chunk is larger than it. */
    function SizeBytes(): (size: nat)
      ensures forall i :: 0 <= i < |chunks| ==> chunks[i].sizeBytes <= size
    {
      SumSizesBound(chunks);
      SumSizes(chunks)
    }

    /**
     * The id of the first chunk, so that an incomplete unit keeps its id once
     * filled (`CompletedUnitKeepsId`).
     */
    function Id(): (id: UnitId)
      ensures id == chunks[0].id
    {
      chunks[0].id
    }
  }

  /** Builds a unit from a slice; the source panics on an empty slice. */
  function FromSlice(chunks: seq<DataChunk>): (u: SchedulingUnit)
    requires |chunks| > 0
    ensures u.chunks == chunks && u.NumChunks() == |chunks|
    ensures u.Id() == chunks[0].id
  {
    SchedulingUnit(chunks)
  }

  /**
   * A unit that is filled with more chunks keeps its id and grows by exactly
   * the size of what was appended.
   */
  lemma CompletedUnitKeepsId(u: SchedulingUnit, more: seq<DataChunk>)
    ensures FromSlice(u.chunks + more).Id() == u.Id()
    ensures FromSlice(u.chunks + more).SizeBytes() == u.SizeBytes() + SumSizes(more)
    ensures FromSlice(u.chunks + more).SizeBytes() >= u.SizeBytes()
  {
    SumSizesAppend(u.chunks, more);
  }

  // ---------------------------------------------------------------------------
  // Cutting a sequence into groups

  /** Concatenation of a sequence of chunk lists. */
  function Flatten(groups: seq<seq<DataChunk>>): seq<DataChunk>
  {
    if groups == [] then [] else groups[0] + Flatten(groups[1..])
  }

  lemma {:induction false} FlattenAppend(a: seq<seq<DataChunk>>, b: seq<seq<DataChunk>>)
    ensures Flatten(a + b) == Flatten(a) + Flatten(b)
  {
    if a == [] {
      assert a + b == b;
    } else {
      assert (a + b)[1..] == a[1..] + b;
      FlattenAppend(a[1..], b);
    }
  }

  /**
   * Consecutive groups of `n` elements, the last one possibly shorter: the
   * standard library's `slice::chunks(n)`.
   */
  function Chunks(s: seq<DataChunk>, n: nat): seq<seq<DataChunk>>
    requires n > 0
    decreases |s|
  {
    if |s| == 0 then []
    else if |s| <= n then [s]
    else [s[..n]] + Chunks(s[n..], n)
  }

  /** The groups, concatenated, give back the sequence in order. */
  lemma {:induction false} ChunksFlatten(s: seq<DataChunk>, n: nat)
    requires n > 0
    ensures Flatten(Chunks(s, n)) == s
    decreases |s|
  {
    if |s| == 0 {
    } else if |s| <= n {
      assert Flatten([s]) == s + Flatten([]);
    } else {
      ChunksFlatten(s[n..], n);
      FlattenAppend([s[..n]], Chunks(s[n..], n));
      assert Flatten([s[..n]]) == s[..n] + Flatten([]);
      assert s[..n] + s[n..] == s;
    }
  }

  /** Every group is non-empty and at most `n` long, and only the last may be short. */
  lemma {:induction false} ChunksShape(s: seq<DataChunk>, n: nat)
    requires n > 0
    ensures |Chunks(s, n)| == 0 <==> |s| == 0
    ensures forall k :: 0 <= k < |Chunks(s, n)| ==> 1 <= |Chunks(s, n)[k]| <= n
    ensures forall k :: 0 <= k < |Chunks(s, n)| - 1 ==> |Chunks(s, n)[k]| == n
    decreases |s|
  {
    if |s| > n {
      ChunksShape(s[n..], n);
      var groups := Chunks(s, n);
      assert groups == [s[..n]] + Chunks(s[n..], n);
      forall k | 0 <= k < |groups|
        ensures 1 <= |groups[k]| <= n
        ensures k < |groups| - 1 ==> |groups[k]| == n
      {
        if k > 0 {
          assert groups[k] == Chunks(s[n..], n)[k - 1];
        }
      }
    }
  }

  /** The complete groups of `n` at the front of `s`. */
  function FullPart(s: seq<DataChunk>, n: nat): seq<seq<DataChunk>>
    requires n > 0
    decreases |s|
  {
    if |s| < n then [] else [s[..n]] + FullPart(s[n..], n)
  }

  /** What is left of `s` after its complete groups: fewer than `n` elements. */
  function Rest(s: seq<DataChunk>, n: nat): seq<DataChunk>
    requires n > 0
    decreases |s|
  {
    if |s| < n then s else Rest(s[n..], n)
  }

  /**
   * The complete groups followed by the rest give back the sequence, and the
   * rest is shorter than a group.
   */
  lemma {:induction false} FullPartRest(s: seq<DataChunk>, n: nat)
    requires n > 0
    ensures Flatten(FullPart(s, n)) + Rest(s, n) == s
    ensures |Rest(s, n)| < n
    decreases |s|
  {
    if |s| >= n {
      FullPartRest(s[n..], n);
      FlattenAppend([s[..n]], FullPart(s[n..], n));
      assert Flatten([s[..n]]) == s[..n] + Flatten([]);
      assert s[..n] + s[n..] == s;
    }
  }

  /** Each complete group has exactly `n` elements. */
  lemma {:induction false} FullPartFull(s: seq<DataChunk>, n: nat)
    requires n > 0
    ensures forall k :: 0 <= k < |FullPart(s, n)| ==> |FullPart(s, n)[k]| == n
    decreases |s|
  {
    if |s| >= n {
      FullPartFull(s[n..], n);
      var full := FullPart(s, n);
      forall k | 0 <= k < |full|
        ensures |full[k]| == n
      {
        if k > 0 {
          assert full[k] == FullPart(s[n..], n)[k - 1];
        }
      }
    }
  }

  /** `k * n`, built by repeated addition so that proofs about it stay linear. */
  function Offset(k: nat, n: nat): (r: nat)
    ensures r == k * n
  {
    if k == 0 then 0 else Offset(k - 1, n) + n
  }

  /** The `k`-th complete group, located by `Offset`. */
  lemma {:induction false} FullPartSlice(s: seq<DataChunk>, n: nat, k: nat)
    requires n > 0
    requires k < |FullPart(s, n)|
    ensures Offset(k, n) + n <= |s|
    ensures FullPart(s, n)[k] == s[Offset(k, n)..Offset(k, n) + n]
    decreases |s|
  {
    if k == 0 {
      assert FullPart(s, n)[0] == s[..n];
    } else {
      FullPartSlice(s[n..], n, k - 1);
      assert FullPart(s, n)[k] == FullPart(s[n..], n)[k - 1];
      var lo := Offset(k - 1, n);
      assert s[n..][lo..lo + n] == s[lo + n..lo + n + n];
    }
  }

  /**
   * The `k`-th complete group is the slice `[k * n, (k + 1) * n)`, so its
   * first chunk, and with it the id of the unit built from it, is fixed by
   * the position in the stream alone.
   */
  lemma FullPartAt(s: seq<DataChunk>, n: nat, k: nat)
    requires n > 0
    requires k < |FullPart(s, n)|
    ensures (k + 1) * n <= |s|
    ensures FullPart(s, n)[k] == s[k * n..(k + 1) * n]
    ensures FromSlice(FullPart(s, n)[k]).Id() == s[k * n].id
  {
    FullPartSlice(s, n, k);
    assert Offset(k + 1, n) == Offset(k, n) + n;
  }

  /** `slice::chunks` is the complete groups followed by the rest, if any. */
  lemma {:induction false} ChunksSplit(s: seq<DataChunk>, n: nat)
    requires n > 0
    ensures Chunks(s, n) == FullPart(s, n) + (if Rest(s, n) == [] then [] else [Rest(s, n)])
    decreases |s|
  {
    if |s| == 0 {
    } else if |s| < n {
    } else if |s| == n {
      assert s[n..] == [];
      assert s[..n] == s;
    } else {
      ChunksSplit(s[n..], n);
    }
  }

  /**
   * Appending to a sequence only touches its rest: the complete groups of
   * `a + b` are those of `a` followed by those of `Rest(a) + b`.
   */
  lemma {:induction false} FullPartAppend(a: seq<DataChunk>, b: seq<DataChunk>, n: nat)
    requires n > 0
    ensures FullPart(a + b, n) == FullPart(a, n) + FullPart(Rest(a, n) + b, n)
    ensures Rest(a + b, n) == Rest(Rest(a, n) + b, n)
    decreases |a|
  {
    if |a| >= n {
      assert (a + b)[..n] == a[..n];
      assert (a + b)[n..] == a[n..] + b;
      FullPartAppend(a[n..], b, n);
    }
  }

  /** The groups of exactly `n` elements, in order. */
  function Full(groups: seq<seq<DataChunk>>, n: nat): seq<seq<DataChunk>>
  {
    if groups == [] then []
    else (if |groups[0]| == n then [groups[0]] else []) + Full(groups[1..], n)
  }

  lemma {:induction false} FullAppend(a: seq<seq<DataChunk>>, b: seq<seq<DataChunk>>, n: nat)
    ensures Full(a + b, n) == Full(a, n) + Full(b, n)
  {
    if a == [] {
      assert a + b == b;
    } else {
      assert (a + b)[1..] == a[1..] + b;
      FullAppend(a[1..], b, n);
    }
  }

  /** Keeping the complete groups of `Chunks(s, n)` gives `FullPart(s, n)`. */
  lemma {:induction false} FullOfChunks(s: seq<DataChunk>, n: nat)
    requires n > 0
    ensures Full(Chunks(s, n), n) == FullPart(s, n)
    decreases |s|
  {
    if |s| == 0 {
    } else if |s| < n {
      assert Full([s], n) == [] + Full([], n);
    } else if |s| == n {
      assert s[..n] == s;
      assert Full([s], n) == [s] + Full([], n);
    } else {
      FullOfChunks(s[n..], n);
      FullAppend([s[..n]], Chunks(s[n..], n), n);
      assert Full([s[..n]], n) == [s[..n]] + Full([], n);
    }
  }

  // ---------------------------------------------------------------------------
  // The bundler

  /** The chunk lists of a sequence of units. */
  function Groups(units: seq<SchedulingUnit>): (groups: seq<seq<DataChunk>>)
    ensures |groups| == |units|
  {
    seq(|units|, k requires 0 <= k < |units| => units[k].chunks)
  }

  /** The chunks an incomplete unit carries into the next batch. */
  function Carried(incomplete: Option<SchedulingUnit>): seq<DataChunk>
  {
    if incomplete.Some? then incomplete.value.chunks else []
  }

  /** Concatenation of all batches received so far. */
  function Concat(batches: seq<ChunkList>): seq<DataChunk>
  {
    if batches == [] then [] else Concat(batches[..|batches| - 1]) + batches[|batches| - 1]
  }

  /**
   * The first group of `c + batch` starts with `c`'s first element, and holds
   * all of `c` and more when `c` is shorter than a group.
   */
  lemma ChunksFirst(c: seq<DataChunk>, batch: seq<DataChunk>, n: nat)
    requires n > 0 && |c| > 0 && |batch| > 0
    ensures |Chunks(c + batch, n)| > 0 && |Chunks(c + batch, n)[0]| > 0
    ensures Chunks(c + batch, n)[0][0] == c[0]
    ensures |c| < n ==> c < Chunks(c + batch, n)[0]
  {
    var s := c + batch;
    if |s| <= n {
      assert Chunks(s, n) == [s];
    } else {
      assert Chunks(s, n)[0] == s[..n];
      if |c| < n {
        assert s[..n][..|c|] == c;
      }
    }
  }

  /**
   * One received batch: the chunks of the incomplete unit from the previous
   * round go first, the combined list is cut into groups of `unitSize`, every
   * group is sent as a unit, and a short last group becomes the new
   * incomplete unit (it is sent too, and sent again once it is filled).
   */
  method BundleBatch(carry: Option<SchedulingUnit>, batch: ChunkList, unitSize: nat)
    returns (sent: seq<SchedulingUnit>, incomplete: Option<SchedulingUnit>)
    requires unitSize > 0
    ensures Groups(sent) == Chunks(Carried(carry) + batch, unitSize)
    ensures Flatten(Groups(sent)) == Carried(carry) + batch
    ensures |sent| > 0
    ensures forall k :: 0 <= k < |sent| ==> sent[k].NumChunks() <= unitSize
    ensures forall k :: 0 <= k < |sent| - 1 ==> sent[k].NumChunks() == unitSize
    ensures incomplete == if sent[|sent| - 1].NumChunks() < unitSize then Some(sent[|sent| - 1]) else None
    ensures carry.Some? ==> sent[0].Id() == carry.value.Id()
    ensures carry.Some? && carry.value.NumChunks() < unitSize ==> carry.value.chunks < sent[0].chunks
  {
    var groups := Chunks(Carried(carry) + batch, unitSize);
    ChunksShape(Carried(carry) + batch, unitSize);
    sent, incomplete := [], None;
    var i := 0;
    while i < |groups|
      invariant 0 <= i <= |groups|
      invariant |sent| == i
      invariant forall k :: 0 <= k < i ==> sent[k].chunks == groups[k]
      invariant incomplete == if i > 0 && |groups[i - 1]| < unitSize then Some(sent[i - 1]) else None
    {
      var unit := FromSlice(groups[i]);
      if unit.NumChunks() < unitSize {
        incomplete := Some(unit);
      }
      sent := sent + [unit];
      i := i + 1;
    }
    assert Groups(sent) == groups;
    SentShape(sent, carry, batch, unitSize);
  }

  /**
   * The units sent for one batch, given as the groups of the carried chunks
   * followed by the batch: they give the chunks back in order, all but the
   * last are full, and the first continues the carried unit under its id.
   */
  lemma SentShape(sent: seq<SchedulingUnit>, carry: Option<SchedulingUnit>, batch: ChunkList, n: nat)
    requires n > 0
    requires Groups(sent) == Chunks(Carried(carry) + batch, n)
    ensures Flatten(Groups(sent)) == Carried(carry) + batch
    ensures |sent| > 0
    ensures forall k :: 0 <= k < |sent| ==> sent[k].NumChunks() <= n
    ensures forall k :: 0 <= k < |sent| - 1 ==> sent[k].NumChunks() == n
    ensures carry.Some? ==> sent[0].Id() == carry.value.Id()
    ensures carry.Some? && carry.value.NumChunks() < n ==> carry.value.chunks < sent[0].chunks
  {
    var chunks := Carried(carry) + batch;
    ChunksShape(chunks, n);
    ChunksFlatten(chunks, n);
    forall k | 0 <= k < |sent|
      ensures sent[k].NumChunks() == |Chunks(chunks, n)[k]|
    {
      assert Groups(sent)[k] == sent[k].chunks;
    }
    if carry.Some? {
      ChunksFirst(carry.value.chunks, batch, n);
      assert sent[0].chunks == Groups(sent)[0];
    }
  }

  /**
   * The bundler over a whole stream of batches. Whatever the batch
   * boundaries, the complete units sent are exactly the consecutive groups of
   * `unitSize` chunks of the concatenated stream, in order (hence with the
   * same ids), and the unit carried at the end holds the remaining chunks.
   */
  method BundleChunks(batches: seq<ChunkList>, unitSize: nat)
    returns (sent: seq<SchedulingUnit>, incomplete: Option<SchedulingUnit>)
    requires unitSize > 0
    ensures Full(Groups(sent), unitSize) == FullPart(Concat(batches), unitSize)
    ensures Carried(incomplete) == Rest(Concat(batches), unitSize)
  {
    sent, incomplete := [], None;
    var i := 0;
    while i < |batches|
      invariant 0 <= i <= |batches|
      invariant Full(Groups(sent), unitSize) == FullPart(Concat(batches[..i]), unitSize)
      invariant Carried(incomplete) == Rest(Concat(batches[..i]), unitSize)
    {
      ghost var before := Concat(batches[..i]);
      ghost var combined := Rest(before, unitSize) + batches[i];
      var units, next := BundleBatch(incomplete, batches[i], unitSize);
      assert Groups(sent + units) == Groups(sent) + Groups(units);
      FullAppend(Groups(sent), Groups(units), unitSize);
      FullOfChunks(combined, unitSize);
      FullPartAppend(before, batches[i], unitSize);
      ChunksSplit(combined, unitSize);
      FullPartRest(combined, unitSize);
      FullPartFull(combined, unitSize);
      assert Groups(units)[|units| - 1] == units[|units| - 1].chunks;
      assert batches[..i + 1][..i] == batches[..i];
      sent, incomplete := sent + units, next;
      i := i + 1;
    }
    assert batches[..i] == batches;
  }
}
