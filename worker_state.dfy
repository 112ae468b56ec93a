/**
 * Per-worker health and capacity state (crates/network-scheduler/src/worker_state.rs).
 *
 * The configured storage budget and timeouts, read from a global
 * configuration in the source, and the clock are parameters here: `capacity`,
 * the timeouts and `now`. Times are milliseconds since the epoch.
 * `RangeSet::includes` belongs to an external crate and is the parameter
 * `includes`.
 */
module WorkerStates {
  import opened Wrappers
  import opened DataChunks
  import opened SchedulingUnits

  type Time = nat

  datatype JailReason = Inactive | Unreachable | Stale

  /** A worker's report of the block ranges it holds for one dataset. */
  datatype RangeSet = RangeSet(ranges: seq<BlockRange>)

  /** Whether a range set covers a block range (external to the model). */
  type Includes = (RangeSet, BlockRange) -> bool

  // ---------------------------------------------------------------------------
  // Sums over unordered collections

  ghost function Pick<K>(s: set<K>): K
    requires s != {}
  {
    var k :| k in s; k
  }

  /** The sum of a map's values, in no particular order. */
  ghost function SumValues<K>(m: map<K, nat>): nat
    decreases |m.Keys|
  {
    if m.Keys == {} then 0
    else
      var k := Pick(m.Keys);
      assert (m - {k}).Keys == m.Keys - {k};
      m[k] + SumValues(m - {k})
  }

  /** Any key can be taken out first: the sum does not depend on the order. */
  lemma {:induction false} SumValuesRemove<K>(m: map<K, nat>, k: K)
    requires k in m
    ensures SumValues(m) == m[k] + SumValues(m - {k})
    decreases |m.Keys|
  {
    var j := Pick(m.Keys);
    assert (m - {j}).Keys == m.Keys - {j};
    assert SumValues(m) == m[j] + SumValues(m - {j});
    if j != k {
      var mj, mk := m - {j}, m - {k};
      assert mk.Keys == m.Keys - {k};
      assert k in mj && j in mk && mj[k] == m[k] && mk[j] == m[j];
      SumValuesRemove(mj, k);
      SumValuesRemove(mk, j);
      assert mj - {k} == mk - {j};
    }
  }

  /** Adding a fresh key adds its value. */
  lemma SumValuesInsert<K>(m: map<K, nat>, k: K, v: nat)
    requires k !in m
    ensures SumValues(m[k := v]) == SumValues(m) + v
  {
    SumValuesRemove(m[k := v], k);
    assert m[k := v] - {k} == m;
  }

  /** Changing one key's value changes the sum by the difference. */
  lemma SumValuesUpdate<K>(m: map<K, nat>, k: K, v: nat)
    requires k in m
    ensures SumValues(m[k := v]) + m[k] == SumValues(m) + v
  {
    SumValuesRemove(m[k := v], k);
    SumValuesRemove(m, k);
    assert m[k := v] - {k} == m - {k};
  }

  /** A sum is zero exactly when every value is zero. */
  lemma {:induction false} SumValuesZero<K>(m: map<K, nat>)
    ensures SumValues(m) == 0 <==> forall k :: k in m ==> m[k] == 0
    decreases |m.Keys|
  {
    if m.Keys != {} {
      var j := Pick(m.Keys);
      assert (m - {j}).Keys == m.Keys - {j};
      SumValuesZero(m - {j});
      if SumValues(m) == 0 {
        forall k | k in m
          ensures m[k] == 0
        {
          if k != j {
            assert k in m - {j};
          }
        }
      }
    }
  }

  // ---------------------------------------------------------------------------
  // Missing chunks

  /** The worker reported ranges for the chunk's dataset and they include its block range. */
  predicate Covered(chunk: DataChunk, storedRanges: map<string, RangeSet>, includes: Includes)
  {
    chunk.datasetUrl in storedRanges && includes(storedRanges[chunk.datasetUrl], chunk.blockRange)
  }

  function ChunkMissing(chunk: DataChunk, storedRanges: map<string, RangeSet>, includes: Includes): nat
  {
    if Covered(chunk, storedRanges, includes) then 0 else 1
  }

  /** The number of chunks of a unit that the worker's ranges do not include. */
  function UnitMissing(chunks: seq<DataChunk>, storedRanges: map<string, RangeSet>, includes: Includes): nat
  {
    if chunks == [] then 0
    else ChunkMissing(chunks[0], storedRanges, includes) + UnitMissing(chunks[1..], storedRanges, includes)
  }

  /** Per unit, the number of its chunks the worker's ranges do not include. */
  ghost function MissingPerUnit(
    unitIds: set<UnitId>, units: map<UnitId, SchedulingUnit>,
    storedRanges: map<string, RangeSet>, includes: Includes): map<UnitId, nat>
    requires unitIds <= units.Keys
  {
    map u | u in unitIds :: UnitMissing(units[u].chunks, storedRanges, includes)
  }

  /** The number of chunks of the given units not covered by the worker's reported ranges. */
  ghost function MissingChunks(
    unitIds: set<UnitId>, units: map<UnitId, SchedulingUnit>,
    storedRanges: map<string, RangeSet>, includes: Includes): nat
    requires unitIds <= units.Keys
  {
    SumValues(MissingPerUnit(unitIds, units, storedRanges, includes))
  }

  /** A unit has no missing chunk iff the ranges include every one of its chunks. */
  lemma {:induction false} UnitMissingZero(chunks: seq<DataChunk>, storedRanges: map<string, RangeSet>, includes: Includes)
    ensures UnitMissing(chunks, storedRanges, includes) == 0 <==>
            forall i :: 0 <= i < |chunks| ==> ChunkMissing(chunks[i], storedRanges, includes) == 0
  {
    if chunks != [] {
      UnitMissingZero(chunks[1..], storedRanges, includes);
      assert forall i :: 1 <= i < |chunks| ==> chunks[i] == chunks[1..][i - 1];
    }
  }

  /**
   * A worker is fully synced (no missing chunk) iff, for every chunk of every
   * given unit, it has reported ranges for the chunk's dataset and they
   * include the chunk's block range.
   */
  lemma MissingChunksZero(
    unitIds: set<UnitId>, units: map<UnitId, SchedulingUnit>,
    storedRanges: map<string, RangeSet>, includes: Includes)
    requires unitIds <= units.Keys
    ensures MissingChunks(unitIds, units, storedRanges, includes) == 0 <==>
            forall u, i :: u in unitIds && 0 <= i < |units[u].chunks| ==>
              Covered(units[u].chunks[i], storedRanges, includes)
  {
    var per := MissingPerUnit(unitIds, units, storedRanges, includes);
    SumValuesZero(per);
    if MissingChunks(unitIds, units, storedRanges, includes) == 0 {
      forall u, i | u in unitIds && 0 <= i < |units[u].chunks|
        ensures Covered(units[u].chunks[i], storedRanges, includes)
      {
        assert per[u] == 0;
        UnitMissingZero(units[u].chunks, storedRanges, includes);
        assert ChunkMissing(units[u].chunks[i], storedRanges, includes) == 0;
      }
    } else {
      var u :| u in per && per[u] != 0;
      UnitMissingZero(units[u].chunks, storedRanges, includes);
      var i :| 0 <= i < |units[u].chunks| && ChunkMissing(units[u].chunks[i], storedRanges, includes) != 0;
      assert !Covered(units[u].chunks[i], storedRanges, includes);
    }
  }

  /** Taking one unit out of the count. */
  lemma MissingChunksRemove(
    unitIds: set<UnitId>, u: UnitId, units: map<UnitId, SchedulingUnit>,
    storedRanges: map<string, RangeSet>, includes: Includes)
    requires unitIds <= units.Keys && u in unitIds
    ensures MissingChunks(unitIds, units, storedRanges, includes)
         == UnitMissing(units[u].chunks, storedRanges, includes)
          + MissingChunks(unitIds - {u}, units, storedRanges, includes)
  {
    var per := MissingPerUnit(unitIds, units, storedRanges, includes);
    SumValuesRemove(per, u);
    assert per - {u} == MissingPerUnit(unitIds - {u}, units, storedRanges, includes);
  }

  // ---------------------------------------------------------------------------
  // Reported ranges

  /**
   * The per-dataset map a ping's list of (dataset, ranges) pairs is collected
   * into: every listed dataset is a key, and a dataset listed twice keeps the
   * ranges of its last entry.
   */
  function CollectRanges(pairs: seq<(string, RangeSet)>): map<string, RangeSet>
  {
    if pairs == [] then map[]
    else CollectRanges(pairs[..|pairs| - 1])[pairs[|pairs| - 1].0 := pairs[|pairs| - 1].1]
  }

  /** The entry a dataset's ranges come from: the last one listing it. */
  ghost predicate LastEntryFor(pairs: seq<(string, RangeSet)>, i: nat, url: string, ranges: RangeSet)
  {
    i < |pairs| && pairs[i] == (url, ranges) && forall j :: i < j < |pairs| ==> pairs[j].0 != url
  }

  lemma {:induction false} CollectRangesLastWins(pairs: seq<(string, RangeSet)>)
    ensures forall url :: url in CollectRanges(pairs) <==> exists i :: 0 <= i < |pairs| && pairs[i].0 == url
    ensures forall url :: url in CollectRanges(pairs) ==>
              exists i :: LastEntryFor(pairs, i, url, CollectRanges(pairs)[url])
  {
    if pairs != [] {
      var init, last := pairs[..|pairs| - 1], pairs[|pairs| - 1];
      var m := CollectRanges(pairs);
      CollectRangesLastWins(init);
      assert forall i :: 0 <= i < |init| ==> init[i] == pairs[i];
      forall url | url in m
        ensures exists i :: LastEntryFor(pairs, i, url, m[url])
      {
        if url == last.0 {
          assert LastEntryFor(pairs, |pairs| - 1, url, m[url]);
        } else {
          var i :| LastEntryFor(init, i, url, CollectRanges(init)[url]);
          assert LastEntryFor(pairs, i, url, m[url]);
        }
      }
    }
  }

  // ---------------------------------------------------------------------------
  // The worker

  class WorkerState {
    const peerId: string
    const address: string
    var lastPing: Time
    var version: Option<string>
    var jailed: bool
    var assignedUnits: set<UnitId>
    /** A cache of the assigned units' total size; can be outdated. */
    var assignedBytes: nat
    var storedRanges: map<string, RangeSet>
    var storedBytes: nat
    var numMissingChunks: nat
    var lastAssignment: Time
    var lastDialTime: Time
    var lastDialOk: bool
    var unreachableSince: Option<Time>
    var jailReason: Option<JailReason>

    /** The number of bytes each assigned unit was charged when assigned or expanded. */
    ghost var accounted: map<UnitId, nat>

    ghost predicate Valid()
      reads this
    {
      assignedUnits == accounted.Keys
    }

    /** `assignedBytes` is exactly the total charged to the assigned units. */
    ghost predicate Accounted()
      reads this
    {
      assignedBytes == SumValues(accounted)
    }

    constructor (peerId: string, address: string, now: Time)
      ensures Valid() && Accounted()
      ensures this.peerId == peerId && this.address == address
      ensures lastPing == now && version == None && !jailed
      ensures assignedUnits == {} && assignedBytes == 0 && storedRanges == map[] && storedBytes == 0
      ensures numMissingChunks == 0 && lastAssignment == now && lastDialTime == now && !lastDialOk
      ensures unreachableSince == None && jailReason == None
    {
      this.peerId := peerId;
      this.address := address;
      lastPing := now;
      version := None;
      jailed := false;
      assignedUnits := {};
      storedRanges := map[];
      storedBytes := 0;
      assignedBytes := 0;
      numMissingChunks := 0;
      lastAssignment := now;
      lastDialTime := now;
      lastDialOk := false;
      unreachableSince := None;
      jailReason := None;
      accounted := map[];
    }

    /** Registers a ping: its time, version, reported ranges and stored bytes (0 when absent). */
    method Ping(msgVersion: Option<string>, msgRanges: seq<(string, RangeSet)>, msgStoredBytes: Option<nat>, now: Time)
      modifies this`lastPing, this`version, this`storedRanges, this`storedBytes
      ensures lastPing == now && version == msgVersion
      ensures storedRanges == CollectRanges(msgRanges)
      ensures storedBytes == if msgStoredBytes.Some? then msgStoredBytes.value else 0
      ensures forall later, timeout :: now <= later < now + timeout ==> IsActive(later, timeout)
      ensures forall later, timeout :: now + timeout <= later ==> !IsActive(later, timeout)
    {
      lastPing := now;
      version := msgVersion;
      storedRanges := CollectRanges(msgRanges);
      storedBytes := if msgStoredBytes.Some? then msgStoredBytes.value else 0;
    }

    /**
     * Records a reachability probe. A success clears `unreachableSince`; a
     * failure sets it only if it was unset, so it keeps the first failure.
     */
    method Dialed(reachable: bool, now: Time)
      modifies this`lastDialTime, this`lastDialOk, this`unreachableSince
      ensures lastDialTime == now && lastDialOk == reachable
      ensures reachable ==> unreachableSince == None
      ensures !reachable ==> unreachableSince == Some(if old(unreachableSince).Some? then old(unreachableSince).value else now)
      ensures reachable ==> forall later, timeout :: !IsUnreachable(later, timeout)
      ensures !reachable && old(unreachableSince).None? ==> forall timeout :: !IsUnreachable(now, timeout)
    {
      lastDialTime := now;
      lastDialOk := reachable;
      if reachable {
        unreachableSince := None;
      } else if unreachableSince.None? {
        unreachableSince := Some(now);
      }
    }

    /**
     * Pinged less than `inactiveTimeout` ago; the source panics if the last
     * ping lies in the future. A worker pinged just now is active for any
     * positive timeout, and no worker is active for a zero timeout.
     */
    predicate IsActive(now: Time, inactiveTimeout: nat): (active: bool)
      reads this
      requires lastPing <= now
      ensures active ==> inactiveTimeout > 0
      ensures lastPing == now ==> (active <==> inactiveTimeout > 0)
    {
      now - lastPing < inactiveTimeout
    }

    /**
     * Every probe for more than `unreachableTimeout` has failed: this needs a
     * recorded failure, and cannot hold before the timeout has passed.
     */
    predicate IsUnreachable(now: Time, unreachableTimeout: nat): (unreachable: bool)
      reads this
      requires unreachableSince.Some? ==> unreachableSince.value <= now
      ensures unreachable ==> unreachableSince.Some? && unreachableTimeout < now
      ensures unreachableSince.Some? && unreachableSince.value == now ==> !unreachable
    {
      unreachableSince.Some? && now - unreachableSince.value > unreachableTimeout
    }

    /** The configured budget minus the assigned bytes, saturating at 0. */
    function RemainingCapacity(capacity: nat): (r: nat)
      reads this
      ensures r <= capacity
      ensures assignedBytes + r >= capacity
      ensures r > 0 ==> assignedBytes + r == capacity
    {
      if assignedBytes <= capacity then capacity - assignedBytes else 0
    }

    /**
     * Assigns a unit if it fits the remaining capacity and is not assigned
     * yet; otherwise changes nothing.
     */
    method TryAssignUnit(unitId: UnitId, unitSize: nat, capacity: nat) returns (ok: bool)
      requires Valid()
      modifies this`assignedUnits, this`assignedBytes, this`accounted
      ensures Valid()
      ensures ok <==> unitSize <= old(RemainingCapacity(capacity)) && unitId !in old(assignedUnits)
      ensures ok ==> (assignedUnits == old(assignedUnits) + {unitId}
                      && assignedBytes == old(assignedBytes) + unitSize
                      && accounted == old(accounted)[unitId := unitSize])
      ensures !ok ==> (assignedUnits == old(assignedUnits) && assignedBytes == old(assignedBytes)
                       && accounted == old(accounted))
      ensures old(assignedBytes) <= capacity ==> assignedBytes <= capacity
      ensures old(Accounted()) ==> Accounted()
    {
      if unitSize > RemainingCapacity(capacity) {
        return false;
      }
      if unitId !in assignedUnits {
        ghost var wasAccounted := Accounted();
        assignedUnits := assignedUnits + {unitId};
        assignedBytes := assignedBytes + unitSize;
        if wasAccounted {
          SumValuesInsert(accounted, unitId, unitSize);
        }
        accounted := accounted[unitId := unitSize];
        return true;
      }
      return false;
    }

    /**
     * Unassigns a unit, if assigned, and takes its size off the assigned
     * bytes (the source's unsigned subtraction must not underflow).
     */
    method RemoveUnit(unitId: UnitId, unitSize: nat)
      requires Valid()
      requires unitId in assignedUnits ==> unitSize <= assignedBytes
      modifies this`assignedUnits, this`assignedBytes, this`accounted
      ensures Valid()
      ensures assignedUnits == old(assignedUnits) - {unitId}
      ensures assignedBytes == if unitId in old(assignedUnits) then old(assignedBytes) - unitSize else old(assignedBytes)
      ensures accounted == old(accounted) - {unitId}
      ensures old(Accounted()) && (unitId in old(accounted) ==> old(accounted)[unitId] == unitSize) ==> Accounted()
    {
      if unitId in assignedUnits {
        if Accounted() && accounted[unitId] == unitSize {
          SumValuesRemove(accounted, unitId);
        }
        assignedUnits := assignedUnits - {unitId};
        assignedBytes := assignedBytes - unitSize;
        accounted := accounted - {unitId};
      } else {
        assert accounted - {unitId} == accounted;
      }
    }

    /**
     * An assigned unit grew from `oldSize` to `newSize`. If the remaining
     * capacity strictly exceeds the growth, the growth is charged and the unit
     * stays; otherwise the unit is unassigned (the source asserts it was
     * assigned) and `oldSize` is taken off. The result says whether it stayed.
     */
    method TryExpandUnit(unitId: UnitId, oldSize: nat, newSize: nat, capacity: nat) returns (ok: bool)
      requires Valid()
      requires oldSize <= newSize
      requires RemainingCapacity(capacity) <= newSize - oldSize ==> unitId in assignedUnits && oldSize <= assignedBytes
      modifies this`assignedUnits, this`assignedBytes, this`accounted
      ensures Valid()
      ensures ok <==> old(RemainingCapacity(capacity)) > newSize - oldSize
      ensures ok ==> (assignedUnits == old(assignedUnits)
                      && assignedBytes == old(assignedBytes) + (newSize - oldSize)
                      && accounted == if unitId in old(accounted)
                                      then old(accounted)[unitId := old(accounted)[unitId] + (newSize - oldSize)]
                                      else old(accounted))
      ensures !ok ==> (assignedUnits == old(assignedUnits) - {unitId}
                       && assignedBytes == old(assignedBytes) - oldSize
                       && accounted == old(accounted) - {unitId})
      ensures unitId in old(assignedUnits) ==> (ok <==> unitId in assignedUnits)
      ensures old(assignedBytes) <= capacity ==> assignedBytes <= capacity
      ensures old(Accounted()) && unitId in old(accounted) && old(accounted)[unitId] == oldSize
              ==> Accounted() && (ok ==> accounted[unitId] == newSize)
    {
      var sizeDiff := newSize - oldSize;
      if RemainingCapacity(capacity) > sizeDiff {
        assignedBytes := assignedBytes + sizeDiff;
        if unitId in accounted {
          SumValuesUpdate(accounted, unitId, accounted[unitId] + sizeDiff);
          accounted := accounted[unitId := accounted[unitId] + sizeDiff];
        }
        ok := true;
      } else {
        if Accounted() && accounted[unitId] == oldSize {
          SumValuesRemove(accounted, unitId);
        }
        assignedUnits := assignedUnits - {unitId};
        assignedBytes := assignedBytes - oldSize;
        accounted := accounted - {unitId};
        ok := false;
      }
    }

    /**
     * Counts the chunks of the assigned units that the reported ranges do not
     * include; every assigned unit must be known (the source panics otherwise).
     */
    method CountMissingChunks(units: map<UnitId, SchedulingUnit>, includes: Includes) returns (count: nat)
      requires assignedUnits <= units.Keys
      ensures count == MissingChunks(assignedUnits, units, storedRanges, includes)
    {
      count := 0;
      var todo := assignedUnits;
      while todo != {}
        invariant todo <= assignedUnits
        invariant count + MissingChunks(todo, units, storedRanges, includes)
               == MissingChunks(assignedUnits, units, storedRanges, includes)
        decreases |todo|
      {
        var u :| u in todo;
        MissingChunksRemove(todo, u, units, storedRanges, includes);
        count := count + UnitMissing(units[u].chunks, storedRanges, includes);
        todo := todo - {u};
      }
      assert MissingPerUnit({}, units, storedRanges, includes) == map[];
    }

    /**
     * Inside the stale grace period: the last assignment is no later than
     * `now` and less than `staleTimeout` ago. A last assignment in the future
     * (clock moved back) does not count as inside it.
     */
    predicate InGracePeriod(now: Time, staleTimeout: nat): (inGrace: bool)
      reads this
      ensures inGrace ==> staleTimeout > 0 && lastAssignment <= now
      ensures lastAssignment == now ==> (inGrace <==> staleTimeout > 0)
    {
      lastAssignment <= now && now - lastAssignment < staleTimeout
    }

    /**
     * Reports whether the worker is making progress downloading its assigned
     * chunks. Inside the grace period it is, and nothing changes. Otherwise
     * the missing chunks are counted: progress holds iff the count is zero or
     * strictly lower than the stored one, and only then is the count stored.
     */
    method CheckDownloadProgress(units: map<UnitId, SchedulingUnit>, includes: Includes, now: Time, staleTimeout: nat)
      returns (progress: bool)
      requires !jailed
      requires !InGracePeriod(now, staleTimeout) ==> assignedUnits <= units.Keys
      modifies this`numMissingChunks
      ensures InGracePeriod(now, staleTimeout) ==> progress && numMissingChunks == old(numMissingChunks)
      ensures !InGracePeriod(now, staleTimeout) ==>
                var count := MissingChunks(assignedUnits, units, storedRanges, includes);
                && (progress <==> count == 0 || count < old(numMissingChunks))
                && numMissingChunks == if progress then count else old(numMissingChunks)
    {
      if InGracePeriod(now, staleTimeout) {
        return true;
      }
      var count := CountMissingChunks(units, includes);
      if count == 0 {
        numMissingChunks := count;
        progress := true;
      } else if count < numMissingChunks {
        numMissingChunks := count;
        progress := true;
      } else {
        progress := false;
      }
    }

    /** Re-baselines the missing-chunk count and stamps the assignment time. */
    method ResetDownloadProgress(units: map<UnitId, SchedulingUnit>, includes: Includes, now: Time)
      requires assignedUnits <= units.Keys
      modifies this`numMissingChunks, this`lastAssignment
      ensures numMissingChunks == MissingChunks(assignedUnits, units, storedRanges, includes)
      ensures lastAssignment == now
      ensures forall timeout :: timeout > 0 ==> InGracePeriod(now, timeout)
    {
      numMissingChunks := CountMissingChunks(units, includes);
      lastAssignment := now;
    }

    /**
     * Jails the worker and drains its assignments: returns every previously
     * assigned unit once, and leaves no unit and no bytes assigned.
     */
    method Jail(reason: JailReason) returns (freed: seq<UnitId>)
      requires Valid()
      modifies this`jailed, this`jailReason, this`assignedBytes, this`numMissingChunks,
               this`assignedUnits, this`accounted
      ensures Valid() && Accounted()
      ensures jailed && jailReason == Some(reason)
      ensures assignedUnits == {} && assignedBytes == 0 && numMissingChunks == 0
      ensures forall u :: u in freed <==> u in old(assignedUnits)
      ensures forall i, j :: 0 <= i < j < |freed| ==> freed[i] != freed[j]
    {
      jailed := true;
      jailReason := Some(reason);
      assignedBytes := 0;
      numMissingChunks := 0;
      freed := [];
      var draining := assignedUnits;
      while draining != {}
        invariant draining <= old(assignedUnits)
        invariant forall u :: u in freed <==> u in old(assignedUnits) && u !in draining
        invariant forall i, j :: 0 <= i < j < |freed| ==> freed[i] != freed[j]
        decreases |draining|
      {
        var u :| u in draining;
        freed := freed + [u];
        draining := draining - {u};
      }
      assignedUnits := {};
      accounted := map[];
    }

    /** Lifts the jail; nothing else changes. */
    method Release()
      modifies this`jailed, this`jailReason
      ensures !jailed && jailReason == None
    {
      jailed := false;
      jailReason := None;
    }
  }

  /** Once unreachable, a worker stays so as time passes (until a probe succeeds). */
  lemma UnreachableStays(w: WorkerState, now: Time, later: Time, unreachableTimeout: nat)
    requires w.unreachableSince.Some? ==> w.unreachableSince.value <= now
    requires now <= later
    ensures w.IsUnreachable(now, unreachableTimeout) ==> w.IsUnreachable(later, unreachableTimeout)
    ensures w.IsUnreachable(later, unreachableTimeout) ==> w.unreachableSince.Some?
  {
  }

  /** Without a new ping, an inactive worker stays inactive as time passes. */
  lemma InactiveStays(w: WorkerState, now: Time, later: Time, inactiveTimeout: nat)
    requires w.lastPing <= now <= later
    ensures !w.IsActive(now, inactiveTimeout) ==> !w.IsActive(later, inactiveTimeout)
  {
  }

  // ---------------------------------------------------------------------------
  // A caller

  /** The calls a scheduler makes on one worker. */
  datatype Op =
    | Assign(unit: UnitId, size: nat)
    | Remove(unit: UnitId)
    | Expand(unit: UnitId, newSize: nat)
    | JailFor(reason: JailReason)
    | ReleaseJail

  /**
   * Replays calls on a worker the way a scheduler does: it knows each unit's
   * current size (`sizes`, its map of units) and removes and expands with the
   * sizes it knows. The worker itself checks neither of two rules, so the
   * caller keeps them: it assigns only while the worker is not jailed (see
   * `AssignWhileJailed`), and it expands only assigned units, never to a
   * smaller size (see `ExpandUnassignedDrifts`). Through any sequence that
   * keeps them, the assigned bytes stay the exact total of the assigned units'
   * sizes and within the capacity, and a jailed worker holds nothing.
   */
  method Replay(w: WorkerState, ops: seq<Op>, capacity: nat, sizes0: map<UnitId, nat>)
    returns (sizes: map<UnitId, nat>)
    requires w.Valid() && w.Accounted() && w.assignedBytes <= capacity
    requires forall u :: u in w.assignedUnits ==> u in sizes0 && sizes0[u] == w.accounted[u]
    requires w.jailed ==> w.assignedUnits == {} && w.assignedBytes == 0
    modifies w
    ensures w.Valid() && w.Accounted() && w.assignedBytes <= capacity
    ensures forall u :: u in w.assignedUnits ==> u in sizes && sizes[u] == w.accounted[u]
    ensures w.jailed ==> w.assignedUnits == {} && w.assignedBytes == 0
  {
    sizes := sizes0;
    for i := 0 to |ops|
      invariant w.Valid() && w.Accounted() && w.assignedBytes <= capacity
      invariant forall u :: u in w.assignedUnits ==> u in sizes && sizes[u] == w.accounted[u]
      invariant w.jailed ==> w.assignedUnits == {} && w.assignedBytes == 0
    {
      match ops[i]
      case Assign(u, size) =>
        if !w.jailed {
          var ok := w.TryAssignUnit(u, size, capacity);
          if ok {
            sizes := sizes[u := size];
          }
        }
      case Remove(u) =>
        var size := if u in sizes then sizes[u] else 0;
        if u in w.assignedUnits {
          SumValuesRemove(w.accounted, u);
        }
        w.RemoveUnit(u, size);
      case Expand(u, newSize) =>
        if u in w.assignedUnits && sizes[u] <= newSize {
          if w.RemainingCapacity(capacity) <= newSize - sizes[u] {
            SumValuesRemove(w.accounted, u);
          }
          var ok := w.TryExpandUnit(u, sizes[u], newSize, capacity);
          sizes := sizes[u := newSize];
        }
      case JailFor(reason) =>
        var freed := w.Jail(reason);
      case ReleaseJail =>
        w.Release();
    }
  }

  /**
   * `try_assign_unit` does not look at the jail flag: a jailed worker accepts
   * a unit, so "a jailed worker holds nothing" rests on the caller.
   */
  method AssignWhileJailed() returns (jailed: bool, units: set<UnitId>)
    ensures jailed && units == {"u"}
  {
    var w := new WorkerState("peer", "address", 0);
    var freed := w.Jail(Stale);
    var ok := w.TryAssignUnit("u", 1, 100);
    jailed, units := w.jailed, w.assignedUnits;
  }

  /**
   * `try_expand_unit` charges the growth without checking that the unit is
   * assigned: expanding a unit the worker does not hold leaves bytes charged
   * to no unit, so the assigned bytes are no longer the units' total.
   */
  method ExpandUnassignedDrifts() returns (bytes: nat, units: set<UnitId>, ghost charged: nat)
    ensures bytes == 5 && units == {} && charged == 0
  {
    var w := new WorkerState("peer", "address", 0);
    var ok := w.TryExpandUnit("u", 0, 5, 100);
    bytes, units, charged := w.assignedBytes, w.assignedUnits, SumValues(w.accounted);
  }
}
