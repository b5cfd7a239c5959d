/**
  Building a block (leveldb/table/block_builder.cc).
*/
module BlockBuilder {
  import opened Coding
  import opened BlockFormat

  // ---------------------------------------------------------------- a finished block

  /** Restart point k is stored after the entries. */
  ghost predicate RestartStored(block: Bytes, p: Plan, k: nat) {
    |p.offs| == |p.keys| + 1 && Small(RestartOffset(p, k)) &&
    StandsAt(block, p.offs[|p.keys|] + 4 * k, EncodeFixed32(RestartOffset(p, k)))
  }

  ghost predicate BlockOk(block: Bytes, p: Plan) {
    && Entries(block, p) && RestartPoints(p) && Small(|block|) && |block| == p.offs[|p.keys|] + 4 * |p.rs| + 4
    && (forall k :: 0 <= k < |p.rs| ==> RestartStored(block, p, k))
    && Small(|p.rs|) && StandsAt(block, p.offs[|p.keys|] + 4 * |p.rs|, EncodeFixed32(|p.rs|))
  }

  /** The keys increase in the comparator's order, given by each key's rank in it. */
  ghost predicate Increasing(rank: Bytes -> real, keys: seq<Bytes>) {
    forall i, j :: 0 <= i < j < |keys| ==> rank(keys[i]) < rank(keys[j])
  }

  // ---------------------------------------------------------------- one more entry

  /** The plan with one more pair. */
  function Extend(p: Plan, key: Bytes, value: Bytes, shared: nat, end: nat, restart: bool): Plan {
    Plan(p.keys + [key], p.vals + [value], p.shared + [shared], p.offs + [end], if restart then p.rs + [|p.keys|] else p.rs)
  }

  /** Earlier entries stay where they are. */
  lemma EntryStays(data: Bytes, more: Bytes, p: Plan, p': Plan, i: nat)
    requires EntryAt(data, p, i)
    requires i < |p'.keys| && p'.keys[i] == p.keys[i] && (i > 0 ==> p'.keys[i - 1] == p.keys[i - 1])
    requires i < |p'.vals| && p'.vals[i] == p.vals[i] && i < |p'.shared| && p'.shared[i] == p.shared[i]
    requires i + 1 < |p'.offs| && p'.offs[i] == p.offs[i] && p'.offs[i + 1] == p.offs[i + 1]
    ensures EntryAt(data + more, p', i)
  {
    var q := p.offs[i] + |Head(p, i)|;
    StandsBefore(data, more, p.offs[i], Head(p, i));
    StandsBefore(data, more, q, p.keys[i][p.shared[i]..]);
    StandsBefore(data, more, q + NonShared(p, i), p.vals[i]);
  }

  lemma {:induction false} EntriesExtend(data: Bytes, p: Plan, key: Bytes, value: Bytes, shared: nat, more: Bytes, restart: bool)
    requires Entries(data, p) && p.offs[|p.keys|] == |data| && Small(|key|) && Small(|value|)
    requires shared <= |key| && (p.keys == [] ==> shared == 0)
    requires p.keys != [] ==> shared <= |p.keys[|p.keys| - 1]| && key[..shared] == p.keys[|p.keys| - 1][..shared]
    requires more == Lengths(shared, |key| - shared, |value|) + key[shared..] + value
    ensures Entries(data + more, Extend(p, key, value, shared, |data + more|, restart))
  {
    var p', n := Extend(p, key, value, shared, |data + more|, restart), |p.keys|;
    var head := Lengths(shared, |key| - shared, |value|);
    forall i | 0 <= i < n ensures EntryAt(data + more, p', i) {
      assert EntryAt(data, p, i);
      EntryStays(data, more, p, p', i);
    }
    assert Head(p', n) == head && NonShared(p', n) == |key| - shared;
    PartsStand(data, head, key[shared..], value);
    assert data + more == data + (head + key[shared..] + value);
    assert EntryAt(data + more, p', n);
  }

  lemma PartsStand(data: Bytes, x: Bytes, y: Bytes, z: Bytes)
    ensures var all := data + (x + y + z);
            StandsAt(all, |data|, x) && StandsAt(all, |data| + |x|, y) && StandsAt(all, |data| + |x| + |y|, z)
  {
  }

  ghost predicate Offsets(p: Plan, restarts: seq<nat>) {
    RestartPoints(p) && |restarts| == |p.rs| && forall k :: 0 <= k < |restarts| ==> restarts[k] == RestartOffset(p, k)
  }

  lemma RestartsExtend(p: Plan, restarts: seq<nat>, key: Bytes, value: Bytes, shared: nat, end: nat, restart: bool)
    requires Offsets(p, restarts) && |p.shared| == |p.keys| && |p.offs| == |p.keys| + 1
    requires if restart || p.keys == [] then shared == 0 else true
    requires restart ==> p.keys != []
    ensures Offsets(Extend(p, key, value, shared, end, restart), if restart then restarts + [p.offs[|p.keys|]] else restarts)
  {
    var p' := Extend(p, key, value, shared, end, restart);
    var restarts' := if restart then restarts + [p.offs[|p.keys|]] else restarts;
    forall k | 0 <= k < |p'.rs| ensures p'.rs[k] < |p'.keys| && p'.shared[p'.rs[k]] == 0 && restarts'[k] == RestartOffset(p', k) {
      if k < |p.rs| {
        assert p'.rs[k] == p.rs[k] && restarts'[k] == restarts[k] == RestartOffset(p, k);
      } else {
        assert p'.rs[k] == |p.keys|;
      }
    }
  }

  lemma IncreasingExtend(rank: Bytes -> real, keys: seq<Bytes>, key: Bytes)
    requires Increasing(rank, keys) && (keys == [] || rank(keys[|keys| - 1]) < rank(key))
    ensures Increasing(rank, keys + [key])
  {
  }

  lemma SpliceKey(key: Bytes, last: Bytes, shared: nat)
    requires shared <= |key| && shared <= |last| && key[..shared] == last[..shared]
    ensures last[..shared] + key[shared..] == key
  {
  }

  // ---------------------------------------------------------------- the builder

  /** A restart point after every interval of entries, and counter entries since the last one. */
  predicate Spaced(rs: seq<nat>, interval: nat, counter: nat, n: nat) {
    && rs != [] && rs[0] == 0 && rs[|rs| - 1] + counter == n
    && forall k :: 0 <= k < |rs| - 1 ==> rs[k + 1] == rs[k] + interval
  }

  lemma SpacedExtend(rs: seq<nat>, interval: nat, counter: nat, n: nat)
    requires Spaced(rs, interval, counter, n)
    ensures Spaced(rs, interval, counter + 1, n + 1)
    ensures counter == interval ==> Spaced(rs + [n], interval, 1, n + 1)
  {
  }

  /** The bytes so far, the restart offsets and the last key are those of the plan. */
  ghost predicate Holds(buffer: Bytes, p: Plan, restarts: seq<nat>, lastKey: Bytes) {
    && Entries(buffer, p) && p.offs[|p.keys|] == |buffer| && Offsets(p, restarts)
    && lastKey == if p.keys == [] then [] else p.keys[|p.keys| - 1]
  }

  predicate IsEntry(more: Bytes, key: Bytes, value: Bytes, shared: nat) {
    shared <= |key| && more == Lengths(shared, |key| - shared, |value|) + key[shared..] + value
  }

  lemma HoldsMore(buffer: Bytes, p: Plan, restarts: seq<nat>, lastKey: Bytes, key: Bytes, value: Bytes, shared: nat, more: Bytes, restart: bool)
    requires Holds(buffer, p, restarts, lastKey) && Small(|key|) && Small(|value|)
    requires shared <= |key| && shared <= |lastKey| && key[..shared] == lastKey[..shared]
    requires restart ==> shared == 0 && p.keys != []
    requires IsEntry(more, key, value, shared)
    ensures Holds(buffer + more, Extend(p, key, value, shared, |buffer + more|, restart), if restart then restarts + [|buffer|] else restarts, key)
  {
    EntriesExtend(buffer, p, key, value, shared, more, restart);
    RestartsExtend(p, restarts, key, value, shared, |buffer + more|, restart);
  }

  /** What a builder keeps. */
  ghost predicate Ready(buffer: Bytes, p: Plan, restarts: seq<nat>, lastKey: Bytes, rank: Bytes -> real, interval: nat, counter: nat) {
    && interval >= 1 && counter <= interval && counter <= |p.keys|
    && Holds(buffer, p, restarts, lastKey) && Increasing(rank, p.keys) && Spaced(p.rs, interval, counter, |p.keys|)
  }

  lemma ReadyMore(buffer: Bytes, p: Plan, restarts: seq<nat>, lastKey: Bytes, rank: Bytes -> real, interval: nat, counter: nat,
                  key: Bytes, value: Bytes, shared: nat, more: Bytes, restarts': seq<nat>, counter': nat)
    requires Ready(buffer, p, restarts, lastKey, rank, interval, counter) && Small(|key|) && Small(|value|)
    requires shared <= |key| && shared <= |lastKey| && key[..shared] == lastKey[..shared]
    requires IsEntry(more, key, value, shared) && (counter >= interval ==> shared == 0) && (buffer == [] || rank(key) > rank(lastKey))
    requires restarts' == (if counter >= interval then restarts + [|buffer|] else restarts) && counter' == (if counter >= interval then 0 else counter) + 1
    ensures Ready(buffer + more, Extend(p, key, value, shared, |buffer + more|, counter >= interval), restarts', key, rank, interval, counter')
  {
    EmptyBuffer(buffer, p);
    SpacedExtend(p.rs, interval, counter, |p.keys|);
    IncreasingExtend(rank, p.keys, key);
    HoldsMore(buffer, p, restarts, lastKey, key, value, shared, more, counter >= interval);
  }

  class BlockBuilder {
    const interval: nat
    ghost const rank: Bytes -> real
    var buffer: Bytes
    var restarts: seq<nat>
    var counter: nat
    var finished: bool
    var lastKey: Bytes
    ghost var plan: Plan

    ghost predicate Valid()
      reads this
    {
      Ready(buffer, plan, restarts, lastKey, rank, interval, counter)
    }

    constructor (interval: nat, ghost rank: Bytes -> real)
      requires interval >= 1
      ensures Valid() && !finished && plan.keys == [] && plan.vals == [] && this.rank == rank
    {
      this.interval, this.rank := interval, rank;
      buffer, restarts, counter, finished, lastKey := [], [0], 0, false, [];
      plan := Plan([], [], [], [0], [0]);
    }

    /** How many bytes the key shares with the one before. */
    method SharedPrefix(key: Bytes) returns (shared: nat)
      ensures shared <= |key| && shared <= |lastKey| && key[..shared] == lastKey[..shared]
      ensures shared < |key| && shared < |lastKey| ==> key[shared] != lastKey[shared]
    {
      var minLength := if |lastKey| < |key| then |lastKey| else |key|;
      shared := 0;
      while shared < minLength && lastKey[shared] == key[shared]
        invariant 0 <= shared <= minLength && key[..shared] == lastKey[..shared]
      {
        assert key[..shared + 1] == key[..shared] + [key[shared]] && lastKey[..shared + 1] == lastKey[..shared] + [lastKey[shared]];
        shared := shared + 1;
      }
    }

    method Add(key: Bytes, value: Bytes)
      requires Valid() && !finished && Small(|key|) && Small(|value|)
      requires buffer == [] || rank(key) > rank(lastKey)
      modifies this
      ensures Valid() && !finished && plan.keys == old(plan).keys + [key] && plan.vals == old(plan).vals + [value]
    {
      var shared := 0;
      if counter < interval {
        shared := SharedPrefix(key);
      }
      Append(key, value, shared);
    }

    /** The entry itself, at a restart point or not. */
    method Append(key: Bytes, value: Bytes, shared: nat)
      requires Valid() && !finished && Small(|key|) && Small(|value|) && (buffer == [] || rank(key) > rank(lastKey))
      requires shared <= |key| && shared <= |lastKey| && key[..shared] == lastKey[..shared] && (counter >= interval ==> shared == 0)
      modifies this
      ensures Valid() && !finished && plan.keys == old(plan).keys + [key] && plan.vals == old(plan).vals + [value]
    {
      var more := EntryBytes(key, value, shared);
      var all, last := buffer + more, lastKey[..shared] + key[shared..];
      var starts, count := restarts, counter;
      if counter >= interval {
        starts, count := restarts + [|buffer|], 0;
      }
      ReadyMore(buffer, plan, restarts, lastKey, rank, interval, counter, key, value, shared, more, starts, count + 1);
      SpliceKey(key, lastKey, shared);
      plan := Extend(plan, key, value, shared, |all|, counter >= interval);
      buffer, lastKey, restarts, counter := all, last, starts, count + 1;
    }

    /** The three lengths, the part of the key that is not shared, and the value. */
    static method EntryBytes(key: Bytes, value: Bytes, shared: nat) returns (more: Bytes)
      requires shared <= |key|
      ensures IsEntry(more, key, value, shared)
    {
      more := EncodeVarint(shared) + EncodeVarint(|key| - shared) + EncodeVarint(|value|);
      more := more + key[shared..] + value;
    }

    /** The bytes of the block: the entries, then the restart array and its length. */
    method Finish() returns (block: Bytes)
      requires Valid() && !finished && Small(|buffer| + 4 * |restarts| + 4)
      modifies this`buffer, this`finished
      ensures finished && block == buffer && BlockOk(block, plan)
    {
      ghost var data := buffer;
      var k := 0;
      while k < |restarts|
        invariant 0 <= k <= |restarts| && |buffer| == |data| + 4 * k && data <= buffer
        invariant forall l :: 0 <= l < k ==> RestartStored(buffer, plan, l)
      {
        RestartBelow(data, plan, k);
        ghost var before := buffer;
        buffer := buffer + EncodeFixed32(restarts[k]);
        StoredLater(before, EncodeFixed32(restarts[k]), plan, k);
        k := k + 1;
      }
      ghost var before := buffer;
      buffer := buffer + EncodeFixed32(|restarts|);
      StoredLater(before, EncodeFixed32(|restarts|), plan, k);
      EntriesLater(data, buffer, plan);
      finished := true;
      block := buffer;
    }
  }

  lemma EmptyBuffer(buffer: Bytes, p: Plan)
    requires Entries(buffer, p) && p.offs[|p.keys|] == |buffer|
    ensures buffer == [] <==> p.keys == []
  {
    OffsIncrease(buffer, p, 0, |p.keys|);
  }

  // ---------------------------------------------------------------- how big a block gets

  /** A bound on the bytes of the first n entries: three lengths take at most five bytes each. */
  function Weight(keys: seq<Bytes>, vals: seq<Bytes>, n: nat): nat
    requires n <= |keys| && n <= |vals|
  {
    if n == 0 then 0 else Weight(keys, vals, n - 1) + |keys[n - 1]| + |vals[n - 1]| + 15
  }

  lemma {:induction false} OffsetsBounded(data: Bytes, p: Plan, n: nat)
    requires Entries(data, p) && n <= |p.keys|
    ensures p.offs[n] <= Weight(p.keys, p.vals, n)
  {
    if n > 0 {
      OffsetsBounded(data, p, n - 1);
      assert EntryAt(data, p, n - 1);
      VarintLength(p.shared[n - 1]);
      VarintLength(NonShared(p, n - 1));
      VarintLength(|p.vals[n - 1]|);
    }
  }

  lemma {:induction false} RestartsBounded(p: Plan, k: nat)
    requires RestartPoints(p) && k < |p.rs|
    ensures p.rs[k] >= k
  {
    if k > 0 {
      RestartsBounded(p, k - 1);
    }
  }

  /** No block is bigger than its pairs warrant. */
  lemma BlockBounded(data: Bytes, p: Plan)
    requires Entries(data, p) && RestartPoints(p) && p.offs[|p.keys|] == |data|
    ensures |data| + 4 * |p.rs| + 4 <= Weight(p.keys, p.vals, |p.keys|) + 4 * |p.keys| + 8
  {
    OffsetsBounded(data, p, |p.keys|);
    RestartsBounded(p, |p.rs| - 1);
  }

  lemma RestartBelow(data: Bytes, p: Plan, k: nat)
    requires Entries(data, p) && RestartPoints(p) && k < |p.rs|
    ensures RestartOffset(p, k) <= p.offs[|p.keys|]
  {
    if p.keys != [] {
      OffsIncrease(data, p, p.rs[k], |p.keys|);
    }
  }

  lemma StoredLater(before: Bytes, more: Bytes, p: Plan, k: nat)
    requires forall l :: 0 <= l < k ==> RestartStored(before, p, l)
    ensures forall l :: 0 <= l < k ==> RestartStored(before + more, p, l)
    ensures StandsAt(before + more, |before|, more)
  {
    forall l | 0 <= l < k ensures RestartStored(before + more, p, l) {
      assert RestartStored(before, p, l);
      StandsBefore(before, more, p.offs[|p.keys|] + 4 * l, EncodeFixed32(RestartOffset(p, l)));
    }
  }

  lemma EntriesLater(data: Bytes, block: Bytes, p: Plan)
    requires Entries(data, p) && data <= block
    ensures Entries(block, p)
  {
    var more := block[|data|..];
    assert block == data + more;
    forall i | 0 <= i < |p.keys| ensures EntryAt(block, p, i) {
      assert EntryAt(data, p, i);
      EntryStays(data, more, p, p, i);
    }
  }
}
