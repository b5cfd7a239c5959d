/**
  Iterating over a block (leveldb/table/block.cc: Block::Iter).
*/
module BlockIter {
  import opened Coding
  import opened BlockFormat
  import opened BlockBuilder

  /** A slice of the block, empty where it would reach past the end. */
  function Sub(data: Bytes, start: nat, n: nat): Bytes {
    if start + n <= |data| then data[start..start + n] else []
  }

  lemma SubIs(data: Bytes, start: nat, l: Bytes)
    requires StandsAt(data, start, l)
    ensures Sub(data, start, |l|) == l
  {
  }

  /** The bytes of entry j rebuild its key from what it shares with k. */
  lemma KeyRebuilt(data: Bytes, p: Plan, j: nat, k: Bytes)
    requires EntryAt(data, p, j) && p.shared[j] <= |k| && k[..p.shared[j]] == p.keys[j][..p.shared[j]]
    ensures k[..p.shared[j]] + Sub(data, p.offs[j] + |Head(p, j)|, NonShared(p, j)) == p.keys[j]
  {
    SubIs(data, p.offs[j] + |Head(p, j)|, p.keys[j][p.shared[j]..]);
    SpliceKey(p.keys[j], k, p.shared[j]);
  }

  class Iter {
    const data: Bytes
    const restarts: nat         // offset of the restart array
    const numRestarts: nat
    const rank: Bytes -> real   // the comparator
    var current: nat            // offset of the current entry; restarts when there is none
    var restartIndex: nat       // the restart block that current falls into
    var key: Bytes
    var valueStart: nat
    var valueLen: nat
    var corrupt: bool
    ghost const plan: Plan

    /** The block is one that a builder finished. */
    ghost predicate Built() {
      && BlockOk(data, plan) && Increasing(rank, plan.keys)
      && restarts == plan.offs[|plan.keys|] && numRestarts == |plan.rs|
    }

    /** The cursor is at entry i; past the last entry it is not valid. */
    ghost predicate At(i: nat)
      reads this
    {
      && Built() && i <= |plan.keys| && !corrupt
      && if i < |plan.keys| then
           && current == plan.offs[i] && key == plan.keys[i]
           && valueStart + valueLen == plan.offs[i + 1] && valueLen == |plan.vals[i]|
           && InRestart(restartIndex, i)
         else current == restarts && restartIndex == numRestarts
    }

    /** Entry i lies in restart block r, or is the first of the next one. */
    ghost predicate InRestart(r: nat, i: nat) {
      r < |plan.rs| && plan.rs[r] <= i && (r + 1 < |plan.rs| ==> i <= plan.rs[r + 1])
    }

    /** The next entry to parse is j. */
    ghost predicate Before(j: nat)
      reads this
    {
      && Built() && j <= |plan.keys| && !corrupt && valueStart + valueLen == plan.offs[j]
      && restartIndex < |plan.rs| && plan.rs[restartIndex] <= j
      && (j < |plan.keys| ==> plan.shared[j] <= |key| && plan.shared[j] <= |plan.keys[j]| && key[..plan.shared[j]] == plan.keys[j][..plan.shared[j]])
    }

    constructor (block: Bytes, rank: Bytes -> real, ghost plan: Plan)
      requires BlockOk(block, plan) && Increasing(rank, plan.keys)
      ensures At(|plan.keys|) && this.plan == plan && this.rank == rank && this.data == block
    {
      this.data, this.rank, this.plan := block, rank, plan;
      FixedAt(block, plan.offs[|plan.keys|] + 4 * |plan.rs|, |plan.rs|);
      var n := DecodeFixed32(block[|block| - 4..]);
      numRestarts := n;
      restarts := |block| - (1 + n) * 4;
      current := |block| - (1 + n) * 4;
      restartIndex := n;
      key, valueStart, valueLen, corrupt := [], 0, 0, false;
    }

    predicate IsValid()
      reads this
    {
      current < restarts
    }

    lemma ValidIs(i: nat)
      requires At(i)
      ensures IsValid() <==> i < |plan.keys|
    {
      OffsIncrease(data, plan, i, |plan.keys|);
    }

    function Value(): Bytes
      reads this
    {
      Sub(data, valueStart, valueLen)
    }

    /** A valid cursor shows the pair of its entry. */
    lemma ShowsPair(i: nat)
      requires At(i) && i < |plan.keys|
      ensures key == plan.keys[i] && Value() == plan.vals[i]
    {
      assert EntryAt(data, plan, i);
    }

    function GetRestartPoint(k: nat): nat
    {
      if restarts + 4 * k + 4 <= |data| then DecodeFixed32(data[restarts + 4 * k..]) else 0
    }

    lemma RestartPointIs(k: nat)
      requires Built() && k < numRestarts
      ensures GetRestartPoint(k) == plan.offs[plan.rs[k]] && plan.rs[k] <= |plan.keys|
    {
      assert RestartStored(data, plan, k);
      FixedAt(data, restarts + 4 * k, RestartOffset(plan, k));
    }

    method SeekToRestartPoint(index: nat)
      requires Built() && index < numRestarts && !corrupt
      modifies this`key, this`restartIndex, this`valueStart, this`valueLen
      ensures Before(plan.rs[index]) && restartIndex == index
    {
      RestartPointIs(index);
      key := [];
      restartIndex := index;
      valueStart, valueLen := GetRestartPoint(index), 0;
    }

    method CorruptionError()
      modifies this
      ensures current == restarts && restartIndex == numRestarts && corrupt && key == [] && valueStart == 0 && valueLen == 0
    {
      current, restartIndex, corrupt, key, valueStart, valueLen := restarts, numRestarts, true, [], 0, 0;
    }

    /** Move the restart index up to the restart block of an offset. */
    method AdvanceRestart(r: nat, offset: nat) returns (r': nat)
      ensures r <= r' && (r < numRestarts ==> r' < numRestarts)
      ensures forall k :: r < k <= r' ==> GetRestartPoint(k) < offset
      ensures r' + 1 < numRestarts ==> GetRestartPoint(r' + 1) >= offset
    {
      r' := r;
      while r' + 1 < numRestarts && GetRestartPoint(r' + 1) < offset
        invariant r <= r' && (r < numRestarts ==> r' < numRestarts)
        invariant forall k :: r < k <= r' ==> GetRestartPoint(k) < offset
        decreases numRestarts - r'
      {
        r' := r' + 1;
      }
    }

    /** Parse the entry behind the current value, whatever the block holds. */
    method ParseNextKey() returns (ok: bool)
      requires restarts <= |data|
      modifies this
      ensures var cur := old(valueStart) + old(valueLen);
              var d := if cur < restarts then DecodeEntry(data, cur, restarts) else None;
              if cur >= restarts then
                !ok && current == restarts && restartIndex == numRestarts && corrupt == old(corrupt)
              else if d.None? || |old(key)| < d.value.shared then
                !ok && corrupt
              else
                && ok && corrupt == old(corrupt) && current == cur
                && key == old(key)[..d.value.shared] + Sub(data, d.value.q, d.value.nonShared)
                && valueStart == d.value.q + d.value.nonShared && valueLen == d.value.valueLength
                && old(restartIndex) <= restartIndex && (old(restartIndex) < numRestarts ==> restartIndex < numRestarts)
                && (forall k :: old(restartIndex) < k <= restartIndex ==> GetRestartPoint(k) < cur)
                && (restartIndex + 1 < numRestarts ==> GetRestartPoint(restartIndex + 1) >= cur)
    {
      current := valueStart + valueLen;
      if current >= restarts {
        current := restarts;
        restartIndex := numRestarts;
        return false;
      }
      var d := DecodeEntry(data, current, restarts);
      if d.None? || |key| < d.value.shared {
        CorruptionError();
        return false;
      }
      key := key[..d.value.shared] + Sub(data, d.value.q, d.value.nonShared);
      valueStart, valueLen := d.value.q + d.value.nonShared, d.value.valueLength;
      restartIndex := AdvanceRestart(restartIndex, current);
      return true;
    }

    /** In a finished block the next entry parses to itself. */
    lemma ParsesEntry(j: nat, k: Bytes)
      requires Built() && j < |plan.keys|
      requires plan.shared[j] <= |k| && plan.shared[j] <= |plan.keys[j]| && k[..plan.shared[j]] == plan.keys[j][..plan.shared[j]]
      ensures plan.offs[j] < restarts <= |data|
      ensures var d := DecodeEntry(data, plan.offs[j], restarts);
              && d.Some? && d.value.shared == plan.shared[j]
              && k[..d.value.shared] + Sub(data, d.value.q, d.value.nonShared) == plan.keys[j]
              && d.value.q + d.value.nonShared + d.value.valueLength == plan.offs[j + 1] && d.value.valueLength == |plan.vals[j]|
    {
      OffsIncrease(data, plan, j, |plan.keys|);
      EntryDecodes(data, plan, j);
      assert EntryAt(data, plan, j);
      KeyRebuilt(data, plan, j, k);
    }

    /** The restart index found for entry j. */
    lemma RestartFound(r: nat, r': nat, j: nat)
      requires Built() && j < |plan.keys| && r <= r' < numRestarts && plan.rs[r] <= j
      requires forall k :: r < k <= r' ==> GetRestartPoint(k) < plan.offs[j]
      requires r' + 1 < numRestarts ==> GetRestartPoint(r' + 1) >= plan.offs[j]
      ensures InRestart(r', j)
    {
      RestartPointIs(r');
      if r < r' {
        OffsOrder(plan.rs[r'], j);
      }
      if r' + 1 < numRestarts {
        RestartPointIs(r' + 1);
        OffsOrder(plan.rs[r' + 1], j);
      }
    }

    lemma OffsOrder(i: nat, j: nat)
      requires Built() && i <= |plan.keys| && j <= |plan.keys|
      ensures plan.offs[i] < plan.offs[j] <==> i < j
    {
      if i < j {
        OffsIncrease(data, plan, i, j);
      } else {
        OffsIncrease(data, plan, j, i);
      }
    }

    /** Parsing moves on to entry j, or off the end. */
    method Parse(ghost j: nat) returns (ok: bool)
      requires Before(j)
      modifies this
      ensures At(j) && (ok <==> j < |plan.keys|)
    {
      if j < |plan.keys| {
        ParsesEntry(j, key);
      }
      ghost var r := restartIndex;
      ok := ParseNextKey();
      if j < |plan.keys| {
        RestartFound(r, restartIndex, j);
      }
    }

    /** From an entry the next one can be parsed. */
    lemma NextReady(i: nat)
      requires At(i) && i < |plan.keys|
      ensures Before(i + 1)
    {
      if i + 1 < |plan.keys| {
        assert EntryAt(data, plan, i + 1);
      }
    }

    method Next(ghost i: nat)
      requires At(i) && i < |plan.keys|
      modifies this
      ensures At(i + 1)
    {
      NextReady(i);
      var _ := Parse(i + 1);
    }

    method SeekToFirst(ghost i: nat)
      requires At(i)
      modifies this
      ensures At(0)
    {
      SeekToRestartPoint(0);
      var _ := Parse(0);
    }

    /** Parse on from a restart point until the entry that ends at a given offset. */
    method ParseUntil(ghost j: nat, ghost last: nat, end: nat)
      requires Before(j) && if plan.keys == [] then last == 0 else j <= last < |plan.keys| && end == plan.offs[last + 1]
      modifies this
      ensures At(last)
    {
      ghost var k := j;
      var ok := Parse(k);
      while ok && valueStart + valueLen < end
        invariant j <= k <= last && At(k) && (ok <==> plan.keys != [])
        decreases last - k
      {
        OffsOrder(k + 1, last + 1);
        NextReady(k);
        k := k + 1;
        ok := Parse(k);
      }
      if plan.keys != [] {
        OffsOrder(k + 1, last + 1);
      }
    }

    method SeekToLast(ghost i: nat)
      requires At(i)
      modifies this
      ensures At(if plan.keys == [] then 0 else |plan.keys| - 1)
    {
      SeekToRestartPoint(numRestarts - 1);
      ParseUntil(plan.rs[numRestarts - 1], if plan.keys == [] then 0 else |plan.keys| - 1, restarts);
    }

    /** The last restart point, going down from one, that lies before an offset; the first one if none does. */
    method RestartBefore(from: nat, original: nat) returns (r: nat)
      ensures r <= from && (GetRestartPoint(r) < original || r == 0)
    {
      r := from;
      while GetRestartPoint(r) >= original && r > 0
        invariant 0 <= r <= from
        decreases r
      {
        r := r - 1;
      }
    }

    /** Back by exactly one entry; before the first one the cursor is no longer valid. */
    method Prev(ghost i: nat)
      requires At(i) && i < |plan.keys|
      modifies this
      ensures At(if i == 0 then |plan.keys| else i - 1)
    {
      var original := current;
      var r := RestartBefore(restartIndex, original);
      RestartPointIs(r);
      OffsOrder(plan.rs[r], i);
      if GetRestartPoint(r) >= original {
        current := restarts;
        restartIndex := numRestarts;
      } else {
        SeekToRestartPoint(r);
        ParseUntil(plan.rs[r], i - 1, original);
      }
    }

    // -------------------------------------------------------------- seeking

    /** The key stored whole at a restart point, if the entry there is sound. */
    function RestartKey(k: nat): Option<Bytes>
      requires restarts <= |data|
    {
      var d := DecodeEntry(data, GetRestartPoint(k), restarts);
      if d.None? || d.value.shared != 0 then None else Some(Sub(data, d.value.q, d.value.nonShared))
    }

    lemma RestartKeyIs(k: nat)
      requires Built() && plan.keys != [] && k < numRestarts
      ensures restarts <= |data| && RestartKey(k) == Some(plan.keys[plan.rs[k]])
    {
      RestartPointIs(k);
      ParsesEntry(plan.rs[k], []);
      var d := DecodeEntry(data, plan.offs[plan.rs[k]], restarts);
      assert [][..0] + Sub(data, d.value.q, d.value.nonShared) == Sub(data, d.value.q, d.value.nonShared);
    }

    /** The last restart point in a range whose key is below the target, whatever the block holds. */
    method SearchRestarts(left0: nat, right0: nat, target: Bytes) returns (left: nat, bad: bool)
      requires restarts <= |data| && left0 <= right0
      ensures left0 <= left <= right0
      ensures !bad && left > left0 ==> RestartKey(left).Some? && rank(RestartKey(left).value) < rank(target)
      ensures bad ==> exists k :: left0 < k <= right0 && RestartKey(k).None?
    {
      var right := right0;
      left, bad := left0, false;
      while left < right && !bad
        invariant left0 <= left <= right <= right0
        invariant !bad && left > left0 ==> RestartKey(left).Some? && rank(RestartKey(left).value) < rank(target)
        invariant bad ==> exists k :: left0 < k <= right0 && RestartKey(k).None?
        decreases right - left, !bad
      {
        var mid := (left + right + 1) / 2;
        var midKey := RestartKey(mid);
        if midKey.None? {
          bad := true;
        } else if rank(midKey.value) < rank(target) {
          left := mid;
        } else {
          right := mid - 1;
        }
      }
    }

    method MarkIf(bad: bool)
      modifies this
      ensures bad ==> corrupt && current == restarts
      ensures !bad ==> current == old(current) && restartIndex == old(restartIndex) && key == old(key) && corrupt == old(corrupt)
      ensures !bad ==> valueStart == old(valueStart) && valueLen == old(valueLen)
    {
      if bad {
        CorruptionError();
      }
    }

    /** Everything before entry j is below the target. */
    ghost predicate Below(j: nat, target: Bytes) {
      forall l :: 0 <= l < j && l < |plan.keys| ==> rank(plan.keys[l]) < rank(target)
    }

    /** Entry j is the first at or past the target. */
    ghost predicate FirstAtLeast(j: nat, target: Bytes) {
      Below(j, target) && (j < |plan.keys| ==> rank(plan.keys[j]) >= rank(target))
    }

    /** The scan at the end of Seek. */
    method ScanTo(ghost j: nat, target: Bytes) returns (ghost k: nat)
      requires Before(j) && Below(j, target)
      modifies this
      ensures At(k) && FirstAtLeast(k, target)
    {
      k := j;
      var ok := Parse(k);
      while ok && rank(key) < rank(target)
        invariant At(k) && (ok <==> k < |plan.keys|) && Below(k, target)
        decreases |plan.keys| - k
      {
        NextReady(k);
        k := k + 1;
        ok := Parse(k);
      }
    }

    lemma BelowKey(j: nat, target: Bytes)
      requires Built() && j < |plan.keys| && rank(plan.keys[j]) < rank(target)
      ensures Below(j + 1, target)
    {
    }

    /** Where the search may start: everything before restart point `left` is below the target. */
    lemma SearchStarts(i: nat, left0: nat, left: nat, target: Bytes)
      requires Built() && left < numRestarts && left0 <= left
      requires left0 > 0 ==> i < |plan.keys| && plan.rs[left0] <= i && rank(plan.keys[i]) < rank(target)
      requires left > left0 && plan.keys != [] ==> restarts <= |data| && RestartKey(left).Some? && rank(RestartKey(left).value) < rank(target)
      ensures Below(plan.rs[left], target)
    {
      if plan.keys != [] && left > 0 {
        if left > left0 {
          RestartKeyIs(left);
          BelowKey(plan.rs[left], target);
        } else {
          BelowKey(i, target);
        }
      }
    }

    lemma RestartsSound(left0: nat, right0: nat)
      requires Built() && right0 < numRestarts
      ensures restarts <= |data| && !exists k :: left0 < k <= right0 && RestartKey(k).None?
    {
      forall k | left0 < k <= right0 ensures RestartKey(k).Some? {
        RestartKeyIs(k);
      }
    }

    /** From any position to the first entry at or past the target. */
    method Seek(target: Bytes, ghost i: nat) returns (ghost j: nat)
      requires At(i)
      modifies this
      ensures At(j) && FirstAtLeast(j, target)
    {
      ValidIs(i);
      var left, right, smaller := 0, numRestarts - 1, false;
      if IsValid() {
        if rank(key) < rank(target) {
          left, smaller := restartIndex, true;
        } else if rank(key) > rank(target) {
          right := restartIndex;
        } else {
          return i;
        }
      }
      ghost var left0 := left;
      RestartsSound(left, right);
      var bad;
      left, bad := SearchRestarts(left, right, target);
      MarkIf(bad);
      if !bad {
        SearchStarts(i, left0, left, target);
        if left == restartIndex && smaller {
          NextReady(i);
          BelowKey(i, target);
          j := ScanTo(i + 1, target);
        } else {
          SeekToRestartPoint(left);
          j := ScanTo(plan.rs[left], target);
        }
      }
    }
  }

  /** Building a block: every pair in order. */
  method Build(rank: Bytes -> real, interval: nat, keys: seq<Bytes>, vals: seq<Bytes>) returns (b: BlockBuilder)
    requires interval >= 1 && |vals| == |keys| && Increasing(rank, keys)
    requires forall i :: 0 <= i < |keys| ==> Small(|keys[i]|) && Small(|vals[i]|)
    ensures fresh(b) && b.Valid() && !b.finished && b.rank == rank && b.plan.keys == keys && b.plan.vals == vals
  {
    b := new BlockBuilder(interval, rank);
    var i := 0;
    while i < |keys|
      invariant 0 <= i <= |keys| && fresh(b) && b.Valid() && !b.finished && b.rank == rank
      invariant b.plan.keys == keys[..i] && b.plan.vals == vals[..i]
    {
      EmptyBuffer(b.buffer, b.plan);
      assert keys[..i + 1] == keys[..i] + [keys[i]] && vals[..i + 1] == vals[..i] + [vals[i]];
      b.Add(keys[i], vals[i]);
      i := i + 1;
    }
    assert keys[..i] == keys && vals[..i] == vals;
  }

  /** Reading all pairs of a block from the front. */
  method ReadAll(block: Bytes, rank: Bytes -> real, ghost plan: Plan) returns (keys: seq<Bytes>, vals: seq<Bytes>)
    requires BlockOk(block, plan) && Increasing(rank, plan.keys)
    ensures keys == plan.keys && vals == plan.vals
  {
    var it := new Iter(block, rank, plan);
    keys, vals := [], [];
    it.SeekToFirst(|plan.keys|);
    ghost var i := 0;
    it.ValidIs(i);
    while it.IsValid()
      invariant it.plan == plan && it.At(i) && keys == plan.keys[..i] && vals == plan.vals[..i] && (it.IsValid() <==> i < |plan.keys|)
      decreases |plan.keys| - i
    {
      it.ShowsPair(i);
      assert plan.keys[..i + 1] == plan.keys[..i] + [plan.keys[i]] && plan.vals[..i + 1] == plan.vals[..i] + [plan.vals[i]];
      keys, vals := keys + [it.key], vals + [it.Value()];
      it.Next(i);
      i := i + 1;
      it.ValidIs(i);
    }
    assert plan.keys[..i] == plan.keys && plan.vals[..i] == plan.vals;
  }

  /** Main result: a block of any restart interval gives back the very pairs it was built from, unless they outgrow 32-bit offsets. */
  method BuildAndRead(rank: Bytes -> real, interval: nat, keys: seq<Bytes>, vals: seq<Bytes>) returns (r: Option<(seq<Bytes>, seq<Bytes>)>)
    requires interval >= 1 && |vals| == |keys| && Increasing(rank, keys)
    requires forall i :: 0 <= i < |keys| ==> Small(|keys[i]|) && Small(|vals[i]|)
    ensures r.Some? ==> r.value == (keys, vals)
    ensures r.None? ==> !Small(Weight(keys, vals, |keys|) + 4 * |keys| + 8)
  {
    var b := Build(rank, interval, keys, vals);
    BlockBounded(b.buffer, b.plan);
    if |b.buffer| + 4 * |b.restarts| + 4 >= 0x1_0000_0000 {
      return None;
    }
    var block := b.Finish();
    var ks, vs := ReadAll(block, rank, b.plan);
    r := Some((ks, vs));
  }
}
