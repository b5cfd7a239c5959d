/**
  One shard of the cache (leveldb/util/cache.cc, LRUCache). Handles are numbered in the
  order of their insertion; the two circular lists are sequences, oldest entry first.
*/
module LruCache {
  import opened HandleTable

  // ---------------------------------------------------------------- lists of handles

  predicate NoDup(list: seq<nat>) {
    forall i, j :: 0 <= i < j < |list| ==> list[i] != list[j]
  }

  /** LRU_Remove: unlink a handle, keeping the order of the others. */
  function Drop(list: seq<nat>, h: nat): seq<nat> {
    if list == [] then [] else if list[0] == h then list[1..] else [list[0]] + Drop(list[1..], h)
  }

  lemma {:induction false} DropOk(list: seq<nat>, h: nat)
    requires NoDup(list)
    ensures NoDup(Drop(list, h)) && forall g :: g in Drop(list, h) <==> g in list && g != h
  {
    if list != [] {
      var rest := list[1..];
      DropOk(rest, h);
      assert list == [list[0]] + rest;
      assert list[0] !in rest;
    }
  }

  // ---------------------------------------------------------------- ages

  /** The list is in the order of the times given, all of them past. */
  ghost predicate Aged(list: seq<nat>, times: seq<nat>, clock: nat) {
    && (forall i :: 0 <= i < |list| ==> list[i] < |times| && times[list[i]] < clock)
    && (forall i, j :: 0 <= i < j < |list| ==> times[list[i]] < times[list[j]])
  }

  lemma {:induction false} AgedDrop(list: seq<nat>, times: seq<nat>, clock: nat, h: nat)
    requires Aged(list, times, clock)
    ensures Aged(Drop(list, h), times, clock) && forall g :: g in Drop(list, h) ==> g in list
  {
    if list != [] {
      var rest := list[1..];
      AgedDrop(rest, times, clock, h);
      if list[0] != h {
        var d := [list[0]] + Drop(rest, h);
        forall j | 0 < j < |d| ensures d[j] < |times| && times[list[0]] < times[d[j]] < clock {
          assert d[j] in Drop(rest, h) && d[j] in rest;
          var k :| 0 <= k < |rest| && rest[k] == d[j];
          assert list[k + 1] == d[j];
        }
      }
    }
  }

  /** What is released now is the youngest. */
  lemma AgedSnoc(list: seq<nat>, times: seq<nat>, clock: nat, h: nat, append: bool)
    requires Aged(list, times, clock) && h < |times| && h !in list
    ensures Aged(if append then list + [h] else list, times[h := clock], clock + 1)
  {
  }

  lemma AgedMore(list: seq<nat>, times: seq<nat>, clock: nat)
    requires Aged(list, times, clock)
    ensures Aged(list, times + [0], clock)
  {
  }

  lemma AgedParts(old0: seq<nat>, young: seq<nat>, times: seq<nat>, clock: nat)
    requires Aged(old0 + young, times, clock)
    ensures Aged(old0, times, clock) && Aged(young, times, clock)
    ensures forall g, u :: g in old0 && u in young ==> g < |times| && u < |times| && times[g] < times[u]
  {
    var list := old0 + young;
    assert forall i :: 0 <= i < |old0| ==> list[i] == old0[i];
    assert forall i :: 0 <= i < |young| ==> list[|old0| + i] == young[i];
  }

  // ---------------------------------------------------------------- entries

  datatype State = State(charges: seq<nat>, refs: seq<nat>, inCache: seq<bool>, lru: seq<nat>, inUse: seq<nat>, usage: int, deleted: seq<nat>)

  /** The charges of the cached entries together. */
  function Usage(charges: seq<nat>, inCache: seq<bool>): int
    requires |charges| == |inCache|
  {
    if inCache == [] then 0
    else
      var n := |inCache| - 1;
      Usage(charges[..n], inCache[..n]) + if inCache[n] then charges[n] else 0
  }

  lemma {:induction false} UsageDrops(charges: seq<nat>, inCache: seq<bool>, h: nat)
    requires |charges| == |inCache| && h < |inCache| && inCache[h]
    ensures Usage(charges, inCache[h := false]) == Usage(charges, inCache) - charges[h]
  {
    var n := |inCache| - 1;
    if h == n {
      assert inCache[h := false][..n] == inCache[..n];
    } else {
      UsageDrops(charges[..n], inCache[..n], h);
      assert inCache[h := false][..n] == inCache[..n][h := false];
    }
  }

  predicate Cached(inCache: seq<bool>, h: nat) {
    h < |inCache| && inCache[h]
  }

  /** The table holds exactly the cached entries. */
  ghost predicate Agrees(list: seq<seq<nat>>, inCache: seq<bool>) {
    forall h :: Has(list, h) <==> Cached(inCache, h)
  }

  /** The handle a table gives back, or none. */
  function Less(inCache: seq<bool>, h: int): seq<bool> {
    if 0 <= h < |inCache| then inCache[h := false] else inCache
  }

  lemma InsertAgrees(list: seq<seq<nat>>, list': seq<seq<nat>>, inCache: seq<bool>, replaced: int)
    requires Agrees(list, inCache) && -1 <= replaced < |inCache|
    requires forall g :: Has(list', g) <==> g == |inCache| || (Has(list, g) && g != replaced)
    ensures Agrees(list', Less(inCache + [true], replaced))
  {
    forall g ensures Has(list', g) <==> Cached(Less(inCache + [true], replaced), g) {
      assert Has(list, g) <==> Cached(inCache, g);
    }
  }

  lemma GrowAgrees(list: seq<seq<nat>>, inCache: seq<bool>)
    requires Agrees(list, inCache)
    ensures Agrees(list, inCache + [false])
  {
    forall g ensures Cached(inCache + [false], g) <==> Cached(inCache, g) {
    }
  }

  /** Entry h is cached and has the given standing among its references. */
  predicate OnLru(st: State, h: nat) {
    h < |st.refs| && h < |st.inCache| && st.inCache[h] && st.refs[h] == 1
  }

  predicate OnUse(st: State, h: nat) {
    h < |st.refs| && h < |st.inCache| && st.inCache[h] && st.refs[h] >= 2
  }

  predicate Gone(st: State, h: nat) {
    h < |st.refs| && st.refs[h] == 0
  }

  ghost predicate ListsOk(st: State) {
    && NoDup(st.lru) && (forall h :: h in st.lru <==> OnLru(st, h))
    && NoDup(st.inUse) && (forall h :: h in st.inUse <==> OnUse(st, h))
    && NoDup(st.deleted) && (forall h :: h in st.deleted <==> Gone(st, h))
  }

  predicate SizesOk(st: State, held: seq<nat>) {
    |st.charges| == |st.refs| && |st.inCache| == |st.refs| && |held| == |st.refs|
  }

  /** held: how many handles to each entry the clients have not released. */
  ghost predicate Ok(st: State, held: seq<nat>) {
    && SizesOk(st, held) && ListsOk(st) && st.usage == Usage(st.charges, st.inCache)
    && forall h :: 0 <= h < |st.refs| ==> st.refs[h] == held[h] + if st.inCache[h] then 1 else 0
  }

  // ---------------------------------------------------------------- references

  /** LRUCache::Ref */
  function Ref(st: State, h: nat): State
    requires h < |st.refs| && h < |st.inCache|
  {
    var st1 := if st.refs[h] == 1 && st.inCache[h] then st.(lru := Drop(st.lru, h), inUse := st.inUse + [h]) else st;
    st1.(refs := st1.refs[h := st1.refs[h] + 1])
  }

  /** LRUCache::Unref: the deleter runs when the last reference goes. */
  function Unref(st: State, h: nat): State
    requires h < |st.refs| && h < |st.inCache| && st.refs[h] > 0
  {
    var st1 := st.(refs := st.refs[h := st.refs[h] - 1]);
    if st1.refs[h] == 0 then st1.(deleted := st1.deleted + [h])
    else if st1.inCache[h] && st1.refs[h] == 1 then st1.(inUse := Drop(st1.inUse, h), lru := st1.lru + [h])
    else st1
  }

  /** LRUCache::FinishErase of an entry that has left the table. */
  function FinishErase(st: State, h: nat): State
    requires h < |st.refs| && h < |st.inCache| && h < |st.charges| && st.refs[h] > 0
  {
    Unref(st.(lru := Drop(st.lru, h), inUse := Drop(st.inUse, h), inCache := st.inCache[h := false], usage := st.usage - st.charges[h]), h)
  }

  lemma RefOk(st: State, held: seq<nat>, h: nat)
    requires Ok(st, held) && h < |st.refs| && st.refs[h] > 0
    ensures Ok(Ref(st, h), held[h := held[h] + 1])
  {
    var st' := Ref(st, h);
    DropOk(st.lru, h);
    assert st.inCache[h] && st.refs[h] == 1 ==> OnLru(st, h) && !OnUse(st, h);
    forall g ensures (g in st'.lru <==> OnLru(st', g)) && (g in st'.inUse <==> OnUse(st', g)) && (g in st'.deleted <==> Gone(st', g)) {
      assert g in st.lru <==> OnLru(st, g);
      assert g in st.inUse <==> OnUse(st, g);
      assert g in st.deleted <==> Gone(st, g);
    }
  }

  lemma UnrefOk(st: State, held: seq<nat>, h: nat)
    requires Ok(st, held) && h < |st.refs| && held[h] > 0
    ensures Ok(Unref(st, h), held[h := held[h] - 1])
  {
    var st' := Unref(st, h);
    DropOk(st.inUse, h);
    assert h !in st.deleted && (st.refs[h] == 2 ==> h !in st.lru);
    forall g ensures (g in st'.lru <==> OnLru(st', g)) && (g in st'.inUse <==> OnUse(st', g)) && (g in st'.deleted <==> Gone(st', g)) {
      assert g in st.lru <==> OnLru(st, g);
      assert g in st.inUse <==> OnUse(st, g);
      assert g in st.deleted <==> Gone(st, g);
    }
  }

  lemma EraseOk(st: State, held: seq<nat>, h: nat)
    requires Ok(st, held) && h < |st.refs| && st.inCache[h]
    ensures Ok(FinishErase(st, h), held) && FinishErase(st, h).inCache == st.inCache[h := false]
    ensures st.deleted <= FinishErase(st, h).deleted
  {
    var st' := FinishErase(st, h);
    DropOk(st.lru, h);
    DropOk(st.inUse, h);
    UsageDrops(st.charges, st.inCache, h);
    assert h !in st.deleted;
    forall g ensures (g in st'.lru <==> OnLru(st', g)) && (g in st'.inUse <==> OnUse(st', g)) && (g in st'.deleted <==> Gone(st', g)) {
      assert g in st.lru <==> OnLru(st, g);
      assert g in st.inUse <==> OnUse(st, g);
      assert g in st.deleted <==> Gone(st, g);
    }
  }

  /** A new entry, with the client's reference and, if the cache is on, the cache's own. */
  function NewEntry(st: State, charge: nat, cache: bool): State {
    var h := |st.refs|;
    st.(charges := st.charges + [charge], refs := st.refs + [if cache then 2 else 1], inCache := st.inCache + [cache],
        inUse := if cache then st.inUse + [h] else st.inUse, usage := st.usage + if cache then charge else 0)
  }

  lemma NewOk(st: State, held: seq<nat>, charge: nat, cache: bool)
    requires Ok(st, held)
    ensures Ok(NewEntry(st, charge, cache), held + [1])
  {
    var st', n := NewEntry(st, charge, cache), |st.refs|;
    assert st'.charges[..n] == st.charges && st'.inCache[..n] == st.inCache;
    assert n !in st.inUse by {
      assert n in st.inUse <==> OnUse(st, n);
    }
    forall g ensures (g in st'.lru <==> OnLru(st', g)) && (g in st'.inUse <==> OnUse(st', g)) && (g in st'.deleted <==> Gone(st', g)) {
      assert g in st.lru <==> OnLru(st, g);
      assert g in st.inUse <==> OnUse(st, g);
      assert g in st.deleted <==> Gone(st, g);
    }
  }

  /** What an erasure does to the lists and to the other entries. */
  lemma EraseParts(st: State, held: seq<nat>, h: nat)
    requires Ok(st, held) && h < |st.refs| && st.inCache[h]
    ensures var st' := FinishErase(st, h);
            && st'.lru == Drop(st.lru, h) && st'.charges == st.charges && st'.usage == st.usage - st.charges[h]
            && |st'.refs| == |st.refs| && (forall g :: 0 <= g < |st.refs| && g != h ==> st'.refs[g] == st.refs[g])
            && (h in st'.deleted <==> held[h] == 0)
  {
    EraseOk(st, held, h);
    var st' := FinishErase(st, h);
    assert h in st'.deleted <==> Gone(st', h);
  }

  function LessIn(list: seq<nat>, h: int): seq<nat> {
    if h >= 0 then Drop(list, h) else list
  }

  /** A new entry has come, perhaps in place of another. */
  ghost predicate Added(st: State, st': State, charge: nat, cache: bool, replaced: int) {
    && st'.inCache == Less(st.inCache + [cache], replaced) && st'.charges == st.charges + [charge]
    && st'.lru == LessIn(st.lru, replaced) && st.deleted <= st'.deleted
  }

  /** One entry has left the cache. */
  ghost predicate Erased(st: State, st': State, h: nat) {
    && h < |st.inCache| && st.inCache[h] && st'.inCache == st.inCache[h := false]
    && h < |st.charges| && st'.charges == st.charges && st'.usage == st.usage - st.charges[h]
    && st.deleted <= st'.deleted
  }

  /** Before the last of these evictions the cache was over its capacity. */
  predicate EvictedLast(st: State, evicted: seq<nat>, capacity: nat)
    requires evicted != []
  {
    var h := evicted[|evicted| - 1];
    h < |st.charges| && st.usage + st.charges[h] > capacity
  }

  lemma OthersDiffer(a: Arena, list: seq<seq<nat>>, h: nat)
    requires TableOk(a, list) && Has(list, h) && h < |a.keys|
    ensures forall g :: Has(list, g) && g != h ==> KeyOf(a, g) != a.keys[h]
  {
    forall g | Has(list, g) && g != h ensures KeyOf(a, g) != a.keys[h] {
      if KeyOf(a, g) == a.keys[h] {
        KeysUnique(a, list, g, h);
      }
    }
  }

  // ---------------------------------------------------------------- the cache

  class LRUCache {
    const capacity: nat
    const hash: Key -> nat
    const table: HandleTable
    var keys: seq<Key>
    var st: State
    ghost var held: seq<nat>
    ghost var times: seq<nat>    // when each entry was last released
    ghost var clock: nat

    ghost predicate TableAgrees()
      reads this, table
    {
      table.Valid(Arena(keys, hash)) && Agrees(table.list, st.inCache)
    }

    ghost predicate Valid()
      reads this, table
    {
      Ok(st, held) && |keys| == |st.refs| && TableAgrees() && InOrder()
    }

    /** The unused entries are in the order of their last release. */
    ghost predicate InOrder()
      reads this
    {
      |times| == |keys| && Aged(st.lru, times, clock)
    }

    constructor (capacity: nat, hash: Key -> nat)
      ensures Valid() && fresh(table) && this.capacity == capacity && this.hash == hash
      ensures keys == [] && held == [] && st.deleted == []
    {
      this.capacity, this.hash := capacity, hash;
      table := new HandleTable(Arena([], hash));
      keys, held, times, clock := [], [], [], 0;
      st := State([], [], [], [], [], 0, []);
      new;
      forall h ensures Has(table.list, h) <==> Cached(st.inCache, h) {
        assert !Has(table.list, h);
      }
    }

    /** The cached entry of the key gets one more client; nothing is found only if no entry of the key is cached. */
    method Lookup(key: Key) returns (h: int)
      requires Valid()
      modifies this`st, this`held
      ensures Valid()
      ensures h == -1 ==> st == old(st) && held == old(held) && forall g :: 0 <= g < |keys| && st.inCache[g] ==> keys[g] != key
      ensures h != -1 ==> 0 <= h < |keys| && keys[h] == key && st.inCache[h] && st == Ref(old(st), h)
      ensures h != -1 ==> held == old(held)[h := old(held)[h] + 1]
    {
      h := table.Lookup(Arena(keys, hash), key);
      if h != -1 {
        assert Has(table.list, h);
        RefOk(st, held, h);
        AgedDrop(st.lru, times, clock, h);
        st, held := Ref(st, h), held[h := held[h] + 1];
      } else {
        forall g | 0 <= g < |keys| && st.inCache[g] ensures keys[g] != key {
          assert Has(table.list, g);
        }
      }
    }

    /** A client gives back a handle it holds. */
    method Release(h: nat)
      requires Valid() && h < |held| && held[h] > 0
      modifies this`st, this`held, this`times, this`clock
      ensures Valid() && st == Unref(old(st), h) && held == old(held)[h := old(held)[h] - 1]
      ensures times == old(times)[h := old(clock)] && clock == old(clock) + 1
      ensures st.deleted == if old(held)[h] == 1 && !old(st).inCache[h] then old(st).deleted + [h] else old(st).deleted
    {
      UnrefOk(st, held, h);
      assert h in st.lru <==> OnLru(st, h);
      AgedSnoc(st.lru, times, clock, h, st.inCache[h] && st.refs[h] == 2);
      times, clock := times[h := clock], clock + 1;
      st, held := Unref(st, h), held[h := held[h] - 1];
    }

    /** Take the key's entry out of the cache: its clients keep it alive until they release it. */
    method Erase(key: Key) returns (h: int)
      requires Valid()
      modifies this`st, table
      ensures Valid()
      ensures h == -1 ==> st == old(st)
      ensures h != -1 ==> 0 <= h < |keys| && keys[h] == key && old(st).inCache[h] && st == FinishErase(old(st), h)
      ensures h != -1 ==> (h in st.deleted <==> held[h] == 0)
      ensures forall g :: 0 <= g < |keys| ==> (st.inCache[g] <==> old(st).inCache[g] && keys[g] != key)
    {
      var a := Arena(keys, hash);
      ghost var list0 := table.list;
      h := table.Remove(a, key);
      if h != -1 {
        EraseOk(st, held, h);
        EraseParts(st, held, h);
        AgedDrop(st.lru, times, clock, h);
        st := FinishErase(st, h);
      }
      forall g | 0 <= g < |keys| ensures st.inCache[g] <==> old(st).inCache[g] && keys[g] != key {
        assert Has(table.list, g) <==> Has(list0, g) && g != h;
        assert KeyOf(a, g) == keys[g];
        if h != -1 && keys[g] == key && Has(list0, g) {
          KeysUnique(a, list0, g, h);
        }
      }
    }

    /** Evict the entry that has been unused the longest. */
    method EvictOldest()
      requires Valid() && st.lru != []
      modifies this`st, table
      ensures Valid() && old(st).lru[0] < |keys| && Erased(old(st), st, old(st).lru[0])
      ensures st.lru == old(st).lru[1..]
    {
      var h := st.lru[0];
      assert h in st.lru;
      assert OnLru(st, h);
      var g := Erase(keys[h]);
      assert g == h;
      EraseParts(old(st), held, h);
      EraseOk(old(st), held, h);
    }

    /** Empty the cache of everything no client holds. */
    method Prune()
      requires Valid()
      modifies this`st, table
      ensures Valid() && st.lru == []
      ensures forall h :: 0 <= h < |keys| ==> (st.inCache[h] <==> old(st).inCache[h] && held[h] > 0)
      ensures old(st).deleted <= st.deleted
    {
      while st.lru != []
        invariant Valid() && old(st).deleted <= st.deleted
        invariant forall h :: 0 <= h < |keys| && st.inCache[h] ==> old(st).inCache[h]
        invariant forall h :: 0 <= h < |keys| && old(st).inCache[h] && held[h] > 0 ==> st.inCache[h]
        decreases |st.lru|
      {
        assert st.lru[0] in st.lru;
        assert OnLru(st, st.lru[0]);
        EvictOldest();
      }
      forall h | 0 <= h < |keys| && st.inCache[h] ensures held[h] > 0 {
        assert h in st.lru <==> OnLru(st, h);
      }
    }

    /** Evict, the longest unused first, while the cache is over its capacity. */
    method EvictExcess() returns (ghost evicted: seq<nat>)
      requires Valid()
      modifies this`st, table
      ensures Valid() && evicted + st.lru == old(st).lru && (st.usage <= capacity || st.lru == [])
      ensures st.charges == old(st).charges && old(st).deleted <= st.deleted
      ensures evicted != [] ==> EvictedLast(st, evicted, capacity)
      ensures forall g :: 0 <= g < |keys| ==> (st.inCache[g] <==> old(st).inCache[g] && g !in evicted)
    {
      evicted := [];
      while st.usage > capacity && st.lru != []
        invariant Valid() && evicted + st.lru == old(st).lru
        invariant st.charges == old(st).charges && old(st).deleted <= st.deleted
        invariant evicted != [] ==> EvictedLast(st, evicted, capacity)
        invariant forall g :: 0 <= g < |keys| ==> (st.inCache[g] <==> old(st).inCache[g] && g !in evicted)
        decreases |st.lru|
      {
        ghost var h, st0 := st.lru[0], st;
        EvictOldest();
        evicted := evicted + [h];
        assert st0.lru == [h] + st.lru;
      }
    }

    /** A new entry, not yet in the table. */
    method NewHandle(key: Key, charge: nat) returns (h: nat)
      requires Valid()
      modifies this`keys, this`st, this`held, this`times
      ensures h == |old(keys)| && keys == old(keys) + [key] && held == old(held) + [1] && |keys| == |st.refs|
      ensures InOrder() && times == old(times) + [0] && Ok(st, held) && Added(old(st), st, charge, capacity > 0, -1)
      ensures table.Valid(Arena(keys, hash)) && Agrees(table.list, old(st).inCache)
    {
      h := |keys|;
      TableLonger(Arena(keys, hash), Arena(keys + [key], hash), table.list);
      NewOk(st, held, charge, capacity > 0);
      AgedMore(st.lru, times, clock);
      times := times + [0];
      keys, held, st := keys + [key], held + [1], NewEntry(st, charge, capacity > 0);
    }

    /** Put a handle into the table, in place of the one of its key. */
    method Link(h: nat, ghost inCache: seq<bool>) returns (replaced: int)
      requires table.Valid(Arena(keys, hash)) && h == |inCache| < |keys| && Agrees(table.list, inCache)
      modifies table
      ensures table.Valid(Arena(keys, hash)) && -1 <= replaced < h && Agrees(table.list, Less(inCache + [true], replaced))
      ensures replaced != -1 ==> inCache[replaced] && keys[replaced] == keys[h]
      ensures forall g :: 0 <= g < h && Less(inCache + [true], replaced)[g] ==> keys[g] != keys[h]
    {
      var a := Arena(keys, hash);
      ghost var list0 := table.list;
      assert !Cached(inCache, h);
      replaced := table.Insert(a, h);
      assert replaced != -1 ==> Cached(inCache, replaced);
      InsertAgrees(list0, table.list, inCache, replaced);
      OthersDiffer(a, table.list, h);
      forall g | 0 <= g < h && Less(inCache + [true], replaced)[g] ensures keys[g] != keys[h] {
        assert Cached(Less(inCache + [true], replaced), g);
        assert KeyOf(a, g) == keys[g];
      }
    }

    /** A new entry for the key, in place of the one cached for it, if any. */
    method Add(key: Key, charge: nat) returns (h: nat, replaced: int)
      requires Valid()
      modifies this`keys, this`st, this`held, this`times, table
      ensures Valid() && h == |old(keys)| && keys == old(keys) + [key] && held == old(held) + [1] && times == old(times) + [0]
      ensures Added(old(st), st, charge, capacity > 0, replaced)
      ensures replaced == -1 || (0 <= replaced < h && old(st).inCache[replaced] && keys[replaced] == key)
      ensures capacity > 0 ==> forall g :: 0 <= g < h && st.inCache[g] ==> keys[g] != key
    {
      ghost var inCache := st.inCache;
      h := NewHandle(key, charge);
      assert keys[h] == key && st.inCache == inCache + [capacity > 0];
      if capacity > 0 {
        replaced := Link(h, inCache);
        Replace(replaced);
        assert st.inCache == Less(inCache + [true], replaced);
      } else {
        replaced := -1;
        GrowAgrees(table.list, old(st).inCache);
      }
    }

    /** FinishErase of what the table gave back. */
    method Replace(replaced: int)
      requires Ok(st, held) && InOrder() && (replaced == -1 || (0 <= replaced < |st.refs| && st.inCache[replaced]))
      modifies this`st
      ensures InOrder() && |st.refs| == |old(st).refs| && Ok(st, held) && st.inCache == Less(old(st).inCache, replaced) && st.charges == old(st).charges
      ensures st.lru == LessIn(old(st).lru, replaced) && old(st).deleted <= st.deleted
    {
      if replaced != -1 {
        EraseOk(st, held, replaced);
        EraseParts(st, held, replaced);
        AgedDrop(st.lru, times, clock, replaced);
        st := FinishErase(st, replaced);
      }
    }

    /**
      Insert: the client holds the new entry; the cache has it unless it is switched off, and
      holds no more than its capacity unless everything in it is in use. What was in use under
      another key stays; what goes is the replaced entry and the longest unused ones, released
      before every unused entry that stays, and of those no more than necessary.
    */
    method Insert(key: Key, charge: nat) returns (h: nat, replaced: int, ghost evicted: seq<nat>)
      requires Valid()
      modifies this`keys, this`st, this`held, this`times, table
      ensures Valid() && h == |old(keys)| && keys == old(keys) + [key] && held == old(held) + [1] && times == old(times) + [0]
      ensures forall g, u :: g in evicted && u in st.lru ==> g < |times| && u < |times| && times[g] < times[u]
      ensures st.inCache[h] == (capacity > 0) && (st.usage <= capacity || st.lru == [])
      ensures replaced == -1 || (0 <= replaced < h && old(st).inCache[replaced] && keys[replaced] == key)
      ensures capacity > 0 ==> forall g :: 0 <= g < h && st.inCache[g] ==> keys[g] != key
      ensures forall g :: 0 <= g < h ==> (st.inCache[g] <==> old(st).inCache[g] && g != replaced && g !in evicted)
      ensures forall g :: g in evicted ==> g < h && held[g] == 0
      ensures evicted + st.lru == LessIn(old(st).lru, replaced) && st.charges == old(st).charges + [charge]
      ensures evicted != [] ==> EvictedLast(st, evicted, capacity)
      ensures old(st).deleted <= st.deleted
    {
      h, replaced := Add(key, charge);
      ghost var st1 := st;
      evicted := EvictExcess();
      AgedParts(evicted, st.lru, times, clock);
      forall g | g in evicted ensures g < h && held[g] == 0 {
        assert g in st1.lru;
        assert OnLru(st1, g);
      }
    }
  }
}
