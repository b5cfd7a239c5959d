/**
  The skip list of the memtable (leveldb/db/skiplist.h). Nodes are numbered in the order
  of their allocation, the head being node 0; a link is a node number, or -1 for none.
*/
module SkipList {
  /** A key, by its rank in the comparator's order. */
  type Key = real

  const MaxHeight: nat := 12

  /** The memory of the list, and for every level the nodes on it, in order, without the head. */
  datatype Skip = Skip(keys: seq<Key>, next: seq<seq<int>>, maxHeight: nat, lists: seq<seq<nat>>)

  // ---------------------------------------------------------------- one level

  /** The node before place p of a level: the head, or the node at place p - 1. */
  function NodeAt(list: seq<nat>, p: nat): nat {
    if p == 0 || p > |list| then 0 else list[p - 1]
  }

  /** What a link from place p of a level must be. */
  function LinkAt(list: seq<nat>, p: nat): int {
    if p < |list| then list[p] else -1
  }

  predicate HasLink(next: seq<seq<int>>, n: nat, l: nat) {
    n < |next| && l < |next[n]|
  }

  /** Following the links of level l from the head visits exactly these nodes. */
  predicate Linked(next: seq<seq<int>>, list: seq<nat>, l: nat) {
    forall p :: 0 <= p <= |list| ==> HasLink(next, NodeAt(list, p), l) && next[NodeAt(list, p)][l] == LinkAt(list, p)
  }

  /** Allocated nodes in increasing order of their keys. */
  predicate Sorted(keys: seq<Key>, list: seq<nat>) {
    && (forall p :: 0 <= p < |list| ==> 0 < list[p] < |keys|)
    && (forall p, q :: 0 <= p < q < |list| ==> keys[list[p]] < keys[list[q]])
  }

  predicate LevelOk(s: Skip, l: nat) {
    l < |s.lists| && Linked(s.next, s.lists[l], l) && Sorted(s.keys, s.lists[l])
  }

  /** Every node of a level is on the level below. */
  predicate SubLevel(s: Skip, l: nat) {
    l + 1 < |s.lists| && forall n :: n in s.lists[l + 1] ==> n in s.lists[l]
  }

  predicate Valid(s: Skip) {
    && |s.lists| == MaxHeight && |s.next| == |s.keys| && 1 <= s.maxHeight <= MaxHeight
    && (forall l :: 0 <= l < MaxHeight ==> LevelOk(s, l))
    && (forall l :: 0 <= l < MaxHeight - 1 ==> SubLevel(s, l))
    && (forall l :: s.maxHeight <= l < MaxHeight ==> s.lists[l] == [])
  }

  function KeysOf(s: Skip): set<Key>
    requires Valid(s)
  {
    assert LevelOk(s, 0);
    set n | n in s.lists[0] :: s.keys[n]
  }

  // ---------------------------------------------------------------- places

  /** Place p of level l separates the keys below the target from the others. */
  predicate Splits(s: Skip, l: nat, p: nat, target: Key) {
    && l < |s.lists| && p <= |s.lists[l]| && Sorted(s.keys, s.lists[l])
    && (forall q :: 0 <= q < p ==> s.keys[s.lists[l][q]] < target)
    && (forall q :: p <= q < |s.lists[l]| ==> s.keys[s.lists[l][q]] >= target)
  }

  /** Node n, the head or a node of level l with a key below the target, stands before some place of the level. */
  lemma PlaceOf(s: Skip, l: nat, n: nat) returns (p: nat)
    requires Valid(s) && l < MaxHeight && (n == 0 || n in s.lists[l])
    ensures p <= |s.lists[l]| && NodeAt(s.lists[l], p) == n
  {
    if n == 0 {
      p := 0;
    } else {
      var q :| 0 <= q < |s.lists[l]| && s.lists[l][q] == n;
      p := q + 1;
    }
  }

  // ---------------------------------------------------------------- inserting on one level

  function Spliced(list: seq<nat>, p: nat, x: nat): seq<nat>
    requires p <= |list|
  {
    list[..p] + [x] + list[p..]
  }

  /** The two stores that publish node x on level l behind place p. */
  function Relink(next: seq<seq<int>>, prev: nat, x: nat, l: nat): seq<seq<int>>
    requires HasLink(next, prev, l) && HasLink(next, x, l) && prev != x
  {
    var next1 := next[x := next[x][l := next[prev][l]]];
    next1[prev := next1[prev][l := x]]
  }

  lemma RelinkAt(next: seq<seq<int>>, prev: nat, x: nat, l: nat, n: nat, m: nat)
    requires HasLink(next, prev, l) && HasLink(next, x, l) && prev != x && HasLink(next, n, m)
    ensures var next' := Relink(next, prev, x, l);
            && |next'| == |next| && HasLink(next', n, m)
            && next'[n][m] == if m == l && n == x then next[prev][l] else if m == l && n == prev then x else next[n][m]
  {
  }

  /** Other levels do not notice. */
  lemma RelinkOther(next: seq<seq<int>>, prev: nat, x: nat, l: nat, list: seq<nat>, m: nat)
    requires HasLink(next, prev, l) && HasLink(next, x, l) && prev != x && m != l && Linked(next, list, m)
    ensures Linked(Relink(next, prev, x, l), list, m)
  {
    forall p | 0 <= p <= |list|
      ensures HasLink(Relink(next, prev, x, l), NodeAt(list, p), m) && Relink(next, prev, x, l)[NodeAt(list, p)][m] == LinkAt(list, p)
    {
      RelinkAt(next, prev, x, l, NodeAt(list, p), m);
    }
  }

  /** On its level the new node takes its place. */
  lemma RelinkOwn(keys: seq<Key>, next: seq<seq<int>>, list: seq<nat>, l: nat, p: nat, x: nat)
    requires Linked(next, list, l) && Sorted(keys, list) && p <= |list| && HasLink(next, x, l) && x != 0 && x !in list
    ensures HasLink(next, NodeAt(list, p), l) && NodeAt(list, p) != x
    ensures Linked(Relink(next, NodeAt(list, p), x, l), Spliced(list, p, x), l)
  {
    var prev, list' := NodeAt(list, p), Spliced(list, p, x);
    var next' := Relink(next, prev, x, l);
    forall q | 0 <= q <= |list'|
      ensures HasLink(next', NodeAt(list', q), l) && next'[NodeAt(list', q)][l] == LinkAt(list', q)
    {
      if q <= p {
        assert NodeAt(list', q) == NodeAt(list, q);
        SamePlace(keys, list, q, p);
        RelinkAt(next, prev, x, l, NodeAt(list, q), l);
      } else if q == p + 1 {
        assert NodeAt(list', q) == x;
        RelinkAt(next, prev, x, l, x, l);
      } else {
        assert NodeAt(list', q) == NodeAt(list, q - 1);
        SamePlace(keys, list, q - 1, p);
        RelinkAt(next, prev, x, l, NodeAt(list, q - 1), l);
      }
    }
  }

  /** Different places have different nodes before them. */
  lemma SamePlace(keys: seq<Key>, list: seq<nat>, p: nat, q: nat)
    requires Sorted(keys, list) && p <= |list| && q <= |list|
    ensures NodeAt(list, p) == NodeAt(list, q) <==> p == q
  {
  }

  lemma SplicedSorted(keys: seq<Key>, list: seq<nat>, p: nat, x: nat)
    requires Sorted(keys, list) && p <= |list| && 0 < x < |keys|
    requires forall q :: 0 <= q < p ==> keys[list[q]] < keys[x]
    requires forall q :: p <= q < |list| ==> keys[list[q]] > keys[x]
    ensures Sorted(keys, Spliced(list, p, x))
  {
  }

  // ---------------------------------------------------------------- the steps of an insertion

  /** What every step of the writer keeps for readers: nodes and keys stay, levels only gain nodes. */
  predicate Grows(s: Skip, s': Skip) {
    && s.keys <= s'.keys && |s.lists| == |s'.lists|
    && forall l, n :: 0 <= l < |s.lists| && n in s.lists[l] ==> n in s'.lists[l]
  }

  /** One link is overwritten. */
  predicate LinkStored(next: seq<seq<int>>, next': seq<seq<int>>, n: nat, l: nat) {
    HasLink(next, n, l) && n < |next'| && l < |next'[n]| && next' == next[n := next[n][l := next'[n][l]]]
  }

  /** The memory changes by one store that others can see: the height, or one link; or by a new node that nothing leads to. */
  ghost predicate OneStore(s: Skip, s': Skip) {
    || (s'.keys == s.keys && s'.next == s.next)
    || (s'.maxHeight == s.maxHeight && s.keys <= s'.keys && |s'.keys| == |s.keys| + 1 && s.next <= s'.next && |s'.next| == |s.next| + 1 && s'.lists == s.lists)
    || (s'.maxHeight == s.maxHeight && s'.keys == s.keys && exists n, l :: LinkStored(s.next, s'.next, n, l))
  }

  /** Raising the height. */
  function Higher(s: Skip, height: nat): Skip {
    s.(maxHeight := if height > s.maxHeight then height else s.maxHeight)
  }

  lemma HigherOk(s: Skip, height: nat)
    requires Valid(s) && 1 <= height <= MaxHeight
    ensures Valid(Higher(s, height)) && Grows(s, Higher(s, height)) && OneStore(s, Higher(s, height)) && KeysOf(Higher(s, height)) == KeysOf(s)
  {
    var s' := Higher(s, height);
    forall l | 0 <= l < MaxHeight ensures LevelOk(s', l) {
      assert LevelOk(s, l);
    }
    forall l | 0 <= l < MaxHeight - 1 ensures SubLevel(s', l) {
      assert SubLevel(s, l);
    }
  }

  /** Allocating a node and raising the height: nothing is linked yet. */
  function Allocate(s: Skip, key: Key, height: nat): Skip {
    Skip(s.keys + [key], s.next + [seq(height, i => -1)], if height > s.maxHeight then height else s.maxHeight, s.lists)
  }

  lemma AllocateOk(s: Skip, key: Key, height: nat)
    requires Valid(s) && 1 <= height <= MaxHeight
    ensures Valid(Allocate(s, key, height)) && Grows(Higher(s, height), Allocate(s, key, height)) && OneStore(Higher(s, height), Allocate(s, key, height))
  {
    var s' := Allocate(s, key, height);
    forall l | 0 <= l < MaxHeight ensures LevelOk(s', l) {
      assert LevelOk(s, l);
      LinkedLonger(s.next, s'.next, s.lists[l], l);
    }
    forall l | 0 <= l < MaxHeight - 1 ensures SubLevel(s', l) {
      assert SubLevel(s, l);
    }
  }

  lemma LinkedLonger(next: seq<seq<int>>, next': seq<seq<int>>, list: seq<nat>, l: nat)
    requires Linked(next, list, l) && next <= next'
    ensures Linked(next', list, l)
  {
    forall p | 0 <= p <= |list| ensures HasLink(next', NodeAt(list, p), l) && next'[NodeAt(list, p)][l] == LinkAt(list, p) {
      assert HasLink(next, NodeAt(list, p), l);
    }
  }

  /** The new node's own link on a level it is not on yet: nobody can see it. */
  function OwnLink(s: Skip, l: nat, prev: nat, x: nat): Skip
    requires HasLink(s.next, prev, l) && HasLink(s.next, x, l)
  {
    s.(next := s.next[x := s.next[x][l := s.next[prev][l]]])
  }

  lemma OwnLinkOk(s: Skip, l: nat, prev: nat, x: nat)
    requires Valid(s) && l < MaxHeight && HasLink(s.next, prev, l) && HasLink(s.next, x, l) && x != 0 && x !in s.lists[l]
    ensures Valid(OwnLink(s, l, prev, x)) && Grows(s, OwnLink(s, l, prev, x)) && OneStore(s, OwnLink(s, l, prev, x))
  {
    var s' := OwnLink(s, l, prev, x);
    assert LinkStored(s.next, s'.next, x, l);
    forall m | 0 <= m < MaxHeight ensures LevelOk(s', m) {
      assert LevelOk(s, m);
      forall p | 0 <= p <= |s.lists[m]|
        ensures HasLink(s'.next, NodeAt(s.lists[m], p), m) && s'.next[NodeAt(s.lists[m], p)][m] == LinkAt(s.lists[m], p)
      {
        assert HasLink(s.next, NodeAt(s.lists[m], p), m);
      }
    }
    forall m | 0 <= m < MaxHeight - 1 ensures SubLevel(s', m) {
      assert SubLevel(s, m);
    }
  }

  /** Node x may be published behind place p of level l. */
  predicate Publishable(s: Skip, l: nat, p: nat, x: nat) {
    && l < s.maxHeight && l < |s.lists| && p <= |s.lists[l]| && 0 < x < |s.keys| && HasLink(s.next, x, l) && x !in s.lists[l]
    && Splits(s, l, p, s.keys[x]) && (forall q :: p <= q < |s.lists[l]| ==> s.keys[s.lists[l][q]] != s.keys[x])
    && (l > 0 ==> x in s.lists[l - 1])
  }

  /** Publishing node x on level l. */
  function Publish(s: Skip, l: nat, p: nat, x: nat): Skip
    requires Valid(s) && Publishable(s, l, p, x)
  {
    assert LevelOk(s, l);
    RelinkOwn(s.keys, s.next, s.lists[l], l, p, x);
    s.(next := Relink(s.next, NodeAt(s.lists[l], p), x, l), lists := s.lists[l := Spliced(s.lists[l], p, x)])
  }

  /** After each publication every level is still linked and sorted, and lies within the level below. */
  lemma PublishOk(s: Skip, l: nat, p: nat, x: nat)
    requires Valid(s) && Publishable(s, l, p, x)
    ensures Valid(Publish(s, l, p, x)) && Grows(s, Publish(s, l, p, x))
  {
    var s', list := Publish(s, l, p, x), s.lists[l];
    assert LevelOk(s, l);
    RelinkOwn(s.keys, s.next, list, l, p, x);
    SplicedSorted(s.keys, list, p, x);
    SplicedHas(list, p, x);
    forall m | 0 <= m < MaxHeight ensures LevelOk(s', m) {
      assert LevelOk(s, m);
      if m != l {
        RelinkOther(s.next, NodeAt(list, p), x, l, s.lists[m], m);
      }
    }
    forall m | 0 <= m < MaxHeight - 1 ensures SubLevel(s', m) {
      assert SubLevel(s, m);
    }
  }

  lemma SplicedHas(list: seq<nat>, p: nat, x: nat)
    requires p <= |list|
    ensures forall n :: n in Spliced(list, p, x) <==> n in list || n == x
  {
    assert list == list[..p] + list[p..];
  }

  // ---------------------------------------------------------------- searching

  /** The node that a search for the target should return: the first at or past it. */
  ghost predicate Found(s: Skip, target: Key, node: int) {
    exists p :: Splits(s, 0, p, target) && node == LinkAt(s.lists[0], p)
  }

  /** The last node below the target, or the head. */
  ghost predicate FoundBefore(s: Skip, target: Key, node: nat) {
    exists p :: Splits(s, 0, p, target) && node == NodeAt(s.lists[0], p)
  }

  /** All before place p of level l is below the target. */
  predicate Below(s: Skip, l: nat, p: nat, target: Key) {
    && l < |s.lists| && p <= |s.lists[l]| && Sorted(s.keys, s.lists[l])
    && forall q :: 0 <= q < p ==> s.keys[s.lists[l][q]] < target
  }

  /** A node below the target, found on one level, gives a place on it. */
  lemma BelowPlace(s: Skip, l: nat, n: nat, target: Key) returns (p: nat)
    requires Valid(s) && l < MaxHeight && (n == 0 || (n in s.lists[l] && n < |s.keys| && s.keys[n] < target))
    ensures Below(s, l, p, target) && NodeAt(s.lists[l], p) == n
  {
    assert LevelOk(s, l);
    p := PlaceOf(s, l, n);
  }

  /** Where a link leads, and what it says about the place. */
  lemma FollowLink(s: Skip, l: nat, p: nat, target: Key)
    requires Valid(s) && Below(s, l, p, target)
    ensures HasLink(s.next, NodeAt(s.lists[l], p), l)
    ensures var nx := s.next[NodeAt(s.lists[l], p)][l];
            && nx == LinkAt(s.lists[l], p) && -1 <= nx < |s.keys|
            && (if nx != -1 && s.keys[nx] < target then Below(s, l, p + 1, target) && NodeAt(s.lists[l], p + 1) == nx
                else Splits(s, l, p, target))
  {
    assert LevelOk(s, l);
  }

  class SkipList {
    var keys: seq<Key>
    var next: seq<seq<int>>
    var maxHeight: nat
    ghost var lists: seq<seq<nat>>

    ghost function View(): Skip
      reads this
    {
      Skip(keys, next, maxHeight, lists)
    }

    constructor ()
      ensures Valid(View()) && KeysOf(View()) == {}
    {
      keys := [0.0];
      next := [seq(MaxHeight, i => -1)];
      maxHeight := 1;
      lists := seq(MaxHeight, i => []);
    }

    /** The first node at or past the key, and for every level the node before its place. */
    method FindGreaterOrEqual(key: Key) returns (node: int, prev: seq<nat>, ghost places: seq<nat>)
      requires Valid(View())
      ensures |prev| == maxHeight && |places| == maxHeight && Found(View(), key, node) && node == LinkAt(lists[0], places[0])
      ensures forall l :: 0 <= l < maxHeight ==> Splits(View(), l, places[l], key) && prev[l] == NodeAt(lists[l], places[l])
    {
      var x, level := 0, maxHeight - 1;
      prev, places := seq(maxHeight, i => 0), seq(maxHeight, i => 0);
      assert LevelOk(View(), level);
      ghost var p := 0;
      while true
        invariant 0 <= level < maxHeight && Below(View(), level, p, key) && NodeAt(lists[level], p) == x
        invariant |prev| == maxHeight && |places| == maxHeight
        invariant forall l :: level < l < maxHeight ==> Splits(View(), l, places[l], key) && prev[l] == NodeAt(lists[l], places[l])
        decreases level, |lists[level]| - p
      {
        FollowLink(View(), level, p, key);
        var nx := next[x][level];
        if nx != -1 && keys[nx] < key {
          x, p := nx, p + 1;
        } else {
          prev, places := prev[level := x], places[level := p];
          if level == 0 {
            return nx, prev, places;
          }
          LevelDown(View(), level, p, key);
          level := level - 1;
          p := BelowPlace(View(), level, x, key);
        }
      }
    }

    method Contains(key: Key) returns (found: bool)
      requires Valid(View())
      ensures found <==> key in KeysOf(View())
    {
      var x, _, places := FindGreaterOrEqual(key);
      FirstDecides(View(), places[0], key);
      found := x != -1 && keys[x] == key;
    }

    /** The last node below the key; the head if there is none. */
    method FindLessThan(key: Key) returns (node: nat, ghost p: nat)
      requires Valid(View())
      ensures Splits(View(), 0, p, key) && node == NodeAt(lists[0], p)
    {
      var x, level := 0, maxHeight - 1;
      assert LevelOk(View(), level);
      p := 0;
      while true
        invariant 0 <= level < maxHeight && Below(View(), level, p, key) && NodeAt(lists[level], p) == x
        decreases level, |lists[level]| - p
      {
        FollowLink(View(), level, p, key);
        var nx := next[x][level];
        if nx == -1 || keys[nx] >= key {
          if level == 0 {
            return x, p;
          }
          LevelDown(View(), level, p, key);
          level := level - 1;
          p := BelowPlace(View(), level, x, key);
        } else {
          x, p := nx, p + 1;
        }
      }
    }

    /** The last node of the list; the head if it is empty. */
    method FindLast() returns (node: nat)
      requires Valid(View())
      ensures node == NodeAt(lists[0], |lists[0]|)
    {
      var x, level := 0, maxHeight - 1;
      ghost var p := 0;
      while true
        invariant 0 <= level < maxHeight && 0 <= p <= |lists[level]| && NodeAt(lists[level], p) == x
        decreases level, |lists[level]| - p
      {
        assert LevelOk(View(), level);
        assert HasLink(next, NodeAt(lists[level], p), level);
        var nx := next[x][level];
        if nx == -1 {
          if level == 0 {
            return x;
          }
          assert SubLevel(View(), level - 1);
          level := level - 1;
          p := PlaceOf(View(), level, x);
        } else {
          x, p := nx, p + 1;
        }
      }
    }

    /** Publish node x on level i: its own link first, then the link to it. */
    method PublishLevel(x: nat, i: nat, prev: nat, ghost p: nat) returns (ghost mid: Skip)
      requires Valid(View()) && Publishable(View(), i, p, x) && prev == NodeAt(lists[i], p)
      modifies this`next, this`lists
      ensures Valid(View()) && View() == Publish(old(View()), i, p, x)
      ensures Valid(mid) && Grows(old(View()), mid) && Grows(mid, View()) && mid.lists == old(lists) && mid.keys == keys
      ensures OneStore(old(View()), mid) && OneStore(mid, View())
    {
      assert LevelOk(View(), i);
      RelinkOwn(keys, next, lists[i], i, p, x);
      OwnLinkOk(View(), i, prev, x);
      PublishOk(View(), i, p, x);
      next := next[x := next[x][i := next[prev][i]]];
      mid := View();
      next := next[prev := next[prev][i := x]];
      assert LinkStored(mid.next, next, prev, i);
      lists := lists[i := Spliced(lists[i], p, x)];
    }

    /** Publish node x on all its levels, the lowest first. */
    method PublishAll(x: nat, height: nat, prev: seq<nat>, ghost places: seq<nat>, ghost before: seq<Skip>) returns (ghost trace: seq<Skip>)
      requires Valid(View()) && 1 <= height <= maxHeight && height <= |prev| && height <= |places| && 0 < x < |keys|
      requires forall l :: 0 <= l < height ==> Pending(View(), l, places[l], x) && prev[l] == NodeAt(lists[l], places[l])
      requires Trace(before) && Stores(before) && before != [] && before[|before| - 1] == View()
      modifies this`next, this`lists
      ensures Valid(View()) && KeysOf(View()) == old(KeysOf(View())) + {keys[x]}
      ensures Trace(trace) && Stores(trace) && before <= trace && trace != [] && trace[|trace| - 1] == View()
      ensures forall k :: |before| <= k < |trace| ==> Valid(trace[k]) && (KeysOf(trace[k]) == old(KeysOf(View())) || KeysOf(trace[k]) == old(KeysOf(View())) + {keys[x]})
    {
      ghost var set0 := KeysOf(View());
      trace := before;
      var i := 0;
      while i < height
        invariant 0 <= i <= height && Valid(View()) && KeysOf(View()) == (if i == 0 then set0 else set0 + {keys[x]})
        invariant (i > 0 ==> x in lists[i - 1]) && keys == old(keys) && maxHeight == old(maxHeight)
        invariant forall l :: i <= l < height ==> Pending(View(), l, places[l], x) && prev[l] == NodeAt(lists[l], places[l])
        invariant Trace(trace) && Stores(trace) && before <= trace && trace[|trace| - 1] == View()
        invariant forall k :: |before| <= k < |trace| ==> Valid(trace[k]) && (KeysOf(trace[k]) == set0 || KeysOf(trace[k]) == set0 + {keys[x]})
      {
        ghost var s := View();
        assert Publishable(s, i, places[i], x);
        AllStayPending(s, i, places, x, height);
        SplicedHas(s.lists[i], places[i], x);
        var mid := PublishLevel(x, i, prev[i], places[i]);
        PublishedKeys(s, mid, View(), i, places[i], x);
        TraceTwo(trace, mid, View());
        trace := trace + [mid] + [View()];
        i := i + 1;
      }
    }

    /** Levels the list does not have yet start at the head. */
    method Raise(prev: seq<nat>, height: nat, ghost places: seq<nat>, key: Key) returns (prev': seq<nat>, ghost places': seq<nat>)
      requires Valid(View()) && |prev| == maxHeight && |places| == maxHeight && 1 <= height <= MaxHeight
      requires forall l :: 0 <= l < maxHeight ==> Splits(View(), l, places[l], key) && prev[l] == NodeAt(lists[l], places[l])
      ensures |prev'| >= height && |places'| == |prev'| <= MaxHeight
      ensures forall l :: 0 <= l < |prev'| ==> Splits(View(), l, places'[l], key) && prev'[l] == NodeAt(lists[l], places'[l])
    {
      prev', places' := prev, places;
      while |prev'| < height
        invariant maxHeight <= |prev'| == |places'| && (|prev'| <= height || |prev'| == maxHeight)
        invariant forall l :: 0 <= l < |prev'| ==> Splits(View(), l, places'[l], key) && prev'[l] == NodeAt(lists[l], places'[l])
      {
        assert lists[|prev'|] == [];
        prev', places' := prev' + [0], places' + [0];
      }
    }

    /** Allocate a node and raise the height of the list to it. */
    method NewNode(key: Key, height: nat) returns (x: nat)
      modifies this`keys, this`next, this`maxHeight
      ensures View() == Allocate(old(View()), key, height) && x == |old(keys)|
    {
      if height > maxHeight {
        maxHeight := height;
      }
      x := |keys|;
      keys, next := keys + [key], next + [seq(height, i => -1)];
    }

    /** Allocate a node and publish it behind the given places. */
    method LinkNode(key: Key, height: nat, prev: seq<nat>, ghost places: seq<nat>) returns (ghost trace: seq<Skip>)
      requires Valid(View()) && key !in KeysOf(View()) && 1 <= height <= MaxHeight && height <= |prev| && height <= |places|
      requires forall l :: 0 <= l < height ==> Splits(View(), l, places[l], key) && prev[l] == NodeAt(lists[l], places[l])
      modifies this
      ensures Valid(View()) && KeysOf(View()) == old(KeysOf(View())) + {key}
      ensures Trace(trace) && Stores(trace) && trace != [] && trace[0] == old(View()) && trace[|trace| - 1] == View()
      ensures OldOrNew(trace, old(KeysOf(View())), key)
    {
      ghost var s0 := View();
      AllocateOk(s0, key, height);
      AllocatedKeys(s0, key, height);
      forall l | 0 <= l < height ensures Pending(Allocate(s0, key, height), l, places[l], |s0.keys|) {
        AllocatedPending(s0, key, height, l, places[l]);
      }
      var x := NewNode(key, height);
      HigherOk(s0, height);
      ghost var before := [s0, Higher(s0, height), View()];
      assert OldOrNew(before, KeysOf(s0), key) && Trace(before) && Stores(before);
      trace := PublishAll(x, height, prev, places, before);
      OldOrNewMore(before, trace, KeysOf(s0), key);
    }

    /**
      Insert a new key with a node of the given height. The trace records every state that
      a reader may observe on the way, store by store.
    */
    method Insert(key: Key, height: nat) returns (ghost trace: seq<Skip>)
      requires Valid(View()) && key !in KeysOf(View()) && 1 <= height <= MaxHeight
      modifies this
      ensures Valid(View()) && KeysOf(View()) == old(KeysOf(View())) + {key}
      ensures Trace(trace) && Stores(trace) && trace != [] && trace[0] == old(View()) && trace[|trace| - 1] == View()
      ensures OldOrNew(trace, old(KeysOf(View())), key)
    {
      var _, prev, places := FindGreaterOrEqual(key);
      prev, places := Raise(prev, height, places, key);
      trace := LinkNode(key, height, prev, places);
    }
  }

  /** Every state holds the old keys, or the old ones and the new one. */
  ghost predicate OldOrNew(ss: seq<Skip>, old0: set<Key>, key: Key) {
    forall k :: 0 <= k < |ss| ==> Valid(ss[k]) && (KeysOf(ss[k]) == old0 || KeysOf(ss[k]) == old0 + {key})
  }

  lemma OldOrNewMore(before: seq<Skip>, trace: seq<Skip>, old0: set<Key>, key: Key)
    requires OldOrNew(before, old0, key) && before <= trace
    requires forall k :: |before| <= k < |trace| ==> Valid(trace[k]) && (KeysOf(trace[k]) == old0 || KeysOf(trace[k]) == old0 + {key})
    ensures OldOrNew(trace, old0, key)
  {
    forall k | 0 <= k < |trace| ensures Valid(trace[k]) && (KeysOf(trace[k]) == old0 || KeysOf(trace[k]) == old0 + {key}) {
      if k < |before| {
        assert trace[k] == before[k];
      }
    }
  }

  /** A run of the writer as readers may observe it: sound states, each growing out of the one before. */
  ghost predicate Trace(ss: seq<Skip>) {
    && (forall k :: 0 <= k < |ss| ==> Valid(ss[k]))
    && (forall k :: 0 < k < |ss| ==> Grows(ss[k - 1], ss[k]))
  }

  /** Each state is one store away from the one before. */
  ghost predicate Stores(ss: seq<Skip>) {
    forall k :: 0 < k < |ss| ==> OneStore(ss[k - 1], ss[k])
  }

  lemma TraceSnoc(ss: seq<Skip>, s: Skip)
    requires Trace(ss) && Stores(ss) && ss != [] && Valid(s) && Grows(ss[|ss| - 1], s) && OneStore(ss[|ss| - 1], s)
    ensures Trace(ss + [s]) && Stores(ss + [s])
  {
  }

  lemma TraceTwo(ss: seq<Skip>, mid: Skip, s: Skip)
    requires Trace(ss) && Stores(ss) && ss != [] && Valid(mid) && Grows(ss[|ss| - 1], mid) && OneStore(ss[|ss| - 1], mid)
    requires Valid(s) && Grows(mid, s) && OneStore(mid, s)
    ensures Trace(ss + [mid] + [s]) && Stores(ss + [mid] + [s])
  {
    TraceSnoc(ss, mid);
    TraceSnoc(ss + [mid], s);
  }

  /** Level l of an insertion that has published the levels below i: untouched from i on. */
  predicate Pending(s: Skip, l: nat, p: nat, x: nat) {
    && l < |s.lists| && 0 < x < |s.keys| && HasLink(s.next, x, l) && x !in s.lists[l] && Splits(s, l, p, s.keys[x])
    && (forall q :: p <= q < |s.lists[l]| ==> s.keys[s.lists[l][q]] != s.keys[x])
  }

  /** Publishing on one level leaves the levels above pending. */
  lemma StaysPending(s: Skip, l: nat, p: nat, x: nat, m: nat, q: nat)
    requires Valid(s) && Publishable(s, l, p, x) && m != l && Pending(s, m, q, x)
    ensures Pending(Publish(s, l, p, x), m, q, x)
  {
    assert LevelOk(s, l);
    RelinkOwn(s.keys, s.next, s.lists[l], l, p, x);
    RelinkAt(s.next, NodeAt(s.lists[l], p), x, l, x, m);
  }

  lemma AllStayPending(s: Skip, i: nat, places: seq<nat>, x: nat, height: nat)
    requires Valid(s) && height <= |places| && i < height && Publishable(s, i, places[i], x)
    requires forall l :: i <= l < height ==> Pending(s, l, places[l], x)
    ensures forall l :: i < l < height ==> Pending(Publish(s, i, places[i], x), l, places[l], x)
  {
    forall l | i < l < height ensures Pending(Publish(s, i, places[i], x), l, places[l], x) {
      StaysPending(s, i, places[i], x, l, places[l]);
    }
  }

  lemma {:induction false} NotOnLevel(s: Skip, l: nat, key: Key)
    requires Valid(s) && l < MaxHeight && key !in KeysOf(s)
    ensures forall n :: n in s.lists[l] ==> n in s.lists[0] && n < |s.keys| && s.keys[n] != key
  {
    assert LevelOk(s, 0);
    if l > 0 {
      NotOnLevel(s, l - 1, key);
      assert SubLevel(s, l - 1);
      forall n | n in s.lists[l] ensures n in s.lists[0] && n < |s.keys| && s.keys[n] != key {
        assert n in s.lists[l - 1];
      }
    }
  }

  /** After the allocation every level below the node's height is pending. */
  lemma AllocatedPending(s: Skip, key: Key, height: nat, l: nat, p: nat)
    requires Valid(s) && l < height <= MaxHeight && key !in KeysOf(s) && Splits(s, l, p, key)
    ensures Pending(Allocate(s, key, height), l, p, |s.keys|)
  {
    assert LevelOk(s, l);
    NotOnLevel(s, l, key);
    var s', list := Allocate(s, key, height), s.lists[l];
    assert s'.next[|s.keys|] == seq(height, i => -1);
    assert HasLink(s.next, NodeAt(list, 0), l);
    forall q | p <= q < |list| ensures s'.keys[list[q]] != key {
      assert list[q] in list;
    }
  }

  lemma KeysAfter(s: Skip, p: nat, x: nat)
    requires Valid(s) && Publishable(s, 0, p, x) && Valid(Publish(s, 0, p, x))
    ensures KeysOf(Publish(s, 0, p, x)) == KeysOf(s) + {s.keys[x]}
  {
    var s', list := Publish(s, 0, p, x), s.lists[0];
    SplicedHas(list, p, x);
    assert LevelOk(s, 0) && LevelOk(s', 0);
    assert forall n :: n in s'.lists[0] <==> n in list || n == x;
    forall k ensures k in KeysOf(s') <==> k in KeysOf(s) + {s.keys[x]} {
      if k in KeysOf(s) {
        var n :| n in list && s.keys[n] == k;
        assert n in s'.lists[0];
      }
      if k == s.keys[x] {
        assert x in s'.lists[0];
      }
    }
  }

  lemma AllocatedKeys(s: Skip, key: Key, height: nat)
    requires Valid(s) && Valid(Allocate(s, key, height))
    ensures KeysOf(Allocate(s, key, height)) == KeysOf(s)
  {
    var s' := Allocate(s, key, height);
    assert LevelOk(s, 0) && LevelOk(s', 0);
    assert forall n :: n in s.lists[0] ==> s'.keys[n] == s.keys[n];
  }

  lemma PublishedKeys(s: Skip, mid: Skip, s': Skip, l: nat, p: nat, x: nat)
    requires Valid(s) && Publishable(s, l, p, x) && s' == Publish(s, l, p, x) && Valid(s') && Valid(mid)
    requires mid.lists == s.lists && mid.keys == s.keys
    ensures KeysOf(mid) == KeysOf(s) && KeysOf(s') == if l == 0 then KeysOf(s) + {s.keys[x]} else KeysOf(s)
  {
    if l == 0 {
      KeysAfter(s, p, x);
    }
  }

  /** Whether a key is there is decided at the place that splits the list. */
  lemma FirstDecides(s: Skip, p: nat, key: Key)
    requires Valid(s) && Splits(s, 0, p, key)
    ensures key in KeysOf(s) <==> p < |s.lists[0]| && s.keys[s.lists[0][p]] == key
  {
    assert LevelOk(s, 0);
    var list := s.lists[0];
    if p < |list| && s.keys[list[p]] == key {
      assert list[p] in list;
    }
  }

  /** The node before a place on one level is on the level below, too. */
  lemma LevelDown(s: Skip, l: nat, p: nat, target: Key)
    requires Valid(s) && 0 < l < MaxHeight && Below(s, l, p, target)
    ensures var n := NodeAt(s.lists[l], p); n == 0 || (n in s.lists[l - 1] && n < |s.keys| && s.keys[n] < target)
  {
    assert SubLevel(s, l - 1);
  }

  // ---------------------------------------------------------------- readers among insertions

  /** A search under way at a node and a level, or finished with a node. */
  datatype Search = At(node: nat, level: nat) | Done(before: nat, result: int)

  /** One turn of the loop of FindGreaterOrEqual and FindLessThan, which return the result or the node before it: a single read of a link. */
  function SearchStep(s: Skip, r: Search, target: Key): Search {
    if r.Done? || !HasLink(s.next, r.node, r.level) then r
    else
      var nx := s.next[r.node][r.level];
      if 0 <= nx < |s.keys| && s.keys[nx] < target then At(nx, r.level)
      else if r.level == 0 then Done(r.node, nx)
      else At(r.node, r.level - 1)
  }

  /** A search stands at the head, or at a node of its level with a key below the target. */
  predicate Reading(s: Skip, r: Search, target: Key) {
    r.At? ==> && r.level < |s.lists| == MaxHeight
              && (r.node == 0 || (r.node in s.lists[r.level] && r.node < |s.keys| && s.keys[r.node] < target))
  }

  /** Whatever the writer does meanwhile, the search stands where it stood. */
  lemma ReadingStays(s: Skip, s': Skip, r: Search, target: Key)
    requires Reading(s, r, target) && Grows(s, s')
    ensures Reading(s', r, target)
  {
  }

  /** Each read moves the search soundly; the last one finds the first node at or past the target. */
  lemma StepReads(s: Skip, r: Search, target: Key)
    requires Valid(s) && r.At? && Reading(s, r, target)
    ensures Reading(s, SearchStep(s, r, target), target)
    ensures SearchStep(s, r, target).Done? ==> Found(s, target, SearchStep(s, r, target).result) && FoundBefore(s, target, SearchStep(s, r, target).before)
  {
    var p := BelowPlace(s, r.level, r.node, target);
    FollowLink(s, r.level, p, target);
    if r.level > 0 {
      LevelDown(s, r.level, p, target);
    }
    var nx := s.next[r.node][r.level];
    if nx != -1 {
      assert LevelOk(s, r.level);
      assert nx == s.lists[r.level][p];
    }
  }

  lemma {:induction false} SearchStaysSound(ss: seq<Skip>, rs: seq<Search>, target: Key, n: nat)
    requires Trace(ss) && |rs| == |ss| + 1 && rs[0].At? && rs[0].node == 0 && rs[0].level < MaxHeight
    requires forall k :: 0 <= k < |ss| ==> rs[k + 1] == SearchStep(ss[k], rs[k], target)
    requires n < |ss|
    ensures Reading(ss[n], rs[n], target)
  {
    assert Valid(ss[n]);
    if n > 0 {
      SearchStaysSound(ss, rs, target, n - 1);
      assert Valid(ss[n - 1]) && Grows(ss[n - 1], ss[n]) && rs[n - 1 + 1] == SearchStep(ss[n - 1], rs[n - 1], target);
      if rs[n - 1].At? {
        StepReads(ss[n - 1], rs[n - 1], target);
        ReadingStays(ss[n - 1], ss[n], rs[n], target);
      }
    }
  }

  /**
    Main result: a search that reads its links one by one, each in the state that the writer
    has reached by then, starting from any height it may have read, returns the first node
    at or past its target, or the last one below it, in the list as it is at its last read.
  */
  lemma SearchAmongInsertions(ss: seq<Skip>, rs: seq<Search>, target: Key, n: nat)
    requires Trace(ss) && |rs| == |ss| + 1 && rs[0].At? && rs[0].node == 0 && rs[0].level < MaxHeight
    requires forall k :: 0 <= k < |ss| ==> rs[k + 1] == SearchStep(ss[k], rs[k], target)
    requires n < |ss| && rs[n].At? && rs[n + 1].Done?
    ensures Found(ss[n], target, rs[n + 1].result) && FoundBefore(ss[n], target, rs[n + 1].before)
  {
    SearchStaysSound(ss, rs, target, n);
    assert Valid(ss[n]) && rs[n + 1] == SearchStep(ss[n], rs[n], target);
    StepReads(ss[n], rs[n], target);
  }

  /** One turn of the loop of FindLast. */
  function LastStep(s: Skip, r: Search): Search {
    if r.Done? || !HasLink(s.next, r.node, r.level) then r
    else
      var nx := s.next[r.node][r.level];
      if nx >= 0 then At(nx, r.level)
      else if r.level == 0 then Done(r.node, nx)
      else At(r.node, r.level - 1)
  }

  /** The head, or a node of the level. */
  predicate OnLevel(s: Skip, r: Search) {
    r.At? ==> r.level < |s.lists| == MaxHeight && (r.node == 0 || r.node in s.lists[r.level])
  }

  lemma LastStepReads(s: Skip, r: Search)
    requires Valid(s) && r.At? && OnLevel(s, r)
    ensures OnLevel(s, LastStep(s, r))
    ensures LastStep(s, r).Done? ==> LastStep(s, r).before == NodeAt(s.lists[0], |s.lists[0]|)
  {
    var list := s.lists[r.level];
    var p := PlaceOf(s, r.level, r.node);
    assert LevelOk(s, r.level) && HasLink(s.next, NodeAt(list, p), r.level);
    if p < |list| {
      assert list[p] in list;
    } else if r.level > 0 {
      assert SubLevel(s, r.level - 1);
    }
  }

  lemma {:induction false} LastStaysSound(ss: seq<Skip>, rs: seq<Search>, n: nat)
    requires Trace(ss) && |rs| == |ss| + 1 && rs[0].At? && rs[0].node == 0 && rs[0].level < MaxHeight
    requires forall k :: 0 <= k < |ss| ==> rs[k + 1] == LastStep(ss[k], rs[k])
    requires n < |ss|
    ensures OnLevel(ss[n], rs[n])
  {
    assert Valid(ss[n]);
    if n > 0 {
      LastStaysSound(ss, rs, n - 1);
      assert Valid(ss[n - 1]) && Grows(ss[n - 1], ss[n]) && rs[n - 1 + 1] == LastStep(ss[n - 1], rs[n - 1]);
      if rs[n - 1].At? {
        LastStepReads(ss[n - 1], rs[n - 1]);
      }
    }
  }

  /** The same for a walk to the end: it returns the last node of the list as it is at its last read. */
  lemma LastAmongInsertions(ss: seq<Skip>, rs: seq<Search>, n: nat)
    requires Trace(ss) && |rs| == |ss| + 1 && rs[0].At? && rs[0].node == 0 && rs[0].level < MaxHeight
    requires forall k :: 0 <= k < |ss| ==> rs[k + 1] == LastStep(ss[k], rs[k])
    requires n < |ss| && rs[n].At? && rs[n + 1].Done?
    ensures rs[n + 1].before == NodeAt(ss[n].lists[0], |ss[n].lists[0]|)
  {
    LastStaysSound(ss, rs, n);
    assert Valid(ss[n]) && rs[n + 1] == LastStep(ss[n], rs[n]);
    LastStepReads(ss[n], rs[n]);
  }
}
