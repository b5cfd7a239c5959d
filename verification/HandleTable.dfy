/**
  The hash table of the cache: chains of handles in buckets (leveldb/util/cache.cc,
  HandleTable). A handle is a number; its key is looked up in the arena of all keys.
*/
module HandleTable {
  type Key = int

  /** The arena of keys, and the hash function. */
  datatype Arena = Arena(keys: seq<Key>, hash: Key -> nat)

  function KeyOf(a: Arena, h: nat): Key {
    if h < |a.keys| then a.keys[h] else 0
  }

  /** The bucket of a key among n. */
  function Bucket(a: Arena, key: Key, n: nat): nat
    requires n > 0
  {
    a.hash(key) % n
  }

  /** Some chain holds the handle. */
  predicate Has(list: seq<seq<nat>>, h: nat) {
    exists b :: 0 <= b < |list| && h in list[b]
  }

  /** A chain holds handles of its own bucket, with different keys. */
  predicate ChainOk(a: Arena, chain: seq<nat>, b: nat, n: nat) {
    && n > 0
    && (forall i :: 0 <= i < |chain| ==> chain[i] < |a.keys| && Bucket(a, a.keys[chain[i]], n) == b)
    && (forall i, j :: 0 <= i < j < |chain| ==> KeyOf(a, chain[i]) != KeyOf(a, chain[j]))
  }

  predicate TableOk(a: Arena, list: seq<seq<nat>>) {
    |list| > 0 && forall b :: 0 <= b < |list| ==> ChainOk(a, list[b], b, |list|)
  }

  /** A handle of the table is in the chain of its key. */
  lemma HasAt(a: Arena, list: seq<seq<nat>>, h: nat)
    requires TableOk(a, list) && Has(list, h)
    ensures h < |a.keys| && h in list[Bucket(a, a.keys[h], |list|)]
  {
    var b :| 0 <= b < |list| && h in list[b];
    assert ChainOk(a, list[b], b, |list|);
  }

  /** No two handles of the table have the same key. */
  lemma KeysUnique(a: Arena, list: seq<seq<nat>>, g: nat, h: nat)
    requires TableOk(a, list) && Has(list, g) && Has(list, h) && KeyOf(a, g) == KeyOf(a, h)
    ensures g == h
  {
    HasAt(a, list, g);
    HasAt(a, list, h);
    var b := Bucket(a, a.keys[g], |list|);
    assert ChainOk(a, list[b], b, |list|);
    var i :| 0 <= i < |list[b]| && list[b][i] == g;
    var j :| 0 <= j < |list[b]| && list[b][j] == h;
    assert i == j;
  }

  /** Chains stay sound when the arena grows. */
  lemma TableLonger(a: Arena, a': Arena, list: seq<seq<nat>>)
    requires TableOk(a, list) && a.keys <= a'.keys && a'.hash == a.hash
    ensures TableOk(a', list)
  {
    forall b | 0 <= b < |list| ensures ChainOk(a', list[b], b, |list|) {
      assert ChainOk(a, list[b], b, |list|);
    }
  }

  // ---------------------------------------------------------------- one chain changed

  /** The chain with the handle at place i taken out. */
  function Without(chain: seq<nat>, i: nat): seq<nat>
    requires i < |chain|
  {
    chain[..i] + chain[i + 1..]
  }

  lemma WithoutOk(a: Arena, chain: seq<nat>, i: nat, b: nat, n: nat)
    requires ChainOk(a, chain, b, n) && i < |chain|
    ensures ChainOk(a, Without(chain, i), b, n)
    ensures forall h :: h in Without(chain, i) <==> h in chain && h != chain[i]
  {
    var w := Without(chain, i);
    assert forall j :: 0 <= j < |w| ==> w[j] == chain[if j < i then j else j + 1];
    forall h | h in chain && h != chain[i] ensures h in w {
      var j :| 0 <= j < |chain| && chain[j] == h;
      assert w[if j < i then j else j - 1] == h;
    }
  }

  /** Put handle h at place i, in place of one with the same key or at the end. */
  function With(chain: seq<nat>, i: nat, h: nat): seq<nat>
    requires i <= |chain|
  {
    if i < |chain| then chain[i := h] else chain + [h]
  }

  lemma WithOk(a: Arena, chain: seq<nat>, i: nat, h: nat, b: nat, n: nat)
    requires ChainOk(a, chain, b, n) && i <= |chain| && h < |a.keys| && Bucket(a, a.keys[h], n) == b
    requires forall j :: 0 <= j < |chain| && j != i ==> KeyOf(a, chain[j]) != a.keys[h]
    ensures ChainOk(a, With(chain, i, h), b, n)
    ensures forall g :: g in With(chain, i, h) <==> g == h || (g in chain && (i < |chain| ==> g != chain[i]))
  {
    var w := With(chain, i, h);
    assert w[i] == h;
    forall g | g in chain && (i < |chain| ==> g != chain[i]) ensures g in w {
      var j :| 0 <= j < |chain| && chain[j] == g;
      assert w[j] == g;
    }
    forall g | g in w && g != h ensures g in chain && (i < |chain| ==> g != chain[i]) {
      var j :| 0 <= j < |w| && w[j] == g;
      assert j != i && chain[j] == g;
      assert i < |chain| ==> KeyOf(a, chain[i]) != KeyOf(a, chain[j]);
    }
  }

  /** What changing one chain means for the table. */
  lemma ChainChanged(a: Arena, list: seq<seq<nat>>, b: nat, chain: seq<nat>, g: nat)
    requires TableOk(a, list) && b < |list| && ChainOk(a, chain, b, |list|)
    ensures TableOk(a, list[b := chain])
    ensures g < |a.keys| && Bucket(a, a.keys[g], |list|) == b ==> (Has(list[b := chain], g) <==> g in chain)
    ensures !(g < |a.keys| && Bucket(a, a.keys[g], |list|) == b) ==> (Has(list[b := chain], g) <==> Has(list, g))
  {
    var list' := list[b := chain];
    forall c | 0 <= c < |list'| ensures ChainOk(a, list'[c], c, |list'|) {
      assert ChainOk(a, list[c], c, |list|);
    }
    if Has(list', g) {
      HasAt(a, list', g);
      assert g in list'[Bucket(a, a.keys[g], |list|)];
    }
    if Has(list, g) {
      HasAt(a, list, g);
      assert g in list[Bucket(a, a.keys[g], |list|)];
    }
  }

  /** How many handles the chains hold together. */
  function Total(list: seq<seq<nat>>): nat {
    if list == [] then 0 else Total(list[..|list| - 1]) + |list[|list| - 1]|
  }

  lemma {:induction false} TotalChanged(list: seq<seq<nat>>, b: nat, chain: seq<nat>)
    requires b < |list|
    ensures Total(list[b := chain]) == Total(list) - |list[b]| + |chain|
  {
    var front := list[..|list| - 1];
    if b == |list| - 1 {
      assert list[b := chain][..|list| - 1] == front;
    } else {
      TotalChanged(front, b, chain);
      assert list[b := chain][..|list| - 1] == front[b := chain];
    }
  }

  /** A table of n empty chains. */
  function Empty(n: nat): (list: seq<seq<nat>>)
    ensures |list| == n && forall b :: 0 <= b < n ==> list[b] == []
  {
    seq(n, i => [])
  }

  lemma {:induction false} TotalEmpty(n: nat)
    ensures Total(Empty(n)) == 0
  {
    if n > 0 {
      TotalEmpty(n - 1);
      assert Empty(n)[..n - 1] == Empty(n - 1);
    }
  }

  // ---------------------------------------------------------------- rehashing

  /** The handles of the chains before b, and of the first i places of chain b. */
  predicate Before(list: seq<seq<nat>>, b: nat, i: nat, g: nat) {
    (exists c :: 0 <= c < b && c < |list| && g in list[c]) || (b < |list| && i <= |list[b]| && g in list[b][..i])
  }

  /** The new table holds exactly the handles moved so far. */
  ghost predicate Rehashed(a: Arena, list: seq<seq<nat>>, b: nat, i: nat, list': seq<seq<nat>>) {
    TableOk(a, list') && forall g :: Has(list', g) <==> Before(list, b, i, g)
  }

  /** Moving the handle at place i of chain b. */
  lemma RehashOne(a: Arena, list: seq<seq<nat>>, b: nat, i: nat, list': seq<seq<nat>>)
    requires TableOk(a, list) && b < |list| && i < |list[b]| && Rehashed(a, list, b, i, list')
    ensures var h := list[b][i]; var c := Bucket(a, KeyOf(a, h), |list'|);
            Rehashed(a, list, b, i + 1, list'[c := [h] + list'[c]])
  {
    var h := list[b][i];
    var c := Bucket(a, KeyOf(a, h), |list'|);
    var chain := [h] + list'[c];
    assert ChainOk(a, list[b], b, |list|) && ChainOk(a, list'[c], c, |list'|);
    InOwnChain(a, list, b, h);
    forall j | 0 <= j < |list'[c]| ensures KeyOf(a, list'[c][j]) != KeyOf(a, h) {
      MovedDiffers(a, list, b, i, list', list'[c][j], c);
    }
    var list'' := list'[c := chain];
    ChainChanged(a, list', c, chain, 0);
    forall g ensures Has(list'', g) <==> Before(list, b, i + 1, g) {
      ChainChanged(a, list', c, chain, g);
      InOwnChain(a, list', c, g);
      assert list[b][..i + 1] == list[b][..i] + [h];
      assert g in chain <==> g == h || g in list'[c];
    }
  }

  /** A handle moved earlier has another key. */
  lemma MovedDiffers(a: Arena, list: seq<seq<nat>>, b: nat, i: nat, list': seq<seq<nat>>, g: nat, c: nat)
    requires TableOk(a, list) && b < |list| && i < |list[b]| && Rehashed(a, list, b, i, list') && c < |list'| && g in list'[c]
    ensures KeyOf(a, g) != KeyOf(a, list[b][i])
  {
    var h := list[b][i];
    assert Has(list', g) && Before(list, b, i, g);
    assert ChainOk(a, list[b], b, |list|);
    if g in list[b][..i] {
      var j :| 0 <= j < i && list[b][..i][j] == g;
      assert list[b][j] == g;
    } else {
      var d :| 0 <= d < b && g in list[d];
      assert ChainOk(a, list[d], d, |list|);
    }
  }

  lemma NextChain(list: seq<seq<nat>>, b: nat, g: nat)
    requires b < |list|
    ensures Before(list, b, |list[b]|, g) <==> Before(list, b + 1, 0, g)
  {
    assert list[b][..|list[b]|] == list[b];
  }

  // ---------------------------------------------------------------- the table

  class HandleTable {
    var list: seq<seq<nat>>
    var elems: nat

    /** Sound chains, and the count of what they hold. */
    ghost predicate Valid(a: Arena)
      reads this
    {
      TableOk(a, list) && elems == Total(list)
    }

    constructor (a: Arena)
      ensures Valid(a) && forall h :: !Has(list, h)
    {
      list, elems := Empty(4), 0;
      TotalEmpty(4);
    }

    /** FindPointer: the place of the key in its chain, or the chain's end. */
    method FindPointer(a: Arena, key: Key) returns (b: nat, i: nat)
      requires TableOk(a, list)
      ensures b < |list| && b == Bucket(a, key, |list|) && i <= |list[b]|
      ensures forall j :: 0 <= j < i ==> KeyOf(a, list[b][j]) != key
      ensures i < |list[b]| ==> KeyOf(a, list[b][i]) == key
    {
      b := a.hash(key) % |list|;
      i := 0;
      while i < |list[b]| && KeyOf(a, list[b][i]) != key
        invariant 0 <= i <= |list[b]| && forall j :: 0 <= j < i ==> KeyOf(a, list[b][j]) != key
      {
        i := i + 1;
      }
    }

    /** The place found is the only one the key can have. */
    lemma OnlyPlace(a: Arena, key: Key, b: nat, i: nat)
      requires TableOk(a, list) && b < |list| && b == Bucket(a, key, |list|) && i <= |list[b]|
      requires forall j :: 0 <= j < i ==> KeyOf(a, list[b][j]) != key
      requires i < |list[b]| ==> KeyOf(a, list[b][i]) == key
      ensures forall j :: 0 <= j < |list[b]| && j != i ==> KeyOf(a, list[b][j]) != key
      ensures forall h :: Has(list, h) && KeyOf(a, h) == key ==> i < |list[b]| && h == list[b][i]
      ensures i < |list[b]| ==> Has(list, list[b][i])
    {
      assert ChainOk(a, list[b], b, |list|);
      forall h | Has(list, h) && KeyOf(a, h) == key ensures i < |list[b]| && h == list[b][i] {
        HasAt(a, list, h);
        var j :| 0 <= j < |list[b]| && list[b][j] == h;
      }
    }

    method Lookup(a: Arena, key: Key) returns (h: int)
      requires TableOk(a, list)
      ensures h == -1 ==> forall g :: Has(list, g) ==> KeyOf(a, g) != key
      ensures h != -1 ==> h >= 0 && Has(list, h) && KeyOf(a, h) == key
    {
      var b, i := FindPointer(a, key);
      OnlyPlace(a, key, b, i);
      h := if i < |list[b]| then list[b][i] else -1;
    }

    /** Take the key's handle out of the table, if it is there. */
    method Remove(a: Arena, key: Key) returns (h: int)
      requires Valid(a)
      modifies this
      ensures Valid(a)
      ensures h == -1 ==> list == old(list) && forall g :: Has(list, g) ==> KeyOf(a, g) != key
      ensures h != -1 ==> h >= 0 && old(Has(list, h)) && KeyOf(a, h) == key
      ensures forall g :: Has(list, g) <==> old(Has(list, g)) && g != h
    {
      var b, i := FindPointer(a, key);
      OnlyPlace(a, key, b, i);
      h := -1;
      if i < |list[b]| {
        h := list[b][i];
        assert ChainOk(a, list[b], b, |list|);
        WithoutOk(a, list[b], i, b, |list|);
        ghost var list0, chain := list, Without(list[b], i);
        forall g ensures TableOk(a, list0[b := chain]) && (Has(list0[b := chain], g) <==> Has(list0, g) && g != h) {
          ChainChanged(a, list0, b, chain, g);
          InOwnChain(a, list0, b, g);
        }
        TotalChanged(list, b, chain);
        list := list[b := list[b][..i] + list[b][i + 1..]];
        elems := elems - 1;
      }
    }

    /** Put a handle into the table, in place of one with the same key; that one is returned. */
    method Insert(a: Arena, h: nat) returns (old0: int)
      requires Valid(a) && h < |a.keys| && !Has(list, h)
      modifies this
      ensures Valid(a)
      ensures old0 == -1 ==> forall g :: old(Has(list, g)) ==> KeyOf(a, g) != a.keys[h]
      ensures old0 != -1 ==> old0 >= 0 && old(Has(list, old0)) && KeyOf(a, old0) == a.keys[h]
      ensures forall g :: Has(list, g) <==> g == h || (old(Has(list, g)) && g != old0)
    {
      var b, i := FindPointer(a, a.keys[h]);
      OnlyPlace(a, a.keys[h], b, i);
      assert ChainOk(a, list[b], b, |list|);
      WithOk(a, list[b], i, h, b, |list|);
      ghost var list0, chain := list, With(list[b], i, h);
      old0 := if i < |list[b]| then list[b][i] else -1;
      forall g ensures TableOk(a, list0[b := chain]) && (Has(list0[b := chain], g) <==> g == h || (Has(list0, g) && g != old0)) {
        ChainChanged(a, list0, b, chain, g);
        InOwnChain(a, list0, b, g);
      }
      TotalChanged(list, b, chain);
      if i < |list[b]| {
        var replaced: seq<nat> := list[b][i := h];
        list := list[b := replaced];
      } else {
        list := list[b := list[b] + [h]];
        elems := elems + 1;
        if elems > |list| {
          Resize(a);
        }
      }
    }

    /** Spread the handles over enough buckets; the table holds the same ones. */
    method Resize(a: Arena)
      requires Valid(a)
      modifies this`list
      ensures Valid(a) && forall g :: Has(list, g) <==> old(Has(list, g))
    {
      var n := 4;
      while n < elems
        invariant n >= 4
        decreases elems - n
      {
        n := n * 2;
      }
      var list' := Rehash(a, n);
      list := list';
    }

    method Rehash(a: Arena, n: nat) returns (list': seq<seq<nat>>)
      requires Valid(a) && n > 0
      ensures TableOk(a, list') && Total(list') == elems && forall g :: Has(list', g) <==> Has(list, g)
    {
      list' := Empty(n);
      TotalEmpty(n);
      var b := 0;
      while b < |list|
        invariant 0 <= b <= |list| && Rehashed(a, list, b, 0, list') && |list'| == n
        invariant Total(list') == Total(list[..b])
      {
        var i := 0;
        while i < |list[b]|
          invariant 0 <= i <= |list[b]| && Rehashed(a, list, b, i, list') && |list'| == n
          invariant Total(list') == Total(list[..b]) + i
        {
          var h := list[b][i];
          RehashOne(a, list, b, i, list');
          var c := a.hash(KeyOf(a, h)) % n;
          TotalChanged(list', c, [h] + list'[c]);
          list' := list'[c := [h] + list'[c]];
          i := i + 1;
        }
        forall g ensures Before(list, b, i, g) <==> Before(list, b + 1, 0, g) {
          NextChain(list, b, g);
        }
        assert list[..b + 1][..b] == list[..b];
        b := b + 1;
      }
      assert list[..b] == list;
    }
  }

  /** Membership, seen from one chain. */
  lemma InOwnChain(a: Arena, list: seq<seq<nat>>, b: nat, g: nat)
    requires TableOk(a, list) && b < |list|
    ensures g in list[b] ==> Has(list, g) && g < |a.keys| && Bucket(a, a.keys[g], |list|) == b
    ensures Has(list, g) && g < |a.keys| && Bucket(a, a.keys[g], |list|) == b ==> g in list[b]
  {
    assert ChainOk(a, list[b], b, |list|);
    if Has(list, g) {
      HasAt(a, list, g);
    }
  }
}
