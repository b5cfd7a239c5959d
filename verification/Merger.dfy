/**
  MergingIterator (leveldb/table/merger.cc): one cursor over the sorted merge of
  several sorted children, moving in both directions.
*/
module Merger {
  import opened DbFormat

  datatype Direction = Forward | Reverse

  /**
    `merged` is the sorted merge of `children`, no key occurring twice: entry j of
    child c is entry place[c][j] of the merge, and every entry of the merge has a place.
  */
  ghost predicate IsMerge(children: seq<seq<Entry>>, merged: seq<Entry>, place: seq<seq<nat>>) {
    && Ordered(merged)
    && |place| == |children|
    && (forall c :: 0 <= c < |children| ==> |place[c]| == |children[c]|)
    && (forall c, j :: 0 <= c < |children| && 0 <= j < |children[c]| ==> place[c][j] < |merged| && merged[place[c][j]] == children[c][j])
    && (forall c, i, j :: 0 <= c < |children| && 0 <= i < j < |children[c]| ==> place[c][i] < place[c][j])
    && (forall c, d, i, j :: 0 <= c < d < |children| && 0 <= i < |children[c]| && 0 <= j < |children[d]| ==> place[c][i] != place[d][j])
    && (forall m :: 0 <= m < |merged| ==> HasPlace(place, m))
  }

  ghost predicate HasPlace(place: seq<seq<nat>>, m: nat) {
    exists c, j :: 0 <= c < |place| && 0 <= j < |place[c]| && place[c][j] == m
  }

  /** Sorted children, no two of which hold a version with the same key and sequence number. */
  ghost predicate Mergeable(children: seq<seq<Entry>>) {
    && (forall c :: 0 <= c < |children| ==> Ordered(children[c]))
    && (forall c, d, i, j :: 0 <= c < d < |children| && 0 <= i < |children[c]| && 0 <= j < |children[d]| ==>
          children[c][i].key.user != children[d][j].key.user || children[c][i].key.sn != children[d][j].key.sn)
  }

  lemma SortEntries(es: set<Entry>) returns (m: seq<Entry>)
    requires Distinct(es)
    ensures Ordered(m) && forall e :: e in m <==> e in es
  {
    m := [];
    var rest := es;
    while rest != {}
      invariant rest <= es && Ordered(m)
      invariant forall e :: e in m <==> e in es && e !in rest
      invariant forall d, e :: d in m && e in rest ==> Before(d.key, e.key)
      decreases |rest|
    {
      var e := FirstEntry(rest);
      forall i | 0 <= i < |m|
        ensures Before(m[i].key, e.key)
      {
        assert m[i] in m;
      }
      m, rest := m + [e], rest - {e};
    }
  }

  lemma FirstEntry(es: set<Entry>) returns (f: Entry)
    requires es != {} && Distinct(es)
    ensures f in es && forall e :: e in es && e != f ==> Before(f.key, e.key)
  {
    f :| f in es;
    var seen, rest := {f}, es - {f};
    while rest != {}
      invariant f in seen && seen + rest == es
      invariant forall e :: e in seen && e != f ==> Before(f.key, e.key)
      decreases |rest|
    {
      var e :| e in rest;
      if Before(e.key, f.key) {
        f := e;
      }
      seen, rest := seen + {e}, rest - {e};
    }
  }

  ghost function IndexOf(m: seq<Entry>, e: Entry): (i: nat)
    ensures e in m ==> i < |m| && m[i] == e
  {
    if e in m then var i: nat :| i < |m| && m[i] == e; i else 0
  }

  /** Every mergeable family of children has a sorted merge. */
  lemma MergeExists(children: seq<seq<Entry>>) returns (m: seq<Entry>, place: seq<seq<nat>>)
    requires Mergeable(children)
    ensures IsMerge(children, m, place)
  {
    var es := set c, j | 0 <= c < |children| && 0 <= j < |children[c]| :: children[c][j];
    forall d, e | d in es && e in es && d.key.user == e.key.user && d.key.sn == e.key.sn
      ensures d == e
    {
      var a, i :| 0 <= a < |children| && 0 <= i < |children[a]| && d == children[a][i];
      var b, j :| 0 <= b < |children| && 0 <= j < |children[b]| && e == children[b][j];
      assert a == b;
      assert Ordered(children[a]);
    }
    m := SortEntries(es);
    place := seq(|children|, c requires 0 <= c < |children| => seq(|children[c]|, j requires 0 <= j < |children[c]| => IndexOf(m, children[c][j])));
    forall c, j | 0 <= c < |children| && 0 <= j < |children[c]|
      ensures place[c][j] < |m| && m[place[c][j]] == children[c][j]
    {
      assert children[c][j] in es;
    }
    forall c, i, j | 0 <= c < |children| && 0 <= i < j < |children[c]|
      ensures place[c][i] < place[c][j]
    {
      assert Ordered(children[c]);
      assert Before(m[place[c][i]].key, m[place[c][j]].key);
    }
    forall k | 0 <= k < |m|
      ensures HasPlace(place, k)
    {
      assert m[k] in es;
      var c, j :| 0 <= c < |children| && 0 <= j < |children[c]| && m[k] == children[c][j];
      assert place[c][j] == k;
    }
  }

  /** Position of the first entry at or past `target`. */
  function Gap(es: seq<Entry>, target: InternalKey): (g: nat)
    ensures g <= |es|
    ensures forall i :: 0 <= i < g ==> Compare(es[i].key, target) < 0
    ensures g < |es| ==> Compare(es[g].key, target) >= 0
  {
    if es == [] || Compare(es[0].key, target) >= 0 then 0 else 1 + Gap(es[1..], target)
  }

  lemma GapSplits(es: seq<Entry>, target: InternalKey)
    requires Ordered(es)
    ensures forall i :: 0 <= i < |es| ==> (Compare(es[i].key, target) < 0 <==> i < Gap(es, target))
  {
    var g := Gap(es, target);
    forall i | g <= i < |es|
      ensures Compare(es[i].key, target) >= 0
    {
      assert i == g || Before(es[g].key, es[i].key);
    }
  }

  class MergingIterator {
    const children: seq<seq<Entry>>
    var pos: seq<int>      // position of each child; outside the child when it is not valid
    var current: int       // the child whose entry is shown, -1 for none
    var direction: Direction
    ghost const merged: seq<Entry>
    ghost const place: seq<seq<nat>>

    predicate ChildValid(c: nat)
      requires c < |children| == |pos|
      reads this`pos
    {
      0 <= pos[c] < |children[c]|
    }

    /** Child c stands at its first entry from place g on. */
    ghost predicate Ahead(c: nat, p: int, g: nat)
      requires c < |children| && IsMerge(children, merged, place)
    {
      0 <= p <= |children[c]| && forall j :: 0 <= j < |children[c]| ==> (j < p <==> place[c][j] < g)
    }

    /** Child c stands at its last entry before place g. */
    ghost predicate Behind(c: nat, p: int, g: nat)
      requires c < |children| && IsMerge(children, merged, place)
    {
      -1 <= p < |children[c]| && forall j :: 0 <= j < |children[c]| ==> (j <= p <==> place[c][j] < g)
    }

    ghost predicate AllAhead(g: nat)
      requires |children| == |pos| && IsMerge(children, merged, place)
      reads this`pos
    {
      forall c :: 0 <= c < |children| ==> Ahead(c, pos[c], g)
    }

    ghost predicate AllBehind(g: nat)
      requires |children| == |pos| && IsMerge(children, merged, place)
      reads this`pos
    {
      forall c :: 0 <= c < |children| ==> Behind(c, pos[c], g)
    }

    ghost predicate Ok()
      reads this
    {
      IsMerge(children, merged, place) && |pos| == |children| && -1 <= current < |children|
    }

    /** The iterator shows entry i of the merge; i == |merged| means it is not valid. */
    ghost predicate At(i: nat)
      reads this
    {
      && Ok() && i <= |merged|
      && (current == -1 <==> i == |merged|)
      && (i < |merged| ==>
            && ChildValid(current) && place[current][pos[current]] == i
            && (direction.Forward? ==> AllAhead(i))
            && (direction.Reverse? ==> AllBehind(i + 1)))
    }

    constructor (children: seq<seq<Entry>>, ghost merged: seq<Entry>, ghost place: seq<seq<nat>>)
      requires IsMerge(children, merged, place)
      ensures this.children == children && this.merged == merged && this.place == place
      ensures At(|merged|)
    {
      this.children := children;
      this.merged := merged;
      this.place := place;
      pos := seq(|children|, i => -1);
      current := -1;
      direction := Forward;
    }

    predicate IsValid()
      reads this
    {
      current != -1
    }

    function Shown(): (e: Entry)
      requires Ok() && IsValid() && ChildValid(current)
      reads this
    {
      children[current][pos[current]]
    }

    lemma ShowsMerge(i: nat)
      requires At(i) && IsValid()
      ensures i < |merged| && Shown() == merged[i]
    {
    }

    /** The valid child with the smallest key, -1 when no child is valid. */
    method SmallestChild() returns (smallest: int)
      requires Ok()
      ensures -1 <= smallest < |children|
      ensures smallest == -1 ==> forall c :: 0 <= c < |children| ==> !ChildValid(c)
      ensures smallest != -1 ==> ChildValid(smallest)
      ensures smallest != -1 ==> forall c :: 0 <= c < |children| && ChildValid(c) ==> place[smallest][pos[smallest]] <= place[c][pos[c]]
    {
      smallest := -1;
      for i := 0 to |children|
        invariant -1 <= smallest < i
        invariant smallest == -1 ==> forall c :: 0 <= c < i ==> !ChildValid(c)
        invariant smallest != -1 ==> ChildValid(smallest)
        invariant smallest != -1 ==> forall c :: 0 <= c < i && ChildValid(c) ==> place[smallest][pos[smallest]] <= place[c][pos[c]]
      {
        if ChildValid(i) {
          if smallest == -1 {
            smallest := i;
          } else if Compare(children[i][pos[i]].key, children[smallest][pos[smallest]].key) < 0 {
            smallest := i;
          }
        }
      }
    }

    /** The valid child with the largest key, -1 when no child is valid. */
    method LargestChild() returns (largest: int)
      requires Ok()
      ensures -1 <= largest < |children|
      ensures largest == -1 ==> forall c :: 0 <= c < |children| ==> !ChildValid(c)
      ensures largest != -1 ==> ChildValid(largest)
      ensures largest != -1 ==> forall c :: 0 <= c < |children| && ChildValid(c) ==> place[largest][pos[largest]] >= place[c][pos[c]]
    {
      largest := -1;
      for i := |children| downto 0
        invariant largest == -1 || i <= largest < |children|
        invariant largest == -1 ==> forall c :: i <= c < |children| ==> !ChildValid(c)
        invariant largest != -1 ==> ChildValid(largest)
        invariant largest != -1 ==> forall c :: i <= c < |children| && ChildValid(c) ==> place[largest][pos[largest]] >= place[c][pos[c]]
      {
        if ChildValid(i) {
          if largest == -1 {
            largest := i;
          } else if Compare(children[i][pos[i]].key, children[largest][pos[largest]].key) > 0 {
            largest := i;
          }
        }
      }
    }

    lemma AheadHead(g: nat) returns (c: nat)
      requires Ok() && g < |merged| && AllAhead(g)
      ensures c < |children| && ChildValid(c) && place[c][pos[c]] == g
    {
      assert HasPlace(place, g);
      var d: nat, j: nat :| d < |place| && j < |place[d]| && place[d][j] == g;
      c := d;
      assert Ahead(c, pos[c], g);
    }

    lemma BehindHead(g: nat) returns (c: nat)
      requires Ok() && 0 < g <= |merged| && AllBehind(g)
      ensures c < |children| && ChildValid(c) && place[c][pos[c]] == g - 1
    {
      assert HasPlace(place, g - 1);
      var d: nat, j: nat :| d < |place| && j < |place[d]| && place[d][j] == g - 1;
      c := d;
      assert Behind(c, pos[c], g);
    }

    /** With every child ahead of place g, the smallest head is entry g of the merge. */
    method FindSmallest(ghost g: nat)
      requires Ok() && g <= |merged| && AllAhead(g)
      requires direction.Forward?
      modifies this`current
      ensures At(g)
    {
      ghost var c := 0;
      if g < |merged| {
        c := AheadHead(g);
      }
      current := SmallestChild();
      assert g < |merged| ==> ChildValid(c) && current != -1;
      assert current != -1 ==> Ahead(current, pos[current], g) && g <= place[current][pos[current]] < |merged|;
    }

    /** With every child behind place g, the largest head is entry g - 1 of the merge. */
    method FindLargest(ghost g: nat)
      requires Ok() && g <= |merged| && AllBehind(g)
      requires direction.Reverse?
      modifies this`current
      ensures At(if g == 0 then |merged| else g - 1)
    {
      ghost var c := 0;
      if g > 0 {
        c := BehindHead(g);
      }
      current := LargestChild();
      assert g > 0 ==> ChildValid(c) && current != -1;
      assert current != -1 ==> Behind(current, pos[current], g) && place[current][pos[current]] < g;
    }

    // ---- moves of one child

    lemma ChildGap(c: nat, target: InternalKey)
      requires Ok() && c < |children|
      ensures forall j :: 0 <= j < |children[c]| ==> (j < Gap(children[c], target) <==> place[c][j] < Gap(merged, target))
    {
      GapSplits(merged, target);
      assert Ordered(children[c]) by {
        forall i, j | 0 <= i < j < |children[c]|
          ensures Before(children[c][i].key, children[c][j].key)
        {
          assert place[c][i] < place[c][j];
        }
      }
      GapSplits(children[c], target);
      assert forall j :: 0 <= j < |children[c]| ==> merged[place[c][j]] == children[c][j];
    }

    method SeekToFirst()
      requires Ok()
      modifies this
      ensures At(0)
    {
      for i := 0 to |children|
        invariant Ok()
        invariant forall c :: 0 <= c < i ==> pos[c] == 0
      {
        pos := pos[i := 0];
      }
      direction := Forward;
      FindSmallest(0);
    }

    method SeekToLast()
      requires Ok()
      modifies this
      ensures At(if |merged| == 0 then 0 else |merged| - 1)
    {
      for i := 0 to |children|
        invariant Ok()
        invariant forall c :: 0 <= c < i ==> pos[c] == |children[c]| - 1
      {
        pos := pos[i := |children[i]| - 1];
      }
      direction := Reverse;
      FindLargest(|merged|);
    }

    method Seek(target: InternalKey)
      requires Ok()
      modifies this
      ensures At(Gap(merged, target))
    {
      for i := 0 to |children|
        invariant Ok()
        invariant forall c :: 0 <= c < i ==> pos[c] == Gap(children[c], target)
      {
        pos := pos[i := Gap(children[i], target)];
      }
      forall c | 0 <= c < |children|
        ensures Ahead(c, pos[c], Gap(merged, target))
      {
        ChildGap(c, target);
      }
      direction := Forward;
      FindSmallest(Gap(merged, target));
    }

    /** Seeking another child to the shown key splits it at the shown entry. */
    lemma KeyGap(i: nat, c: nat)
      requires Ok() && i < |merged| && c < |children| && forall j :: 0 <= j < |children[c]| ==> place[c][j] != i
      ensures forall j :: 0 <= j < |children[c]| ==> (j < Gap(children[c], merged[i].key) <==> place[c][j] < i + 1)
      ensures Gap(children[c], merged[i].key) < |children[c]| ==>
                Compare(merged[i].key, children[c][Gap(children[c], merged[i].key)].key) != 0
    {
      var g := Gap(merged, merged[i].key);
      GapSplits(merged, merged[i].key);
      assert forall j :: 0 <= j < i ==> Before(merged[j].key, merged[i].key);
      assert g == i;
      ChildGap(c, merged[i].key);
      var p := Gap(children[c], merged[i].key);
      if p < |children[c]| {
        assert merged[place[c][p]] == children[c][p] && place[c][p] > i;
      }
    }

    lemma OthersElsewhere(i: nat, c: nat)
      requires Ok() && IsValid() && ChildValid(current) && place[current][pos[current]] == i
      requires c < |children| && c != current
      ensures forall j :: 0 <= j < |children[c]| ==> place[c][j] != i
    {
    }

    lemma CurrentSplits(i: nat)
      requires Ok() && IsValid() && ChildValid(current) && place[current][pos[current]] == i
      ensures forall j :: 0 <= j < |children[current]| ==> (j < pos[current] <==> place[current][j] < i)
      ensures forall j :: 0 <= j < |children[current]| ==> (j <= pos[current] <==> place[current][j] < i + 1)
    {
    }

    lemma OthersAhead(i: nat)
      requires At(i) && IsValid() && direction.Forward?
      ensures forall c :: 0 <= c < |children| && c != current ==> Ahead(c, pos[c], i + 1)
    {
      forall c | 0 <= c < |children| && c != current
        ensures Ahead(c, pos[c], i + 1)
      {
        OthersElsewhere(i, c);
        assert Ahead(c, pos[c], i);
      }
    }

    lemma OthersBehind(i: nat)
      requires At(i) && IsValid() && direction.Reverse?
      ensures forall c :: 0 <= c < |children| && c != current ==> Behind(c, pos[c], i)
    {
      forall c | 0 <= c < |children| && c != current
        ensures Behind(c, pos[c], i)
      {
        OthersElsewhere(i, c);
        assert Behind(c, pos[c], i + 1);
      }
    }

    /** Next moves to the following entry of the merge, whichever direction came before. */
    method Next(ghost i: nat)
      requires At(i) && IsValid()
      modifies this
      ensures At(i + 1)
    {
      if direction.Reverse? {
        var key := Shown().key;
        for n := 0 to |children|
          invariant Ok() && current == old(current) && pos[current] == old(pos[current])
          invariant forall c :: 0 <= c < n && c != current ==> Ahead(c, pos[c], i + 1)
        {
          if n != current {
            OthersElsewhere(i, n);
            KeyGap(i, n);
            pos := pos[n := Gap(children[n], key)];
            var same := ChildValid(n) && Compare(key, children[n][pos[n]].key) == 0;
            pos := pos[n := pos[n] + (if same then 1 else 0)];
          }
        }
        direction := Forward;
      }
      CurrentSplits(i);
      if old(direction).Forward? {
        OthersAhead(i);
      }
      ghost var before := pos;
      pos := pos[current := pos[current] + 1];
      assert forall c :: 0 <= c < |children| && c != current ==> pos[c] == before[c];
      FindSmallest(i + 1);
    }

    /** Prev moves to the preceding entry of the merge; before the first it becomes invalid. */
    method Prev(ghost i: nat)
      requires At(i) && IsValid()
      modifies this
      ensures At(if i == 0 then |merged| else i - 1)
    {
      if direction.Forward? {
        var key := Shown().key;
        for n := 0 to |children|
          invariant Ok() && current == old(current) && pos[current] == old(pos[current])
          invariant forall c :: 0 <= c < n && c != current ==> Behind(c, pos[c], i)
        {
          if n != current {
            OthersElsewhere(i, n);
            KeyGap(i, n);
            pos := pos[n := Gap(children[n], key)];
            if ChildValid(n) {
              pos := pos[n := pos[n] - 1];
            } else {
              pos := pos[n := |children[n]| - 1];
            }
          }
        }
        direction := Reverse;
      }
      CurrentSplits(i);
      if old(direction).Reverse? {
        OthersBehind(i);
      }
      ghost var before := pos;
      pos := pos[current := pos[current] - 1];
      assert forall c :: 0 <= c < |children| && c != current ==> pos[c] == before[c];
      FindLargest(i);
    }
  }
}
