/**
  A scan from end to end (leveldb/db/db_impl.cc: NewInternalIterator, NewIterator;
  leveldb/db/version_set.cc: AddIterators): the memtables, the files of level 0 and the sorted runs
  of the other levels, merged, and the snapshot cursor over the merge.
*/
module Scans {
  import opened DbFormat
  import opened Versions
  import opened Merger
  import opened DbIter
  import opened Background
  import opened Compactions

  // ---------------------------------------------------------------- the sources

  /** Where an entry is stored: a memtable, a file of level 0, or a level above it. */
  datatype Source = Mem(i: nat) | Zero(i: nat) | Run(l: nat)

  predicate IsSource(mems: seq<seq<Entry>>, v: Version, s: Source) {
    |v| == NumLevels &&
    match s
    case Mem(i) => i < |mems|
    case Zero(i) => i < |v[0]|
    case Run(l) => 1 <= l < NumLevels
  }

  function From(mems: seq<seq<Entry>>, v: Version, s: Source): seq<Entry>
    requires IsSource(mems, v, s)
  {
    match s
    case Mem(i) => mems[i]
    case Zero(i) => v[0][i].entries
    case Run(l) => Concat(v[l])
  }

  /** Every version of a user key among the first entries is newer than every one among the others. */
  ghost predicate Newer(ds: set<Entry>, es: set<Entry>) {
    forall d, e :: d in ds && e in es && d.key.user == e.key.user ==> d.key.sn > e.key.sn
  }

  /** Sorted memtables, newest first, in front of a version. */
  ghost predicate Layered(mems: seq<seq<Entry>>, v: Version) {
    && Valid(v)
    && (forall i :: 0 <= i < |mems| ==> Ordered(mems[i]) && Newer(AsSet(mems[i]), Stored(v)))
    && (forall i, j :: 0 <= i < j < |mems| ==> Newer(AsSet(mems[i]), AsSet(mems[j])))
  }

  /** All entries of memtables and version. */
  ghost function Held(mems: seq<seq<Entry>>, v: Version): set<Entry> {
    Stored(v) + set i, e | 0 <= i < |mems| && e in mems[i] :: e
  }

  lemma FromOrdered(mems: seq<seq<Entry>>, v: Version, s: Source)
    requires Layered(mems, v) && IsSource(mems, v, s)
    ensures Ordered(From(mems, v, s))
  {
    if s.Run? {
      ConcatOrdered(v[s.l]);
    }
  }

  /** An entry of the version, by its file. */
  lemma FromFile(mems: seq<seq<Entry>>, v: Version, s: Source, e: Entry) returns (l: nat, f: Table)
    requires Layered(mems, v) && IsSource(mems, v, s) && !s.Mem? && e in From(mems, v, s)
    ensures l == (if s.Zero? then 0 else s.l) && l < NumLevels && f in v[l] && e in f.entries && (s.Zero? ==> f == v[0][s.i]) && e in Stored(v)
  {
    if s.Zero? {
      l, f := 0, v[0][s.i];
    } else {
      ConcatOrdered(v[s.l]);
      l := s.l;
      f :| f in v[l] && e in f.entries;
    }
    assert e in Contents(v[l]);
  }

  /** Different sources never hold a version of one key under one sequence number. */
  lemma Apart(mems: seq<seq<Entry>>, v: Version, a: Source, b: Source, d: Entry, e: Entry)
    requires Layered(mems, v) && IsSource(mems, v, a) && IsSource(mems, v, b) && a != b && d in From(mems, v, a) && e in From(mems, v, b)
    ensures d.key.user != e.key.user || d.key.sn != e.key.sn
  {
    if a.Mem? {
      assert d in AsSet(mems[a.i]);
      if b.Mem? {
        assert e in AsSet(mems[b.i]);
      } else {
        var l, f := FromFile(mems, v, b, e);
      }
    } else {
      var l, f := FromFile(mems, v, a, d);
      if b.Mem? {
        assert e in AsSet(mems[b.i]);
      } else {
        var m, g := FromFile(mems, v, b, e);
        FilesApart(v, a, b, l, m, f, g, d, e);
      }
    }
  }

  lemma FilesApart(v: Version, a: Source, b: Source, l: nat, m: nat, f: Table, g: Table, d: Entry, e: Entry)
    requires Valid(v) && l < NumLevels && m < NumLevels && f in v[l] && g in v[m] && d in f.entries && e in g.entries
    requires a != b && !a.Mem? && !b.Mem? && l == (if a.Zero? then 0 else a.l) && m == (if b.Zero? then 0 else b.l)
    requires (a.Run? ==> a.l >= 1) && (b.Run? ==> b.l >= 1)
    requires (a.Zero? ==> a.i < |v[0]| && f == v[0][a.i]) && (b.Zero? ==> b.i < |v[0]| && g == v[0][b.i])
    ensures d.key.user != e.key.user || d.key.sn != e.key.sn
  {
    if l == m {
      ZeroFilesDiffer(v, a.i, b.i);
      Unrelated(v, 0, 0, f, g, d, e);
    } else if l < m {
      Unrelated(v, l, m, f, g, d, e);
    } else {
      Unrelated(v, m, l, g, f, e, d);
    }
  }

  lemma ZeroFilesDiffer(v: Version, i: nat, j: nat)
    requires Valid(v) && i < |v[0]| && j < |v[0]| && i != j
    ensures v[0][i] != v[0][j]
  {
    if i < j {
      assert FileLess(v[0][i], v[0][j]);
    } else {
      assert FileLess(v[0][j], v[0][i]);
    }
  }

  // ---------------------------------------------------------------- the list of children

  /** The levels above 0 that have files, below level l. */
  function Runs(v: Version, l: nat): seq<Source>
    requires l <= |v|
  {
    if l <= 1 then [] else Runs(v, l - 1) + if v[l - 1] == [] then [] else [Run(l - 1)]
  }

  function MemSources(n: nat): seq<Source> {
    seq(n, i requires 0 <= i < n => Mem(i))
  }

  function ZeroSources(n: nat): seq<Source> {
    seq(n, i requires 0 <= i < n => Zero(i))
  }

  function AllSources(mems: seq<seq<Entry>>, v: Version): seq<Source>
    requires |v| == NumLevels
  {
    MemSources(|mems|) + ZeroSources(|v[0]|) + Runs(v, NumLevels)
  }

  lemma {:induction false} RunsIncrease(v: Version, l: nat)
    requires l <= |v|
    ensures forall c :: 0 <= c < |Runs(v, l)| ==> Runs(v, l)[c].Run? && 1 <= Runs(v, l)[c].l < l
    ensures forall c, d :: 0 <= c < d < |Runs(v, l)| ==> Runs(v, l)[c] != Runs(v, l)[d]
    ensures forall m :: 1 <= m < l && v[m] != [] ==> Run(m) in Runs(v, l)
  {
    if l > 1 {
      RunsIncrease(v, l - 1);
      forall m | 1 <= m < l && v[m] != [] ensures Run(m) in Runs(v, l) {
        if m < l - 1 {
          assert Run(m) in Runs(v, l - 1);
        }
      }
    }
  }

  lemma SourcesDiffer(mems: seq<seq<Entry>>, v: Version)
    requires |v| == NumLevels
    ensures forall c :: 0 <= c < |AllSources(mems, v)| ==> IsSource(mems, v, AllSources(mems, v)[c])
    ensures forall c, d :: 0 <= c < d < |AllSources(mems, v)| ==> AllSources(mems, v)[c] != AllSources(mems, v)[d]
  {
    RunsIncrease(v, NumLevels);
  }

  /** Every entry is in one of the sources, and nothing else is. */
  lemma SourcesCover(mems: seq<seq<Entry>>, v: Version, e: Entry)
    requires Layered(mems, v)
    ensures e in Held(mems, v) <==> exists s :: s in AllSources(mems, v) && IsSource(mems, v, s) && e in From(mems, v, s)
  {
    SourcesDiffer(mems, v);
    if s :| s in AllSources(mems, v) && IsSource(mems, v, s) && e in From(mems, v, s) {
      if !s.Mem? {
        var l, f := FromFile(mems, v, s, e);
      }
    }
    if e in Held(mems, v) {
      var s := SourceOf(mems, v, e);
    }
  }

  lemma SourceOf(mems: seq<seq<Entry>>, v: Version, e: Entry) returns (s: Source)
    requires Layered(mems, v) && e in Held(mems, v)
    ensures s in AllSources(mems, v) && IsSource(mems, v, s) && e in From(mems, v, s)
  {
    forall x ensures x in AllSources(mems, v) <==> x in MemSources(|mems|) || x in ZeroSources(|v[0]|) || x in Runs(v, NumLevels) {
    }
    var ms, zs, rs := MemSources(|mems|), ZeroSources(|v[0]|), Runs(v, NumLevels);
    if e in Stored(v) {
      var l :| 0 <= l < |v| && e in Contents(v[l]);
      var f :| f in v[l] && e in f.entries;
      if l == 0 {
        var i :| 0 <= i < |v[0]| && v[0][i] == f;
        s := Zero(i);
        assert zs[i] == s && s in ms + zs;
      } else {
        s := Run(l);
        RunsIncrease(v, NumLevels);
        assert s in rs;
        ConcatOrdered(v[l]);
      }
    } else {
      var i :| 0 <= i < |mems| && e in mems[i];
      s := Mem(i);
      assert ms[i] == s && s in ms + zs;
    }
  }

  function Lists(mems: seq<seq<Entry>>, v: Version, srcs: seq<Source>): seq<seq<Entry>>
    requires forall s :: s in srcs ==> IsSource(mems, v, s)
  {
    seq(|srcs|, c requires 0 <= c < |srcs| => From(mems, v, srcs[c]))
  }

  lemma ListsSnoc(mems: seq<seq<Entry>>, v: Version, srcs: seq<Source>, s: Source)
    requires (forall r :: r in srcs ==> IsSource(mems, v, r)) && IsSource(mems, v, s)
    ensures Lists(mems, v, srcs + [s]) == Lists(mems, v, srcs) + [From(mems, v, s)]
  {
  }

  /** What one merging iterator runs over. */
  ghost predicate AreChildren(mems: seq<seq<Entry>>, v: Version, list: seq<seq<Entry>>) {
    && |v| == NumLevels && (forall s :: s in AllSources(mems, v) ==> IsSource(mems, v, s))
    && list == Lists(mems, v, AllSources(mems, v))
  }

  /** NewInternalIterator and AddIterators. */
  method AddIterators(mems: seq<seq<Entry>>, v: Version) returns (list: seq<seq<Entry>>)
    requires |v| == NumLevels
    ensures AreChildren(mems, v, list)
  {
    SourcesDiffer(mems, v);
    ghost var ms, zs := MemSources(|mems|), ZeroSources(|v[0]|);
    ghost var srcs := ms;
    list := mems;
    for i := 0 to |v[0]|
      invariant srcs == ms + zs[..i] && (forall s :: s in srcs ==> IsSource(mems, v, s)) && list == Lists(mems, v, srcs)
    {
      ListsSnoc(mems, v, srcs, Zero(i));
      list := list + [v[0][i].entries];
      assert zs[..i + 1] == zs[..i] + [zs[i]];
      srcs := srcs + [Zero(i)];
    }
    assert srcs == ms + zs + Runs(v, 1);
    for level := 1 to NumLevels
      invariant srcs == ms + zs + Runs(v, level) && (forall s :: s in srcs ==> IsSource(mems, v, s)) && list == Lists(mems, v, srcs)
    {
      if v[level] != [] {
        ListsSnoc(mems, v, srcs, Run(level));
        list := list + [Concat(v[level])];
        srcs := srcs + [Run(level)];
      }
    }
  }

  lemma ChildrenMergeable(mems: seq<seq<Entry>>, v: Version, list: seq<seq<Entry>>)
    requires Layered(mems, v) && AreChildren(mems, v, list)
    ensures Mergeable(list)
  {
    var srcs := AllSources(mems, v);
    SourcesDiffer(mems, v);
    forall c | 0 <= c < |list| ensures Ordered(list[c]) {
      FromOrdered(mems, v, srcs[c]);
    }
    forall c, d, i, j | 0 <= c < d < |list| && 0 <= i < |list[c]| && 0 <= j < |list[d]|
      ensures list[c][i].key.user != list[d][j].key.user || list[c][i].key.sn != list[d][j].key.sn
    {
      Apart(mems, v, srcs[c], srcs[d], list[c][i], list[d][j]);
    }
  }

  /** The merge holds exactly the entries of memtables and version. */
  lemma MergeHolds(mems: seq<seq<Entry>>, v: Version, list: seq<seq<Entry>>, merged: seq<Entry>, place: seq<seq<nat>>)
    requires Layered(mems, v) && AreChildren(mems, v, list) && IsMerge(list, merged, place)
    ensures AsSet(merged) == Held(mems, v)
  {
    var srcs := AllSources(mems, v);
    SourcesDiffer(mems, v);
    MergeMembers(list, merged, place);
    forall e ensures e in merged <==> e in Held(mems, v) {
      SourcesCover(mems, v, e);
      if e in merged {
        var c :| 0 <= c < |list| && e in list[c];
        assert srcs[c] in srcs && e in From(mems, v, srcs[c]);
      }
      if s :| s in srcs && IsSource(mems, v, s) && e in From(mems, v, s) {
        var c :| 0 <= c < |srcs| && srcs[c] == s;
        assert e in list[c];
      }
    }
  }

  // ---------------------------------------------------------------- scans

  /** A cursor over memtables and version at a sequence number. */
  method NewIterator(mems: seq<seq<Entry>>, v: Version, sequence: nat) returns (c: Cursor)
    requires Layered(mems, v)
    ensures fresh(c) && fresh(c.iter) && c.sequence == sequence && c.At(|c.View()|) && AsSet(c.es) == Held(mems, v)
  {
    var list := AddIterators(mems, v);
    ChildrenMergeable(mems, v, list);
    ghost var merged, place := MergeExists(list);
    MergeHolds(mems, v, list, merged, place);
    var iter := new MergingIterator(list, merged, place);
    c := new Cursor(iter, sequence);
  }

  type Pairs = seq<(UserKey, string)>

  ghost predicate Rises(ps: Pairs) {
    forall a, b :: 0 <= a < b < |ps| ==> ps[a].0 < ps[b].0
  }

  /** The pairs are exactly what reads at the snapshot return. */
  ghost predicate AreReads(ps: Pairs, es: set<Entry>, sequence: nat) {
    forall k, x :: (k, x) in ps <==> Reads(es, k, sequence, Some(x))
  }

  lemma MapIsReads(es: seq<Entry>, sequence: nat)
    requires Ordered(es)
    ensures Rises(UserMap(es, sequence)) && AreReads(UserMap(es, sequence), AsSet(es), sequence)
  {
    UserMapIncreases(es, sequence);
    forall k, x ensures (k, x) in UserMap(es, sequence) <==> Reads(AsSet(es), k, sequence, Some(x)) {
      UserMapIsReads(es, sequence, k, x);
    }
  }

  /** The pair shown, with the cursor moved on. */
  method TakeNext(c: Cursor, ghost n: nat, ghost all: Pairs) returns (p: (UserKey, string))
    requires c.At(n) && c.valid && all == UserMap(c.es, c.sequence)
    modifies c, c.iter
    ensures n < |all| && p == all[n] && c.At(n + 1) && (c.valid <==> n + 1 < |all|)
  {
    PairsOf(c.es, c.sequence, |c.es|);
    c.ShowsUserMap(n);
    p := (c.Key(), c.Value());
    c.Next(n);
  }

  /** The pair shown, with the cursor moved back. */
  method TakePrev(c: Cursor, ghost n: nat, ghost all: Pairs) returns (p: (UserKey, string))
    requires c.At(n) && c.valid && all == UserMap(c.es, c.sequence)
    modifies c, c.iter
    ensures n < |all| && p == all[n] && c.At(if n == 0 then |all| else n - 1) && (c.valid <==> n > 0)
  {
    PairsOf(c.es, c.sequence, |c.es|);
    c.ShowsUserMap(n);
    p := (c.Key(), c.Value());
    c.Prev(n);
  }

  /** The pairs that a cursor shows one after the other. */
  method Collect(c: Cursor, ghost all: Pairs) returns (ps: Pairs)
    requires c.Sits() && all == UserMap(c.es, c.sequence)
    modifies c, c.iter
    ensures ps == all
  {
    c.SeekToFirst();
    PairsOf(c.es, c.sequence, |c.es|);
    ps := [];
    while c.valid
      invariant c.At(|ps|) && (c.valid <==> |ps| < |all|) && ps <= all
      decreases |all| - |ps|
    {
      var p := TakeNext(c, |ps|, all);
      ps := ps + [p];
    }
  }

  method StartLast(c: Cursor, ghost all: Pairs)
    requires c.Sits() && all == UserMap(c.es, c.sequence)
    modifies c, c.iter
    ensures c.At(if all == [] then |all| else |all| - 1) && (c.valid <==> all != [])
  {
    PairsOf(c.es, c.sequence, |c.es|);
    c.SeekToLast();
  }

  /** The same from the last one back. */
  method CollectBack(c: Cursor, ghost all: Pairs) returns (ps: Pairs)
    requires c.Sits() && all == UserMap(c.es, c.sequence)
    modifies c, c.iter
    ensures ps == all
  {
    StartLast(c, all);
    ps := [];
    ghost var n: nat := |all|;
    while c.valid
      invariant n <= |all| && ps == all[n..] && c.At(if n == 0 then |all| else n - 1) && (c.valid <==> n > 0)
      decreases n
    {
      var p := TakePrev(c, n - 1, all);
      ps := [p] + ps;
      n := n - 1;
    }
  }

  /** From the first pair to the last: in key order, exactly what reads at the snapshot return. */
  method Scan(mems: seq<seq<Entry>>, v: Version, sequence: nat) returns (ps: Pairs)
    requires Layered(mems, v)
    ensures Rises(ps) && AreReads(ps, Held(mems, v), sequence)
  {
    var c := NewIterator(mems, v, sequence);
    ps := Collect(c, UserMap(c.es, sequence));
    MapIsReads(c.es, sequence);
  }

  /** From the last pair back to the first: the same pairs. */
  method ScanBack(mems: seq<seq<Entry>>, v: Version, sequence: nat) returns (ps: Pairs)
    requires Layered(mems, v)
    ensures Rises(ps) && AreReads(ps, Held(mems, v), sequence)
  {
    var c := NewIterator(mems, v, sequence);
    ps := CollectBack(c, UserMap(c.es, sequence));
    MapIsReads(c.es, sequence);
  }

  /** What reads return leaves one list in key order. */
  lemma {:induction false} OneScan(ps: Pairs, qs: Pairs)
    requires Rises(ps) && Rises(qs) && forall p :: p in ps <==> p in qs
    ensures ps == qs
  {
    if qs == [] {
      NoneIn(ps, qs);
    } else if ps == [] {
      NoneIn(qs, ps);
    } else {
      assert ps[0] in qs;
      assert qs[0] in ps;
      var i :| 0 <= i < |qs| && qs[i] == ps[0];
      var j :| 0 <= j < |ps| && ps[j] == qs[0];
      assert ps[0] == qs[0];
      forall p ensures p in ps[1..] <==> p in qs[1..] {
        InTail(ps, p);
        InTail(qs, p);
      }
      OneScan(ps[1..], qs[1..]);
      assert ps == [ps[0]] + ps[1..] && qs == [qs[0]] + qs[1..];
    }
  }

  lemma HasOne(ps: Pairs)
    requires ps != []
    ensures exists p :: p in ps
  {
    assert ps[0] in ps;
  }

  lemma NoneIn(ps: Pairs, qs: Pairs)
    requires qs == [] && forall p :: p in ps ==> p in qs
    ensures ps == []
  {
    if ps != [] {
      HasOne(ps);
      assert false;
    }
  }

  lemma InTail(ps: Pairs, p: (UserKey, string))
    requires Rises(ps) && ps != []
    ensures p in ps[1..] <==> p in ps && p != ps[0]
  {
  }

  lemma SameReadsSameScan(ps: Pairs, qs: Pairs, es: set<Entry>, fs: set<Entry>, sequence: nat)
    requires Rises(ps) && AreReads(ps, es, sequence) && Rises(qs) && AreReads(qs, fs, sequence)
    requires forall k, x :: Reads(es, k, sequence, Some(x)) <==> Reads(fs, k, sequence, Some(x))
    ensures ps == qs
  {
    forall p ensures p in ps <==> p in qs {
      var (k, x) := p;
      assert (k, x) in ps <==> Reads(es, k, sequence, Some(x));
      assert (k, x) in qs <==> Reads(fs, k, sequence, Some(x));
    }
    OneScan(ps, qs);
  }

  lemma HeldAlone(v: Version)
    ensures Held([], v) == Stored(v)
  {
  }

  /** A compaction changes no scan at a live snapshot, whichever way it goes. */
  method ScanAcrossCompaction(v: Version, level: nat, index: nat, sizeLimit: nat, cheapMove: bool, snapshot: nat, number: nat,
                              stopBefore: nat -> bool, full: nat -> bool, sequence: nat)
    returns (before: Pairs, after: Pairs)
    requires Valid(v) && level + 1 < NumLevels && index < |v[level]| && snapshot < MaxSequenceNumber && snapshot <= sequence
    ensures before == after && Rises(before) && AreReads(before, Stored(v), sequence)
  {
    HeldAlone(v);
    before := Scan([], v, sequence);
    var w, _, _, _, _ := Compact(v, level, index, sizeLimit, cheapMove, snapshot, number, stopBefore, full);
    HeldAlone(w);
    after := ScanBack([], w, sequence);
    SameReadsSameScan(before, after, Stored(v), Stored(w), sequence);
  }
}
