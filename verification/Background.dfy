/**
  One background compaction from end to end (leveldb/db/db_impl.cc:
  BackgroundCompaction, DoCompactionWork; leveldb/db/version_set.cc:
  MakeInputIterator): pick, merge, drop, install.
*/
module Background {
  import opened DbFormat
  import opened Versions
  import opened Selection
  import opened Compactions
  import opened Merger

  /** The entries of a sorted run of files, in order (a concatenating iterator). */
  function Concat(fs: seq<Table>): seq<Entry> {
    if fs == [] then [] else Concat(fs[..|fs| - 1]) + fs[|fs| - 1].entries
  }

  lemma {:induction false} ConcatOrdered(fs: seq<Table>)
    requires SortedLevel(fs)
    ensures Ordered(Concat(fs))
    ensures forall e :: e in Concat(fs) <==> e in Contents(fs)
  {
    if fs != [] {
      var n := |fs| - 1;
      var front, last := Concat(fs[..n]), fs[n].entries;
      ConcatOrdered(fs[..n]);
      ContentsAppend(fs[..n], fs[n]);
      assert fs == fs[..n] + [fs[n]];
      forall i, j | 0 <= i < |front| && 0 <= j < |last|
        ensures Before(front[i].key, last[j].key)
      {
        assert front[i] in front;
        var f :| f in fs[..n] && front[i] in f.entries;
        var k :| 0 <= k < n && fs[k] == f;
        FilesOrdered(fs, k, n, front[i], last[j]);
      }
    }
  }

  /** MakeInputIterator: one child per level-0 file, one per run of sorted files. */
  function Sources(level: nat, in0: seq<Table>, in1: seq<Table>): seq<seq<Entry>> {
    (if level == 0 then seq(|in0|, i requires 0 <= i < |in0| => in0[i].entries) else [Concat(in0)])
    + (if in1 == [] then [] else [Concat(in1)])
  }

  lemma Unrelated(v: Version, a: nat, b: nat, f: Table, g: Table, d: Entry, e: Entry)
    requires Valid(v) && a <= b < NumLevels && f in v[a] && g in v[b] && d in f.entries && e in g.entries
    requires a != b || (a == 0 && f != g)
    ensures d.key.user != e.key.user || d.key.sn != e.key.sn
  {
    assert a < b ==> FresherLevel(v[a], v[b]);
    assert Fresher(f, g) || Fresher(g, f);
  }

  lemma SourceEntries(v: Version, level: nat, in0: seq<Table>, in1: seq<Table>)
    requires Valid(v) && level + 1 < NumLevels && Selected(v, level, in0, in1)
    ensures forall c, e :: 0 <= c < |Sources(level, in0, in1)| && e in Sources(level, in0, in1)[c] ==> e in Contents(in0 + in1)
    ensures forall e :: e in Contents(in0 + in1) ==> exists c :: 0 <= c < |Sources(level, in0, in1)| && e in Sources(level, in0, in1)[c]
  {
    var src: seq<seq<Entry>> := Sources(level, in0, in1);
    var k := if level == 0 then |in0| else 1;
    ConcatOrdered(in1);
    if level > 0 {
      ConcatOrdered(in0);
    }
    forall c, e | 0 <= c < |src| && e in src[c]
      ensures e in Contents(in0 + in1)
    {
      if level == 0 && c < k {
        assert in0[c] in in0 + in1;
      } else {
        var f :| (f in in0 || f in in1) && e in f.entries;
        assert f in in0 + in1;
      }
    }
    forall e | e in Contents(in0 + in1)
      ensures exists c :: 0 <= c < |src| && e in src[c]
    {
      var f :| f in in0 + in1 && e in f.entries;
      if f in in0 && level == 0 {
        var c :| 0 <= c < |in0| && in0[c] == f;
        assert src[c] == f.entries;
      } else if f in in0 {
        assert e in Contents(in0) && e in src[0];
      } else {
        assert e in Contents(in1) && src[k] == Concat(in1);
      }
    }
  }

  lemma SourcesMergeable(v: Version, level: nat, in0: seq<Table>, in1: seq<Table>)
    requires Valid(v) && level + 1 < NumLevels && Selected(v, level, in0, in1)
    ensures Mergeable(Sources(level, in0, in1))
  {
    var src: seq<seq<Entry>> := Sources(level, in0, in1);
    ConcatOrdered(in1);
    if level > 0 {
      ConcatOrdered(in0);
    }
    forall c, d, i, j | 0 <= c < d < |src| && 0 <= i < |src[c]| && 0 <= j < |src[d]|
      ensures src[c][i].key.user != src[d][j].key.user || src[c][i].key.sn != src[d][j].key.sn
    {
      assert src[c][i] in src[c] && src[d][j] in src[d];
      if level == 0 && d < |in0| {
        assert FileLess(in0[c], in0[d]);
        Unrelated(v, 0, 0, in0[c], in0[d], src[c][i], src[d][j]);
      } else {
        var g :| g in in1 && src[d][j] in g.entries;
        if level == 0 {
          Unrelated(v, 0, 1, in0[c], g, src[c][i], src[d][j]);
        } else {
          var f :| f in in0 && src[c][i] in f.entries;
          Unrelated(v, level, level + 1, f, g, src[c][i], src[d][j]);
        }
      }
    }
  }

  /** Walking the merging iterator from its first entry to the end lists the merge. */
  method Drain(children: seq<seq<Entry>>, ghost merged: seq<Entry>, ghost place: seq<seq<nat>>) returns (input: seq<Entry>)
    requires IsMerge(children, merged, place)
    ensures input == merged
  {
    var it := new MergingIterator(children, merged, place);
    it.SeekToFirst();
    input := [];
    while it.IsValid()
      invariant it.merged == merged && it.At(|input|) && input == merged[..|input|]
      decreases |merged| - |input|
    {
      it.ShowsMerge(|input|);
      ghost var n := |input|;
      input := input + [it.Shown()];
      it.Next(n);
    }
  }

  method MergedInput(v: Version, level: nat, in0: seq<Table>, in1: seq<Table>) returns (input: seq<Entry>)
    requires Valid(v) && level + 1 < NumLevels && Selected(v, level, in0, in1)
    ensures Ordered(input) && forall e :: e in input <==> e in Contents(in0 + in1)
  {
    var children := Sources(level, in0, in1);
    SourcesMergeable(v, level, in0, in1);
    ghost var merged, place := MergeExists(children);
    input := Drain(children, merged, place);
    SourceEntries(v, level, in0, in1);
    MergeMembers(children, merged, place);
  }

  lemma MergeMembers(children: seq<seq<Entry>>, merged: seq<Entry>, place: seq<seq<nat>>)
    requires IsMerge(children, merged, place)
    ensures forall e :: e in merged <==> exists c :: 0 <= c < |children| && e in children[c]
  {
    forall e | e in merged
      ensures exists c :: 0 <= c < |children| && e in children[c]
    {
      var m :| 0 <= m < |merged| && merged[m] == e;
      assert HasPlace(place, m);
      var c, j :| 0 <= c < |place| && 0 <= j < |place[c]| && place[c][j] == m;
      assert children[c][j] == e;
    }
  }

  lemma RestMergeable(v: Version, level: nat, in0: seq<Table>, in1: seq<Table>, outs: seq<Table>, f: Table, o: Table)
    requires Valid(v) && level + 1 < NumLevels && Selected(v, level, in0, in1)
    requires forall e :: e in Contents(outs) ==> e in Contents(in0 + in1)
    requires f in v[level + 1] && f !in in1 && o in outs
    ensures FileLess(f, o) || FileLess(o, f)
  {
    assert forall e :: e in o.entries ==> e in Contents(outs);
    AsideOutput(f, in0 + in1, o);
    SmallestBeforeLargest(f);
    SmallestBeforeLargest(o);
  }

  /** InstallCompactionResults: remove the inputs of both levels, add the outputs to the lower one. */
  method Install(v: Version, level: nat, in0: seq<Table>, in1: seq<Table>, outs: seq<Table>) returns (w: Version)
    requires Valid(v) && level + 1 < NumLevels && Selected(v, level, in0, in1)
    requires SortedLevel(outs) && forall e :: e in Contents(outs) ==> e in Contents(in0 + in1)
    ensures Installed(v, level, in0, in1, outs, w)
  {
    SortedIsFirst(outs);
    if level > 0 {
      SortedIsFirst(v[level]);
    }
    SortedIsFirst(v[level + 1]);
    var upper := SaveTo(v[level], in0, []);
    forall f, o | f in v[level + 1] && f !in in1 && o in outs
      ensures FileLess(f, o) || FileLess(o, f)
    {
      RestMergeable(v, level, in0, in1, outs, f, o);
    }
    var lower := SaveTo(v[level + 1], in1, outs);
    w := v[level := upper][level + 1 := lower];
  }

  lemma SortedIsFirst(fs: seq<Table>)
    requires SortedLevel(fs)
    ensures SmallestFirst(fs)
  {
    forall i, j | 0 <= i < j < |fs|
      ensures FileLess(fs[i], fs[j])
    {
      SmallestBeforeLargest(fs[i]);
    }
  }

  /** Output files numbered from `number`, one per list of entries. */
  method OutputFiles(parts: seq<seq<Entry>>, number: nat) returns (outs: seq<Table>)
    requires Ordered(Flatten(parts)) && forall p :: p in parts ==> p != []
    ensures |outs| == |parts| && forall i :: 0 <= i < |parts| ==> outs[i].entries == parts[i]
  {
    outs := [];
    for i := 0 to |parts|
      invariant |outs| == i && forall k :: 0 <= k < i ==> outs[k].entries == parts[k]
    {
      PartOrdered(parts, i);
      assert parts[i] in parts;
      var f: Table := File(number + i, |parts[i]|, parts[i]);
      outs := outs + [f];
    }
  }

  lemma {:induction false} PartOrdered(parts: seq<seq<Entry>>, i: nat)
    requires Ordered(Flatten(parts)) && i < |parts|
    ensures Ordered(parts[i])
  {
    var n := |parts| - 1;
    var front := Flatten(parts[..n]);
    assert forall k :: 0 <= k < |front| ==> front[k] == Flatten(parts)[k];
    assert forall k :: 0 <= k < |parts[n]| ==> parts[n][k] == Flatten(parts)[|front| + k];
    if i < n {
      PartOrdered(parts[..n], i);
    }
  }

  function EntryLists(fs: seq<Table>): seq<seq<Entry>> {
    seq(|fs|, i requires 0 <= i < |fs| => fs[i].entries)
  }

  ghost predicate SameReads(v: Version, w: Version, snapshot: nat) {
    forall k, s, r :: s >= snapshot ==> (Reads(Stored(v), k, s, r) <==> Reads(Stored(w), k, s, r))
  }

  lemma CompactedSame(v: Version, level: nat, in0: seq<Table>, in1: seq<Table>, input: seq<Entry>, outs: seq<Table>, snapshot: nat, w: Version)
    requires Compacted(v, level, in0, in1, input, outs, snapshot, w)
    ensures Valid(w) && SameReads(v, w, snapshot)
  {
    CompactionKeepsValid(v, level, in0, in1, input, outs, snapshot, w);
    forall k, s, r | s >= snapshot
      ensures Reads(Stored(v), k, s, r) <==> Reads(Stored(w), k, s, r)
    {
      CompactionPreservesReads(v, level, in0, in1, input, outs, snapshot, w, k, s, r);
    }
  }

  /**
    Compacting any level from any file of it, with output files closed anywhere, replaces
    closed inputs with that file among them by the same file a level down, or by files with exactly
    the entries that are not to be dropped. It leaves a well-formed version and every read
    at a live snapshot unchanged.
  */
  method Compact(v: Version, level: nat, index: nat, sizeLimit: nat, cheapMove: bool, snapshot: nat, number: nat,
                 stopBefore: nat -> bool, full: nat -> bool)
    returns (w: Version, in0: seq<Table>, in1: seq<Table>, outs: seq<Table>, ghost merged: seq<Entry>)
    requires Valid(v) && level + 1 < NumLevels && index < |v[level]| && snapshot < MaxSequenceNumber
    ensures Valid(w) && SameReads(v, w, snapshot)
    ensures v[level][index] in in0 && Compacted(v, level, in0, in1, merged, outs, snapshot, w)
    ensures if |in0| == 1 && in1 == [] && cheapMove then outs == in0
            else Flatten(EntryLists(outs)) == Kept(merged, |merged|, snapshot, v, level)
  {
    in0, in1 := PickCompaction(v, level, index, sizeLimit);
    if |in0| == 1 && in1 == [] && cheapMove {
      outs := in0;
      TrivialMoveIsSafe(in0[0], snapshot, v, level);
      merged := in0[0].entries;
      assert in0 + in1 == [in0[0]] && in0 == [in0[0]];
      ContentsAppend([], in0[0]);
      assert [] + [in0[0]] == in0;
    } else {
      var input := MergedInput(v, level, in0, in1);
      var c := new Compaction(v, level);
      var parts := DoCompactionWork(c, input, snapshot, stopBefore, full);
      KeptMembers(input, |input|, snapshot, v, level);
      outs := OutputFiles(parts, number);
      KeptIsSafe(input, parts, outs, snapshot, v, level);
      merged := input;
      assert EntryLists(outs) == parts;
    }
    assert SafeOutput(merged, outs, snapshot, v, level);
    w := Install(v, level, in0, in1, outs);
    CompactedSame(v, level, in0, in1, merged, outs, snapshot, w);
  }
}
