/**
  Merging the inputs of a compaction and installing the result
  (leveldb/db/db_impl.cc: DoCompactionWork; leveldb/db/version_set.cc:
  Compaction::IsBaseLevelForKey, VersionSet::Builder::SaveTo).
*/
module Compactions {
  import opened DbFormat
  import opened Versions
  import opened Selection

  const MaxSequenceNumber: nat := 0xFF_FFFF_FFFF_FFFF

  /** A full scan: no file two or more levels below `level` has `k` in its range. */
  ghost predicate BaseLevel(v: Version, level: nat, k: UserKey) {
    forall l, f :: level + 2 <= l < |v| && f in v[l] ==> !(f.Smallest().user <= k <= f.Largest().user)
  }

  class Compaction {
    const version: Version
    const level: nat
    var levelPtrs: seq<nat>
    ghost var asked: Option<UserKey>   // the last key asked about

    ghost predicate Ok()
      reads this
    {
      && Valid(version)
      && |levelPtrs| == NumLevels
      && forall l :: level + 2 <= l < NumLevels ==> Passed(l, levelPtrs[l])
    }

    /** Every file before the cursor ends before the last key asked about. */
    ghost predicate Passed(l: nat, p: nat)
      requires l < |version|
      reads this
    {
      && p <= |version[l]|
      && forall i :: 0 <= i < p ==> asked.Some? && version[l][i].Largest().user < asked.value
    }

    constructor (version: Version, level: nat)
      requires Valid(version)
      ensures Ok() && this.version == version && this.level == level && asked == None
    {
      this.version := version;
      this.level := level;
      levelPtrs := seq(NumLevels, i => 0);
      asked := None;
    }

    /** The cursors only move forward, yet answer like a full scan for non-decreasing keys. */
    method IsBaseLevelForKey(k: UserKey) returns (r: bool)
      requires Ok() && (asked.None? || asked.value <= k)
      modifies this
      ensures Ok() && asked == Some(k)
      ensures r <==> BaseLevel(version, level, k)
    {
      asked := Some(k);
      var l := level + 2;
      while l < NumLevels
        invariant Ok() && asked == Some(k)
        invariant l >= level + 2
        invariant forall m, f :: level + 2 <= m < l && m < NumLevels && f in version[m] ==> !(f.Smallest().user <= k <= f.Largest().user)
      {
        var files := version[l];
        while levelPtrs[l] < |files| && k > files[levelPtrs[l]].Largest().user
          invariant Ok() && asked == Some(k)
          decreases |files| - levelPtrs[l]
        {
          levelPtrs := levelPtrs[l := levelPtrs[l] + 1];
        }
        var p := levelPtrs[l];
        if p < |files| {
          if k >= files[p].Smallest().user {
            assert files[p] in version[l];
            return false;
          }
          forall i | p <= i < |files|
            ensures k < files[i].Smallest().user
          {
            SmallestBeforeLargest(files[p]);
          }
        }
        l := l + 1;
      }
      r := true;
    }

    /** Rules (A) and (B) of the compaction loop for one entry. */
    method Drops(e: Entry, lastSequenceForKey: nat, snapshot: nat) returns (drop: bool)
      requires Ok() && (asked.None? || asked.value <= e.key.user)
      modifies this
      ensures Ok() && (asked == old(asked) || asked == Some(e.key.user))
      ensures drop <==> lastSequenceForKey <= snapshot || Obsolete(e, snapshot, version, level)
    {
      drop := false;
      if lastSequenceForKey <= snapshot {
        drop := true;
      } else if e.key.kind.Deletion? && e.key.sn <= snapshot {
        drop := IsBaseLevelForKey(e.key.user);
      }
    }
  }

  // ---------------------------------------------------------------- the drop rules

  /** Rule (A): the previous version in the input is already old enough to hide this one. */
  predicate Hidden(es: seq<Entry>, i: nat, snapshot: nat)
    requires i < |es|
  {
    i > 0 && es[i - 1].key.user == es[i].key.user && es[i - 1].key.sn <= snapshot
  }

  /** Rule (B): a deletion marker with nothing below it. */
  ghost predicate Obsolete(e: Entry, snapshot: nat, v: Version, level: nat) {
    e.key.kind.Deletion? && e.key.sn <= snapshot && BaseLevel(v, level, e.key.user)
  }

  ghost predicate Dropped(es: seq<Entry>, i: nat, snapshot: nat, v: Version, level: nat)
    requires i < |es|
  {
    Hidden(es, i, snapshot) || Obsolete(es[i], snapshot, v, level)
  }

  ghost function Kept(es: seq<Entry>, n: nat, snapshot: nat, v: Version, level: nat): seq<Entry>
    requires n <= |es|
  {
    if n == 0 then []
    else Kept(es, n - 1, snapshot, v, level) + (if Dropped(es, n - 1, snapshot, v, level) then [] else [es[n - 1]])
  }

  function Flatten(outputs: seq<seq<Entry>>): seq<Entry> {
    if outputs == [] then [] else Flatten(outputs[..|outputs| - 1]) + outputs[|outputs| - 1]
  }

  lemma FlattenAppend(outputs: seq<seq<Entry>>, last: seq<Entry>)
    ensures Flatten(outputs + [last]) == Flatten(outputs) + last
  {
    assert (outputs + [last])[..|outputs|] == outputs;
  }

  /** CompactionState: the finished output files and the one being built, empty when none is open. */
  class CompactionState {
    var outputs: seq<seq<Entry>>
    var builder: seq<Entry>

    ghost predicate Ok()
      reads this
    {
      forall o :: o in outputs ==> o != []
    }

    ghost function Written(): seq<Entry>
      reads this
    {
      Flatten(outputs) + builder
    }

    constructor ()
      ensures Ok() && Written() == []
    {
      outputs, builder := [], [];
    }

    method Finish()
      requires Ok()
      modifies this
      ensures Ok() && Written() == old(Written()) && builder == []
    {
      if builder != [] {
        FlattenAppend(outputs, builder);
        outputs, builder := outputs + [builder], [];
      }
    }

    method Add(e: Entry)
      requires Ok()
      modifies this
      ensures Ok() && Written() == old(Written()) + [e]
    {
      builder := builder + [e];
    }
  }

  /**
    DBImpl::DoCompactionWork.  `stopBefore` and `full` stand for the decisions to
    close an output file (grandparent overlap and file size): they may fall anywhere.
  */
  method DoCompactionWork(c: Compaction, input: seq<Entry>, snapshot: nat, stopBefore: nat -> bool, full: nat -> bool)
    returns (outputs: seq<seq<Entry>>)
    requires c.Ok() && c.asked == None && Ordered(input) && snapshot < MaxSequenceNumber
    modifies c
    ensures Flatten(outputs) == Kept(input, |input|, snapshot, c.version, c.level)
    ensures forall o :: o in outputs ==> o != []
  {
    var compact := new CompactionState();
    var currentUserKey := 0.0;
    var hasCurrentUserKey := false;
    var lastSequenceForKey := MaxSequenceNumber;
    var i := 0;
    while i < |input|
      invariant 0 <= i <= |input| && c.Ok() && compact.Ok()
      invariant hasCurrentUserKey <==> i > 0
      invariant i > 0 ==> currentUserKey == input[i - 1].key.user && lastSequenceForKey == input[i - 1].key.sn
      invariant c.asked.Some? ==> i > 0 && c.asked.value <= input[i - 1].key.user
      invariant compact.Written() == Kept(input, i, snapshot, c.version, c.level)
    {
      var e := input[i];
      if stopBefore(i) {
        compact.Finish();
      }
      if !hasCurrentUserKey || e.key.user != currentUserKey {
        currentUserKey := e.key.user;
        hasCurrentUserKey := true;
        lastSequenceForKey := MaxSequenceNumber;
      }
      assert i > 0 ==> Before(input[i - 1].key, e.key);
      var drop := c.Drops(e, lastSequenceForKey, snapshot);
      lastSequenceForKey := e.key.sn;
      if !drop {
        compact.Add(e);
        if full(i) {
          compact.Finish();
        }
      }
      i := i + 1;
    }
    compact.Finish();
    outputs := compact.outputs;
    assert compact.Written() == Flatten(outputs);
  }

  // ---------------------------------------------------------------- installing the result

  ghost predicate AllLess(fs: seq<Table>, g: Table) {
    forall f :: f in fs ==> FileLess(f, g)
  }

  /** Appending `f` to an ordered list keeps everything that comes later after it. */
  lemma AppendLess(r: seq<Table>, f: Table)
    requires SmallestFirst(r) && AllLess(r, f)
    ensures SmallestFirst(r + [f])
    ensures forall g :: FileLess(f, g) ==> AllLess(r + [f], g)
  {
    assert forall i :: 0 <= i < |r| ==> r[i] in r;
  }

  /** VersionSet::Builder::SaveTo for one level: a merge that drops the deleted files. */
  method SaveTo(base: seq<Table>, deleted: seq<Table>, added: seq<Table>) returns (r: seq<Table>)
    requires SmallestFirst(base) && SmallestFirst(added)
    requires forall f, g :: f in base && f !in deleted && g in added ==> FileLess(f, g) || FileLess(g, f)
    ensures forall f :: f in r <==> (f in base && f !in deleted) || f in added
    ensures SmallestFirst(r)
  {
    r := [];
    var a, b := 0, 0;
    while a < |added|
      invariant 0 <= a <= |added| && 0 <= b <= |base|
      invariant forall f :: f in r <==> (f in base[..b] && f !in deleted) || f in added[..a]
      invariant SmallestFirst(r)
      invariant forall j :: b <= j < |base| && base[j] !in deleted ==> AllLess(r, base[j])
      invariant forall j :: a <= j < |added| ==> AllLess(r, added[j])
    {
      while b < |base| && !FileLess(added[a], base[b])
        invariant 0 <= b <= |base|
        invariant forall f :: f in r <==> (f in base[..b] && f !in deleted) || f in added[..a]
        invariant SmallestFirst(r)
        invariant forall j :: b <= j < |base| && base[j] !in deleted ==> AllLess(r, base[j])
        invariant forall j :: a <= j < |added| ==> AllLess(r, added[j])
      {
        assert base[..b + 1] == base[..b] + [base[b]];
        if base[b] !in deleted {
          AppendLess(r, base[b]);
          r := r + [base[b]];
        }
        b := b + 1;
      }
      assert added[..a + 1] == added[..a] + [added[a]];
      AppendLess(r, added[a]);
      r := r + [added[a]];
      a := a + 1;
    }
    assert added[..a] == added;
    while b < |base|
      invariant 0 <= b <= |base|
      invariant forall f :: f in r <==> (f in base[..b] && f !in deleted) || f in added
      invariant SmallestFirst(r)
      invariant forall j :: b <= j < |base| && base[j] !in deleted ==> AllLess(r, base[j])
    {
      assert base[..b + 1] == base[..b] + [base[b]];
      if base[b] !in deleted {
        AppendLess(r, base[b]);
        r := r + [base[b]];
      }
      b := b + 1;
    }
    assert base[..b] == base;
  }

  /** `w` is `v` with the inputs removed from two levels and `outs` added to the lower one. */
  ghost predicate Installed(v: Version, level: nat, in0: seq<Table>, in1: seq<Table>, outs: seq<Table>, w: Version)
    requires |v| == NumLevels && level + 1 < NumLevels
  {
    && |w| == NumLevels
    && (forall l :: 0 <= l < NumLevels && l != level && l != level + 1 ==> w[l] == v[l])
    && (forall f :: f in w[level] <==> f in v[level] && f !in in0)
    && (forall f :: f in w[level + 1] <==> (f in v[level + 1] && f !in in1) || f in outs)
    && SmallestFirst(w[level]) && SmallestFirst(w[level + 1])
  }

  /**
    What the output of a compaction keeps of its input: only dropped entries are
    missing, and with an obsolete deletion marker go all older versions of its key.
  */
  ghost predicate SafeOutput(input: seq<Entry>, outs: seq<Table>, snapshot: nat, v: Version, level: nat) {
    && SortedLevel(outs)
    && (forall e :: e in Contents(outs) ==> e in input)
    && (forall i :: 0 <= i < |input| && input[i] !in Contents(outs) ==> Dropped(input, i, snapshot, v, level))
    && (forall i, j ::
          0 <= i < j < |input| && input[i].key.user == input[j].key.user &&
          input[i] !in Contents(outs) && Obsolete(input[i], snapshot, v, level)
          ==> input[j] !in Contents(outs))
  }

  lemma {:induction false} KeptMembers(es: seq<Entry>, n: nat, snapshot: nat, v: Version, level: nat)
    requires n <= |es| && Ordered(es)
    ensures forall e :: e in Kept(es, n, snapshot, v, level) <==> exists i :: 0 <= i < n && es[i] == e && !Dropped(es, i, snapshot, v, level)
    ensures Ordered(Kept(es, n, snapshot, v, level))
  {
    if n > 0 {
      KeptMembers(es, n - 1, snapshot, v, level);
      var before := Kept(es, n - 1, snapshot, v, level);
      forall k | 0 <= k < |before|
        ensures Before(before[k].key, es[n - 1].key)
      {
        assert before[k] in before;
      }
    }
  }

  lemma OrderIs(es: seq<Entry>, i: nat, j: nat)
    requires Ordered(es) && i < |es| && j < |es| && i != j
    ensures Before(es[i].key, es[j].key) <==> i < j
  {
    assert i < j ==> Before(es[i].key, es[j].key);
    assert j < i ==> Before(es[j].key, es[i].key);
  }

  /** If a newer version of a key is in the input, the one just before is a version too, and no newer. */
  lemma NeighbourHides(es: seq<Entry>, i: nat, j: nat)
    requires Ordered(es) && i < |es| && j < |es| && es[j].key.user == es[i].key.user && es[i].key.sn < es[j].key.sn
    ensures j < i && es[i - 1].key.user == es[i].key.user && es[i - 1].key.sn <= es[j].key.sn
  {
    OrderIs(es, j, i);
    assert j == i - 1 || Before(es[j].key, es[i - 1].key);
    assert Before(es[i - 1].key, es[i].key);
  }

  /** An entry is hidden exactly if the input has a newer version of its key that every live snapshot sees. */
  lemma HiddenExact(es: seq<Entry>, i: nat, snapshot: nat)
    requires Ordered(es) && i < |es|
    ensures Hidden(es, i, snapshot) <==> exists o :: o in es && o.key.user == es[i].key.user && es[i].key.sn < o.key.sn <= snapshot
  {
    if Hidden(es, i, snapshot) {
      assert es[i - 1] in es && Before(es[i - 1].key, es[i].key);
    }
    if o :| o in es && o.key.user == es[i].key.user && es[i].key.sn < o.key.sn <= snapshot {
      var j :| 0 <= j < |es| && es[j] == o;
      NeighbourHides(es, i, j);
    }
  }

  /** What a compaction keeps: the entries that some live snapshot reads from the input, but for deletions with nothing behind them. */
  lemma KeptExact(es: seq<Entry>, snapshot: nat, v: Version, level: nat, e: Entry)
    requires Ordered(es)
    ensures e in Kept(es, |es|, snapshot, v, level) <==>
            e in es && (forall o :: o in es && o.key.user == e.key.user && o.key.sn > e.key.sn ==> o.key.sn > snapshot) && !Obsolete(e, snapshot, v, level)
  {
    KeptMembers(es, |es|, snapshot, v, level);
    forall i | 0 <= i < |es| && es[i] == e
      ensures Hidden(es, i, snapshot) <==> !forall o :: o in es && o.key.user == e.key.user && o.key.sn > e.key.sn ==> o.key.sn > snapshot
    {
      HiddenExact(es, i, snapshot);
    }
  }

  /** Cutting an ordered list into files gives a sorted level with the same entries. */
  lemma {:induction false} FlattenSorted(parts: seq<seq<Entry>>, outs: seq<Table>)
    requires Ordered(Flatten(parts)) && |outs| == |parts|
    requires forall i :: 0 <= i < |parts| ==> outs[i].entries == parts[i]
    ensures SortedLevel(outs)
    ensures forall e :: e in Contents(outs) <==> e in Flatten(parts)
  {
    if parts != [] {
      var n := |parts| - 1;
      var front, last := Flatten(parts[..n]), parts[n];
      assert forall i :: 0 <= i < |front| ==> front[i] == Flatten(parts)[i];
      FlattenSorted(parts[..n], outs[..n]);
      assert outs == outs[..n] + [outs[n]];
      ContentsAppend(outs[..n], outs[n]);
      forall i | 0 <= i < n
        ensures Before(outs[i].Largest(), outs[n].Smallest())
      {
        var d := outs[i].entries[|outs[i].entries| - 1];
        assert outs[..n][i] == outs[i];
        assert outs[..n][i] in outs[..n] && d in outs[i].entries;
        assert d in Contents(outs[..n]);
        var k :| 0 <= k < |front| && front[k] == d;
        assert Flatten(parts)[k] == d && Flatten(parts)[|front|] == last[0];
      }
      forall i, j | 0 <= i < j < n
        ensures Before(outs[i].Largest(), outs[j].Smallest())
      {
        assert outs[..n][i] == outs[i] && outs[..n][j] == outs[j];
      }
    }
  }

  lemma ContentsAppend(fs: seq<Table>, f: Table)
    ensures forall e :: e in Contents(fs + [f]) <==> e in Contents(fs) || e in f.entries
  {
    assert f in fs + [f];
    forall e | e in Contents(fs)
      ensures e in Contents(fs + [f])
    {
      var g :| g in fs && e in g.entries;
      assert g in fs + [f];
    }
  }

  /** The files written by DoCompactionWork are a safe output. */
  lemma KeptIsSafe(input: seq<Entry>, parts: seq<seq<Entry>>, outs: seq<Table>, snapshot: nat, v: Version, level: nat)
    requires Ordered(input) && |outs| == |parts|
    requires Flatten(parts) == Kept(input, |input|, snapshot, v, level)
    requires forall i :: 0 <= i < |parts| ==> outs[i].entries == parts[i]
    ensures SafeOutput(input, outs, snapshot, v, level)
  {
    KeptMembers(input, |input|, snapshot, v, level);
    FlattenSorted(parts, outs);
    forall i, j | 0 <= i < j < |input| && input[i].key.user == input[j].key.user && Obsolete(input[i], snapshot, v, level)
      ensures input[j] !in Contents(outs)
    {
      assert Before(input[i].key, input[j].key) && Before(input[j - 1].key, input[j].key);
      assert i == j - 1 || Before(input[i].key, input[j - 1].key);
      assert Hidden(input, j, snapshot);
      assert forall k :: 0 <= k < |input| && input[k] == input[j] ==> k == j;
    }
  }

  /** A trivial move (Compaction::IsTrivialMove) writes its only input file unchanged. */
  lemma TrivialMoveIsSafe(f: Table, snapshot: nat, v: Version, level: nat)
    ensures SafeOutput(f.entries, [f], snapshot, v, level)
  {
    ContentsAppend([], f);
    assert [] + [f] == [f];
  }

  // ---------------------------------------------------------------- reads are preserved

  lemma SomeReads(es: set<Entry>, k: UserKey, s: nat) returns (r: Option<string>)
    ensures Reads(es, k, s, r)
  {
    var rest := set e | e in es && Candidate(e, k, s);
    assert forall e :: e in es && Candidate(e, k, s) ==> e in rest;
    if rest == {} {
      return None;
    }
    var best: Entry :| best in rest;
    var seen := {best};
    rest := rest - {best};
    while rest != {}
      invariant best in seen && seen + rest == set e | e in es && Candidate(e, k, s)
      invariant forall e :: e in seen ==> e.key.sn <= best.key.sn
      decreases |rest|
    {
      var e :| e in rest;
      if e.key.sn > best.key.sn {
        best := e;
      }
      seen, rest := seen + {e}, rest - {e};
    }
    assert Newest(es, k, s, best);
    r := Meaning(best);
  }

  /** The hypotheses shared by the theorems about one compaction. */
  ghost predicate Compacted(v: Version, level: nat, in0: seq<Table>, in1: seq<Table>, input: seq<Entry>, outs: seq<Table>,
                            snapshot: nat, w: Version)
  {
    && Valid(v) && level + 1 < NumLevels
    && Selected(v, level, in0, in1)
    && Ordered(input) && (forall e :: e in input <==> e in Contents(in0 + in1))
    && SafeOutput(input, outs, snapshot, v, level)
    && Installed(v, level, in0, in1, outs, w)
  }

  /** Where an entry of the new version comes from. */
  lemma StoredAfter(v: Version, level: nat, in0: seq<Table>, in1: seq<Table>, input: seq<Entry>, outs: seq<Table>,
                    snapshot: nat, w: Version, e: Entry)
    requires Compacted(v, level, in0, in1, input, outs, snapshot, w) && e in Stored(w)
    ensures e in Stored(v)
  {
    var l, f :| 0 <= l < NumLevels && f in w[l] && e in f.entries;
    if l == level + 1 && f in outs {
      assert e in Contents(outs) && e in input;
      var g :| g in in0 + in1 && e in g.entries;
      assert g in v[level] || g in v[level + 1];
      assert e in Contents(v[level]) || e in Contents(v[level + 1]);
    } else {
      assert f in v[l];
      assert e in Contents(v[l]);
    }
  }

  /** An entry that the new version lost was dropped from the input. */
  lemma StoredBefore(v: Version, level: nat, in0: seq<Table>, in1: seq<Table>, input: seq<Entry>, outs: seq<Table>,
                     snapshot: nat, w: Version, e: Entry)
    requires Compacted(v, level, in0, in1, input, outs, snapshot, w) && e in Stored(v) && e !in Stored(w)
    ensures e in input && e !in Contents(outs)
  {
    var l, f :| 0 <= l < NumLevels && f in v[l] && e in f.entries;
    assert f in w[l] ==> e in Contents(w[l]);
    assert (forall g :: g in outs ==> g in w[level + 1]) && Contents(outs) <= Contents(w[level + 1]);
  }

  /** What the compaction left in place is newer than an obsolete deletion marker of its key. */
  lemma NothingElsewhere(v: Version, level: nat, in0: seq<Table>, in1: seq<Table>, input: seq<Entry>, outs: seq<Table>,
                         snapshot: nat, w: Version, l: nat, f: Table, e: Entry, o: Entry)
    requires Compacted(v, level, in0, in1, input, outs, snapshot, w)
    requires e in input && Obsolete(e, snapshot, v, level)
    requires l < NumLevels && f in w[l] && o in f.entries && !(l == level + 1 && f in outs) && o.key.user == e.key.user
    ensures o.key.sn >= e.key.sn
  {
    var g :| g in in0 + in1 && e in g.entries;
    assert f in v[l];
    InRange(f, o);
    assert l < level + 2;
    assert l < level ==> FresherLevel(v[l], v[level]) && FresherLevel(v[l], v[level + 1]);
    assert Fresher(f, g);
  }

  /** Behind an obsolete deletion marker no older version of its key survives the compaction. */
  lemma NothingBehind(v: Version, level: nat, in0: seq<Table>, in1: seq<Table>, input: seq<Entry>, outs: seq<Table>,
                      snapshot: nat, w: Version, i: nat, o: Entry)
    requires Compacted(v, level, in0, in1, input, outs, snapshot, w)
    requires i < |input| && input[i] !in Contents(outs) && Obsolete(input[i], snapshot, v, level)
    requires o in Stored(w) && o.key.user == input[i].key.user
    ensures o.key.sn >= input[i].key.sn
  {
    var l, f :| 0 <= l < NumLevels && f in w[l] && o in f.entries;
    if l == level + 1 && f in outs {
      assert o in Contents(outs);
      var j :| 0 <= j < |input| && input[j] == o;
      assert j <= i;
    } else {
      assert input[i] in input;
      NothingElsewhere(v, level, in0, in1, input, outs, snapshot, w, l, f, input[i], o);
    }
  }

  /** What hides an entry is a newer version that was stored. */
  lemma HiddenByStored(v: Version, level: nat, in0: seq<Table>, in1: seq<Table>, input: seq<Entry>, outs: seq<Table>,
                       snapshot: nat, w: Version, i: nat)
    requires Compacted(v, level, in0, in1, input, outs, snapshot, w) && i < |input| && Hidden(input, i, snapshot)
    ensures var d := input[i - 1]; d in Stored(v) && d.key.user == input[i].key.user && input[i].key.sn < d.key.sn <= snapshot
  {
    var d := input[i - 1];
    assert Before(d.key, input[i].key);
    assert d in Contents(in0 + in1);
    var g :| g in in0 + in1 && d in g.entries;
    assert g in v[level] || g in v[level + 1];
    assert d in Contents(v[level]) || d in Contents(v[level + 1]);
  }

  lemma ReadsForward(v: Version, level: nat, in0: seq<Table>, in1: seq<Table>, input: seq<Entry>, outs: seq<Table>,
                     snapshot: nat, w: Version, k: UserKey, s: nat, r: Option<string>)
    requires Compacted(v, level, in0, in1, input, outs, snapshot, w) && s >= snapshot && Reads(Stored(v), k, s, r)
    ensures Reads(Stored(w), k, s, r)
  {
    forall o | o in Stored(w)
      ensures o in Stored(v)
    {
      StoredAfter(v, level, in0, in1, input, outs, snapshot, w, o);
    }
    if e :| Newest(Stored(v), k, s, e) && r == Meaning(e) {
      if e in Stored(w) {
        assert Newest(Stored(w), k, s, e);
      } else {
        StoredBefore(v, level, in0, in1, input, outs, snapshot, w, e);
        var i :| 0 <= i < |input| && input[i] == e;
        assert !Hidden(input, i, snapshot) by {
          if Hidden(input, i, snapshot) {
            HiddenByStored(v, level, in0, in1, input, outs, snapshot, w, i);
            assert false;
          }
        }
        StoredDistinct(v);
        forall o | o in Stored(w) && Candidate(o, k, s)
          ensures false
        {
          NothingBehind(v, level, in0, in1, input, outs, snapshot, w, i, o);
        }
      }
    }
  }

  /** Files ordered by smallest key, any two of them apart, form a sorted level. */
  lemma ApartIsSorted(fs: seq<Table>)
    requires SmallestFirst(fs)
    requires forall f, g :: f in fs && g in fs && f != g ==> Before(f.Largest(), g.Smallest()) || Before(g.Largest(), f.Smallest())
    ensures SortedLevel(fs)
  {
    forall i, j | 0 <= i < j < |fs|
      ensures Before(fs[i].Largest(), fs[j].Smallest())
    {
      assert FileLess(fs[i], fs[j]);
      SmallestBeforeLargest(fs[i]);
      SmallestBeforeLargest(fs[j]);
    }
  }

  lemma TwoInLevel(fs: seq<Table>, f: Table, g: Table)
    requires SortedLevel(fs) && f in fs && g in fs && f != g
    ensures Before(f.Largest(), g.Smallest()) || Before(g.Largest(), f.Smallest())
  {
    var i :| 0 <= i < |fs| && fs[i] == f;
    var j :| 0 <= j < |fs| && fs[j] == g;
  }

  /** A file built from entries of the inputs lies on the same side of `f` as the inputs. */
  lemma AsideOutput(f: Table, ins: seq<Table>, o: Table)
    requires Aside(f, ins) && forall e :: e in o.entries ==> e in Contents(ins)
    ensures Before(f.Largest(), o.Smallest()) || Before(o.Largest(), f.Smallest())
  {
    var first, last := o.entries[0], o.entries[|o.entries| - 1];
    assert first in o.entries && last in o.entries;
    var g :| g in ins && first in g.entries;
    var h :| h in ins && last in h.entries;
    InRange(g, first);
    InRange(h, last);
  }

  lemma OutputEntries(v: Version, level: nat, in0: seq<Table>, in1: seq<Table>, input: seq<Entry>, outs: seq<Table>,
                      snapshot: nat, w: Version, o: Table)
    requires Compacted(v, level, in0, in1, input, outs, snapshot, w) && o in outs
    ensures forall e :: e in o.entries ==> e in Contents(in0 + in1)
  {
    forall e | e in o.entries
      ensures e in Contents(in0 + in1)
    {
      assert e in Contents(outs);
    }
  }

  lemma SortedAfter(v: Version, level: nat, in0: seq<Table>, in1: seq<Table>, input: seq<Entry>, outs: seq<Table>,
                    snapshot: nat, w: Version)
    requires Compacted(v, level, in0, in1, input, outs, snapshot, w)
    ensures level > 0 ==> SortedLevel(w[level])
    ensures SortedLevel(w[level + 1])
  {
    if level > 0 {
      forall f, g | f in w[level] && g in w[level] && f != g
        ensures Before(f.Largest(), g.Smallest()) || Before(g.Largest(), f.Smallest())
      {
        TwoInLevel(v[level], f, g);
      }
      ApartIsSorted(w[level]);
    }
    forall f, g | f in w[level + 1] && g in w[level + 1] && f != g
      ensures Before(f.Largest(), g.Smallest()) || Before(g.Largest(), f.Smallest())
    {
      if f in outs && g in outs {
        TwoInLevel(outs, f, g);
      } else if f in outs {
        OutputEntries(v, level, in0, in1, input, outs, snapshot, w, f);
        AsideOutput(g, in0 + in1, f);
      } else if g in outs {
        OutputEntries(v, level, in0, in1, input, outs, snapshot, w, g);
        AsideOutput(f, in0 + in1, g);
      } else {
        TwoInLevel(v[level + 1], f, g);
      }
    }
    ApartIsSorted(w[level + 1]);
  }

  /** A file fresher than every input is fresher than an output, and conversely. */
  lemma FresherOutput(f: Table, ins: seq<Table>, o: Table)
    requires forall e :: e in o.entries ==> e in Contents(ins)
    ensures (forall g :: g in ins ==> Fresher(f, g)) ==> Fresher(f, o)
    ensures (forall g :: g in ins ==> Fresher(g, f)) ==> Fresher(o, f)
  {
    forall d, e | d in f.entries && e in o.entries && d.key.user == e.key.user
      ensures (forall g :: g in ins ==> Fresher(f, g)) ==> d.key.sn > e.key.sn
      ensures (forall g :: g in ins ==> Fresher(g, f)) ==> e.key.sn > d.key.sn
    {
      var g :| g in ins && e in g.entries;
    }
  }

  lemma FresherAfter(v: Version, level: nat, in0: seq<Table>, in1: seq<Table>, input: seq<Entry>, outs: seq<Table>,
                     snapshot: nat, w: Version, a: nat, b: nat, f: Table, g: Table)
    requires Compacted(v, level, in0, in1, input, outs, snapshot, w)
    requires a < b < NumLevels && f in w[a] && g in w[b]
    ensures Fresher(f, g)
  {
    if a == level + 1 && f in outs {
      OutputEntries(v, level, in0, in1, input, outs, snapshot, w, f);
      forall h | h in in0 + in1
        ensures Fresher(h, g)
      {
        assert FresherLevel(v[level], v[b]) && FresherLevel(v[level + 1], v[b]);
      }
      FresherOutput(g, in0 + in1, f);
    } else if b == level + 1 && g in outs {
      OutputEntries(v, level, in0, in1, input, outs, snapshot, w, g);
      forall h | h in in0 + in1
        ensures Fresher(f, h)
      {
        assert f in v[a];
        assert a < level ==> FresherLevel(v[a], v[level]) && FresherLevel(v[a], v[level + 1]);
      }
      FresherOutput(f, in0 + in1, g);
    } else {
      assert f in v[a] && g in v[b];
      assert FresherLevel(v[a], v[b]);
    }
  }

  /** Moving the picks down keeps newer versions shallower and the levels sorted. */
  lemma CompactionKeepsValid(v: Version, level: nat, in0: seq<Table>, in1: seq<Table>, input: seq<Entry>, outs: seq<Table>,
                             snapshot: nat, w: Version)
    requires Compacted(v, level, in0, in1, input, outs, snapshot, w)
    ensures Valid(w)
  {
    SortedAfter(v, level, in0, in1, input, outs, snapshot, w);
    assert forall l :: 1 <= l < NumLevels ==> SortedLevel(w[l]);
    forall f | f in w[0]
      ensures f in v[0]
    {
    }
    forall a, b | 0 <= a < b < NumLevels
      ensures FresherLevel(w[a], w[b])
    {
      forall f, g | f in w[a] && g in w[b]
        ensures Fresher(f, g)
      {
        FresherAfter(v, level, in0, in1, input, outs, snapshot, w, a, b, f, g);
      }
    }
  }

  /** Every read at a live snapshot gives the same answer before and after. */
  lemma CompactionPreservesReads(v: Version, level: nat, in0: seq<Table>, in1: seq<Table>, input: seq<Entry>, outs: seq<Table>,
                                 snapshot: nat, w: Version, k: UserKey, s: nat, r: Option<string>)
    requires Compacted(v, level, in0, in1, input, outs, snapshot, w) && s >= snapshot
    ensures Reads(Stored(v), k, s, r) <==> Reads(Stored(w), k, s, r)
  {
    var q := SomeReads(Stored(v), k, s);
    ReadsForward(v, level, in0, in1, input, outs, snapshot, w, k, s, q);
    CompactionKeepsValid(v, level, in0, in1, input, outs, snapshot, w);
    StoredDistinct(v);
    StoredDistinct(w);
    if Reads(Stored(w), k, s, r) {
      ReadsUnique(Stored(w), k, s, r, q);
    }
    if Reads(Stored(v), k, s, r) {
      ReadsUnique(Stored(v), k, s, r, q);
    }
  }
}
