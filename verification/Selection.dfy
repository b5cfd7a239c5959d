/**
  Choosing the input files of a compaction (leveldb/db/version_set.cc:
  GetOverlappingInputs, FindLargestKey, FindSmallestBoundaryFile,
  AddBoundaryInputs, SetupOtherInputs).
*/
module Selection {
  import opened DbFormat
  import opened Versions

  /** Not wholly before `begin` and not wholly after `end`; None is unbounded. */
  predicate Overlaps(f: Table, begin: Option<UserKey>, end: Option<UserKey>) {
    && !(begin.Some? && f.Largest().user < begin.value)
    && !(end.Some? && f.Smallest().user > end.value)
  }

  predicate Inside(f: Table, begin: Option<UserKey>, end: Option<UserKey>) {
    && (begin.Some? ==> begin.value <= f.Smallest().user)
    && (end.Some? ==> f.Largest().user <= end.value)
  }

  predicate Wider(begin: Option<UserKey>, end: Option<UserKey>, b: Option<UserKey>, e: Option<UserKey>) {
    && (b.Some? ==> begin.Some? && b.value <= begin.value)
    && (e.Some? ==> end.Some? && end.value <= e.value)
  }

  /** Every file that touches the range lies inside it. */
  ghost predicate Closed(files: seq<Table>, b: Option<UserKey>, e: Option<UserKey>) {
    forall f :: f in files && Overlaps(f, b, e) ==> Inside(f, b, e)
  }

  /** `picks` are the files touching the least closed range around the one asked for. */
  ghost predicate ClosedPick(files: seq<Table>, begin: Option<UserKey>, end: Option<UserKey>, picks: seq<Table>,
                             b: Option<UserKey>, e: Option<UserKey>) {
    && Wider(begin, end, b, e)
    && Closed(files, b, e)
    && picks == Touching(files, b, e)
    && (forall x, y :: Wider(begin, end, x, y) && Closed(files, x, y) ==> Wider(b, e, x, y))
  }

  ghost function SticksOutLeft(files: seq<Table>, b: Option<UserKey>): set<Table> {
    set f | f in files && b.Some? && f.Smallest().user < b.value
  }

  ghost function SticksOutRight(files: seq<Table>, e: Option<UserKey>): set<Table> {
    set f | f in files && e.Some? && f.Largest().user > e.value
  }

  lemma Monotone(files: seq<Table>, begin: Option<UserKey>, end: Option<UserKey>, f: Table)
    requires f in files && Overlaps(f, begin, end)
    ensures forall x, y :: Wider(begin, end, x, y) && Closed(files, x, y) ==> Inside(f, x, y)
  {
    forall x, y | Wider(begin, end, x, y) && Closed(files, x, y)
      ensures Inside(f, x, y)
    {
      assert Overlaps(f, x, y);
    }
  }

  /** The files touching a range, in level order. */
  function Touching(files: seq<Table>, b: Option<UserKey>, e: Option<UserKey>): seq<Table> {
    if files == [] then []
    else
      var n := |files| - 1;
      Touching(files[..n], b, e) + (if Overlaps(files[n], b, e) then [files[n]] else [])
  }

  lemma {:induction false} TouchingMembers(files: seq<Table>, b: Option<UserKey>, e: Option<UserKey>)
    ensures forall f :: f in Touching(files, b, e) <==> f in files && Overlaps(f, b, e)
  {
    if files != [] {
      var n := |files| - 1;
      assert files == files[..n] + [files[n]];
      TouchingMembers(files[..n], b, e);
    }
  }

  lemma {:induction false} TouchingOrder(files: seq<Table>, b: Option<UserKey>, e: Option<UserKey>)
    requires SmallestFirst(files)
    ensures SmallestFirst(Touching(files, b, e))
  {
    if files != [] {
      var n := |files| - 1;
      TouchingOrder(files[..n], b, e);
      TouchingMembers(files[..n], b, e);
      forall i | 0 <= i < |Touching(files[..n], b, e)|
        ensures FileLess(Touching(files[..n], b, e)[i], files[n])
      {
        assert Touching(files[..n], b, e)[i] in files[..n];
      }
    }
  }

  /** In a sorted level the files touching a range are consecutive. */
  ghost predicate Run(files: seq<Table>, begin: Option<UserKey>, end: Option<UserKey>, lo: nat, hi: nat) {
    && lo <= hi <= |files|
    && forall k :: 0 <= k < |files| ==> (Overlaps(files[k], begin, end) <==> lo <= k < hi)
  }

  lemma Middle(files: seq<Table>, b: Option<UserKey>, e: Option<UserKey>, i: nat, j: nat, k: nat)
    requires SortedLevel(files) && i < j < k < |files|
    requires Overlaps(files[i], b, e) && Overlaps(files[k], b, e)
    ensures Overlaps(files[j], b, e)
  {
    InRange(files[j], files[j].entries[0]);
  }

  lemma {:induction false} TouchingOfRun(files: seq<Table>, b: Option<UserKey>, e: Option<UserKey>, lo: nat, hi: nat)
    requires Run(files, b, e, lo, hi)
    ensures Touching(files, b, e) == files[lo..hi]
  {
    if files != [] {
      var n := |files| - 1;
      var front := files[..n];
      var lo' := if lo < n then lo else n;
      var hi' := if hi < n then hi else n;
      RunFront(files, b, e, lo, hi);
      TouchingOfRun(front, b, e, lo', hi');
      SliceFront(files, lo, hi);
    }
  }

  lemma SliceFront(files: seq<Table>, lo: nat, hi: nat)
    requires files != [] && lo <= hi <= |files|
    ensures var n := |files| - 1;
            files[..n][if lo < n then lo else n..if hi < n then hi else n] + (if lo <= n < hi then [files[n]] else []) == files[lo..hi]
  {
  }

  lemma RunFront(files: seq<Table>, b: Option<UserKey>, e: Option<UserKey>, lo: nat, hi: nat)
    requires Run(files, b, e, lo, hi) && files != []
    ensures var n := |files| - 1;
            Run(files[..n], b, e, if lo < n then lo else n, if hi < n then hi else n) && (Overlaps(files[n], b, e) <==> lo <= n < hi)
  {
    var n := |files| - 1;
    assert forall k :: 0 <= k < n ==> files[..n][k] == files[k];
  }

  lemma TouchingRun(files: seq<Table>, b: Option<UserKey>, e: Option<UserKey>) returns (lo: nat)
    requires SortedLevel(files)
    ensures Run(files, b, e, lo, lo + |Touching(files, b, e)|)
    ensures Touching(files, b, e) == files[lo..lo + |Touching(files, b, e)|]
  {
    lo := 0;
    while lo < |files| && !Overlaps(files[lo], b, e)
      invariant 0 <= lo <= |files|
      invariant forall k :: 0 <= k < lo ==> !Overlaps(files[k], b, e)
    {
      lo := lo + 1;
    }
    var hi := |files|;
    while lo < hi && !Overlaps(files[hi - 1], b, e)
      invariant lo <= hi <= |files|
      invariant forall k :: hi <= k < |files| ==> !Overlaps(files[k], b, e)
    {
      hi := hi - 1;
    }
    forall k | lo < k < hi - 1
      ensures Overlaps(files[k], b, e)
    {
      Middle(files, b, e, lo, k, hi - 1);
    }
    TouchingOfRun(files, b, e, lo, hi);
  }

  /**
    Version::GetOverlappingInputs.  At level 0 the search restarts whenever a pick
    widens the range, and ends with the least closed range; at a sorted level the
    picks are the files touching the range asked for.
  */
  method GetOverlappingInputs(files: seq<Table>, level: nat, begin: Option<UserKey>, end: Option<UserKey>)
    returns (inputs: seq<Table>, ghost b: Option<UserKey>, ghost e: Option<UserKey>)
    ensures level == 0 ==> ClosedPick(files, begin, end, inputs, b, e)
    ensures level > 0 ==> inputs == Touching(files, begin, end)
    ensures forall f :: f in files && Overlaps(f, begin, end) ==> f in inputs
  {
    inputs := [];
    var userBegin, userEnd := begin, end;
    var i := 0;
    while i < |files|
      invariant 0 <= i <= |files|
      invariant Wider(begin, end, userBegin, userEnd)
      invariant begin.Some? == userBegin.Some? && end.Some? == userEnd.Some?
      invariant level > 0 ==> userBegin == begin && userEnd == end
      invariant inputs == Touching(files[..i], userBegin, userEnd)
      invariant level == 0 ==> forall f :: f in inputs ==> Inside(f, userBegin, userEnd)
      invariant forall x, y :: Wider(begin, end, x, y) && Closed(files, x, y) ==> Wider(userBegin, userEnd, x, y)
      decreases |SticksOutLeft(files, userBegin)| + |SticksOutRight(files, userEnd)|, |files| - i
    {
      var f := files[i];
      assert files[..i + 1][..i] == files[..i];
      i := i + 1;
      if userBegin.Some? && f.Largest().user < userBegin.value {
        // completely before the range
      } else if userEnd.Some? && f.Smallest().user > userEnd.value {
        // completely after the range
      } else {
        Monotone(files, userBegin, userEnd, f);
        inputs := inputs + [f];
        if level == 0 {
          if userBegin.Some? && f.Smallest().user < userBegin.value {
            Shrinks(SticksOutLeft(files, Some(f.Smallest().user)), SticksOutLeft(files, userBegin), f);
            userBegin := Some(f.Smallest().user);
            inputs := [];
            i := 0;
          } else if userEnd.Some? && f.Largest().user > userEnd.value {
            Shrinks(SticksOutRight(files, Some(f.Largest().user)), SticksOutRight(files, userEnd), f);
            userEnd := Some(f.Largest().user);
            inputs := [];
            i := 0;
          }
        }
      }
    }
    assert files[..i] == files;
    TouchingMembers(files, userBegin, userEnd);
    b, e := userBegin, userEnd;
  }

  lemma Shrinks(a: set<Table>, b: set<Table>, f: Table)
    requires a <= b && f in b && f !in a
    ensures |a| < |b|
  {
    assert b == a + {f} + (b - a - {f});
  }

  // ---------------------------------------------------------------- boundary files

  /** `k` bounds the largest keys of `fs` and is one of them. */
  ghost predicate IsLargestKey(fs: seq<Table>, k: InternalKey) {
    && (exists f :: f in fs && f.Largest() == k)
    && (forall f :: f in fs ==> Compare(f.Largest(), k) <= 0)
  }

  ghost predicate IsSmallestKey(fs: seq<Table>, k: InternalKey) {
    && (exists f :: f in fs && f.Smallest() == k)
    && (forall f :: f in fs ==> Compare(k, f.Smallest()) <= 0)
  }

  /** FindLargestKey on a nonempty list. */
  method FindLargestKey(files: seq<Table>) returns (largest: InternalKey)
    requires files != []
    ensures IsLargestKey(files, largest)
  {
    largest := files[0].Largest();
    for i := 1 to |files|
      invariant exists f :: f in files && f.Largest() == largest
      invariant forall j :: 0 <= j < i ==> Compare(files[j].Largest(), largest) <= 0
    {
      if Compare(files[i].Largest(), largest) > 0 {
        largest := files[i].Largest();
      }
    }
  }

  /** The smallest-key half of GetRange; the largest-key half is FindLargestKey. */
  method FindSmallestKey(files: seq<Table>) returns (smallest: InternalKey)
    requires files != []
    ensures IsSmallestKey(files, smallest)
  {
    smallest := files[0].Smallest();
    for i := 1 to |files|
      invariant exists f :: f in files && f.Smallest() == smallest
      invariant forall j :: 0 <= j < i ==> Compare(smallest, files[j].Smallest()) <= 0
    {
      if Compare(files[i].Smallest(), smallest) < 0 {
        smallest := files[i].Smallest();
      }
    }
  }

  /** `f` starts with an older version of the user key that `largest` is a version of. */
  predicate IsBoundary(f: Table, largest: InternalKey) {
    Compare(f.Smallest(), largest) > 0 && f.Smallest().user == largest.user
  }

  method FindSmallestBoundaryFile(levelFiles: seq<Table>, largest: InternalKey) returns (r: Option<Table>)
    ensures r.None? ==> forall f :: f in levelFiles ==> !IsBoundary(f, largest)
    ensures r.Some? ==> r.value in levelFiles && IsBoundary(r.value, largest)
    ensures r.Some? ==> forall f :: f in levelFiles && IsBoundary(f, largest) ==> Compare(r.value.Smallest(), f.Smallest()) <= 0
  {
    r := None;
    for i := 0 to |levelFiles|
      invariant r.None? ==> forall j :: 0 <= j < i ==> !IsBoundary(levelFiles[j], largest)
      invariant r.Some? ==> r.value in levelFiles && IsBoundary(r.value, largest)
      invariant r.Some? ==> forall j :: 0 <= j < i && IsBoundary(levelFiles[j], largest) ==> Compare(r.value.Smallest(), levelFiles[j].Smallest()) <= 0
    {
      var f := levelFiles[i];
      if Compare(f.Smallest(), largest) > 0 && f.Smallest().user == largest.user {
        if r.None? || Compare(f.Smallest(), r.value.Smallest()) < 0 {
          r := Some(f);
        }
      }
    }
  }

  ghost function StartingAfter(files: seq<Table>, largest: InternalKey): set<Table> {
    set f | f in files && Compare(f.Smallest(), largest) > 0
  }

  lemma SmallestBeforeLargest(f: Table)
    ensures Compare(f.Smallest(), f.Largest()) <= 0
  {
    InRange(f, f.entries[0]);
  }

  /** `f` is the first boundary file of the largest key of `picks`. */
  ghost predicate FirstBoundary(levelFiles: seq<Table>, picks: seq<Table>, f: Table) {
    exists k :: IsLargestKey(picks, k) && f in levelFiles && IsBoundary(f, k) &&
      forall g :: g in levelFiles && IsBoundary(g, k) ==> Compare(f.Smallest(), g.Smallest()) <= 0
  }

  /** `r` is `picks` extended, one file at a time, by the first boundary file. */
  ghost predicate Chain(levelFiles: seq<Table>, picks: seq<Table>, r: seq<Table>) {
    r == picks || (
      && |r| > |picks|
      && Chain(levelFiles, picks, r[..|r| - 1])
      && FirstBoundary(levelFiles, r[..|r| - 1], r[|r| - 1]))
  }

  ghost predicate NoBoundaryLeft(levelFiles: seq<Table>, picks: seq<Table>) {
    forall f, k :: f in levelFiles && IsLargestKey(picks, k) ==> !IsBoundary(f, k)
  }

  /**
    AddBoundaryInputs terminates on every list of files, extends the picks with
    files of the level, and leaves no boundary file of the picks' largest key.
  */
  method AddBoundaryInputs(levelFiles: seq<Table>, picks: seq<Table>) returns (r: seq<Table>)
    ensures Chain(levelFiles, picks, r)
    ensures NoBoundaryLeft(levelFiles, r)
    ensures picks == [] ==> r == []
  {
    r := picks;
    if picks == [] {
      return;
    }
    var largest := FindLargestKey(picks);
    var searching := true;
    while searching
      invariant r != []
      invariant Chain(levelFiles, picks, r)
      invariant IsLargestKey(r, largest)
      invariant !searching ==> forall f :: f in levelFiles ==> !IsBoundary(f, largest)
      decreases |StartingAfter(levelFiles, largest)|, searching
    {
      var found := FindSmallestBoundaryFile(levelFiles, largest);
      if found.Some? {
        var f := found.value;
        SmallestBeforeLargest(f);
        Shrinks(StartingAfter(levelFiles, f.Largest()), StartingAfter(levelFiles, largest), f);
        var grown := r + [f];
        assert grown[..|r|] == r;
        assert FirstBoundary(levelFiles, r, f);
        assert |r| >= |picks|;
        r := grown;
        largest := f.Largest();
      } else {
        searching := false;
      }
    }
    LargestKeyUnique(r, largest);
  }

  lemma LargestKeyUnique(fs: seq<Table>, k: InternalKey)
    requires IsLargestKey(fs, k)
    ensures forall j :: IsLargestKey(fs, j) ==> j == k
  {
  }

  // ---------------------------------------------------------------- both levels

  /** `f` lies outside the joint user key range of `picks`. */
  ghost predicate RangeApart(f: Table, picks: seq<Table>) {
    || (forall g :: g in picks ==> f.Largest().user < g.Smallest().user)
    || (forall g :: g in picks ==> f.Smallest().user > g.Largest().user)
  }

  /**
    The shape of the files a compaction starts from: at level 0 every file that
    overlaps their joint range is among them, at a sorted level they are consecutive.
  */
  ghost predicate WholePick(files: seq<Table>, level: nat, picks: seq<Table>) {
    && picks != []
    && (forall f :: f in picks ==> f in files)
    && (level == 0 ==> SmallestFirst(picks) && forall f :: f in files ==> f in picks || RangeApart(f, picks))
    && (level > 0 ==> exists lo: nat :: IsRun(files, picks, lo))
  }

  ghost predicate IsRun(files: seq<Table>, picks: seq<Table>, lo: nat) {
    lo + |picks| <= |files| && picks == files[lo..lo + |picks|]
  }

  lemma ClosedPickIsWhole(files: seq<Table>, begin: Option<UserKey>, end: Option<UserKey>, picks: seq<Table>, b: Option<UserKey>, e: Option<UserKey>)
    requires ClosedPick(files, begin, end, picks, b, e) && picks != [] && SmallestFirst(files)
    ensures WholePick(files, 0, picks)
  {
    TouchingMembers(files, b, e);
    TouchingOrder(files, b, e);
    forall f | f in files && f !in picks
      ensures RangeApart(f, picks)
    {
      assert !Overlaps(f, b, e);
      assert forall g :: g in picks ==> Inside(g, b, e);
    }
  }

  lemma TouchingIsWhole(files: seq<Table>, level: nat, b: Option<UserKey>, e: Option<UserKey>)
    requires SortedLevel(files) && level > 0 && Touching(files, b, e) != []
    ensures WholePick(files, level, Touching(files, b, e))
  {
    TouchingMembers(files, b, e);
    var lo := TouchingRun(files, b, e);
    assert IsRun(files, Touching(files, b, e), lo);
  }

  /** The largest key of a run is that of its last file. */
  lemma RunLargest(files: seq<Table>, lo: nat, hi: nat)
    requires SortedLevel(files) && lo < hi <= |files|
    ensures IsLargestKey(files[lo..hi], files[hi - 1].Largest())
  {
    var run := files[lo..hi];
    assert run[|run| - 1] == files[hi - 1];
    forall f | f in run
      ensures Compare(f.Largest(), files[hi - 1].Largest()) <= 0
    {
      var i :| 0 <= i < |run| && run[i] == f;
      assert run[i] == files[lo + i];
      InRange(files[hi - 1], files[hi - 1].entries[0]);
    }
  }

  /** A boundary file of a run that ends with a key lies after the run. */
  lemma BoundaryIsAfter(files: seq<Table>, hi: nat, i: nat)
    requires SortedLevel(files) && 0 < hi <= |files| && i < |files| && IsBoundary(files[i], files[hi - 1].Largest())
    ensures hi <= i
  {
    SmallestBeforeLargest(files[hi - 1]);
    if i < hi {
      InRange(files[hi - 1], files[hi - 1].entries[0]);
      InRange(files[i], files[i].entries[0]);
      assert false;
    }
  }

  /** The first boundary file of a run is the file right after it. */
  lemma NextInRun(files: seq<Table>, lo: nat, hi: nat, f: Table)
    requires SortedLevel(files) && lo < hi <= |files| && FirstBoundary(files, files[lo..hi], f)
    ensures hi < |files| && f == files[hi]
  {
    RunLargest(files, lo, hi);
    LargestKeyUnique(files[lo..hi], files[hi - 1].Largest());
    var i :| 0 <= i < |files| && files[i] == f;
    BoundaryIsAfter(files, hi, i);
    if i > hi {
      InRange(files[hi], files[hi].entries[0]);
      assert IsBoundary(files[hi], files[hi - 1].Largest());
    }
  }

  lemma RunExtends(files: seq<Table>, r: seq<Table>, f: Table, lo: nat)
    requires SortedLevel(files) && r != [] && IsRun(files, r, lo) && FirstBoundary(files, r, f)
    ensures IsRun(files, r + [f], lo)
  {
    NextInRun(files, lo, lo + |r|, f);
  }

  lemma {:induction false} ChainKeepsRun(files: seq<Table>, picks: seq<Table>, r: seq<Table>, lo: nat)
    requires SortedLevel(files) && picks != [] && IsRun(files, picks, lo) && Chain(files, picks, r)
    ensures IsRun(files, r, lo) && |r| >= |picks|
    decreases |r|
  {
    if r != picks {
      var prefix, f := r[..|r| - 1], r[|r| - 1];
      ChainKeepsRun(files, picks, prefix, lo);
      RunExtends(files, prefix, f, lo);
      assert r == prefix + [f];
    }
  }

  lemma {:induction false} ChainKeepsZero(files: seq<Table>, picks: seq<Table>, r: seq<Table>)
    requires WholePick(files, 0, picks) && Chain(files, picks, r)
    ensures r == picks
    decreases |r|
  {
    if r != picks {
      ChainKeepsZero(files, picks, r[..|r| - 1]);
      var f := r[|r| - 1];
      var k :| IsLargestKey(picks, k) && f in files && IsBoundary(f, k);
      SmallestBeforeLargest(f);
      assert false;
    }
  }

  lemma ChainKeepsWhole(files: seq<Table>, level: nat, picks: seq<Table>, r: seq<Table>)
    requires WholePick(files, level, picks) && Chain(files, picks, r)
    requires level > 0 ==> SortedLevel(files)
    ensures WholePick(files, level, r)
    ensures forall f :: f in picks ==> f in r
  {
    if level == 0 {
      ChainKeepsZero(files, picks, r);
    } else {
      var lo: nat :| IsRun(files, picks, lo);
      ChainKeepsRun(files, picks, r, lo);
      assert picks == r[..|picks|];
    }
  }

  /** Nothing older stays behind: an unpicked file holds only newer versions. */
  lemma LeftBehindFresher(files: seq<Table>, level: nat, picks: seq<Table>, f: Table, g: Table)
    requires WholePick(files, level, picks) && NoBoundaryLeft(files, picks)
    requires level > 0 ==> SortedLevel(files)
    requires f in files && f !in picks && g in picks
    ensures Fresher(f, g)
  {
    if level == 0 {
      assert RangeApart(f, picks);
      ApartFresher(f, g);
    } else {
      var lo: nat :| IsRun(files, picks, lo);
      LeftBehindRun(files, lo, picks, f, g);
    }
  }

  lemma LeftBehindRun(files: seq<Table>, lo: nat, picks: seq<Table>, f: Table, g: Table)
    requires SortedLevel(files) && IsRun(files, picks, lo) && NoBoundaryLeft(files, picks)
    requires f in files && f !in picks && g in picks
    ensures Fresher(f, g)
  {
    var i := OutsideRun(files, picks, lo, f);
    var j := InsideRun(files, picks, lo, g);
    if i < lo {
      EarlierFresher(files, i, j);
    } else {
      RightOfRun(files, lo, lo + |picks|, i);
      ApartFresher(f, g);
    }
  }

  lemma OutsideRun(files: seq<Table>, run: seq<Table>, lo: nat, f: Table) returns (i: nat)
    requires IsRun(files, run, lo) && f in files && f !in run
    ensures i < |files| && files[i] == f && (i < lo || lo + |run| <= i)
  {
    i :| 0 <= i < |files| && files[i] == f;
    assert forall k :: lo <= k < lo + |run| ==> files[k] == run[k - lo];
  }

  lemma InsideRun(files: seq<Table>, run: seq<Table>, lo: nat, g: Table) returns (j: nat)
    requires IsRun(files, run, lo) && g in run
    ensures lo <= j < lo + |run| && files[j] == g
  {
    var k :| 0 <= k < |run| && run[k] == g;
    j := lo + k;
  }

  lemma ApartFresher(f: Table, g: Table)
    requires f.Largest().user < g.Smallest().user || g.Largest().user < f.Smallest().user
    ensures Fresher(f, g)
  {
    forall d, e | d in f.entries && e in g.entries
      ensures d.key.user != e.key.user
    {
      InRange(f, d);
      InRange(g, e);
    }
  }

  lemma EarlierFresher(files: seq<Table>, i: nat, j: nat)
    requires SortedLevel(files) && i < j < |files|
    ensures Fresher(files[i], files[j])
  {
    forall d, e | d in files[i].entries && e in files[j].entries && d.key.user == e.key.user
      ensures d.key.sn > e.key.sn
    {
      FilesOrdered(files, i, j, d, e);
    }
  }

  /** Past a run with no boundary file left, every user key is strictly larger. */
  lemma RightOfRun(files: seq<Table>, lo: nat, hi: nat, i: nat)
    requires SortedLevel(files) && lo < hi <= i < |files|
    requires NoBoundaryLeft(files, files[lo..hi])
    ensures forall j :: lo <= j < hi ==> files[j].Largest().user < files[i].Smallest().user
  {
    RunLargest(files, lo, hi);
    assert !IsBoundary(files[i], files[hi - 1].Largest());
    forall j | lo <= j < hi
      ensures files[j].Largest().user < files[i].Smallest().user
    {
      InRange(files[hi - 1], files[hi - 1].entries[0]);
    }
  }

  /** `f` lies wholly on one side of `gs`. */
  ghost predicate Aside(f: Table, gs: seq<Table>) {
    || (forall g :: g in gs ==> Before(f.Largest(), g.Smallest()))
    || (forall g :: g in gs ==> Before(g.Largest(), f.Smallest()))
  }

  /** What the picks of both levels guarantee to the compaction that merges them. */
  ghost predicate Selected(v: Version, level: nat, in0: seq<Table>, in1: seq<Table>)
    requires |v| == NumLevels && level + 1 < NumLevels
  {
    && in0 != [] && SortedLevel(in1)
    && (if level == 0 then SmallestFirst(in0) else SortedLevel(in0))
    && (forall f :: f in in0 ==> f in v[level])
    && (forall f :: f in in1 ==> f in v[level + 1])
    && (forall f, g :: f in v[level] && f !in in0 && g in in0 + in1 ==> Fresher(f, g))
    && (forall f, g :: f in v[level + 1] && f !in in1 && g in in0 + in1 ==> Fresher(f, g))
    && (forall f :: f in v[level + 1] && f !in in1 ==> Aside(f, in0 + in1))
  }

  /** An unpicked file of the next level misses the user range and the picks on the same side. */
  ghost predicate Beside(f: Table, picks: seq<Table>, a: UserKey, b: UserKey) {
    || (f.Largest().user < a && forall g :: g in picks ==> Before(f.Largest(), g.Smallest()))
    || (f.Smallest().user > b && forall g :: g in picks ==> Before(g.Largest(), f.Smallest()))
  }

  /** A file outside a run of files, the first of which touches [a, b] and which covers all that do. */
  lemma OutsideIsBeside(files: seq<Table>, run: seq<Table>, lo: nat, a: UserKey, b: UserKey, i: nat)
    requires SortedLevel(files) && IsRun(files, run, lo) && run != [] && i < |files|
    requires i < lo || lo + |run| <= i
    requires Overlaps(files[lo], Some(a), Some(b)) && !Overlaps(files[i], Some(a), Some(b))
    ensures Beside(files[i], run, a, b)
  {
    SmallestBeforeLargest(files[i]);
    SmallestBeforeLargest(files[lo]);
    forall g | g in run
      ensures if i < lo then Before(files[i].Largest(), g.Smallest()) else Before(g.Largest(), files[i].Smallest())
    {
      var j := InsideRun(files, run, lo, g);
    }
  }

  lemma NextLevelBeside(files: seq<Table>, a: UserKey, b: UserKey, r: seq<Table>, f: Table)
    requires SortedLevel(files)
    requires Chain(files, Touching(files, Some(a), Some(b)), r)
    requires Touching(files, Some(a), Some(b)) == [] ==> r == []
    requires f in files && f !in r
    ensures Beside(f, r, a, b)
  {
    var touching := Touching(files, Some(a), Some(b));
    var lo := TouchingRun(files, Some(a), Some(b));
    if r == [] {
      ChainShorter(files, touching, r);
      TouchingMembers(files, Some(a), Some(b));
    } else {
      assert IsRun(files, touching, lo);
      ChainKeepsRun(files, touching, r, lo);
      var i := OutsideRun(files, r, lo, f);
      OutsideIsBeside(files, r, lo, a, b, i);
    }
  }

  lemma ChainShorter(files: seq<Table>, picks: seq<Table>, r: seq<Table>)
    requires Chain(files, picks, r)
    ensures |picks| <= |r|
  {
  }

  lemma WholeIsSorted(files: seq<Table>, level: nat, picks: seq<Table>)
    requires WholePick(files, level, picks) && level > 0 && SortedLevel(files)
    ensures SortedLevel(picks)
  {
    var lo: nat :| IsRun(files, picks, lo);
    assert forall k :: 0 <= k < |picks| ==> picks[k] == files[lo + k];
  }

  /** The picks of level+1: the files touching [a, b] and then their boundary files. */
  ghost predicate NextPicks(files: seq<Table>, a: UserKey, b: UserKey, in1: seq<Table>) {
    && Chain(files, Touching(files, Some(a), Some(b)), in1)
    && (Touching(files, Some(a), Some(b)) == [] ==> in1 == [])
    && NoBoundaryLeft(files, in1)
  }

  lemma NextIsWhole(files: seq<Table>, level: nat, a: UserKey, b: UserKey, in1: seq<Table>)
    requires SortedLevel(files) && level > 0 && NextPicks(files, a, b, in1) && in1 != []
    ensures WholePick(files, level, in1) && SortedLevel(in1)
  {
    TouchingIsWhole(files, level, Some(a), Some(b));
    ChainKeepsWhole(files, level, Touching(files, Some(a), Some(b)), in1);
    WholeIsSorted(files, level, in1);
  }

  /** A file of level+1 left behind is newer than the picks of both levels and beside them. */
  lemma NextRest(files: seq<Table>, level: nat, in0: seq<Table>, a: UserKey, b: UserKey, in1: seq<Table>, f: Table)
    requires SortedLevel(files) && level > 0 && NextPicks(files, a, b, in1)
    requires forall g :: g in in0 ==> a <= g.Smallest().user && g.Largest().user <= b
    requires f in files && f !in in1
    ensures Aside(f, in0 + in1)
    ensures forall g :: g in in0 + in1 ==> Fresher(f, g)
  {
    NextLevelBeside(files, a, b, in1, f);
    forall g | g in in0 + in1
      ensures Fresher(f, g)
    {
      if g in in0 {
        ApartFresher(f, g);
      } else {
        NextIsWhole(files, level, a, b, in1);
        LeftBehindFresher(files, level, in1, f, g);
      }
    }
  }

  lemma NextLevelSelected(v: Version, level: nat, in0: seq<Table>, a: UserKey, b: UserKey, in1: seq<Table>)
    requires Valid(v) && level + 1 < NumLevels
    requires WholePick(v[level], level, in0) && NoBoundaryLeft(v[level], in0)
    requires forall g :: g in in0 ==> a <= g.Smallest().user && g.Largest().user <= b
    requires NextPicks(v[level + 1], a, b, in1)
    ensures Selected(v, level, in0, in1)
  {
    var files, next := v[level], v[level + 1];
    if level > 0 {
      WholeIsSorted(files, level, in0);
    }
    if in1 != [] {
      NextIsWhole(next, level + 1, a, b, in1);
    }
    assert FresherLevel(files, next);
    forall f, g | f in files && f !in in0 && g in in0 + in1
      ensures Fresher(f, g)
    {
      if g in in0 {
        LeftBehindFresher(files, level, in0, f, g);
      }
    }
    forall f | f in next && f !in in1
      ensures Aside(f, in0 + in1)
      ensures forall g :: g in in0 + in1 ==> Fresher(f, g)
    {
      NextRest(next, level + 1, in0, a, b, in1, f);
    }
  }

  /** The level+1 half of SetupOtherInputs for already chosen files of `level`. */
  method NextLevelInputs(v: Version, level: nat, in0: seq<Table>) returns (in1: seq<Table>)
    requires Valid(v) && level + 1 < NumLevels
    requires WholePick(v[level], level, in0) && NoBoundaryLeft(v[level], in0)
    ensures Selected(v, level, in0, in1)
  {
    var smallest := FindSmallestKey(in0);
    var largest := FindLargestKey(in0);
    ghost var b, e;
    in1, b, e := GetOverlappingInputs(v[level + 1], level + 1, Some(smallest.user), Some(largest.user));
    in1 := AddBoundaryInputs(v[level + 1], in1);
    NextLevelSelected(v, level, in0, smallest.user, largest.user, in1);
  }

  function TotalFileSize(files: seq<Table>): nat {
    if files == [] then 0 else TotalFileSize(files[..|files| - 1]) + files[|files| - 1].size
  }

  /** Files of `level` touching the whole range of both levels' inputs. */
  method ExpandedInputs(v: Version, level: nat, in0: seq<Table>, in1: seq<Table>) returns (expanded0: seq<Table>)
    requires Valid(v) && level < NumLevels && WholePick(v[level], level, in0)
    ensures WholePick(v[level], level, expanded0) && NoBoundaryLeft(v[level], expanded0)
    ensures forall f :: f in in0 ==> f in expanded0
  {
    var allStart := FindSmallestKey(in0 + in1);
    var allLimit := FindLargestKey(in0 + in1);
    ghost var b, e;
    expanded0, b, e := GetOverlappingInputs(v[level], level, Some(allStart.user), Some(allLimit.user));
    forall f | f in in0
      ensures f in expanded0
    {
      assert f in in0 + in1;
      SmallestBeforeLargest(f);
      assert Overlaps(f, Some(allStart.user), Some(allLimit.user));
    }
    assert in0[0] in expanded0;
    if level == 0 {
      ClosedPickIsWhole(v[0], Some(allStart.user), Some(allLimit.user), expanded0, b, e);
    } else {
      TouchingIsWhole(v[level], level, Some(allStart.user), Some(allLimit.user));
    }
    ghost var touched := expanded0;
    expanded0 := AddBoundaryInputs(v[level], expanded0);
    ChainKeepsWhole(v[level], level, touched, expanded0);
  }

  /**
    VersionSet::SetupOtherInputs: whichever branch is taken, the inputs contain the
    picks and leave behind neither an older version nor an interleaved file.
  */
  method SetupOtherInputs(v: Version, level: nat, picks: seq<Table>, sizeLimit: nat)
    returns (in0: seq<Table>, in1: seq<Table>)
    requires Valid(v) && level + 1 < NumLevels && WholePick(v[level], level, picks)
    ensures Selected(v, level, in0, in1)
    ensures forall f :: f in picks ==> f in in0
  {
    in0 := AddBoundaryInputs(v[level], picks);
    ChainKeepsWhole(v[level], level, picks, in0);
    in1 := NextLevelInputs(v, level, in0);
    if in1 == [] {
      return;
    }
    var expanded0 := ExpandedInputs(v, level, in0, in1);
    if |expanded0| > |in0| && TotalFileSize(in1) + TotalFileSize(expanded0) < sizeLimit {
      var expanded1 := NextLevelInputs(v, level, expanded0);
      if |expanded1| == |in1| {
        in0, in1 := expanded0, expanded1;
      }
    }
  }

  /** VersionSet::PickCompaction, once the file to compact has been chosen. */
  method PickCompaction(v: Version, level: nat, index: nat, sizeLimit: nat)
    returns (in0: seq<Table>, in1: seq<Table>)
    requires Valid(v) && level + 1 < NumLevels && index < |v[level]|
    ensures Selected(v, level, in0, in1)
    ensures v[level][index] in in0
  {
    var f := v[level][index];
    var picks := [f];
    if level == 0 {
      ghost var b, e;
      picks, b, e := GetOverlappingInputs(v[0], 0, Some(f.Smallest().user), Some(f.Largest().user));
      SmallestBeforeLargest(f);
      assert Overlaps(f, Some(f.Smallest().user), Some(f.Largest().user));
      ClosedPickIsWhole(v[0], Some(f.Smallest().user), Some(f.Largest().user), picks, b, e);
    } else {
      assert IsRun(v[level], picks, index);
    }
    in0, in1 := SetupOtherInputs(v, level, picks, sizeLimit);
  }

  lemma PrefixIsWhole(files: seq<Table>, level: nat, picks: seq<Table>, n: nat)
    requires WholePick(files, level, picks) && level > 0 && 0 < n <= |picks|
    ensures WholePick(files, level, picks[..n])
  {
    var lo: nat :| IsRun(files, picks, lo);
    assert IsRun(files, picks[..n], lo);
  }

  /** VersionSet::CompactRange; a long pick above level 0 is cut to a prefix. */
  method CompactRange(v: Version, level: nat, begin: Option<UserKey>, end: Option<UserKey>, fileLimit: nat, sizeLimit: nat)
    returns (in0: seq<Table>, in1: seq<Table>)
    requires Valid(v) && level + 1 < NumLevels
    ensures in0 == [] ==> forall f :: f in v[level] ==> !Overlaps(f, begin, end)
    ensures in0 != [] ==> Selected(v, level, in0, in1)
  {
    var inputs, b, e := GetOverlappingInputs(v[level], level, begin, end);
    if inputs == [] {
      return [], [];
    }
    if level > 0 {
      TouchingIsWhole(v[level], level, begin, end);
      var total, i := 0, 0;
      while i < |inputs| && (i == 0 || total < fileLimit)
        invariant 0 <= i <= |inputs|
      {
        total := total + inputs[i].size;
        i := i + 1;
      }
      PrefixIsWhole(v[level], level, inputs, i);
      inputs := inputs[..i];
    } else {
      ClosedPickIsWhole(v[0], begin, end, inputs, b, e);
    }
    in0, in1 := SetupOtherInputs(v, level, inputs, sizeLimit);
  }
}
