/**
  Table files, levels and point lookups
  (leveldb/db/version_set.cc: FindFile, ForEachOverlapping, Version::Get).
*/
module Versions {
  import opened DbFormat

  const NumLevels: nat := 7   // config::kNumLevels

  /** FileMetaData together with the contents of the table it describes. */
  datatype File = File(number: nat, size: nat, entries: seq<Entry>) {
    function Smallest(): InternalKey
      requires |entries| > 0
    {
      entries[0].key
    }

    function Largest(): InternalKey
      requires |entries| > 0
    {
      entries[|entries| - 1].key
    }
  }

  predicate IsTable(f: File) {
    |f.entries| > 0 && Ordered(f.entries)
  }

  type Table = f: File | IsTable(f)
    witness File(0, 0, [Entry(InternalKey(0.0, 0, Value), "")])

  type Version = seq<seq<Table>>

  /** Levels 1 and up: files in key order, no two of them overlapping. */
  predicate SortedLevel(fs: seq<Table>) {
    forall i, j :: 0 <= i < j < |fs| ==> Before(fs[i].Largest(), fs[j].Smallest())
  }

  /** Every version in `f` of a user key is newer than every version in `g`. */
  ghost predicate Fresher(f: File, g: File) {
    forall d, e :: d in f.entries && e in g.entries && d.key.user == e.key.user ==> d.key.sn > e.key.sn
  }

  ghost predicate FresherLevel(fs: seq<Table>, gs: seq<Table>) {
    forall f, g :: f in fs && g in gs ==> Fresher(f, g)
  }

  /** BySmallestKey, the order in which a level lists its files. */
  predicate FileLess(f: Table, g: Table) {
    Compare(f.Smallest(), g.Smallest()) < 0 || (Compare(f.Smallest(), g.Smallest()) == 0 && f.number < g.number)
  }

  ghost predicate SmallestFirst(fs: seq<Table>) {
    forall i, j :: 0 <= i < j < |fs| ==> FileLess(fs[i], fs[j])
  }

  /** Level 0: a file with a larger number was written later. */
  ghost predicate ZeroLevel(fs: seq<Table>) {
    && SmallestFirst(fs)
    && forall f, g :: f in fs && g in fs ==>
         (f.number > g.number ==> Fresher(f, g)) && (f.number == g.number ==> f == g)
  }

  ghost predicate Valid(v: Version) {
    && |v| == NumLevels
    && ZeroLevel(v[0])
    && (forall l :: 1 <= l < NumLevels ==> SortedLevel(v[l]))
    && (forall a, b :: 0 <= a < b < NumLevels ==> FresherLevel(v[a], v[b]))
  }

  ghost function Contents(fs: seq<Table>): set<Entry> {
    set f, e | f in fs && e in f.entries :: e
  }

  ghost function Stored(v: Version): set<Entry> {
    set l, e | 0 <= l < |v| && e in Contents(v[l]) :: e
  }

  // ---------------------------------------------------------------- order facts

  /** Every entry of a table lies between its smallest and largest keys. */
  lemma InRange(f: Table, e: Entry)
    requires e in f.entries
    ensures f.Smallest() == e.key || Before(f.Smallest(), e.key)
    ensures f.Largest() == e.key || Before(e.key, f.Largest())
  {
    var i :| 0 <= i < |f.entries| && f.entries[i] == e;
    assert Ordered(f.entries);
  }

  /** In a sorted level an earlier file lies wholly before a later one. */
  lemma FilesOrdered(fs: seq<Table>, i: nat, j: nat, d: Entry, e: Entry)
    requires SortedLevel(fs) && i < j < |fs| && d in fs[i].entries && e in fs[j].entries
    ensures Before(d.key, e.key)
  {
    InRange(fs[i], d);
    InRange(fs[j], e);
  }

  lemma TableDistinct(f: Table, d: Entry, e: Entry)
    requires d in f.entries && e in f.entries && d.key.user == e.key.user && d.key.sn == e.key.sn
    ensures d == e
  {
    var i :| 0 <= i < |f.entries| && f.entries[i] == d;
    var j :| 0 <= j < |f.entries| && f.entries[j] == e;
    assert Ordered(f.entries);
  }

  lemma LevelDistinct(v: Version, l: nat, f: Table, g: Table, d: Entry, e: Entry)
    requires Valid(v) && l < NumLevels && f in v[l] && g in v[l] && d in f.entries && e in g.entries
    requires d.key.user == e.key.user && d.key.sn == e.key.sn
    ensures d == e
  {
    if f == g {
      TableDistinct(f, d, e);
    } else if l == 0 {
      assert false;
    } else {
      var i :| 0 <= i < |v[l]| && v[l][i] == f;
      var j :| 0 <= j < |v[l]| && v[l][j] == g;
      if i < j {
        FilesOrdered(v[l], i, j, d, e);
      } else {
        FilesOrdered(v[l], j, i, e, d);
      }
      assert false;
    }
  }

  lemma StoredDistinct(v: Version)
    requires Valid(v)
    ensures Distinct(Stored(v))
  {
    forall d, e | d in Stored(v) && e in Stored(v) && d.key.user == e.key.user && d.key.sn == e.key.sn
      ensures d == e
    {
      var a, f :| 0 <= a < NumLevels && f in v[a] && d in f.entries;
      var b, g :| 0 <= b < NumLevels && g in v[b] && e in g.entries;
      assert a == b || Fresher(f, g) || Fresher(g, f);
      LevelDistinct(v, a, f, g, d, e);
    }
  }

  // ---------------------------------------------------------------- lookup

  datatype Saver = NotFound | Hit(entry: Entry)

  /** What one table or level tells a lookup: its newest candidate, if any. */
  ghost predicate Probe(es: set<Entry>, k: UserKey, s: nat, r: Saver) {
    match r
    case NotFound => forall e :: e in es ==> !Candidate(e, k, s)
    case Hit(e) => Newest(es, k, s, e)
  }

  /** TableCache::Get followed by SaveValue. */
  method TableGet(f: Table, k: UserKey, s: nat) returns (r: Saver)
    ensures Probe(Contents([f]), k, s, r)
    ensures r.NotFound? ==> forall e :: e in f.entries ==> Compare(e.key, SeekKey(k, s)) < 0 || e.key.user > k
  {
    var i := 0;
    while i < |f.entries| && Compare(f.entries[i].key, SeekKey(k, s)) < 0
      invariant 0 <= i <= |f.entries|
      invariant forall j :: 0 <= j < i ==> Compare(f.entries[j].key, SeekKey(k, s)) < 0
    {
      i := i + 1;
    }
    forall e | e in f.entries
      ensures Compare(e.key, SeekKey(k, s)) < 0 || (i < |f.entries| && (e == f.entries[i] || Before(f.entries[i].key, e.key)))
    {
      assert Ordered(f.entries);
    }
    if i < |f.entries| && f.entries[i].key.user == k {
      r := Hit(f.entries[i]);
    } else {
      r := NotFound;
    }
  }

  /** Binary search for the first file whose largest key is at or past `key`. */
  method FindFile(files: seq<Table>, key: InternalKey) returns (index: nat)
    requires SortedLevel(files)
    ensures index <= |files|
    ensures forall i :: 0 <= i < index ==> Compare(files[i].Largest(), key) < 0
    ensures forall i :: index <= i < |files| ==> Compare(files[i].Largest(), key) >= 0
  {
    var left, right := 0, |files|;
    while left < right
      invariant 0 <= left <= right <= |files|
      invariant forall i :: 0 <= i < left ==> Compare(files[i].Largest(), key) < 0
      invariant forall i :: right <= i < |files| ==> Compare(files[i].Largest(), key) >= 0
    {
      var mid := (left + right) / 2;
      forall i | 0 <= i < |files|
        ensures i < mid ==> Before(files[i].Largest(), files[mid].Largest())
        ensures i > mid ==> Before(files[mid].Largest(), files[i].Largest())
      {
        if i < mid {
          InRange(files[mid], files[mid].entries[|files[mid].entries| - 1]);
        } else if i > mid {
          InRange(files[i], files[i].entries[|files[i].entries| - 1]);
        }
      }
      if Compare(files[mid].Largest(), key) < 0 {
        left := mid + 1;
      } else {
        right := mid;
      }
    }
    index := right;
  }

  /** One sorted level of ForEachOverlapping: only the file found can hold a candidate. */
  method LevelGet(files: seq<Table>, k: UserKey, s: nat) returns (r: Saver)
    requires SortedLevel(files)
    ensures Probe(Contents(files), k, s, r)
  {
    var index := FindFile(files, SeekKey(k, s));
    forall i, e | 0 <= i < index && e in files[i].entries
      ensures !Candidate(e, k, s)
    {
      InRange(files[i], e);
    }
    if index == |files| {
      return NotFound;
    }
    ghost var last := files[index].entries[|files[index].entries| - 1];
    forall i, e | index < i < |files| && e in files[i].entries
      ensures Before(last.key, e.key)
    {
      FilesOrdered(files, index, i, last, e);
    }
    if k < files[index].Smallest().user {
      forall e | e in files[index].entries
        ensures k < e.key.user
      {
        InRange(files[index], e);
      }
      return NotFound;
    }
    r := TableGet(files[index], k, s);
  }

  /** Level-0 files whose user key range holds `k`, newest first. */
  method NewestFirst(files: seq<Table>, k: UserKey) returns (tmp: seq<Table>)
    requires ZeroLevel(files)
    ensures forall f :: f in tmp <==> f in files && f.Smallest().user <= k <= f.Largest().user
    ensures forall i, j :: 0 <= i < j < |tmp| ==> tmp[i].number >= tmp[j].number
  {
    tmp := [];
    var i := 0;
    while i < |files|
      invariant 0 <= i <= |files|
      invariant forall f :: f in tmp <==> f in files[..i] && f.Smallest().user <= k <= f.Largest().user
      invariant forall i, j :: 0 <= i < j < |tmp| ==> tmp[i].number >= tmp[j].number
    {
      var f := files[i];
      assert files[..i + 1] == files[..i] + [f];
      if f.Smallest().user <= k <= f.Largest().user {
        var p := 0;
        while p < |tmp| && tmp[p].number >= f.number
          invariant 0 <= p <= |tmp|
          invariant forall q :: 0 <= q < p ==> tmp[q].number >= f.number
        {
          p := p + 1;
        }
        var grown := tmp[..p] + [f] + tmp[p..];
        forall g
          ensures g in grown <==> g in tmp || g == f
        {
          assert tmp == tmp[..p] + tmp[p..];
        }
        tmp := grown;
      }
      i := i + 1;
    }
    assert files[..i] == files;
  }

  lemma OthersMiss(files: seq<Table>, tmp: seq<Table>, k: UserKey)
    requires forall f :: f in files && f.Smallest().user <= k <= f.Largest().user ==> f in tmp
    ensures forall f, e :: f in files && f !in tmp && e in f.entries ==> e.key.user != k
  {
    forall f, e | f in files && f !in tmp && e in f.entries
      ensures e.key.user != k
    {
      InRange(f, e);
    }
  }

  /** A hit in the newest file that has one outranks every other level-0 file. */
  lemma NewestFileWins(files: seq<Table>, tmp: seq<Table>, i: nat, k: UserKey, s: nat, hit: Entry)
    requires ZeroLevel(files) && i < |tmp| && Newest(Contents([tmp[i]]), k, s, hit)
    requires forall f :: f in tmp ==> f in files
    requires forall f, e :: f in files && f !in tmp && e in f.entries ==> e.key.user != k
    requires forall a, b :: 0 <= a < b < |tmp| ==> tmp[a].number >= tmp[b].number
    requires forall j, e :: 0 <= j < i && e in tmp[j].entries ==> !Candidate(e, k, s)
    ensures Newest(Contents(files), k, s, hit)
  {
    assert tmp[i] in files && hit in tmp[i].entries;
    forall e | e in Contents(files) && Candidate(e, k, s)
      ensures e.key.sn <= hit.key.sn
    {
      var f :| f in files && e in f.entries;
      var j :| 0 <= j < |tmp| && tmp[j] == f;
      assert j >= i && tmp[i].number >= f.number;
      if tmp[i].number > f.number {
        assert Fresher(tmp[i], f);
      } else {
        assert e in Contents([tmp[i]]);
      }
    }
  }

  /** The level-0 part of ForEachOverlapping: the first file with a match is the newest. */
  method ZeroGet(files: seq<Table>, k: UserKey, s: nat) returns (r: Saver)
    requires ZeroLevel(files)
    ensures Probe(Contents(files), k, s, r)
  {
    var tmp := NewestFirst(files, k);
    OthersMiss(files, tmp, k);
    var i := 0;
    while i < |tmp|
      invariant 0 <= i <= |tmp|
      invariant forall j, e :: 0 <= j < i && e in tmp[j].entries ==> !Candidate(e, k, s)
    {
      r := TableGet(tmp[i], k, s);
      if r.Hit? {
        NewestFileWins(files, tmp, i, k, s, r.entry);
        return;
      }
      assert forall e :: e in tmp[i].entries ==> e in Contents([tmp[i]]);
      i := i + 1;
    }
    r := NotFound;
  }

  /** A hit in one level outranks everything deeper. */
  lemma ShallowWins(v: Version, l: nat, k: UserKey, s: nat, e: Entry)
    requires Valid(v) && l < NumLevels && Newest(Contents(v[l]), k, s, e)
    requires forall a, d :: 0 <= a < l && d in Contents(v[a]) ==> !Candidate(d, k, s)
    ensures Newest(Stored(v), k, s, e)
  {
    forall o | o in Stored(v) && Candidate(o, k, s)
      ensures o.key.sn <= e.key.sn
    {
      var b :| 0 <= b < NumLevels && o in Contents(v[b]);
      if b > l {
        var f :| f in v[l] && e in f.entries;
        var g :| g in v[b] && o in g.entries;
        assert FresherLevel(v[l], v[b]);
        assert Fresher(f, g);
      }
    }
  }

  /** Version::Get returns what the newest stored version of the key means. */
  method Get(v: Version, k: UserKey, s: nat) returns (r: Option<string>)
    requires Valid(v)
    ensures Reads(Stored(v), k, s, r)
  {
    var hit := ZeroGet(v[0], k, s);
    var level := 1;
    while hit.NotFound? && level < NumLevels
      invariant 1 <= level <= NumLevels
      invariant hit.NotFound? ==> forall a, d :: 0 <= a < level && d in Contents(v[a]) ==> !Candidate(d, k, s)
      invariant hit.Hit? ==> Newest(Stored(v), k, s, hit.entry)
    {
      hit := LevelGet(v[level], k, s);
      if hit.Hit? {
        ShallowWins(v, level, k, s, hit.entry);
      }
      level := level + 1;
    }
    match hit {
      case NotFound => r := None;
      case Hit(e) => r := Meaning(e);
    }
  }
}
