/**
  DBIter (leveldb/db/db_iter.cc): a cursor over the user keys visible at one
  sequence number, built on the merging iterator over internal entries.
*/
module DbIter {
  import opened DbFormat
  import opened Merger

  /** Entry i decides its user key at snapshot s, and decides it to be present. */
  predicate Shows(es: seq<Entry>, s: nat, i: nat)
    requires i < |es|
  {
    && es[i].key.sn <= s && es[i].key.kind.Value?
    && forall j :: 0 <= j < i && es[j].key.user == es[i].key.user ==> es[j].key.sn > s
  }

  /** The positions of the visible user keys, in key order. */
  function Visible(es: seq<Entry>, s: nat, n: nat): (v: seq<nat>)
    requires n <= |es|
    ensures forall a :: 0 <= a < |v| ==> v[a] < n && Shows(es, s, v[a])
    ensures forall a, b :: 0 <= a < b < |v| ==> v[a] < v[b]
  {
    if n == 0 then [] else Visible(es, s, n - 1) + (if Shows(es, s, n - 1) then [n - 1] else [])
  }

  /** No visible position is missed. */
  lemma {:induction false} VisibleComplete(es: seq<Entry>, s: nat, n: nat, i: nat)
    requires i < n <= |es| && Shows(es, s, i)
    ensures i in Visible(es, s, n)
  {
    if i < n - 1 {
      VisibleComplete(es, s, n - 1, i);
    }
  }

  /** The pairs a snapshot cursor runs over. */
  function UserMap(es: seq<Entry>, s: nat): seq<(UserKey, string)> {
    Pairs(es, s, |es|)
  }

  function Pairs(es: seq<Entry>, s: nat, n: nat): seq<(UserKey, string)>
    requires n <= |es|
  {
    if n == 0 then []
    else Pairs(es, s, n - 1) + (if Shows(es, s, n - 1) then [(es[n - 1].key.user, es[n - 1].value)] else [])
  }

  lemma {:induction false} PairsOf(es: seq<Entry>, s: nat, n: nat)
    requires n <= |es|
    ensures |Pairs(es, s, n)| == |Visible(es, s, n)|
    ensures forall a :: 0 <= a < |Pairs(es, s, n)| ==>
              Pairs(es, s, n)[a] == (es[Visible(es, s, n)[a]].key.user, es[Visible(es, s, n)[a]].value)
  {
    if n > 0 {
      PairsOf(es, s, n - 1);
    }
  }

  ghost function AsSet(es: seq<Entry>): set<Entry> {
    set e | e in es
  }

  lemma UserMapIncreases(es: seq<Entry>, s: nat)
    requires Ordered(es)
    ensures forall a, b :: 0 <= a < b < |UserMap(es, s)| ==> UserMap(es, s)[a].0 < UserMap(es, s)[b].0
  {
    var m, v := UserMap(es, s), Visible(es, s, |es|);
    PairsOf(es, s, |es|);
    forall a, b | 0 <= a < b < |m|
      ensures m[a].0 < m[b].0
    {
      assert Before(es[v[a]].key, es[v[b]].key);
      assert Shows(es, s, v[a]) && Shows(es, s, v[b]);
    }
  }

  /** The user map holds a pair exactly when a read of its key at the snapshot returns its value. */
  lemma UserMapIsReads(es: seq<Entry>, s: nat, k: UserKey, x: string)
    requires Ordered(es)
    ensures (k, x) in UserMap(es, s) <==> Reads(AsSet(es), k, s, Some(x))
  {
    if (k, x) in UserMap(es, s) {
      MappedIsRead(es, s, k, x);
    }
    if e :| Newest(AsSet(es), k, s, e) && Some(x) == Meaning(e) {
      ReadIsMapped(es, s, k, x, e);
    }
  }

  lemma MappedIsRead(es: seq<Entry>, s: nat, k: UserKey, x: string)
    requires Ordered(es) && (k, x) in UserMap(es, s)
    ensures Reads(AsSet(es), k, s, Some(x))
  {
    var m, v := UserMap(es, s), Visible(es, s, |es|);
    PairsOf(es, s, |es|);
    var a :| 0 <= a < |m| && m[a] == (k, x);
    ShowsNewest(es, s, v[a]);
  }

  lemma ReadIsMapped(es: seq<Entry>, s: nat, k: UserKey, x: string, e: Entry)
    requires Ordered(es) && Newest(AsSet(es), k, s, e) && Some(x) == Meaning(e)
    ensures (k, x) in UserMap(es, s)
  {
    var m, v := UserMap(es, s), Visible(es, s, |es|);
    PairsOf(es, s, |es|);
    var i :| 0 <= i < |es| && es[i] == e;
    forall j | 0 <= j < i && es[j].key.user == k
      ensures es[j].key.sn > s
    {
      assert es[j] in AsSet(es) && Before(es[j].key, es[i].key);
    }
    VisibleComplete(es, s, |es|, i);
    var a :| 0 <= a < |v| && v[a] == i;
    assert m[a] == (k, x);
  }

  lemma ShowsNewest(es: seq<Entry>, s: nat, i: nat)
    requires Ordered(es) && i < |es| && Shows(es, s, i)
    ensures Newest(AsSet(es), es[i].key.user, s, es[i])
  {
    forall o | o in AsSet(es) && Candidate(o, es[i].key.user, s)
      ensures o.key.sn <= es[i].key.sn
    {
      var j :| 0 <= j < |es| && es[j] == o;
    }
  }

  class Cursor {
    const iter: MergingIterator
    const sequence: nat
    var savedKey: UserKey
    var savedValue: string
    var direction: Direction
    var valid: bool
    ghost const es: seq<Entry>  // what the merging iterator runs over
    ghost var pos: int          // where it stands; outside es when it is not valid

    ghost function View(): seq<nat> {
      Visible(es, sequence, |es|)
    }

    /** The merging iterator stands at pos. */
    ghost predicate Sits()
      reads this, iter
    {
      iter.merged == es && Ordered(es) && -1 <= pos <= |es| && iter.At(if pos == -1 then |es| else pos)
    }

    constructor (iter: MergingIterator, sequence: nat)
      requires iter.At(|iter.merged|)
      ensures this.iter == iter && this.es == iter.merged && this.sequence == sequence && At(|View()|)
    {
      this.iter := iter;
      this.sequence := sequence;
      es := iter.merged;
      pos, savedKey, savedValue, direction, valid := |iter.merged|, 0.0, "", Forward, false;
    }

    // ---- moves of the merging iterator

    method IterNext()
      requires Sits() && 0 <= pos < |es|
      modifies this`pos, iter
      ensures Sits() && pos == old(pos) + 1
    {
      iter.Next(pos);
      pos := pos + 1;
    }

    method IterPrev()
      requires Sits() && 0 <= pos < |es|
      modifies this`pos, iter
      ensures Sits() && pos == old(pos) - 1
    {
      iter.Prev(pos);
      pos := pos - 1;
    }

    method IterSeekToFirst()
      requires Sits()
      modifies this`pos, iter
      ensures Sits() && pos == 0
    {
      iter.SeekToFirst();
      pos := 0;
    }

    method IterSeekToLast()
      requires Sits()
      modifies this`pos, iter
      ensures Sits() && pos == |es| - 1
    {
      iter.SeekToLast();
      pos := |es| - 1;
    }

    method IterSeek(target: InternalKey)
      requires Sits()
      modifies this`pos, iter
      ensures Sits() && pos == Gap(es, target)
    {
      iter.Seek(target);
      pos := Gap(es, target);
    }

    predicate IterValid()
      reads this, iter
    {
      iter.IsValid()
    }

    /** The iterator is valid exactly inside the entries, and shows the one it stands at. */
    lemma IterShows()
      requires Sits()
      ensures IterValid() <==> 0 <= pos < |es|
      ensures IterValid() ==> iter.Ok() && iter.ChildValid(iter.current) && iter.Shown() == es[pos]
    {
      if IterValid() {
        iter.ShowsMerge(pos);
      }
    }

    /** The cursor shows pair n of the user map; n == |View()| means it is not valid. */
    ghost predicate At(n: nat)
      reads this, iter
    {
      Sits() && OnPair(n)
    }

    ghost predicate OnPair(n: nat)
      reads this
    {
      && n <= |View()|
      && (valid <==> n < |View()|)
      && (valid ==>
            var i := View()[n];
            && i < |es|
            && (direction.Forward? ==> pos == i)
            && (direction.Reverse? ==> savedKey == es[i].key.user && savedValue == es[i].value && JustBefore(pos, i)))
    }

    /** Reverse position: everything between p and entry i is invisible, and p belongs to a smaller key. */
    ghost predicate JustBefore(p: int, i: nat)
      requires i < |es|
    {
      && -1 <= p < i
      && (p >= 0 ==> es[p].key.user < es[i].key.user)
      && forall j :: p < j < i ==> es[j].key.sn > sequence
    }

    function Key(): UserKey
      requires valid && (direction.Forward? ==> iter.Ok() && iter.IsValid() && iter.ChildValid(iter.current))
      reads this, iter
    {
      if direction.Forward? then iter.Shown().key.user else savedKey
    }

    function Value(): string
      requires valid && (direction.Forward? ==> iter.Ok() && iter.IsValid() && iter.ChildValid(iter.current))
      reads this, iter
    {
      if direction.Forward? then iter.Shown().value else savedValue
    }

    /** What is shown at position n is pair n of the user map. */
    lemma ShowsUserMap(n: nat)
      requires At(n) && valid
      ensures direction.Forward? ==> iter.Ok() && iter.IsValid() && iter.ChildValid(iter.current)
      ensures n < |UserMap(es, sequence)| && (Key(), Value()) == UserMap(es, sequence)[n]
    {
      PairsOf(es, sequence, |es|);
      IterShows();
    }

    /**
      What the skipping scan keeps true at position p when pair n is the one sought:
      hidden entries are exactly those at or before the key to skip.
    */
    ghost predicate Scanning(p: int, n: nat, skipping: bool, skip: UserKey) {
      && 0 <= p <= |es| && n <= |View()|
      && (forall m :: n <= m < |View()| ==> View()[m] >= p && (skipping ==> skip < es[View()[m]].key.user))
      && (forall m :: 0 <= m < n && View()[m] >= p ==> skipping && es[View()[m]].key.user <= skip)
      && (forall m, j :: 0 <= m < n && p <= j < View()[m] ==> es[j].key.sn > sequence)
      && (forall j, k :: 0 <= j < p <= k < |es| && es[j].key.sn <= sequence && es[j].key.user == es[k].key.user ==>
            skipping && es[k].key.user <= skip)
    }

    lemma ScanInvisible(p: int, n: nat, skipping: bool, skip: UserKey)
      requires Ordered(es) && Scanning(p, n, skipping, skip) && p < |es|
      requires es[p].key.sn > sequence || (skipping && es[p].key.user <= skip)
      ensures Scanning(p + 1, n, skipping, skip)
    {
      assert forall m :: n <= m < |View()| ==> Shows(es, sequence, View()[m]);
    }

    lemma ScanDeletion(p: int, n: nat, skipping: bool, skip: UserKey)
      requires Ordered(es) && Scanning(p, n, skipping, skip) && p < |es|
      requires es[p].key.sn <= sequence && es[p].key.kind.Deletion?
      ensures Scanning(p + 1, n, true, es[p].key.user)
    {
      forall m | n <= m < |View()|
        ensures View()[m] >= p + 1 && es[p].key.user < es[View()[m]].key.user
      {
        assert Shows(es, sequence, View()[m]);
        assert View()[m] == p || Before(es[p].key, es[View()[m]].key);
      }
      forall j, k | 0 <= j <= p < k < |es| && es[j].key.user == es[k].key.user
        ensures es[k].key.user <= es[p].key.user
      {
        assert j == p || Before(es[j].key, es[p].key);
      }
    }

    lemma ScanFound(p: int, n: nat, skipping: bool, skip: UserKey)
      requires Ordered(es) && Scanning(p, n, skipping, skip) && p < |es|
      requires es[p].key.sn <= sequence && es[p].key.kind.Value? && !(skipping && es[p].key.user <= skip)
      ensures n < |View()| && View()[n] == p
    {
      VisibleComplete(es, sequence, |es|, p);
      var m :| 0 <= m < |View()| && View()[m] == p;
      assert m >= n;
    }

    lemma ScanEnds(n: nat, skipping: bool, skip: UserKey)
      requires Scanning(|es|, n, skipping, skip)
      ensures n == |View()|
    {
      assert |View()| > 0 ==> View()[|View()| - 1] < |es|;
    }

    /** The three cases of an entry: found, a deletion to skip behind, or one to pass over. */
    lemma ScanStep(p: int, n: nat, skipping: bool, skip: UserKey)
      requires Ordered(es) && Scanning(p, n, skipping, skip) && p < |es|
      ensures var e := es[p];
              if e.key.sn <= sequence && e.key.kind.Deletion? then Scanning(p + 1, n, true, e.key.user)
              else if e.key.sn <= sequence && !(skipping && e.key.user <= skip) then n < |View()| && View()[n] == p
              else Scanning(p + 1, n, skipping, skip)
    {
      var e := es[p];
      if e.key.sn <= sequence && e.key.kind.Deletion? {
        ScanDeletion(p, n, skipping, skip);
      } else if e.key.sn <= sequence && !(skipping && e.key.user <= skip) {
        ScanFound(p, n, skipping, skip);
      } else {
        ScanInvisible(p, n, skipping, skip);
      }
    }

    method FindNextUserEntry(skip0: bool, skipKey: UserKey, ghost n: nat)
      requires Sits() && 0 <= pos < |es| && direction.Forward? && Scanning(pos, n, skip0, skipKey)
      modifies this`pos, this`savedKey, this`valid, iter
      ensures At(n)
    {
      var skipping, skip := skip0, skipKey;
      IterShows();
      while IterValid()
        invariant Sits() && (IterValid() <==> 0 <= pos < |es|) && Scanning(pos, n, skipping, skip)
        decreases |es| - pos
      {
        IterShows();
        var e := iter.Shown();
        ScanStep(pos, n, skipping, skip);
        if e.key.sn <= sequence {
          match e.key.kind {
            case Deletion =>
              skip := e.key.user;
              skipping := true;
            case Value =>
              if skipping && e.key.user <= skip {
                // entry hidden
              } else {
                valid := true;
                savedKey := 0.0;
                return;
              }
          }
        }
        IterNext();
        IterShows();
      }
      ScanEnds(n, skipping, skip);
      savedKey := 0.0;
      valid := false;
    }

    method Next(ghost n: nat)
      requires At(n) && valid
      modifies this, iter
      ensures At(n + 1)
    {
      ghost var i := View()[n];
      assert Shows(es, sequence, i);
      IterShows();
      if direction.Reverse? {
        direction := Forward;
        if !IterValid() {
          IterSeekToFirst();
        } else {
          IterNext();
        }
      } else {
        savedKey := iter.Shown().key.user;
        IterNext();
      }
      SkipCurrent(pos, n);
      IterShows();
      if !IterValid() {
        ScanEnds(n + 1, true, savedKey);
        valid := false;
        savedKey := 0.0;
        return;
      }
      FindNextUserEntry(true, savedKey, n + 1);
    }

    /** Standing just past, or just before, the shown entry, its key is the one to skip. */
    lemma SkipCurrent(p: int, n: nat)
      requires Ordered(es) && n < |View()| && 0 <= p <= View()[n] + 1
      requires p > 0 ==> es[p - 1].key.user < es[View()[n]].key.user || p - 1 == View()[n]
      requires forall j :: p <= j < View()[n] ==> es[j].key.sn > sequence
      ensures Scanning(p, n + 1, true, es[View()[n]].key.user)
    {
      var i := View()[n];
      var u := es[i].key.user;
      forall m | n + 1 <= m < |View()|
        ensures View()[m] >= p && u < es[View()[m]].key.user
      {
        assert Before(es[i].key, es[View()[m]].key) && Shows(es, sequence, View()[m]);
      }
      forall m | 0 <= m < n + 1 && View()[m] >= p
        ensures m == n
      {
        assert Shows(es, sequence, View()[m]);
      }
      forall j, k | 0 <= j < p <= k < |es| && es[j].key.user == es[k].key.user
        ensures es[k].key.user <= u
      {
        assert j == p - 1 || Before(es[j].key, es[p - 1].key);
      }
    }

    method SeekToFirst()
      requires Sits()
      modifies this, iter
      ensures At(0)
    {
      direction := Forward;
      savedValue := "";
      IterSeekToFirst();
      IterShows();
      if IterValid() {
        FindNextUserEntry(false, savedKey, 0);
      } else {
        valid := false;
      }
    }

    /** The first pair whose key is at or past `target`. */
    ghost predicate FirstFrom(target: UserKey, n: nat) {
      && n <= |View()|
      && (forall m :: 0 <= m < n ==> es[View()[m]].key.user < target)
      && (forall m :: n <= m < |View()| ==> es[View()[m]].key.user >= target)
    }

    method Seek(target: UserKey) returns (ghost n: nat)
      requires Sits()
      modifies this, iter
      ensures FirstFrom(target, n) && At(n)
    {
      direction := Forward;
      savedValue := "";
      IterSeek(SeekKey(target, sequence));
      n := VisibleBelow(pos);
      SeekScans(target, n, savedKey);
      IterShows();
      if IterValid() {
        FindNextUserEntry(false, savedKey, n);
      } else {
        ScanEnds(n, false, savedKey);
        valid := false;
      }
    }

    /** Seeking to (target, sequence) splits the entries at the target key, visibly speaking. */
    lemma SeekSplits(target: UserKey, i: nat)
      requires Ordered(es) && i < |es|
      ensures i < Gap(es, SeekKey(target, sequence)) ==> es[i].key.user < target || (es[i].key.user == target && es[i].key.sn > sequence)
      ensures i >= Gap(es, SeekKey(target, sequence)) ==> es[i].key.user >= target
    {
      GapSplits(es, SeekKey(target, sequence));
      assert i < Gap(es, SeekKey(target, sequence)) <==> Compare(es[i].key, SeekKey(target, sequence)) < 0;
    }

    /** How many visible positions lie below g. */
    lemma VisibleBelow(g: int) returns (n: nat)
      ensures n <= |View()| && forall m :: 0 <= m < |View()| ==> (m < n <==> View()[m] < g)
    {
      n := 0;
      while n < |View()| && View()[n] < g
        invariant 0 <= n <= |View()|
        invariant forall m :: 0 <= m < n ==> View()[m] < g
      {
        n := n + 1;
      }
    }

    lemma SeekScans(target: UserKey, n: nat, skip: UserKey)
      requires Ordered(es) && n <= |View()|
      requires forall m :: 0 <= m < |View()| ==> (m < n <==> View()[m] < Gap(es, SeekKey(target, sequence)))
      ensures FirstFrom(target, n)
      ensures Scanning(Gap(es, SeekKey(target, sequence)), n, false, skip)
    {
      var g := Gap(es, SeekKey(target, sequence));
      forall m | 0 <= m < |View()|
        ensures if m < n then es[View()[m]].key.user < target else es[View()[m]].key.user >= target
      {
        SeekSplits(target, View()[m]);
        assert Shows(es, sequence, View()[m]);
      }
      forall j, k | 0 <= j < g <= k < |es|
        ensures es[j].key.sn > sequence || es[j].key.user != es[k].key.user
      {
        SeekSplits(target, j);
        SeekSplits(target, k);
      }
    }

    // ---- moving backwards

    /** Going down from entry p, nothing above it shares a visible version with what is below. */
    ghost predicate Boundary(p: int, n: nat) {
      && -1 <= p < |es| && n <= |View()|
      && (forall m :: 0 <= m < |View()| ==> (m < n <==> View()[m] <= p))
      && (forall j, k :: 0 <= k <= p < j < |es| && es[j].key.user == es[k].key.user ==> es[j].key.sn > sequence)
    }

    /**
      What the downward scan from p keeps true: q is the last visible entry seen,
      and no entry seen other than q can be shown.
    */
    ghost predicate Descending(at: int, p: int, q: int, found: ValueType, key: UserKey, value: string) {
      && -1 <= at <= p < |es| && at < q <= |es|
      && (q == |es| ==> found.Deletion?)
      && (q < |es| ==> q <= p && es[q].key.sn <= sequence && found == es[q].key.kind)
      && (q < |es| && found.Value? ==> key == es[q].key.user && value == es[q].value)
      && (forall j :: at < j <= p && j < q ==> es[j].key.sn > sequence)
      && (forall j :: at < j <= p && j != q ==> !Shows(es, sequence, j))
    }

    lemma PrevNone(n: nat, p: int, q: int, key: UserKey, value: string)
      requires Boundary(p, n) && Descending(-1, p, q, Deletion, key, value)
      ensures n == 0
    {
      assert |View()| > 0 ==> Shows(es, sequence, View()[0]);
    }

    lemma PrevFound(n: nat, at: int, p: int, q: int, key: UserKey, value: string)
      requires Ordered(es) && Boundary(p, n) && Descending(at, p, q, ValueType.Value, key, value)
      requires at >= 0 ==> es[at].key.user < key
      ensures n > 0 && View()[n - 1] == q && JustBefore(at, q)
    {
      forall j | 0 <= j <= at
        ensures es[j].key.user < es[q].key.user
      {
        assert j < at ==> Before(es[j].key, es[at].key);
      }
      VisibleComplete(es, sequence, |es|, q);
      var m :| 0 <= m < |View()| && View()[m] == q;
      assert m < n;
      assert Shows(es, sequence, View()[n - 1]);
    }

    /** The loop of FindPrevUserEntry: down to an entry with a smaller key than the value saved, or before the first. */
    method ScanDown() returns (valueType: ValueType, ghost q: int)
      requires Sits() && pos < |es|
      modifies this`pos, this`savedKey, this`savedValue, iter
      ensures Sits() && Descending(pos, old(pos), q, valueType, savedKey, savedValue)
      ensures if valueType.Deletion? then pos == -1 else pos >= 0 ==> es[pos].key.user < savedKey
    {
      valueType := Deletion;
      ghost var p := pos;
      q := |es|;
      IterShows();
      while IterValid()
        invariant Sits() && pos < |es| && (IterValid() <==> 0 <= pos) && Descending(pos, p, q, valueType, savedKey, savedValue)
        decreases pos
      {
        IterShows();
        var e := iter.Shown();
        if e.key.sn <= sequence {
          if valueType != Deletion && e.key.user < savedKey {
            return;
          }
          DescendVisible(pos, p, q, valueType, savedKey, savedValue);
          valueType := e.key.kind;
          savedKey, savedValue := if valueType == Deletion then 0.0 else e.key.user, if valueType == Deletion then "" else e.value;
          q := pos;
        }
        IterPrev();
        IterShows();
      }
    }

    method FindPrevUserEntry(ghost n: nat)
      requires Sits() && direction.Reverse? && Boundary(pos, n)
      modifies this, iter
      ensures At(if n == 0 then |View()| else n - 1)
    {
      ghost var p := pos;
      var valueType, q := ScanDown();
      if valueType == Deletion {
        PrevNone(n, p, q, savedKey, savedValue);
        valid := false;
        savedKey := 0.0;
        savedValue := "";
        direction := Forward;
      } else {
        PrevFound(n, pos, p, q, savedKey, savedValue);
        valid := true;
      }
    }

    /** A newer visible version of the same key, or any visible entry below a deletion, takes over. */
    lemma DescendVisible(at: int, p: int, q: int, found: ValueType, key: UserKey, value: string)
      requires Ordered(es) && Descending(at, p, q, found, key, value) && at >= 0
      requires es[at].key.sn <= sequence && (found.Deletion? || es[at].key.user >= key)
      ensures forall j :: at < j <= p ==> !Shows(es, sequence, j)
    {
      if q < |es| && found.Value? {
        assert Before(es[at].key, es[q].key);
      }
    }

    method Prev(ghost n: nat)
      requires At(n) && valid
      modifies this, iter
      ensures At(if n == 0 then |View()| else n - 1)
    {
      if direction.Forward? {
        LeaveKey(n);
        if !IterValid() {
          valid := false;
          savedKey := 0.0;
          savedValue := "";
          return;
        }
        direction := Reverse;
      } else {
        BelowInvisible(pos, n);
      }
      FindPrevUserEntry(n);
    }

    /** Back from the shown entry to an entry with a smaller key. */
    method LeaveKey(ghost n: nat)
      requires At(n) && valid && direction.Forward?
      modifies this`pos, this`savedKey, iter
      ensures Sits() && Boundary(pos, n) && (IterValid() <==> pos >= 0) && (pos == -1 ==> n == 0)
    {
      ghost var i := View()[n];
      assert Shows(es, sequence, i);
      IterShows();
      savedKey := iter.Shown().key.user;
      IterPrev();
      IterShows();
      while IterValid()
        invariant Sits() && (IterValid() <==> 0 <= pos < |es|) && -1 <= pos < i && savedKey == es[i].key.user
        invariant forall j :: pos < j <= i ==> es[j].key.user == savedKey
        decreases pos
      {
        IterShows();
        if iter.Shown().key.user < savedKey {
          break;
        }
        assert Before(es[pos].key, es[i].key);
        IterPrev();
        IterShows();
      }
      BelowKey(pos, n);
    }

    lemma BelowKey(p: int, n: nat)
      requires Ordered(es) && n < |View()| && -1 <= p < View()[n]
      requires forall j :: p < j <= View()[n] ==> es[j].key.user == es[View()[n]].key.user
      requires p >= 0 ==> es[p].key.user < es[View()[n]].key.user
      ensures Boundary(p, n)
      ensures p == -1 ==> n == 0
    {
      var i := View()[n];
      assert Shows(es, sequence, i);
      assert n > 0 ==> View()[0] >= 0;
      forall m | 0 <= m < n
        ensures View()[m] <= p
      {
        assert Shows(es, sequence, View()[m]);
      }
      forall j, k | 0 <= k <= p < j < |es|
        ensures es[j].key.user != es[k].key.user
      {
        assert k == p || Before(es[k].key, es[p].key);
        assert j <= i || Before(es[i].key, es[j].key);
      }
    }

    lemma BelowInvisible(p: int, n: nat)
      requires Ordered(es) && n < |View()| && JustBefore(p, View()[n])
      ensures Boundary(p, n)
    {
      var i := View()[n];
      assert Shows(es, sequence, i);
      forall m | 0 <= m < n
        ensures View()[m] <= p
      {
        assert Shows(es, sequence, View()[m]);
      }
      forall j, k | 0 <= k <= p < j < |es| && es[j].key.user == es[k].key.user
        ensures es[j].key.sn > sequence
      {
        assert k == p || Before(es[k].key, es[p].key);
        assert j <= i || Before(es[i].key, es[j].key);
      }
    }

    method SeekToLast()
      requires Sits()
      modifies this, iter
      ensures At(if |View()| == 0 then 0 else |View()| - 1)
    {
      direction := Reverse;
      savedValue := "";
      IterSeekToLast();
      FindPrevUserEntry(|View()|);
    }
  }
}
