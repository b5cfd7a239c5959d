/**
  Internal keys of the storage engine (leveldb/db/dbformat.h, leveldb/db/dbformat.cc).

  The engine touches user keys only through its Comparator.  A user key is
  represented here by its position in the comparator's total order; every total
  order on a countable set of keys embeds in the reals, so this loses nothing.
*/
module DbFormat {
  type UserKey = real

  datatype ValueType = Deletion | Value

  datatype InternalKey = InternalKey(user: UserKey, sn: nat, kind: ValueType)

  datatype Entry = Entry(key: InternalKey, value: string)

  datatype Option<+T> = None | Some(value: T)

  /** PackSequenceAndType */
  function Tag(k: InternalKey): nat {
    k.sn * 256 + (if k.kind.Value? then 1 else 0)
  }

  /** InternalKeyComparator::Compare: increasing user key, decreasing tag. */
  function Compare(a: InternalKey, b: InternalKey): int {
    if a.user < b.user then -1
    else if a.user > b.user then 1
    else if Tag(a) > Tag(b) then -1
    else if Tag(a) < Tag(b) then 1
    else 0
  }

  /** The key a lookup at snapshot `s` seeks to (kValueTypeForSeek). */
  function SeekKey(user: UserKey, s: nat): InternalKey {
    InternalKey(user, s, Value)
  }

  /** Strict order of two stored keys: sequence numbers alone separate versions. */
  predicate Before(a: InternalKey, b: InternalKey) {
    a.user < b.user || (a.user == b.user && a.sn > b.sn)
  }

  predicate Ordered(es: seq<Entry>) {
    forall i, j :: 0 <= i < j < |es| ==> Before(es[i].key, es[j].key)
  }

  /** `e` is a version of `k` that a read at snapshot `s` may see. */
  predicate Candidate(e: Entry, k: UserKey, s: nat) {
    e.key.user == k && e.key.sn <= s
  }

  /** What a stored version means to a reader. */
  function Meaning(e: Entry): Option<string> {
    if e.key.kind.Value? then Some(e.value) else None
  }

  /** `e` is the newest version of `k` at snapshot `s` in `es`. */
  ghost predicate Newest(es: set<Entry>, k: UserKey, s: nat, e: Entry) {
    e in es && Candidate(e, k, s) && forall o :: o in es && Candidate(o, k, s) ==> o.key.sn <= e.key.sn
  }

  /** The reference meaning of a read: the newest version decides. */
  ghost predicate Reads(es: set<Entry>, k: UserKey, s: nat, r: Option<string>) {
    || (exists e :: Newest(es, k, s, e) && r == Meaning(e))
    || (r == None && forall e :: e in es ==> !Candidate(e, k, s))
  }

  /** No two stored versions of one user key share a sequence number. */
  ghost predicate Distinct(es: set<Entry>) {
    forall d, e :: d in es && e in es && d.key.user == e.key.user && d.key.sn == e.key.sn ==> d == e
  }

  lemma ReadsUnique(es: set<Entry>, k: UserKey, s: nat, r: Option<string>, q: Option<string>)
    requires Distinct(es) && Reads(es, k, s, r) && Reads(es, k, s, q)
    ensures r == q
  {
  }
}
