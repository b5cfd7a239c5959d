/**
  Batches of updates as bytes (leveldb/db/write_batch.cc): a fixed 64-bit sequence number, a
  fixed 32-bit count, and the records.
*/
module WriteBatch {
  import opened Coding

  const HEADER: nat := 12
  const MAX_COUNT: nat := 0x8000_0000

  type Slice = s: Bytes | |s| < 0x1_0000_0000
  datatype Op = Put(key: Slice, value: Slice) | Delete(key: Slice)
  datatype Batch = Batch(sequence: nat, ops: seq<Op>)
  /** What a memtable is given: an update under its sequence number. */
  datatype Entry = Entry(sequence: nat, op: Op)

  // ---------------------------------------------------------------- records

  function Prefixed(s: Slice): Bytes {
    EncodeVarint(|s|) + s
  }

  function Record(op: Op): (r: Bytes)
    ensures |r| > 0
  {
    match op
    case Put(key, value) => [1] + Prefixed(key) + Prefixed(value)
    case Delete(key) => [0] + Prefixed(key)
  }

  function Flatten(parts: seq<Bytes>): Bytes {
    if parts == [] then [] else Flatten(parts[..|parts| - 1]) + parts[|parts| - 1]
  }

  lemma FlattenSnoc(parts: seq<Bytes>, part: Bytes)
    ensures Flatten(parts + [part]) == Flatten(parts) + part
  {
    assert (parts + [part])[..|parts|] == parts;
  }

  lemma Assoc<T>(a: seq<T>, b: seq<T>, c: seq<T>)
    ensures a + b + c == a + (b + c)
  {
  }

  lemma {:induction false} FlattenConcat(a: seq<Bytes>, b: seq<Bytes>)
    ensures Flatten(a + b) == Flatten(a) + Flatten(b)
  {
    if b == [] {
      assert a + b == a;
    } else {
      var n := |b| - 1;
      var front, last := b[..n], b[n];
      assert b == front + [last];
      Assoc(a, front, [last]);
      FlattenConcat(a, front);
      FlattenSnoc(a + front, last);
      Assoc(Flatten(a), Flatten(front), last);
    }
  }

  /** Each part stands behind those before it. */
  lemma {:induction false} FlattenAt(parts: seq<Bytes>, i: nat)
    requires i < |parts|
    ensures StandsAt(Flatten(parts), |Flatten(parts[..i])|, parts[i])
  {
    var n := |parts| - 1;
    var front := parts[..n];
    if i < n {
      FlattenAt(front, i);
      assert front[..i] == parts[..i];
      StandsBefore(Flatten(front), parts[n], |Flatten(parts[..i])|, parts[i]);
    }
  }

  function Parts(ops: seq<Op>): seq<Bytes> {
    seq(|ops|, i requires 0 <= i < |ops| => Record(ops[i]))
  }

  function Records(ops: seq<Op>): Bytes {
    Flatten(Parts(ops))
  }

  lemma RecordsSnoc(ops: seq<Op>, op: Op)
    ensures Records(ops + [op]) == Records(ops) + Record(op)
  {
    assert Parts(ops + [op]) == Parts(ops) + [Record(op)];
    FlattenSnoc(Parts(ops), Record(op));
  }

  /** The records of two batches one after the other. */
  lemma RecordsConcat(a: seq<Op>, b: seq<Op>)
    ensures Records(a + b) == Records(a) + Records(b)
  {
    assert Parts(a + b) == Parts(a) + Parts(b);
    FlattenConcat(Parts(a), Parts(b));
  }

  lemma PartsTake(ops: seq<Op>, i: nat)
    requires i < |ops|
    ensures Parts(ops)[..i] == Parts(ops[..i]) && Parts(ops)[i] == Record(ops[i])
  {
  }

  lemma PartStandsBehind(h: Bytes, parts: seq<Bytes>, i: nat, data: Bytes, p: nat)
    requires i < |parts| && data == h + Flatten(parts) && p == |h| + |Flatten(parts[..i])|
    ensures StandsAt(data, p, parts[i])
  {
    FlattenAt(parts, i);
    StandsBehind(h, Flatten(parts), |Flatten(parts[..i])|, parts[i]);
  }

  lemma RecordStands(h: Bytes, ops: seq<Op>, i: nat, data: Bytes, p: nat, l: Bytes)
    requires i < |ops| && data == h + Records(ops) && p == |h| + |Records(ops[..i])| && l == Record(ops[i])
    ensures StandsAt(data, p, l)
  {
    PartsTake(ops, i);
    PartStandsBehind(h, Parts(ops), i, data, p);
  }

  lemma StandsBehind(h: Bytes, file: Bytes, pos: nat, l: Bytes)
    requires StandsAt(file, pos, l)
    ensures StandsAt(h + file, |h| + pos, l)
  {
    forall j | |h| + pos <= j < |h| + pos + |l| ensures (h + file)[j] == l[j - |h| - pos] {
      assert file[j - |h|] == l[j - |h| - pos];
    }
  }

  // ---------------------------------------------------------------- reading them back

  /** GetLengthPrefixedSlice: the slice at p and the position behind it. */
  function GetSlice(data: Bytes, p: nat): (r: Option<(Slice, nat)>)
    ensures r.Some? ==> p <= r.value.1 <= |data|
  {
    var length := GetVarint(data, p, |data|);
    VarintAdvances(data, p);
    if length.None? || length.value.1 + length.value.0 > |data| then None
    else
      var q := length.value.1;
      Some((data[q..q + length.value.0], q + length.value.0))
  }

  lemma VarintAdvances(data: Bytes, p: nat)
    ensures GetVarint(data, p, |data|).Some? ==> p < GetVarint(data, p, |data|).value.1 <= |data|
  {
    VarintFromAdvances(data, p, 0);
  }

  lemma {:induction false} VarintFromAdvances(data: Bytes, p: nat, k: nat)
    ensures GetVarintFrom(data, p, |data|, k).Some? ==> p < GetVarintFrom(data, p, |data|, k).value.1 <= |data|
    decreases 5 - k
  {
    if k < 5 && p < |data| {
      VarintFromAdvances(data, p + 1, k + 1);
    }
  }

  /** One record of Iterate: the update at p and the position behind it. */
  function GetOp(data: Bytes, p: nat): (r: Option<(Op, nat)>)
    requires p < |data|
    ensures r.Some? ==> p < r.value.1 <= |data|
  {
    if data[p] == 1 then
      var key := GetSlice(data, p + 1);
      if key.None? then None
      else
        var value := GetSlice(data, key.value.1);
        if value.None? then None else Some((Put(key.value.0, value.value.0), value.value.1))
    else if data[p] == 0 then
      var key := GetSlice(data, p + 1);
      if key.None? then None else Some((Delete(key.value.0), key.value.1))
    else None
  }

  lemma SliceAt(data: Bytes, p: nat, l: Bytes, s: Slice)
    requires StandsAt(data, p, l) && l == Prefixed(s)
    ensures GetSlice(data, p) == Some((s, p + |l|))
  {
    var e := EncodeVarint(|s|);
    forall j | p <= j < p + |e| ensures data[j] == e[j - p] {
      assert data[j] == l[j - p];
    }
    VarintAt(data, p, |data|, |s|);
    var q := p + |e|;
    forall j | 0 <= j < |s| ensures data[q..q + |s|][j] == s[j] {
      assert data[q + j] == l[q + j - p];
    }
    assert data[q..q + |s|] == s;
  }

  lemma PartStands(data: Bytes, p: nat, l: Bytes, a: Bytes, b: Bytes, c: Bytes)
    requires StandsAt(data, p, l) && l == a + b + c
    ensures StandsAt(data, p, a) && StandsAt(data, p + |a|, b) && StandsAt(data, p + |a| + |b|, c)
  {
    forall j | p <= j < p + |a| ensures data[j] == a[j - p] {
      assert data[j] == l[j - p];
    }
    forall j | p + |a| <= j < p + |a| + |b| ensures data[j] == b[j - p - |a|] {
      assert data[j] == l[j - p];
    }
    forall j | p + |a| + |b| <= j < p + |l| ensures data[j] == c[j - p - |a| - |b|] {
      assert data[j] == l[j - p];
    }
  }

  lemma PutAt(data: Bytes, p: nat, l: Bytes, key: Slice, value: Slice)
    requires StandsAt(data, p, l) && l == [1] + Prefixed(key) + Prefixed(value)
    ensures GetOp(data, p) == Some((Put(key, value), p + |l|))
  {
    var k, v := Prefixed(key), Prefixed(value);
    PartStands(data, p, l, [1], k, v);
    assert data[p] == 1;
    SliceAt(data, p + 1, k, key);
    SliceAt(data, p + 1 + |k|, v, value);
  }

  lemma DeleteAt(data: Bytes, p: nat, l: Bytes, key: Slice)
    requires StandsAt(data, p, l) && l == [0] + Prefixed(key)
    ensures GetOp(data, p) == Some((Delete(key), p + |l|))
  {
    var k := Prefixed(key);
    assert l == [0] + k + [];
    PartStands(data, p, l, [0], k, []);
    assert data[p] == 0;
    SliceAt(data, p + 1, k, key);
  }

  /** A record reads back as the update it was made from. */
  lemma OpAt(data: Bytes, p: nat, op: Op)
    requires StandsAt(data, p, Record(op))
    ensures GetOp(data, p) == Some((op, p + |Record(op)|))
  {
    match op
    case Put(key, value) => PutAt(data, p, Record(op), key, value);
    case Delete(key) => DeleteAt(data, p, Record(op), key);
  }

  /** How one record is read. */
  type Getter = (Bytes, nat) -> Option<(Op, nat)>

  /** GetOp wherever it is asked. */
  function Next(data: Bytes, p: nat): Option<(Op, nat)> {
    if p < |data| then GetOp(data, p) else None
  }

  /** All updates from p on, and whether nothing but updates was found. */
  function ParseBy(get: Getter, data: Bytes, p: nat): (seq<Op>, bool)
    decreases |data| - p
  {
    if p >= |data| then ([], true)
    else
      match get(data, p)
      case None => ([], false)
      case Some(r) =>
        if r.1 <= p then ([], false)
        else
          var rest := ParseBy(get, data, r.1);
          ([r.0] + rest.0, rest.1)
  }

  function Parse(data: Bytes, p: nat): (seq<Op>, bool) {
    ParseBy(Next, data, p)
  }

  /** Updates that stand one behind the other, to the end, are all found. */
  lemma {:induction false} ParseAll(get: Getter, data: Bytes, ops: seq<Op>, pos: seq<nat>, i: nat)
    requires |pos| == |ops| + 1 && i <= |ops| && pos[|ops|] == |data|
    requires forall j :: 0 <= j < |ops| ==> pos[j] < |data| && pos[j] < pos[j + 1] && get(data, pos[j]) == Some((ops[j], pos[j + 1]))
    ensures ParseBy(get, data, pos[i]) == (ops[i..], true)
    decreases |ops| - i
  {
    if i < |ops| {
      ParseAll(get, data, ops, pos, i + 1);
      assert ops[i..] == [ops[i]] + ops[i + 1..];
    }
  }

  function Positions(h: nat, ops: seq<Op>): seq<nat> {
    seq(|ops| + 1, i requires 0 <= i <= |ops| => h + |Records(ops[..i])|)
  }

  lemma RecordEnd(ops: seq<Op>, i: nat, l: Bytes)
    requires i < |ops| && l == Record(ops[i])
    ensures |Records(ops[..i + 1])| == |Records(ops[..i])| + |l|
  {
    assert ops[..i + 1] == ops[..i] + [ops[i]];
    RecordsSnoc(ops[..i], ops[i]);
  }

  lemma NextAt(data: Bytes, p: nat, l: Bytes, op: Op, q: nat)
    requires StandsAt(data, p, l) && l == Record(op) && q == p + |l|
    ensures p < q <= |data| && Next(data, p) == Some((op, q))
  {
    OpAt(data, p, op);
  }

  lemma NextIs(h: Bytes, ops: seq<Op>, i: nat, data: Bytes, p: nat, q: nat)
    requires i < |ops| && data == h + Records(ops) && p == |h| + |Records(ops[..i])| && q == |h| + |Records(ops[..i + 1])|
    ensures p < q <= |data| && Next(data, p) == Some((ops[i], q))
  {
    var l := Record(ops[i]);
    RecordStands(h, ops, i, data, p, l);
    RecordEnd(ops, i, l);
    NextAt(data, p, l, ops[i], q);
  }

  /** What was written is what is parsed. */
  lemma ParseRecords(h: Bytes, ops: seq<Op>)
    ensures Parse(h + Records(ops), |h|) == (ops, true)
  {
    var pos, data := Positions(|h|, ops), h + Records(ops);
    forall j | 0 <= j < |ops|
      ensures pos[j] < |data| && pos[j] < pos[j + 1] && Next(data, pos[j]) == Some((ops[j], pos[j + 1]))
    {
      NextIs(h, ops, j, data, pos[j], pos[j + 1]);
    }
    assert ops[..|ops|] == ops && ops[..0] == [] && ops[0..] == ops;
    ParseAll(Next, data, ops, pos, 0);
  }

  // ---------------------------------------------------------------- batches

  function EncodeFixed64(v: nat): (s: Bytes)
    requires v < 0x1_0000_0000_0000_0000
    ensures |s| == 8
  {
    EncodeFixed32(v % 0x1_0000_0000) + EncodeFixed32(v / 0x1_0000_0000)
  }

  function DecodeFixed64(s: Bytes): nat
    requires |s| >= 8
  {
    DecodeFixed32(s) + 0x1_0000_0000 * DecodeFixed32(s[4..])
  }

  predicate Fits(b: Batch) {
    b.sequence < 0x1_0000_0000_0000_0000 && |b.ops| < MAX_COUNT
  }

  function Header(sequence: nat, count: nat): (h: Bytes)
    requires sequence < 0x1_0000_0000_0000_0000 && count < MAX_COUNT
    ensures |h| == HEADER
  {
    EncodeFixed64(sequence) + EncodeFixed32(count)
  }

  function Contents(b: Batch): Bytes
    requires Fits(b)
  {
    Header(b.sequence, |b.ops|) + Records(b.ops)
  }

  function Sequence(rep: Bytes): nat
    requires |rep| >= HEADER
  {
    DecodeFixed64(rep)
  }

  function Count(rep: Bytes): nat
    requires |rep| >= HEADER
  {
    DecodeFixed32(rep[8..])
  }

  lemma HeaderReads(sequence: nat, count: nat, more: Bytes)
    requires sequence < 0x1_0000_0000_0000_0000 && count < MAX_COUNT
    ensures Sequence(Header(sequence, count) + more) == sequence && Count(Header(sequence, count) + more) == count
  {
    var rep := Header(sequence, count) + more;
    FixedRoundTrip(sequence % 0x1_0000_0000);
    FixedRoundTrip(sequence / 0x1_0000_0000);
    FixedRoundTrip(count);
    assert rep[4..][..4] == EncodeFixed32(sequence / 0x1_0000_0000);
    assert rep[8..][..4] == EncodeFixed32(count);
  }

  /** Every batch reads back: its sequence number, its count and its updates, in their order. */
  lemma ContentsRead(b: Batch)
    requires Fits(b)
    ensures |Contents(b)| >= HEADER && Sequence(Contents(b)) == b.sequence && Count(Contents(b)) == |b.ops|
    ensures Parse(Contents(b), HEADER) == (b.ops, true)
  {
    HeaderReads(b.sequence, |b.ops|, Records(b.ops));
    ParseRecords(Header(b.sequence, |b.ops|), b.ops);
  }

  lemma Recount(rep: Bytes, a: Bytes, c: Bytes, r: Bytes, c': Bytes)
    requires rep == a + c + r && |a| == 8 && |c| == 4
    ensures rep[..8] + c' + rep[HEADER..] == a + c' + r
  {
    assert rep[..8] == a && rep[HEADER..] == r;
  }

  /** The bytes with a new count and more records are those of the longer batch. */
  lemma Longer(b: Batch, b': Batch, more: Bytes)
    requires Fits(b) && Fits(b') && b'.sequence == b.sequence && Records(b'.ops) == Records(b.ops) + more
    ensures |Contents(b)| >= HEADER
    ensures Contents(b)[..8] + EncodeFixed32(|b'.ops|) + Contents(b)[HEADER..] + more == Contents(b')
  {
    var a, c, c', r := EncodeFixed64(b.sequence), EncodeFixed32(|b.ops|), EncodeFixed32(|b'.ops|), Records(b.ops);
    Recount(Contents(b), a, c, r, c');
    Assoc(a + c', r, more);
  }

  lemma RecordsOf(b: Batch)
    requires Fits(b)
    ensures |Contents(b)| >= HEADER && Contents(b)[HEADER..] == Records(b.ops)
  {
  }

  /** The bytes of one batch with the records of another behind them, counted together. */
  function Joined(rep: Bytes, source: Bytes): Bytes
    requires |rep| >= HEADER && |source| >= HEADER && Count(rep) + Count(source) < MAX_COUNT
  {
    rep[..8] + EncodeFixed32(Count(rep) + Count(source)) + rep[HEADER..] + source[HEADER..]
  }

  lemma JoinedOk(b: Batch, c: Batch)
    requires Fits(b) && Fits(c) && |b.ops| + |c.ops| < MAX_COUNT
    ensures |Contents(b)| >= HEADER && |Contents(c)| >= HEADER && Count(Contents(b)) == |b.ops| && Count(Contents(c)) == |c.ops|
    ensures Joined(Contents(b), Contents(c)) == Contents(b.(ops := b.ops + c.ops))
  {
    ContentsRead(b);
    ContentsRead(c);
    RecordsOf(c);
    RecordsConcat(b.ops, c.ops);
    Longer(b, b.(ops := b.ops + c.ops), Records(c.ops));
  }

  lemma Resequenced(b: Batch, sequence: nat)
    requires Fits(b) && sequence < 0x1_0000_0000_0000_0000
    ensures |Contents(b)| >= HEADER
    ensures EncodeFixed64(sequence) + Contents(b)[8..] == Contents(b.(sequence := sequence))
  {
    var a, a', c, r := EncodeFixed64(b.sequence), EncodeFixed64(sequence), EncodeFixed32(|b.ops|), Records(b.ops);
    Suffixed(Contents(b), a, c, r);
    Assoc(a', c, r);
  }

  lemma Suffixed(rep: Bytes, a: Bytes, c: Bytes, r: Bytes)
    requires rep == a + c + r && |a| == 8
    ensures rep[8..] == c + r
  {
  }

  /** Updates under consecutive sequence numbers. */
  function Numbered(sequence: nat, ops: seq<Op>): seq<Entry> {
    seq(|ops|, i requires 0 <= i < |ops| => Entry(sequence + i, ops[i]))
  }

  class WriteBatch {
    var rep: Bytes
    ghost var batch: Batch

    ghost predicate Valid()
      reads this
    {
      Fits(batch) && rep == Contents(batch)
    }

    constructor ()
      ensures Valid() && batch == Batch(0, [])
    {
      rep, batch := Header(0, 0), Batch(0, []);
    }

    /** Put and Delete. */
    method Update(op: Op)
      requires Valid() && |batch.ops| + 1 < MAX_COUNT
      modifies this
      ensures Valid() && batch == old(batch).(ops := old(batch).ops + [op])
    {
      ContentsRead(batch);
      ghost var batch' := batch.(ops := batch.ops + [op]);
      RecordsSnoc(batch.ops, op);
      Longer(batch, batch', Record(op));
      rep := rep[..8] + EncodeFixed32(Count(rep) + 1) + rep[HEADER..] + Record(op);
      batch := batch';
    }

    method SetSequence(sequence: nat)
      requires Valid() && sequence < 0x1_0000_0000_0000_0000
      modifies this
      ensures Valid() && batch == old(batch).(sequence := sequence)
    {
      Resequenced(batch, sequence);
      rep := EncodeFixed64(sequence) + rep[8..];
      batch := batch.(sequence := sequence);
    }

    /** The updates of the other batch behind one's own; the sequence number stays. */
    method Append(source: WriteBatch)
      requires Valid() && source.Valid() && source != this && |batch.ops| + |source.batch.ops| < MAX_COUNT
      modifies this
      ensures Valid() && batch == old(batch).(ops := old(batch).ops + source.batch.ops)
    {
      JoinedOk(batch, source.batch);
      rep := Joined(rep, source.rep);
      batch := batch.(ops := batch.ops + source.batch.ops);
    }
  }

  /** The loop of Iterate, with an inserter that numbers the updates from the given one on. */
  method Iterate(get: Getter, rep: Bytes, first: nat) returns (entries: seq<Entry>, ok: bool)
    requires |rep| >= HEADER
    ensures var found := ParseBy(get, rep, HEADER); entries == Numbered(first, found.0) && ok == found.1
  {
    var p, sequence := HEADER, first;
    entries, ok := [], true;
    ghost var ops: seq<Op> := [];
    ghost var all := ParseBy(get, rep, HEADER);
    assert ops + all.0 == all.0;
    while p < |rep|
      invariant sequence == first + |ops| && entries == Numbered(first, ops)
      invariant all == (ops + ParseBy(get, rep, p).0, ParseBy(get, rep, p).1)
      decreases |rep| - p
    {
      var r := get(rep, p);
      if r.None? || r.value.1 <= p {
        ok := false;
        assert ops + [] == ops;
        return;
      }
      Assoc(ops, [r.value.0], ParseBy(get, rep, r.value.1).0);
      entries := entries + [Entry(sequence, r.value.0)];
      ops := ops + [r.value.0];
      sequence, p := sequence + 1, r.value.1;
    }
    assert ops + [] == ops;
  }

  /**
    InsertInto: whatever the bytes are, the entries are those of the updates before the first
    thing that is none; all is well exactly if there is no such thing and the count is right.
  */
  method InsertInto(rep: Bytes) returns (entries: seq<Entry>, ok: bool)
    ensures |rep| < HEADER ==> entries == [] && !ok
    ensures |rep| >= HEADER ==>
              var found := Parse(rep, HEADER);
              entries == Numbered(Sequence(rep), found.0) && (ok <==> found.1 && |found.0| == Count(rep))
  {
    if |rep| < HEADER {
      return [], false;
    }
    entries, ok := Iterate(Next, rep, Sequence(rep));
    ok := ok && |entries| == Count(rep);
  }
}
