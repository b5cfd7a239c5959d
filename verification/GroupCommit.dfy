/**
  Write (leveldb/db/db_impl.cc): a queue of writers whose first one logs and applies a group of
  batches for those behind it, without the lock, and recovery from the log. Each method is one
  uninterrupted stretch of one thread, so that every order of calls is an interleaving.
*/
module GroupCommit {
  import opened Coding
  import opened WriteBatch

  datatype Writer = Writer(id: nat, batch: Option<seq<Op>>, sync: bool)
  datatype Completion = Completion(writer: Writer, ok: bool, leader: Writer)

  /** Where the leader is. */
  datatype Stage =
    | Idle
    | Logging
    | Syncing
    | Inserting(next: nat)
    | Failed
    | Skipped(ok: bool)

  // ---------------------------------------------------------------- what runs amount to

  function BatchOps(w: Writer): seq<Op> {
    if w.batch.Some? then w.batch.value else []
  }

  /** The updates of the first n writers, in queue order. */
  function OpsOf(ws: seq<Writer>, n: nat): seq<Op>
    requires n <= |ws|
  {
    if n == 0 then [] else OpsOf(ws, n - 1) + BatchOps(ws[n - 1])
  }

  /** The updates of the writers that were told all is well, in the order of their completion. */
  function Committed(done: seq<Completion>): seq<Op> {
    if done == [] then []
    else
      var c := done[|done| - 1];
      Committed(done[..|done| - 1]) + if c.ok then BatchOps(c.writer) else []
  }

  function WritersOf(done: seq<Completion>): seq<Writer> {
    seq(|done|, i requires 0 <= i < |done| => done[i].writer)
  }

  function AllOps(bs: seq<Batch>): seq<Op> {
    if bs == [] then [] else AllOps(bs[..|bs| - 1]) + bs[|bs| - 1].ops
  }

  /** What a memtable holds after these batches. */
  function EntriesOf(bs: seq<Batch>): seq<Entry> {
    if bs == [] then [] else EntriesOf(bs[..|bs| - 1]) + Numbered(bs[|bs| - 1].sequence, bs[|bs| - 1].ops)
  }

  lemma CommittedSnoc(done: seq<Completion>, c: Completion)
    ensures Committed(done + [c]) == Committed(done) + if c.ok then BatchOps(c.writer) else []
  {
    assert (done + [c])[..|done|] == done;
  }

  lemma BatchesSnoc(bs: seq<Batch>, b: Batch)
    ensures AllOps(bs + [b]) == AllOps(bs) + b.ops
    ensures EntriesOf(bs + [b]) == EntriesOf(bs) + Numbered(b.sequence, b.ops)
  {
    assert (bs + [b])[..|bs|] == bs;
  }

  predicate Increasing(mem: seq<Entry>) {
    && (forall i, j :: 0 <= i < j < |mem| ==> mem[i].sequence < mem[j].sequence)
    && (forall i :: 0 <= i < |mem| ==> mem[i].sequence >= 1)
  }

  predicate AtMost(mem: seq<Entry>, n: int) {
    forall i :: 0 <= i < |mem| ==> mem[i].sequence <= n
  }

  predicate Distinct(ws: seq<Writer>) {
    forall i, j :: 0 <= i < j < |ws| ==> ws[i].id != ws[j].id
  }

  /** No writer that wants its data on disk completes behind one that does not. */
  predicate SyncsKept(done: seq<Completion>) {
    forall i :: 0 <= i < |done| && done[i].writer.sync ==> done[i].leader.sync
  }

  const TWO_64: nat := 0x1_0000_0000_0000_0000
  const MAX_SEQUENCE: nat := 0xff_ffff_ffff_ffff

  /** A batch whose sequence numbers are positive and fit, as Write makes them. */
  predicate Numberable(b: Batch) {
    b.sequence > 0 && b.sequence + |b.ops| <= MAX_SEQUENCE + 1 && |b.ops| < MAX_COUNT
  }

  predicate AllNumberable(bs: seq<Batch>) {
    forall i :: 0 <= i < |bs| ==> Numberable(bs[i])
  }

  /** The records of a log of batches. */
  function EncodeAll(bs: seq<Batch>): seq<Bytes>
    requires AllNumberable(bs)
  {
    seq(|bs|, i requires 0 <= i < |bs| => Contents(bs[i]))
  }

  // ---------------------------------------------------------------- BuildBatchGroup

  /** ByteSize of a batch. */
  function ByteSize(ops: seq<Op>): nat {
    HEADER + |Records(ops)|
  }

  function MaxSize(first: nat): nat {
    if first <= 0x2_0000 then first + 0x2_0000 else 0x10_0000
  }

  /** What a writer adds to a group, by some measure of batches. */
  function SizeOf(size: seq<Op> -> nat, w: Writer): nat {
    if w.batch.Some? then size(w.batch.value) else 0
  }

  function GroupSize(size: seq<Op> -> nat, ws: seq<Writer>, n: nat): nat
    requires n <= |ws|
  {
    if n == 0 then 0 else GroupSize(size, ws, n - 1) + SizeOf(size, ws[n - 1])
  }

  /** The writer may be in the group of those before it. */
  predicate Joins(size: seq<Op> -> nat, ws: seq<Writer>, i: nat, maxSize: nat)
    requires i < |ws|
  {
    (ws[i].sync ==> ws[0].sync) && (ws[i].batch.Some? ==> GroupSize(size, ws, i + 1) <= maxSize)
  }

  /** The first n writers are the longest group from the front of which each joins. */
  predicate IsGroup(size: seq<Op> -> nat, ws: seq<Writer>, n: nat)
    requires ws != [] && ws[0].batch.Some?
  {
    var maxSize := MaxSize(size(ws[0].batch.value));
    && 1 <= n <= |ws| && (forall i :: 1 <= i < n ==> Joins(size, ws, i, maxSize))
    && (n < |ws| ==> !Joins(size, ws, n, maxSize))
  }

  method BuildBatchGroup(byteSize: seq<Op> -> nat, ws: seq<Writer>) returns (n: nat, ops: seq<Op>)
    requires ws != [] && ws[0].batch.Some?
    ensures IsGroup(byteSize, ws, n) && ops == OpsOf(ws, n)
  {
    var size := byteSize(ws[0].batch.value);
    var maxSize := MaxSize(size);
    n, ops := 1, ws[0].batch.value;
    assert OpsOf(ws, 1) == [] + ops;
    assert GroupSize(byteSize, ws, 1) == 0 + size;
    while n < |ws|
      invariant 1 <= n <= |ws| && ops == OpsOf(ws, n) && size == GroupSize(byteSize, ws, n)
      invariant forall i :: 1 <= i < n ==> Joins(byteSize, ws, i, maxSize)
    {
      if ws[n].sync && !ws[0].sync {
        break;
      }
      if ws[n].batch.Some? {
        size := size + byteSize(ws[n].batch.value);
        if size > maxSize {
          break;
        }
        ops := ops + ws[n].batch.value;
      } else {
        assert ops + [] == ops;
      }
      n := n + 1;
    }
  }

  lemma {:induction false} GroupSyncs(ws: seq<Writer>, n: nat)
    requires ws != [] && ws[0].batch.Some? && IsGroup(ByteSize, ws, n)
    ensures |OpsOf(ws, n)| <= |OpsOf(ws, |ws|)| && forall i :: 0 <= i < n && ws[i].sync ==> ws[0].sync
  {
    OpsOfShorter(ws, n, |ws|);
    forall i | 0 <= i < n && ws[i].sync ensures ws[0].sync {
      assert i == 0 || Joins(ByteSize, ws, i, MaxSize(ByteSize(ws[0].batch.value)));
    }
  }

  // ---------------------------------------------------------------- recovery

  /** 64-bit arithmetic of a number at most one wrap away. */
  function Wrap(v: int): nat {
    if v + TWO_64 < 0 then 0 else if v < 0 then v + TWO_64 else if v >= TWO_64 then v - TWO_64 else v
  }

  /** The last sequence number a record speaks of, in 64 bits; its count is a signed number. */
  function LastSequenceOf(rep: Bytes): nat
    requires |rep| >= HEADER
  {
    Wrap(Sequence(rep) + (if Count(rep) < MAX_COUNT then Count(rep) else Count(rep) - 2 * MAX_COUNT) - 1)
  }

  /** What a log record gives: entries, whether it is sound, and its last sequence number. */
  datatype Replayed = TooSmall | Replayed(entries: seq<Entry>, sound: bool, last: nat)

  function ReplayRecord(rep: Bytes): Replayed {
    if |rep| < HEADER then TooSmall
    else
      var found := Parse(rep, HEADER);
      Replayed(Numbered(Sequence(rep), found.0), found.1 && |found.0| == Count(rep), LastSequenceOf(rep))
  }

  /** The record of a batch gives its entries. */
  lemma BatchReplays(b: Batch)
    requires Numberable(b)
    ensures ReplayRecord(Contents(b)) == Replayed(Numbered(b.sequence, b.ops), true, b.sequence + |b.ops| - 1)
  {
    ContentsRead(b);
  }

  predicate IsReading(read: Bytes -> Replayed, rep: Bytes) {
    read(rep) == ReplayRecord(rep)
  }

  ghost predicate IsReader(read: Bytes -> Replayed) {
    forall rep :: IsReading(read, rep)
  }

  /** SetContents and InsertInto of one record. */
  method Read(ghost read: Bytes -> Replayed, rep: Bytes) returns (r: Replayed)
    requires IsReader(read)
    ensures r == read(rep)
  {
    assert IsReading(read, rep);
    if |rep| < HEADER {
      return TooSmall;
    }
    var entries, sound := InsertInto(rep);
    r := Replayed(entries, sound, LastSequenceOf(rep));
  }

  function EntriesIn(r: Replayed): seq<Entry> {
    if r.TooSmall? then [] else r.entries
  }

  /** Nothing is reported about the record. */
  predicate Sound(r: Replayed) {
    r.Replayed? && r.sound
  }

  /** The entries of the first n records. */
  function Replay(rs: seq<Replayed>, n: nat): seq<Entry>
    requires n <= |rs|
  {
    if n == 0 then [] else Replay(rs, n - 1) + EntriesIn(rs[n - 1])
  }

  /** The greatest of the last sequence numbers of the first n records, and of the one given. */
  function MaxSequence(rs: seq<Replayed>, n: nat, first: nat): nat
    requires n <= |rs|
  {
    if n == 0 then first
    else
      var m := MaxSequence(rs, n - 1, first);
      if rs[n - 1].Replayed? && rs[n - 1].last > m then rs[n - 1].last else m
  }

  function Readings(read: Bytes -> Replayed, log: seq<Bytes>): seq<Replayed> {
    seq(|log|, i requires 0 <= i < |log| => read(log[i]))
  }

  /**
    RecoverLogFile: every record in turn, up to the first with a fault if faults count, and the
    greatest of the last sequence numbers. A record that is too small is skipped, or is a fault.
  */
  method RecoverLogFile(ghost read: Bytes -> Replayed, log: seq<Bytes>, paranoid: bool, first: nat)
    returns (mem: seq<Entry>, maxSequence: nat, n: nat, ok: bool)
    requires IsReader(read)
    ensures n <= |log| && mem == Replay(Readings(read, log), n)
    ensures ok ==> n == |log| && maxSequence == MaxSequence(Readings(read, log), n, first)
    ensures ok && paranoid ==> forall i :: 0 <= i < n ==> Sound(Readings(read, log)[i])
    ensures !ok ==> paranoid && n > 0 && !Sound(Readings(read, log)[n - 1])
    ensures !ok ==> maxSequence == MaxSequence(Readings(read, log), n - 1, first)
    ensures !ok ==> forall i :: 0 <= i < n - 1 ==> Sound(Readings(read, log)[i])
  {
    ghost var rs := Readings(read, log);
    mem, maxSequence, n, ok := [], first, 0, true;
    while n < |log|
      invariant n <= |log| && mem == Replay(rs, n) && maxSequence == MaxSequence(rs, n, first)
      invariant paranoid ==> forall i :: 0 <= i < n ==> Sound(rs[i])
    {
      var r := Read(read, log[n]);
      assert r == rs[n];
      n := n + 1;
      if r.Replayed? {
        mem := mem + r.entries;
      } else {
        assert mem + [] == mem;
      }
      if paranoid && !(r.Replayed? && r.sound) {
        return mem, maxSequence, n, false;
      }
      if r.Replayed? && r.last > maxSequence {
        maxSequence := r.last;
      }
    }
  }

  /** The readings are those of the batches. */
  ghost predicate ReadingsOf(rs: seq<Replayed>, bs: seq<Batch>) {
    && |rs| == |bs|
    && forall i :: 0 <= i < |bs| ==>
         rs[i].Replayed? && rs[i].sound && rs[i].entries == Numbered(bs[i].sequence, bs[i].ops) && rs[i].last == bs[i].sequence + |bs[i].ops| - 1
  }

  lemma LogReadings(bs: seq<Batch>)
    requires AllNumberable(bs)
    ensures ReadingsOf(Readings(ReplayRecord, EncodeAll(bs)), bs)
  {
    forall i | 0 <= i < |bs| ensures ReplayRecord(Contents(bs[i])) == Replayed(Numbered(bs[i].sequence, bs[i].ops), true, bs[i].sequence + |bs[i].ops| - 1) {
      BatchReplays(bs[i]);
    }
  }

  /** Replaying the records of batches gives the entries of the batches. */
  lemma {:induction false} ReplayEncoded(rs: seq<Replayed>, bs: seq<Batch>, n: nat)
    requires ReadingsOf(rs, bs) && n <= |bs|
    ensures Replay(rs, n) == EntriesOf(bs[..n])
  {
    if n > 0 {
      ReplayEncoded(rs, bs, n - 1);
      assert bs[..n] == bs[..n - 1] + [bs[n - 1]];
      BatchesSnoc(bs[..n - 1], bs[n - 1]);
    }
  }

  /** No entry is numbered above the sequence number recovered. */
  lemma {:induction false} MaxCovers(rs: seq<Replayed>, bs: seq<Batch>, n: nat)
    requires ReadingsOf(rs, bs) && n <= |bs|
    ensures AtMost(Replay(rs, n), MaxSequence(rs, n, 0))
  {
    if n > 0 {
      MaxCovers(rs, bs, n - 1);
    }
  }

  /** Nor is that number above what all batches stay below. */
  lemma {:induction false} MaxBounded(rs: seq<Replayed>, bs: seq<Batch>, n: nat, last: nat)
    requires ReadingsOf(rs, bs) && n <= |bs| && forall i :: 0 <= i < |bs| ==> bs[i].sequence + |bs[i].ops| - 1 <= last
    ensures MaxSequence(rs, n, 0) <= last
  {
    if n > 0 {
      MaxBounded(rs, bs, n - 1, last);
    }
  }

  /** Recovery from the records of batches. */
  method RecoverRecords(ghost log: seq<Batch>, records: seq<Bytes>, paranoid: bool, ghost last: nat) returns (mem: seq<Entry>, maxSequence: nat)
    requires AllNumberable(log) && records == EncodeAll(log)
    ensures mem == EntriesOf(log) && AtMost(mem, maxSequence)
    ensures (forall i :: 0 <= i < |log| ==> log[i].sequence + |log[i].ops| - 1 <= last) ==> maxSequence <= last
  {
    ghost var rs := Readings(ReplayRecord, records);
    LogReadings(log);
    var n, ok;
    mem, maxSequence, n, ok := RecoverLogFile(ReplayRecord, records, paranoid, 0);
    assert ok;
    assert log[..|log|] == log;
    ReplayEncoded(rs, log, |log|);
    MaxCovers(rs, log, |log|);
    if forall i :: 0 <= i < |log| ==> log[i].sequence + |log[i].ops| - 1 <= last {
      MaxBounded(rs, log, |log|, last);
    }
  }

  // ---------------------------------------------------------------- the state of the database

  /** The queue and what its leader is doing, for the first group writers of it. */
  datatype Queue = Queue(writers: seq<Writer>, stage: Stage, group: nat, batch: Batch)

  /** log: the batches whose Contents are the records of the log. */
  datatype State = State(queue: Queue, lastSequence: nat, log: seq<Batch>, mem: seq<Entry>, bgError: bool, done: seq<Completion>)

  /** A group that used up its numbers, and whether it succeeded. */
  datatype Group = Group(batch: Batch, ok: bool)

  /** All who ever joined the queue, all groups that used up numbers, the batch whose sync failed, and how many log records a sync has covered. */
  datatype History = History(arrivals: seq<Writer>, groups: seq<Group>, lost: Option<Batch>, synced: nat)

  const Fresh := State(Queue([], Idle, 0, Batch(0, [])), 0, [], [], false, [])
  const NoHistory := History([], [], None, 0)

  /** The batches of the groups that succeeded. */
  function Applied(gs: seq<Group>): seq<Batch> {
    if gs == [] then []
    else
      var g := gs[|gs| - 1];
      if g.ok then Applied(gs[..|gs| - 1]) + [g.batch] else Applied(gs[..|gs| - 1])
  }

  /** How many numbers the groups used up. */
  function Width(gs: seq<Group>): nat {
    if gs == [] then 0 else Width(gs[..|gs| - 1]) + |gs[|gs| - 1].batch.ops|
  }

  /** How many of them those that failed used up. */
  function Missing(gs: seq<Group>): nat {
    if gs == [] then 0
    else
      var g := gs[|gs| - 1];
      Missing(gs[..|gs| - 1]) + if g.ok then 0 else |g.batch.ops|
  }

  /** Each group is numbered behind all before it, failed or not. */
  predicate Chained(gs: seq<Group>) {
    forall k :: 0 <= k < |gs| ==> gs[k].batch.sequence == Width(gs[..k]) + 1
  }

  lemma {:induction false} GroupsSnoc(gs: seq<Group>, g: Group)
    ensures Applied(gs + [g]) == (if g.ok then Applied(gs) + [g.batch] else Applied(gs)) && Width(gs + [g]) == Width(gs) + |g.batch.ops|
    ensures Missing(gs + [g]) == Missing(gs) + if g.ok then 0 else |g.batch.ops|
    ensures Chained(gs) && g.batch.sequence == Width(gs) + 1 ==> Chained(gs + [g])
  {
    assert (gs + [g])[..|gs|] == gs;
    assert forall k :: 0 <= k < |gs| ==> (gs + [g])[..k] == gs[..k];
  }

  /** The leader's group: its batches, numbered behind what is visible, and no sync writer in it behind a non-sync leader. */
  ghost predicate GroupOk(q: Queue, lastSequence: nat) {
    q.stage.Idle? || (
      && 1 <= q.group <= |q.writers|
      && (forall i :: 0 <= i < q.group && q.writers[i].sync ==> q.writers[0].sync)
      && if q.stage.Skipped? then q.group == 1 && (q.stage.ok ==> q.writers[0].batch.None?)
         else
           && q.batch.ops == OpsOf(q.writers, q.group) && q.batch.sequence == lastSequence + 1
           && Numberable(q.batch)
           && (q.stage.Inserting? ==> q.stage.next <= |q.batch.ops|))
  }

  /** Entries of the leader's batch that are in the memtable already. */
  function Pending(q: Queue): seq<Entry> {
    if q.stage.Inserting? && q.stage.next <= |q.batch.ops| then Numbered(q.batch.sequence, q.batch.ops[..q.stage.next]) else []
  }

  /** The batches in the log: those applied, the one being applied, the one whose sync failed. */
  function Logged(q: Queue, applied: seq<Batch>, lost: Option<Batch>): seq<Batch> {
    if lost.Some? then applied + [lost.value]
    else if q.stage.Syncing? || q.stage.Inserting? then applied + [q.batch]
    else applied
  }

  /** Every writer completes once, in queue order. */
  ghost predicate QueueOk(done: seq<Completion>, writers: seq<Writer>, arrivals: seq<Writer>) {
    WritersOf(done) + writers == arrivals && Distinct(arrivals) && SyncsKept(done)
  }

  /** The memtable holds what is applied and visible, and behind it what is not visible yet. */
  ghost predicate MemOk(mem: seq<Entry>, applied: seq<Batch>, pending: seq<Entry>, lastSequence: nat) {
    mem == EntriesOf(applied) + pending && Increasing(mem) && AtMost(EntriesOf(applied), lastSequence)
  }

  ghost predicate LogOk(log: seq<Batch>, applied: seq<Batch>, lastSequence: nat) {
    AllNumberable(log) && forall i :: 0 <= i < |applied| ==> applied[i].sequence + |applied[i].ops| - 1 <= lastSequence
  }

  /** The invariant, where these batches succeeded. */
  ghost predicate Holds(s: State, arrivals: seq<Writer>, applied: seq<Batch>, lost: Option<Batch>) {
    && QueueOk(s.done, s.queue.writers, arrivals) && GroupOk(s.queue, s.lastSequence)
    && AllOps(applied) == Committed(s.done) && MemOk(s.mem, applied, Pending(s.queue), s.lastSequence)
    && s.log == Logged(s.queue, applied, lost) && LogOk(s.log, applied, s.lastSequence)
    && (lost.Some? ==> s.bgError && (s.queue.stage.Idle? || s.queue.stage.Failed? || s.queue.stage.Skipped?))
  }

  ghost predicate Ok(s: State, h: History) {
    && Holds(s, h.arrivals, Applied(h.groups), h.lost)
    && Chained(h.groups) && s.lastSequence == Width(h.groups) && Flushed(s, h.synced)
  }

  /** A writer that was told its updates are on disk. */
  predicate WantsDisk(c: Completion) {
    c.ok && c.writer.sync && c.writer.batch.Some?
  }

  /** Completions a to b are those of one group, and log record k holds its updates. */
  predicate IsRecordOf(done: seq<Completion>, log: seq<Batch>, a: nat, b: nat, k: nat) {
    && a < b <= |done| && k < |log| && log[k].ops == OpsOf(WritersOf(done)[a..b], b - a)
    && forall j :: a <= j < b ==> done[j].leader == done[a].leader && done[j].ok
  }

  /** The group of completion i is in one of the first n log records. */
  ghost predicate OnDisk(done: seq<Completion>, log: seq<Batch>, n: nat, i: nat) {
    exists a, b, k :: 0 <= a <= i < b && 0 <= k < n && IsRecordOf(done, log, a, b, k)
  }

  ghost predicate AllOnDisk(done: seq<Completion>, log: seq<Batch>, n: nat) {
    forall i :: 0 <= i < |done| && WantsDisk(done[i]) ==> OnDisk(done, log, n, i)
  }

  /** A sync has covered whatever a writer that wanted it was told is there, and the batch of a leader that wanted it before its first entry. */
  ghost predicate Flushed(s: State, synced: nat) {
    && synced <= |s.log| && AllOnDisk(s.done, s.log, synced)
    && (s.queue.stage.Inserting? && s.queue.writers != [] && s.queue.writers[0].sync ==> synced == |s.log|)
  }

  lemma RecordOfMore(done: seq<Completion>, log: seq<Batch>, done': seq<Completion>, log': seq<Batch>, a: nat, b: nat, k: nat)
    requires IsRecordOf(done, log, a, b, k) && done <= done' && log <= log'
    ensures IsRecordOf(done', log', a, b, k)
  {
    assert WritersOf(done')[a..b] == WritersOf(done)[a..b];
  }

  /** What is on disk stays there. */
  lemma OnDiskMore(done: seq<Completion>, log: seq<Batch>, n: nat, done': seq<Completion>, log': seq<Batch>, n': nat, i: nat)
    requires OnDisk(done, log, n, i) && done <= done' && log <= log' && n <= n'
    ensures OnDisk(done', log', n', i)
  {
    var a, b, k :| 0 <= a <= i < b && 0 <= k < n && IsRecordOf(done, log, a, b, k);
    RecordOfMore(done, log, done', log', a, b, k);
  }

  lemma AllOnDiskMore(done: seq<Completion>, log: seq<Batch>, n: nat, log': seq<Batch>, n': nat)
    requires AllOnDisk(done, log, n) && log <= log' && n <= n'
    ensures AllOnDisk(done, log', n')
  {
    forall i | 0 <= i < |done| && WantsDisk(done[i]) ensures OnDisk(done, log', n', i) {
      OnDiskMore(done, log, n, done, log', n', i);
    }
  }

  // ---------------------------------------------------------------- steps

  function Enqueued(s: State, w: Writer): State {
    s.(queue := s.queue.(writers := s.queue.writers + [w]))
  }

  function AddedRecord(s: State): State
    requires s.queue.writers != []
  {
    s.(log := s.log + [s.queue.batch], queue := s.queue.(stage := if s.queue.writers[0].sync then Syncing else Inserting(0)))
  }

  function AtStage(s: State, stage: Stage): State {
    s.(queue := s.queue.(stage := stage))
  }

  function InsertedOne(s: State): State
    requires s.queue.stage.Inserting? && s.queue.stage.next < |s.queue.batch.ops|
  {
    var i, b := s.queue.stage.next, s.queue.batch;
    AtStage(s, Inserting(i + 1)).(mem := s.mem + [Entry(b.sequence + i, b.ops[i])])
  }

  lemma {:induction false} OpsOfLonger(ws: seq<Writer>, more: seq<Writer>, n: nat)
    ensures n <= |ws| ==> OpsOf(ws + more, n) == OpsOf(ws, n)
  {
    if 0 < n <= |ws| {
      OpsOfLonger(ws, more, n - 1);
    }
  }

  lemma EnqueueOk(s: State, h: History, w: Writer)
    requires Ok(s, h) && forall v :: v in h.arrivals ==> v.id != w.id
    ensures Ok(Enqueued(s, w), h.(arrivals := h.arrivals + [w]))
  {
    OpsOfLonger(s.queue.writers, [w], s.queue.group);
  }

  lemma AddRecordOk(s: State, h: History)
    requires Ok(s, h) && s.queue.stage.Logging?
    ensures Ok(AddedRecord(s), h)
  {
    var s' := AddedRecord(s);
    assert Pending(s'.queue) == [];
    AllOnDiskMore(s.done, s.log, h.synced, s'.log, h.synced);
  }

  lemma FailOk(s: State, h: History)
    requires Ok(s, h) && s.queue.stage.Logging?
    ensures Ok(AtStage(s, Failed), h)
  {
  }

  lemma SyncOk(s: State, h: History)
    requires Ok(s, h) && s.queue.stage.Syncing?
    ensures Ok(AtStage(s, Inserting(0)), h.(synced := |s.log|))
    ensures Ok(AtStage(s, Failed).(bgError := true), h.(lost := Some(s.queue.batch)))
  {
    AllOnDiskMore(s.done, s.log, h.synced, s.log, |s.log|);
    assert Pending(AtStage(s, Inserting(0)).queue) == [];
  }

  lemma InsertOk(s: State, h: History)
    requires Ok(s, h) && s.queue.stage.Inserting? && s.queue.stage.next < |s.queue.batch.ops|
    ensures Ok(InsertedOne(s), h)
  {
    var i, b := s.queue.stage.next, s.queue.batch;
    var e := Entry(b.sequence + i, b.ops[i]);
    var pending := Pending(s.queue);
    NumberedSnoc(b.sequence, b.ops, i);
    MemGrows(s.mem, Applied(h.groups), pending, s.lastSequence, e);
  }

  lemma NumberedSnoc(sequence: nat, ops: seq<Op>, i: nat)
    requires i < |ops|
    ensures Numbered(sequence, ops[..i + 1]) == Numbered(sequence, ops[..i]) + [Entry(sequence + i, ops[i])]
    ensures forall j :: 0 <= j < i ==> Numbered(sequence, ops[..i])[j].sequence == sequence + j
  {
  }

  /** An entry with the next number goes behind the others. */
  lemma MemGrows(mem: seq<Entry>, applied: seq<Batch>, pending: seq<Entry>, lastSequence: nat, e: Entry)
    requires MemOk(mem, applied, pending, lastSequence) && e.sequence == lastSequence + 1 + |pending|
    requires forall i :: 0 <= i < |pending| ==> pending[i].sequence == lastSequence + 1 + i
    ensures MemOk(mem + [e], applied, pending + [e], lastSequence)
  {
    Assoc(EntriesOf(applied), pending, [e]);
    forall i | 0 <= i < |mem| ensures mem[i].sequence < e.sequence {
      if i >= |EntriesOf(applied)| {
        assert mem[i] == pending[i - |EntriesOf(applied)|];
      } else {
        assert mem[i] == EntriesOf(applied)[i];
      }
    }
  }

  lemma {:induction false} OpsOfShorter(ws: seq<Writer>, n: nat, m: nat)
    requires n <= m <= |ws|
    ensures |OpsOf(ws, n)| <= |OpsOf(ws, m)|
  {
    if n < m {
      OpsOfShorter(ws, n, m - 1);
    }
  }

  // ---------------------------------------------------------------- the end of a group

  function Completions(ws: seq<Writer>, n: nat, ok: bool): seq<Completion>
    requires n <= |ws|
  {
    seq(n, i requires 0 <= i < n => Completion(ws[i], ok, ws[0]))
  }

  lemma CompletionsSnoc(ws: seq<Writer>, n: nat, ok: bool)
    requires n < |ws|
    ensures Completions(ws, n + 1, ok) == Completions(ws, n, ok) + [Completion(ws[n], ok, ws[0])]
  {
  }

  /** The verdict for the whole group. */
  function Succeeded(stage: Stage): bool {
    stage.Inserting? || (stage.Skipped? && stage.ok)
  }

  predicate CanFinish(q: Queue) {
    q.stage.Failed? || q.stage.Skipped? || (q.stage.Inserting? && q.stage.next == |q.batch.ops|)
  }

  function Finished(s: State): State
    requires s.queue.group <= |s.queue.writers|
  {
    var q := s.queue;
    s.(queue := Queue(q.writers[q.group..], Idle, 0, q.batch),
       done := s.done + Completions(q.writers, q.group, Succeeded(q.stage)),
       lastSequence := if q.stage.Skipped? then s.lastSequence else s.lastSequence + |q.batch.ops|)
  }

  function FinishedHistory(s: State, h: History): History {
    if s.queue.stage.Skipped? then h else h.(groups := h.groups + [Group(s.queue.batch, s.queue.stage.Inserting?)])
  }

  lemma CommittedStep(done: seq<Completion>, comps: seq<Completion>, c: Completion, ops: seq<Op>)
    requires Committed(done + comps) == Committed(done) + ops && c.ok
    ensures Committed(done + (comps + [c])) == Committed(done) + (ops + BatchOps(c.writer))
  {
    Assoc(done, comps, [c]);
    CommittedSnoc(done + comps, c);
    Assoc(Committed(done), ops, BatchOps(c.writer));
  }

  lemma {:induction false} CommittedGood(done: seq<Completion>, ws: seq<Writer>, n: nat)
    requires n <= |ws|
    ensures Committed(done + Completions(ws, n, true)) == Committed(done) + OpsOf(ws, n)
  {
    if n == 0 {
      assert done + Completions(ws, 0, true) == done;
      assert Committed(done) + [] == Committed(done);
    } else {
      var comps, c := Completions(ws, n - 1, true), Completion(ws[n - 1], true, ws[0]);
      CommittedGood(done, ws, n - 1);
      CompletionsSnoc(ws, n - 1, true);
      CommittedStep(done, comps, c, OpsOf(ws, n - 1));
    }
  }

  lemma {:induction false} CommittedBad(done: seq<Completion>, ws: seq<Writer>, n: nat)
    requires n <= |ws|
    ensures Committed(done + Completions(ws, n, false)) == Committed(done)
  {
    if n == 0 {
      assert done + Completions(ws, 0, false) == done;
    } else {
      var comps, c := Completions(ws, n - 1, false), Completion(ws[n - 1], false, ws[0]);
      CommittedBad(done, ws, n - 1);
      CompletionsSnoc(ws, n - 1, false);
      Assoc(done, comps, [c]);
      CommittedSnoc(done + comps, c);
    }
  }

  lemma QueueAdvances(done: seq<Completion>, ws: seq<Writer>, arrivals: seq<Writer>, n: nat, ok: bool)
    requires QueueOk(done, ws, arrivals) && 1 <= n <= |ws| && forall i :: 0 <= i < n && ws[i].sync ==> ws[0].sync
    ensures QueueOk(done + Completions(ws, n, ok), ws[n..], arrivals)
  {
    var done' := done + Completions(ws, n, ok);
    assert WritersOf(done') == WritersOf(done) + ws[..n];
    Assoc(WritersOf(done), ws[..n], ws[n..]);
    assert ws == ws[..n] + ws[n..];
    forall i | 0 <= i < |done'| && done'[i].writer.sync ensures done'[i].leader.sync {
      if i >= |done| {
        assert done'[i] == Completion(ws[i - |done|], ok, ws[0]);
      }
    }
  }

  lemma MemAdvances(mem: seq<Entry>, applied: seq<Batch>, b: Batch, lastSequence: nat)
    requires MemOk(mem, applied, Numbered(b.sequence, b.ops), lastSequence) && b.sequence == lastSequence + 1
    ensures MemOk(mem, applied + [b], [], lastSequence + |b.ops|)
  {
    BatchesSnoc(applied, b);
    assert EntriesOf(applied + [b]) + [] == EntriesOf(applied + [b]);
  }

  lemma MemWaits(mem: seq<Entry>, applied: seq<Batch>, lastSequence: nat, more: nat)
    requires MemOk(mem, applied, [], lastSequence)
    ensures MemOk(mem, applied, [], lastSequence + more)
  {
  }

  lemma FinishGood(s: State, arrivals: seq<Writer>, applied: seq<Batch>)
    requires Holds(s, arrivals, applied, None) && s.queue.stage.Inserting? && s.queue.stage.next == |s.queue.batch.ops|
    ensures Holds(Finished(s), arrivals, applied + [s.queue.batch], None)
  {
    var q := s.queue;
    QueueAdvances(s.done, q.writers, arrivals, q.group, true);
    CommittedGood(s.done, q.writers, q.group);
    assert q.batch.ops[..q.stage.next] == q.batch.ops;
    MemAdvances(s.mem, applied, q.batch, s.lastSequence);
    BatchesSnoc(applied, q.batch);
  }

  lemma FinishOther(s: State, arrivals: seq<Writer>, applied: seq<Batch>, lost: Option<Batch>)
    requires Holds(s, arrivals, applied, lost) && (s.queue.stage.Failed? || s.queue.stage.Skipped?)
    ensures Holds(Finished(s), arrivals, applied, lost)
  {
    var q := s.queue;
    QueueAdvances(s.done, q.writers, arrivals, q.group, Succeeded(q.stage));
    if Succeeded(q.stage) {
      CommittedGood(s.done, q.writers, q.group);
      assert OpsOf(q.writers, 1) == [] + [] && Committed(s.done) + [] == Committed(s.done);
    } else {
      CommittedBad(s.done, q.writers, q.group);
    }
    MemWaits(s.mem, applied, s.lastSequence, if q.stage.Skipped? then 0 else |q.batch.ops|);
  }

  /** The completions of a group are told what was logged for it. */
  lemma GroupRecord(done: seq<Completion>, ws: seq<Writer>, n: nat, ok: bool, log: seq<Batch>, i: nat)
    requires 1 <= n <= |ws| && ok && log != [] && log[|log| - 1].ops == OpsOf(ws, n) && |done| <= i < |done| + n
    ensures OnDisk(done + Completions(ws, n, ok), log, |log|, i)
  {
    var done' := done + Completions(ws, n, ok);
    var a, b := |done|, |done| + n;
    assert WritersOf(done')[a..b] == ws[..n];
    OpsOfLonger(ws[..n], ws[n..], n);
    assert ws[..n] + ws[n..] == ws;
    assert IsRecordOf(done', log, a, b, |log| - 1);
  }

  lemma FinishFlushed(s: State, synced: nat)
    requires Flushed(s, synced) && GroupOk(s.queue, s.lastSequence) && CanFinish(s.queue)
    requires s.queue.stage.Inserting? ==> s.log != [] && s.log[|s.log| - 1] == s.queue.batch
    ensures Flushed(Finished(s), synced)
  {
    var q, done' := s.queue, Finished(s).done;
    forall i | 0 <= i < |done'| && WantsDisk(done'[i]) ensures OnDisk(done', s.log, synced, i) {
      if i < |s.done| {
        OnDiskMore(s.done, s.log, synced, done', s.log, synced, i);
      } else {
        assert done'[i] == Completion(q.writers[i - |s.done|], Succeeded(q.stage), q.writers[0]);
        GroupRecord(s.done, q.writers, q.group, true, s.log, i);
      }
    }
  }

  lemma LastLogged(s: State, arrivals: seq<Writer>, applied: seq<Batch>, lost: Option<Batch>)
    requires Holds(s, arrivals, applied, lost) && s.queue.stage.Inserting?
    ensures lost.None? && s.log != [] && s.log[|s.log| - 1] == s.queue.batch
  {
  }

  lemma FinishHolds(s: State, arrivals: seq<Writer>, applied: seq<Batch>, lost: Option<Batch>)
    requires Holds(s, arrivals, applied, lost) && CanFinish(s.queue)
    ensures Holds(Finished(s), arrivals, if s.queue.stage.Inserting? then applied + [s.queue.batch] else applied, lost)
  {
    if s.queue.stage.Inserting? {
      LastLogged(s, arrivals, applied, lost);
      FinishGood(s, arrivals, applied);
    } else {
      FinishOther(s, arrivals, applied, lost);
    }
  }

  lemma FinishOk(s: State, h: History)
    requires Ok(s, h) && CanFinish(s.queue)
    ensures Ok(Finished(s), FinishedHistory(s, h))
  {
    GroupsSnoc(h.groups, Group(s.queue.batch, s.queue.stage.Inserting?));
    if s.queue.stage.Inserting? {
      LastLogged(s, h.arrivals, Applied(h.groups), h.lost);
    }
    FinishFlushed(s, h.synced);
    FinishHolds(s, h.arrivals, Applied(h.groups), h.lost);
  }

  lemma {:induction false} StartOk(s: State, h: History, room: bool, n: nat)
    requires Ok(s, h) && Possible(s, h, Start(room, n))
    ensures Ok(Started(s, room, n), h)
  {
    if Writes(s, room) {
      GroupSyncs(s.queue.writers, n);
    }
  }

  // ---------------------------------------------------------------- runs

  /** One stretch of one thread: Start takes a group of n, Flush is the sync, Insert puts one entry, Report is an error elsewhere. */
  datatype Step = Join(w: Writer) | Report | Start(room: bool, n: nat) | Append(ok: bool) | Flush(ok: bool) | Insert | End

  /** Counts and sequence numbers stay within their widths. */
  predicate RoomLeft(s: State) {
    var more := |OpsOf(s.queue.writers, |s.queue.writers|)|;
    more < MAX_COUNT && s.lastSequence + more <= MAX_SEQUENCE
  }

  /** The leader has something to log. */
  predicate Writes(s: State, room: bool)
    requires s.queue.writers != []
  {
    room && !s.bgError && s.queue.writers[0].batch.Some?
  }

  predicate Possible(s: State, h: History, e: Step) {
    match e
    case Join(w) => forall v :: v in h.arrivals ==> v.id != w.id
    case Report => true
    case Start(room, n) =>
      && s.queue.stage.Idle? && s.queue.writers != [] && RoomLeft(s)
      && (Writes(s, room) ==> IsGroup(ByteSize, s.queue.writers, n))
    case Append(_) => s.queue.stage.Logging? && s.queue.writers != []
    case Flush(_) => s.queue.stage.Syncing?
    case Insert => s.queue.stage.Inserting? && s.queue.stage.next < |s.queue.batch.ops|
    case End => CanFinish(s.queue) && s.queue.group <= |s.queue.writers|
  }

  function Started(s: State, room: bool, n: nat): State
    requires s.queue.writers != [] && (Writes(s, room) ==> n <= |s.queue.writers|)
  {
    var ws := s.queue.writers;
    s.(queue := if Writes(s, room) then Queue(ws, Logging, n, Batch(s.lastSequence + 1, OpsOf(ws, n)))
                else Queue(ws, Skipped(room && !s.bgError), 1, s.queue.batch))
  }

  function Do(s: State, h: History, e: Step): (State, History)
    requires Possible(s, h, e)
  {
    match e
    case Join(w) => (Enqueued(s, w), h.(arrivals := h.arrivals + [w]))
    case Report => (s.(bgError := true), h)
    case Start(room, n) => (Started(s, room, n), h)
    case Append(ok) => (if ok then AddedRecord(s) else AtStage(s, Failed), h)
    case Flush(ok) =>
      if ok then (AtStage(s, Inserting(0)), h.(synced := |s.log|)) else (AtStage(s, Failed).(bgError := true), h.(lost := Some(s.queue.batch)))
    case Insert => (InsertedOne(s), h)
    case End => (Finished(s), FinishedHistory(s, h))
  }

  lemma {:induction false} StepOk(s: State, h: History, e: Step)
    requires Ok(s, h) && Possible(s, h, e)
    ensures Ok(Do(s, h, e).0, Do(s, h, e).1)
  {
    match e
    case Join(w) => EnqueueOk(s, h, w);
    case Report =>
    case Start(room, n) => StartOk(s, h, room, n);
    case Append(ok) =>
      AddRecordOk(s, h);
      FailOk(s, h);
    case Flush(_) => SyncOk(s, h);
    case Insert => InsertOk(s, h);
    case End => FinishOk(s, h);
  }

  /** Where the steps lead from an empty database, if each of them is possible. */
  function After(es: seq<Step>): Option<(State, History)> {
    if es == [] then Some((Fresh, NoHistory))
    else
      match After(es[..|es| - 1])
      case None => None
      case Some(w) => if Possible(w.0, w.1, es[|es| - 1]) then Some(Do(w.0, w.1, es[|es| - 1])) else None
  }

  /** Every interleaving of any threads keeps the invariant. */
  lemma {:induction false} RunsStayOk(es: seq<Step>)
    requires After(es).Some?
    ensures Ok(After(es).value.0, After(es).value.1)
  {
    if es != [] {
      var front := es[..|es| - 1];
      RunsStayOk(front);
      StepOk(After(front).value.0, After(front).value.1, es[|es| - 1]);
    }
  }

  // ---------------------------------------------------------------- what every interleaving keeps

  lemma {:induction false} EntriesAreOps(bs: seq<Batch>)
    ensures |EntriesOf(bs)| == |AllOps(bs)| && forall i :: 0 <= i < |AllOps(bs)| ==> EntriesOf(bs)[i].op == AllOps(bs)[i]
  {
    if bs != [] {
      EntriesAreOps(bs[..|bs| - 1]);
    }
  }

  /**
    At any moment the entries a reader may see, those up to the last sequence number, are in
    their order exactly the updates of the writers that were told all is well.
  */
  lemma VisibleIsCommitted(s: State, h: History)
    requires Ok(s, h)
    ensures |Committed(s.done)| <= |s.mem|
    ensures forall i :: 0 <= i < |s.mem| ==> (s.mem[i].sequence <= s.lastSequence <==> i < |Committed(s.done)|)
    ensures forall i :: 0 <= i < |Committed(s.done)| ==> s.mem[i].op == Committed(s.done)[i]
  {
    var seen := EntriesOf(Applied(h.groups));
    EntriesAreOps(Applied(h.groups));
    forall i | 0 <= i < |s.mem| ensures s.mem[i].sequence <= s.lastSequence <==> i < |seen| {
      if i < |seen| {
        assert s.mem[i] == seen[i];
      } else {
        assert s.mem[i] == Pending(s.queue)[i - |seen|];
      }
    }
  }

  // ---------------------------------------------------------------- sequence numbers

  /** Updates of groups that succeeded and of groups that failed make up all numbers. */
  lemma {:induction false} WidthSplits(gs: seq<Group>)
    ensures Width(gs) == |AllOps(Applied(gs))| + Missing(gs)
  {
    if gs != [] {
      var front, g := gs[..|gs| - 1], gs[|gs| - 1];
      WidthSplits(front);
      if g.ok {
        BatchesSnoc(Applied(front), g.batch);
      }
    }
  }

  /** How many updates of the first k groups succeeded. */
  function Succeeding(gs: seq<Group>, k: nat): nat
    requires k <= |gs|
  {
    |AllOps(Applied(gs[..k]))|
  }

  /** Update i of those that succeeded is in group k. */
  predicate InGroup(gs: seq<Group>, k: nat, i: nat) {
    k < |gs| && Succeeding(gs, k) <= i < Succeeding(gs, k + 1)
  }

  lemma {:induction false} SucceedingNext(gs: seq<Group>, k: nat)
    requires k < |gs|
    ensures Succeeding(gs, k + 1) == Succeeding(gs, k) + if gs[k].ok then |gs[k].batch.ops| else 0
  {
    assert gs[..k + 1] == gs[..k] + [gs[k]];
    GroupsSnoc(gs[..k], gs[k]);
    BatchesSnoc(Applied(gs[..k]), gs[k].batch);
  }

  lemma {:induction false} FindGroup(gs: seq<Group>, n: nat, i: nat) returns (k: nat)
    requires n <= |gs| && i < Succeeding(gs, n)
    ensures k < n && InGroup(gs, k, i)
  {
    SucceedingNext(gs, n - 1);
    if i < Succeeding(gs, n - 1) {
      k := FindGroup(gs, n - 1, i);
    } else {
      k := n - 1;
    }
  }

  /** The entries of the first groups come first. */
  lemma {:induction false} EntriesPrefix(gs: seq<Group>, k: nat)
    requires k <= |gs|
    ensures EntriesOf(Applied(gs[..k])) <= EntriesOf(Applied(gs))
    decreases |gs|
  {
    if k == |gs| {
      assert gs[..k] == gs;
    } else {
      var front, g := gs[..|gs| - 1], gs[|gs| - 1];
      EntriesPrefix(front, k);
      assert front[..k] == gs[..k];
      if g.ok {
        BatchesSnoc(Applied(front), g.batch);
      }
    }
  }

  lemma {:induction false} EntryOfBatch(bs: seq<Batch>, b: Batch, j: nat)
    requires j < |b.ops|
    ensures |EntriesOf(bs + [b])| == |AllOps(bs)| + |b.ops| && EntriesOf(bs + [b])[|AllOps(bs)| + j].sequence == b.sequence + j
  {
    BatchesSnoc(bs, b);
    EntriesAreOps(bs);
  }

  /** An update is numbered by its place among those that succeeded, and by the updates of groups that failed before its own. */
  lemma {:induction false} NumberedBehindFailures(gs: seq<Group>, k: nat, i: nat)
    requires Chained(gs) && InGroup(gs, k, i)
    ensures gs[k].ok && i < |EntriesOf(Applied(gs))| && EntriesOf(Applied(gs))[i].sequence == i + 1 + Missing(gs[..k])
  {
    var bs := Applied(gs[..k]);
    SucceedingNext(gs, k);
    assert gs[..k + 1] == gs[..k] + [gs[k]];
    GroupsSnoc(gs[..k], gs[k]);
    WidthSplits(gs[..k]);
    EntryOfBatch(bs, gs[k].batch, i - |AllOps(bs)|);
    EntriesPrefix(gs, k + 1);
  }

  /** No group with updates failed before one with updates that succeeded. */
  predicate NoGap(gs: seq<Group>) {
    forall j, k :: 0 <= j < k < |gs| && !gs[j].ok && gs[k].ok && gs[k].batch.ops != [] ==> gs[j].batch.ops == []
  }

  lemma {:induction false} MissingAtLeast(gs: seq<Group>, j: nat)
    requires j < |gs| && !gs[j].ok
    ensures Missing(gs) >= |gs[j].batch.ops|
  {
    if j < |gs| - 1 {
      MissingAtLeast(gs[..|gs| - 1], j);
    }
  }

  lemma {:induction false} NothingMissing(gs: seq<Group>)
    requires forall j :: 0 <= j < |gs| && !gs[j].ok ==> gs[j].batch.ops == []
    ensures Missing(gs) == 0
  {
    if gs != [] {
      NothingMissing(gs[..|gs| - 1]);
    }
  }

  /** What is visible is numbered from 1 on without a gap. */
  ghost predicate Consecutive(s: State) {
    |Committed(s.done)| <= |s.mem| && forall i :: 0 <= i < |Committed(s.done)| ==> s.mem[i].sequence == i + 1
  }

  /** Update i is numbered i + 1, and further by the updates of the groups that failed before its own. */
  lemma {:induction false} VisibleNumber(s: State, h: History, i: nat) returns (k: nat)
    requires Ok(s, h) && i < |Committed(s.done)|
    ensures i < |s.mem| && InGroup(h.groups, k, i) && s.mem[i].sequence == i + 1 + Missing(h.groups[..k])
  {
    var gs := h.groups;
    assert gs[..|gs|] == gs;
    k := FindGroup(gs, |gs|, i);
    NumberedBehindFailures(gs, k, i);
    assert s.mem[i] == EntriesOf(Applied(gs))[i];
  }

  /** The numbers have no gap exactly if no group that failed, with updates, precedes an update that succeeded. */
  lemma {:induction false} NumbersConsecutive(s: State, h: History)
    requires Ok(s, h)
    ensures Consecutive(s) <==> NoGap(h.groups)
  {
    VisibleIsCommitted(s, h);
    if NoGap(h.groups) {
      forall i | 0 <= i < |Committed(s.done)| ensures s.mem[i].sequence == i + 1 {
        var k := VisibleNumber(s, h, i);
        SucceedingNext(h.groups, k);
        NothingMissing(h.groups[..k]);
      }
    }
    forall j, k | 0 <= j < k < |h.groups| && !h.groups[j].ok && h.groups[k].ok && h.groups[k].batch.ops != [] && h.groups[j].batch.ops != []
      ensures !Consecutive(s)
    {
      GapShows(s, h, j, k);
    }
  }

  lemma {:induction false} GapShows(s: State, h: History, j: nat, k: nat)
    requires Ok(s, h) && j < k < |h.groups| && !h.groups[j].ok && h.groups[k].ok
    requires h.groups[k].batch.ops != [] && h.groups[j].batch.ops != []
    ensures !Consecutive(s)
  {
    var gs := h.groups;
    SucceedingNext(gs, k);
    NumberedBehindFailures(gs, k, Succeeding(gs, k));
    MissingAtLeast(gs[..k], j);
    EntriesAreOps(Applied(gs));
    assert s.mem[Succeeding(gs, k)] == EntriesOf(Applied(gs))[Succeeding(gs, k)];
  }

  // ---------------------------------------------------------------- a run with a gap

  /** The steps are possible and lead here. */
  predicate LeadTo(es: seq<Step>, s: State, h: History) {
    After(es) == Some((s, h))
  }

  lemma {:induction false} Then(es: seq<Step>, s: State, h: History, e: Step, s': State, h': History)
    requires LeadTo(es, s, h) && Possible(s, h, e) && Do(s, h, e) == (s', h')
    ensures LeadTo(es + [e], s', h')
  {
    assert (es + [e])[..|es|] == es;
  }

  const Erase := Delete([])

  /** A quiet database, whose numbers up to last are used up. */
  predicate Quiet(s: State, last: nat) {
    s.queue.writers == [] && s.queue.stage.Idle? && !s.bgError && s.lastSequence == last
  }

  lemma {:induction false} LoneGroup(w: Writer)
    requires w.batch == Some([Erase])
    ensures OpsOf([w], 1) == [Erase] && IsGroup(ByteSize, [w], 1)
  {
    assert OpsOf([w], 1) == OpsOf([w], 0) + BatchOps(w);
  }

  /** A writer alone becomes the leader of a group of its own. */
  lemma {:induction false} LoneStarts(es: seq<Step>, s: State, h: History, w: Writer, s': State, h': History)
    requires LeadTo(es, s, h) && Quiet(s, s.lastSequence) && s.lastSequence < 2 && w.batch == Some([Erase]) && forall v :: v in h.arrivals ==> v.id != w.id
    requires s' == s.(queue := Queue([w], Logging, 1, Batch(s.lastSequence + 1, [Erase]))) && h' == h.(arrivals := h.arrivals + [w])
    ensures LeadTo(es + [Join(w)] + [Start(true, 1)], s', h')
  {
    var s1 := s.(queue := s.queue.(writers := [w]));
    assert s.queue.writers + [w] == [w];
    Then(es, s, h, Join(w), s1, h');
    LoneGroup(w);
    Then(es + [Join(w)], s1, h', Start(true, 1), s', h');
  }

  lemma LoneFinishes(s: State, w: Writer, ok: bool)
    requires s.queue.writers == [w] && s.queue.group == 1 && !s.queue.stage.Skipped? && Succeeded(s.queue.stage) == ok
    ensures Quiet(Finished(s), s.lastSequence + |s.queue.batch.ops|) == !s.bgError
    ensures Finished(s).mem == s.mem && Finished(s).done == s.done + [Completion(w, ok, w)]
  {
    assert Completions([w], 1, ok) == [Completion(w, ok, w)];
  }

  const Early := Writer(0, Some([Erase]), false)
  const Late := Writer(1, Some([Erase]), false)

  /** The first writer's record cannot be appended, and the writer is told so. */
  lemma EarlyFails() returns (es: seq<Step>, s: State, h: History)
    ensures es == [Join(Early), Start(true, 1), Append(false), End] && LeadTo(es, s, h)
    ensures Quiet(s, 1) && s.mem == [] && h == History([Early], [Group(Batch(1, [Erase]), false)], None, 0)
  {
    var s1, h1 := Fresh.(queue := Queue([Early], Logging, 1, Batch(1, [Erase]))), NoHistory.(arrivals := [Early]);
    assert LeadTo([], Fresh, NoHistory);
    LoneStarts([], Fresh, NoHistory, Early, s1, h1);
    es := [] + [Join(Early)] + [Start(true, 1)];
    var s2 := AtStage(s1, Failed);
    Then(es, s1, h1, Append(false), s2, h1);
    LoneFinishes(s2, Early, false);
    s, h := Finished(s2), FinishedHistory(s2, h1);
    Then(es + [Append(false)], s2, h1, End, s, h);
    es := es + [Append(false)] + [End];
  }

  /** Then the only update that succeeds is numbered 2. */
  lemma FailureSkipsNumber() returns (es: seq<Step>, s: State, h: History)
    ensures es == [Join(Early), Start(true, 1), Append(false), End, Join(Late), Start(true, 1), Append(true), Insert, End]
    ensures LeadTo(es, s, h) && s.mem == [Entry(2, Erase)] && !Consecutive(s)
  {
    es, s, h := EarlyFails();
    var s1, h1 := s.(queue := Queue([Late], Logging, 1, Batch(2, [Erase]))), h.(arrivals := h.arrivals + [Late]);
    LoneStarts(es, s, h, Late, s1, h1);
    es := es + [Join(Late)] + [Start(true, 1)];
    s, h := LateSucceeds(es, s1, h1);
    es := es + [Append(true)] + [Insert] + [End];
    GapRemains(es, s, h);
  }

  lemma GapRemains(es: seq<Step>, s: State, h: History)
    requires LeadTo(es, s, h) && h.groups == [Group(Batch(1, [Erase]), false), Group(Batch(2, [Erase]), true)]
    ensures !Consecutive(s)
  {
    RunsStayOk(es);
    GapShows(s, h, 0, 1);
  }

  lemma {:induction false} LateSucceeds(es: seq<Step>, s: State, h: History) returns (s': State, h': History)
    requires LeadTo(es, s, h) && s.queue == Queue([Late], Logging, 1, Batch(2, [Erase])) && s.mem == []
    ensures LeadTo(es + [Append(true)] + [Insert] + [End], s', h')
    ensures s'.mem == [Entry(2, Erase)] && h' == h.(groups := h.groups + [Group(Batch(2, [Erase]), true)])
  {
    var s1 := AddedRecord(s);
    Then(es, s, h, Append(true), s1, h);
    var s2 := InsertedOne(s1);
    Then(es + [Append(true)], s1, h, Step.Insert, s2, h);
    LoneFinishes(s2, Late, true);
    s', h' := Finished(s2), FinishedHistory(s2, h);
    Then(es + [Append(true)] + [Insert], s2, h, End, s', h');
  }

  /** Every writer that asked for a sync and was told all is well has the updates of its group in a log record that a successful sync has covered. */
  lemma SyncedBeforeTold(es: seq<Step>, i: nat)
    requires After(es).Some? && i < |After(es).value.0.done| && WantsDisk(After(es).value.0.done[i])
    ensures var s, h := After(es).value.0, After(es).value.1; h.synced <= |s.log| && OnDisk(s.done, s.log, h.synced, i)
  {
    RunsStayOk(es);
  }

  /** A memtable after a crash has what it had before it, and only whole batches. */
  lemma LogCoversMem(s: State, h: History)
    requires Ok(s, h)
    ensures s.mem <= EntriesOf(s.log) && (s.queue.stage.Idle? && h.lost.None? ==> s.mem == EntriesOf(s.log))
    ensures s.queue.stage.Idle? && h.lost.None? ==> forall i :: 0 <= i < |s.log| ==> s.log[i].sequence + |s.log[i].ops| - 1 <= s.lastSequence
  {
    if s.log != Applied(h.groups) {
      BatchesSnoc(Applied(h.groups), s.log[|s.log| - 1]);
      if s.queue.stage.Inserting? {
        assert Pending(s.queue) <= Numbered(s.queue.batch.sequence, s.queue.batch.ops);
      }
    }
  }

  class DB {
    var st: State
    ghost var hist: History

    ghost predicate Valid()
      reads this
    {
      Ok(st, hist)
    }

    constructor ()
      ensures Valid() && st == Fresh && hist == NoHistory
    {
      st, hist := Fresh, NoHistory;
    }

    /** A writer joins the queue, whatever the leader is doing. */
    method Enqueue(w: Writer)
      requires Valid() && Possible(st, hist, Join(w))
      modifies this
      ensures Valid() && (st, hist) == Do(old(st), old(hist), Join(w))
    {
      StepOk(st, hist, Join(w));
      st := st.(queue := st.queue.(writers := st.queue.writers + [w]));
      hist := hist.(arrivals := hist.arrivals + [w]);
    }

    /** Another thread reports an error: from now on there is no room. */
    method BackgroundError()
      requires Valid()
      modifies this`st
      ensures Valid() && (st, hist) == Do(old(st), old(hist), Report)
    {
      st := st.(bgError := true);
    }

    /** The first writer finds room or not, and builds its group. Counts and sequence numbers stay within their widths. */
    method Begin(room: bool) returns (n: nat)
      requires Valid() && st.queue.stage.Idle? && st.queue.writers != [] && RoomLeft(st)
      modifies this`st
      ensures Valid() && Possible(old(st), old(hist), Start(room, n)) && (st, hist) == Do(old(st), old(hist), Start(room, n))
    {
      var queue;
      n, queue := Lead(st, room);
      StartOk(st, hist, room, n);
      st := st.(queue := queue);
    }

    /** The leader's queue: its group and the batch of the group, or none if there is no room or nothing to write. */
    static method Lead(s: State, room: bool) returns (n: nat, queue: Queue)
      requires s.queue.writers != []
      ensures Writes(s, room) ==> IsGroup(ByteSize, s.queue.writers, n)
      ensures queue == Started(s, room, n).queue
    {
      var ws := s.queue.writers;
      n := 1;
      if room && !s.bgError && ws[0].batch.Some? {
        var ops;
        n, ops := BuildBatchGroup(ByteSize, ws);
        queue := Queue(ws, Logging, n, Batch(s.lastSequence + 1, ops));
      } else {
        queue := Queue(ws, Skipped(room && !s.bgError), 1, s.queue.batch);
      }
    }

    /** AddRecord, without the lock. */
    method AddRecord(ok: bool)
      requires Valid() && st.queue.stage.Logging?
      modifies this`st
      ensures Valid() && (st, hist) == Do(old(st), old(hist), Append(ok))
    {
      StepOk(st, hist, Append(ok));
      if ok {
        var stage := if st.queue.writers[0].sync then Syncing else Inserting(0);
        st := st.(log := st.log + [st.queue.batch], queue := st.queue.(stage := stage));
      } else {
        st := st.(queue := st.queue.(stage := Failed));
      }
    }

    /** Sync, without the lock; after an error nothing more is written. */
    method Sync(ok: bool)
      requires Valid() && st.queue.stage.Syncing?
      modifies this
      ensures Valid() && (st, hist) == Do(old(st), old(hist), Flush(ok))
    {
      StepOk(st, hist, Flush(ok));
      if ok {
        hist := hist.(synced := |st.log|);
        st := st.(queue := st.queue.(stage := Inserting(0)));
      } else {
        hist := hist.(lost := Some(st.queue.batch));
        st := st.(bgError := true, queue := st.queue.(stage := Failed));
      }
    }

    /** One entry into the memtable, without the lock. */
    method Insert()
      requires Valid() && st.queue.stage.Inserting? && st.queue.stage.next < |st.queue.batch.ops|
      modifies this`st
      ensures Valid() && (st, hist) == Do(old(st), old(hist), Step.Insert)
    {
      InsertOk(st, hist);
      var i, b := st.queue.stage.next, st.queue.batch;
      st := st.(mem := st.mem + [Entry(b.sequence + i, b.ops[i])], queue := st.queue.(stage := Inserting(i + 1)));
    }

    /** The new last sequence number becomes visible, and the group leaves the queue, told how it went. */
    method Finish()
      requires Valid() && CanFinish(st.queue)
      modifies this
      ensures Valid() && (st, hist) == Do(old(st), old(hist), End)
    {
      FinishOk(st, hist);
      var after := EndGroup(st);
      hist := FinishedHistory(st, hist);
      st := after;
    }

    static method EndGroup(s: State) returns (s': State)
      requires 1 <= s.queue.group <= |s.queue.writers|
      ensures s' == Finished(s)
    {
      var q := s.queue;
      var last := if q.stage.Skipped? then s.lastSequence else s.lastSequence + |q.batch.ops|;
      var writers, done := PopGroup(q.writers, q.group, Succeeded(q.stage), s.done);
      s' := s.(queue := Queue(writers, Idle, 0, q.batch), done := done, lastSequence := last);
    }

    /** Pop the writers up to the last of the group, with the leader's verdict. */
    static method PopGroup(ws: seq<Writer>, n: nat, ok: bool, done: seq<Completion>) returns (writers: seq<Writer>, done': seq<Completion>)
      requires 1 <= n <= |ws|
      ensures writers == ws[n..] && done' == done + Completions(ws, n, ok)
    {
      var i := 0;
      writers, done' := ws, done;
      while i < n
        invariant 0 <= i <= n && writers == ws[i..] && done' == done + Completions(ws, i, ok)
      {
        CompletionsSnoc(ws, i, ok);
        Assoc(done, Completions(ws, i, ok), [Completion(ws[i], ok, ws[0])]);
        done' := done' + [Completion(writers[0], ok, ws[0])];
        writers := writers[1..];
        i := i + 1;
      }
    }

    /**
      Recovery from the log, at any moment: nothing that was in the memtable is missing, all of
      the log's batches are there in whole, and no number is above the one recovered.
    */
    method Recover(paranoid: bool) returns (mem: seq<Entry>, maxSequence: nat)
      requires Valid()
      ensures mem == EntriesOf(st.log) && st.mem <= mem && AtMost(mem, maxSequence)
      ensures st.queue.stage.Idle? && hist.lost.None? ==> mem == st.mem && maxSequence <= st.lastSequence
    {
      LogCoversMem(st, hist);
      mem, maxSequence := RecoverRecords(st.log, EncodeAll(st.log), paranoid, st.lastSequence);
    }
  }
}
