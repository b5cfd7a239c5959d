/**
  A database that loses the end of its log file in a crash (leveldb/db/db_impl.cc, log_writer.cc,
  log_reader.cc): the batches of the writer queue, the log format and recovery together.
*/
module CrashRecovery {
  import opened Coding
  import RecordLog
  import LogReader
  import WriteBatch
  import opened GroupCommit

  lemma EncodeTake(bs: seq<WriteBatch.Batch>, n: nat)
    requires AllNumberable(bs) && n <= |bs|
    ensures EncodeAll(bs[..n]) == EncodeAll(bs)[..n]
  {
  }

  lemma {:induction false} EntriesTake(bs: seq<WriteBatch.Batch>, n: nat)
    requires n <= |bs|
    ensures EntriesOf(bs[..n]) <= EntriesOf(bs)
    decreases |bs|
  {
    if n == |bs| {
      assert bs[..n] == bs;
    } else {
      EntriesTake(bs[..|bs| - 1], n);
      assert bs[..|bs| - 1][..n] == bs[..n];
    }
  }

  /** Batches written to a file that is cut somewhere: those before the cut come back. */
  method CutAndRecover(log: seq<WriteBatch.Batch>, crc: RecordLog.Crc, cut: nat, checksum: bool, paranoid: bool, ghost last: nat)
    returns (mem: seq<WriteBatch.Entry>, maxSequence: nat, file: Bytes, ends: seq<nat>, n: nat, ghost cs: seq<Bytes>, ghost ps: seq<RecordLog.Phys>, ghost cuts: seq<nat>)
    requires AllNumberable(log) && RecordLog.CrcOk(crc)
    ensures LogReader.IsLog(crc, file, cs, ps, EncodeAll(log), cuts, ends) && n <= |log| && (cut >= |file| ==> n == |log|)
    ensures forall k :: 0 <= k < |log| ==> (k < n <==> ends[k] <= cut)
    ensures mem == EntriesOf(log[..n]) && AtMost(mem, maxSequence)
    ensures (forall i :: 0 <= i < |log| ==> log[i].sequence + |log[i].ops| - 1 <= last) ==> maxSequence <= last
  {
    var read, reports;
    ghost var records := EncodeAll(log);
    file, ends, read, reports, cs, ps, cuts := LogReader.WriteCutRead(crc, EncodeAll(log), cut, checksum);
    n := |read|;
    assert |records| == |log| && read == records[..n];
    EncodeTake(log, n);
    mem, maxSequence := RecoverRecords(log[..n], read, paranoid, last);
  }

  lemma Survives(s: State, h: History, n: nat)
    requires Ok(s, h) && n <= |s.log|
    ensures EntriesOf(s.log[..n]) <= EntriesOf(s.log) && (n == |s.log| ==> s.mem <= EntriesOf(s.log[..n]))
    ensures s.queue.stage.Idle? && h.lost.None? ==> EntriesOf(s.log[..n]) <= s.mem
    ensures s.queue.stage.Idle? && h.lost.None? ==> forall i :: 0 <= i < |s.log| ==> s.log[i].sequence + |s.log[i].ops| - 1 <= s.lastSequence
  {
    EntriesTake(s.log, n);
    LogCoversMem(s, h);
    if n == |s.log| {
      assert s.log[..n] == s.log;
    }
  }

  /**
    The log of a database at any moment, written out, cut at any byte and recovered: what comes
    back are the batches that lie wholly before the cut, no part of another, and all that was in
    the memtable if no batch is cut. If the cut spares what was synced, the updates of every writer
    that asked for a sync and was told all is well are among them.
  */
  method CrashAndRecover(db: DB, crc: RecordLog.Crc, cut: nat, checksum: bool, paranoid: bool)
    returns (mem: seq<WriteBatch.Entry>, maxSequence: nat, file: Bytes, ends: seq<nat>, n: nat, ghost cs: seq<Bytes>, ghost ps: seq<RecordLog.Phys>, ghost cuts: seq<nat>)
    requires db.Valid() && RecordLog.CrcOk(crc)
    ensures AllNumberable(db.st.log) && LogReader.IsLog(crc, file, cs, ps, EncodeAll(db.st.log), cuts, ends)
    ensures n <= |db.st.log| && mem == EntriesOf(db.st.log[..n]) && AtMost(mem, maxSequence)
    ensures forall k :: 0 <= k < |db.st.log| ==> (k < n <==> ends[k] <= cut)
    ensures mem <= EntriesOf(db.st.log) && (cut >= |file| ==> db.st.mem <= mem)
    ensures db.st.queue.stage.Idle? && db.hist.lost.None? ==> mem <= db.st.mem && maxSequence <= db.st.lastSequence
    ensures db.hist.synced <= |db.st.log| && (db.hist.synced == 0 || ends[db.hist.synced - 1] <= cut ==> AllOnDisk(db.st.done, db.st.log[..n], n))
  {
    mem, maxSequence, file, ends, n, cs, ps, cuts := CutAndRecover(db.st.log, crc, cut, checksum, paranoid, db.st.lastSequence);
    Survives(db.st, db.hist, n);
    if db.hist.synced <= n {
      ToldSurvives(db.st.done, db.st.log, db.hist.synced, n);
    }
  }

  /** What a sync has covered is among the records that are left. */
  lemma ToldSurvives(done: seq<Completion>, log: seq<WriteBatch.Batch>, synced: nat, n: nat)
    requires AllOnDisk(done, log, synced) && synced <= n <= |log|
    ensures AllOnDisk(done, log[..n], n)
  {
    forall i | 0 <= i < |done| && WantsDisk(done[i]) ensures OnDisk(done, log[..n], n, i) {
      var a, b, k :| 0 <= a <= i < b && 0 <= k < synced && IsRecordOf(done, log, a, b, k);
      assert IsRecordOf(done, log[..n], a, b, k);
    }
  }
}
