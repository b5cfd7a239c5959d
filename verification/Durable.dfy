/**
  A restart is a recovery: in every run, restarts included, the log and the open prepares of a
  server are those of the records it has appended, and what it starts again with is what
  recovery reads from the text of the file (src/server/server.cc: the handlers and lines
  113-120; src/server/wal.cc).
*/
module Durable {
  import opened Protocol
  import opened ServerSpec
  import opened Wal
  import opened WalImpl
  import Ballots

  /** The stored state mirrors the records, of which recovery last read base. */
  ghost predicate Mirrors(st: Store, recs: seq<Rec>, base: nat) {
    && base <= |recs| && Regular(recs) && st.open == OpenOf(recs, base)
    && |st.log| == |recs| && forall i :: 0 <= i < |recs| ==> st.log[i] == Appended(recs[i])
  }

  // ---------------------------------------------------------------- one record more

  lemma RecordMirrors(st: Store, recs: seq<Rec>, base: nat, r: Rec, st': Store)
    requires Mirrors(st, recs, base) && IsRegular(r) && st'.log == st.log + [Appended(r)]
    requires st'.open == if Enters(r.op) then st.open[r.tid := EntryIn(r, Cross, Prepared)] else if Leaves(r.op) then st.open - {r.tid} else st.open
    ensures Mirrors(st', recs + [r], base)
  {
    IndexSnoc(recs, base, r);
  }

  lemma PrepareMirrors(st: Store, recs: seq<Rec>, base: nat, r: TransferReq, b: Ballot, now: int) returns (recs': seq<Rec>)
    requires Mirrors(st, recs, base)
    ensures recs <= recs' && Mirrors(LogPrepare(st, r, b, now), recs', base)
  {
    var rec := Rec(CsPrepare, r.tid, b.num, b.serverId, r.txn);
    RecordMirrors(st, recs, base, rec, LogPrepare(st, r, b, now));
    recs' := recs + [rec];
  }

  lemma CommitMirrors(st: Store, recs: seq<Rec>, base: nat, r: TransferReq, b: Ballot) returns (recs': seq<Rec>)
    requires Mirrors(st, recs, base)
    ensures recs <= recs' && Mirrors(LogCommit(st, r, b), recs', base)
  {
    recs' := recs;
    if r.tid !in st.applied {
      var rec := Rec(InCommit, r.tid, b.num, b.serverId, r.txn);
      RecordMirrors(st, recs, base, rec, LogCommit(st, r, b));
      recs' := recs + [rec];
    }
  }

  lemma DecideMirrors(cfg: Config, st: Store, recs: seq<Rec>, base: nat, tid: Tid, commit: bool) returns (recs': seq<Rec>)
    requires Mirrors(st, recs, base)
    ensures recs <= recs' && Mirrors(Decide(cfg, st, tid, commit), recs', base)
  {
    recs' := recs;
    if tid in st.open {
      LiveLeads(recs, base, tid);
      var e := st.open[tid];
      var rec := Rec(if commit then CsCommit else CsAbort, tid, e.ballotNum, e.ballotServerId, e.txn);
      RecordMirrors(st, recs, base, rec, Decide(cfg, st, tid, commit));
      recs' := recs + [rec];
    }
  }

  predicate AllReadable(es: seq<LogEntry>) {
    forall e :: e in es ==> Readable(e)
  }

  lemma {:induction false} SyncMirrors(cfg: Config, st: Store, recs: seq<Rec>, base: nat, es: seq<LogEntry>) returns (recs': seq<Rec>)
    requires Mirrors(st, recs, base) && AllReadable(es)
    ensures recs <= recs' && Mirrors(SyncEntries(cfg, st, es), recs', base)
  {
    recs' := recs;
    if es != [] {
      var front, e := es[..|es| - 1], es[|es| - 1];
      assert e in es && forall x :: x in front ==> x in es;
      recs' := SyncMirrors(cfg, st, recs, base, front);
      RecOfKinds(e);
      RecordMirrors(SyncEntries(cfg, st, front), recs', base, RecOf(e), SyncEntries(cfg, st, es));
      recs' := recs' + [RecOf(e)];
    }
  }

  // ---------------------------------------------------------------- batches

  lemma LocksMirror(st: Store, recs: seq<Rec>, base: nat, st': Store)
    requires Mirrors(st, recs, base) && st'.log == st.log && st'.open == st.open
    ensures Mirrors(st', recs, base)
  {
  }

  lemma {:induction false} ValidateMirrors(cfg: Config, st: Store, recs: seq<Rec>, base: nat, items: seq<Item>, b: Ballot, now: int) returns (recs': seq<Rec>)
    requires Mirrors(st, recs, base)
    ensures recs <= recs' && Mirrors(Validate(cfg, st, items, b, now).store, recs', base)
  {
    recs' := recs;
    if items != [] {
      var it := items[|items| - 1];
      recs' := ValidateMirrors(cfg, st, recs, base, items[..|items| - 1], b, now);
      var st1 := Validate(cfg, st, items[..|items| - 1], b, now).store;
      if !Blocked(cfg, st1, it.req.txn) && it.cross {
        recs' := PrepareMirrors(st1.(locks := st1.locks + InsideAccounts(cfg, it.req.txn)), recs', base, it.req, b, now);
      }
    }
  }

  lemma {:induction false} SettleMirrors(st: Store, recs: seq<Rec>, base: nat, items: seq<Item>, b: Ballot) returns (recs': seq<Rec>)
    requires Mirrors(st, recs, base)
    ensures recs <= recs' && Mirrors(SettleAll(st, items, b), recs', base)
  {
    recs' := recs;
    if items != [] {
      var it := items[|items| - 1];
      recs' := SettleMirrors(st, recs, base, items[..|items| - 1], b);
      var st1 := SettleAll(st, items[..|items| - 1], b);
      if !it.cross {
        recs' := CommitMirrors(st1.(locks := st1.locks - {it.req.txn.sender, it.req.txn.receiver}), recs', base, it.req, b);
      }
    }
  }

  lemma {:induction false} AcceptMirrors(cfg: Config, st: Store, recs: seq<Rec>, base: nat, batch: seq<TransferReq>, b: Ballot, now: int) returns (recs': seq<Rec>)
    requires Mirrors(st, recs, base)
    ensures recs <= recs' && Mirrors(AcceptAll(cfg, st, batch, b, now), recs', base)
  {
    recs' := recs;
    if batch != [] {
      var r := batch[|batch| - 1];
      recs' := AcceptMirrors(cfg, st, recs, base, batch[..|batch| - 1], b, now);
      var st1 := AcceptAll(cfg, st, batch[..|batch| - 1], b, now);
      if InCluster(cfg, r.txn.sender) != InCluster(cfg, r.txn.receiver) {
        recs' := PrepareMirrors(st1.(locks := st1.locks + InsideAccounts(cfg, r.txn)), recs', base, r, b, now);
      }
    }
  }

  lemma {:induction false} CommitAllMirrors(cfg: Config, st: Store, recs: seq<Rec>, base: nat, batch: seq<TransferReq>, b: Ballot) returns (recs': seq<Rec>)
    requires Mirrors(st, recs, base)
    ensures recs <= recs' && Mirrors(CommitAll(cfg, st, batch, b), recs', base)
  {
    recs' := recs;
    if batch != [] {
      var r := batch[|batch| - 1];
      recs' := CommitAllMirrors(cfg, st, recs, base, batch[..|batch| - 1], b);
      var st1 := CommitAll(cfg, st, batch[..|batch| - 1], b);
      if BothInside(cfg, r.txn) {
        recs' := CommitMirrors(st1.(locks := st1.locks - InsideAccounts(cfg, r.txn)), recs', base, r, b);
      }
    }
  }

  // ---------------------------------------------------------------- handlers

  lemma PrepareReplyMirrors(s: Server, recs: seq<Rec>, base: nat, o: Outcome<PrepareRes>, asked: Ballot, now: int) returns (recs': seq<Rec>)
    requires Mirrors(s.store, recs, base)
    ensures recs <= recs' && Mirrors(PrepareReply(s, o, asked, now).store, recs', base)
  {
    recs' := recs;
    var s1 := CountPrepare(s, o, asked);
    PrepareVerdictStores(s1, o, asked, now);
    if PrepareReply(s, o, asked, now).store != s.store {
      recs' := ValidateMirrors(s.cfg, s.store, recs, base, s.round.current, s.acc.promisedNum, now);
    }
  }

  lemma AcceptReplyMirrors(s: Server, recs: seq<Rec>, base: nat, o: Outcome<(Ballot, bool)>, asked: Ballot) returns (recs': seq<Rec>)
    requires Mirrors(s.store, recs, base)
    ensures recs <= recs' && Mirrors(AcceptReply(s, o, asked).store, recs', base)
  {
    recs' := recs;
    var s1, st := CountAccept(s, o, asked), AcceptReply(s, o, asked).store;
    AcceptVerdictStores(s1);
    if st.log == s.store.log && st.open == s.store.open {
      LocksMirror(s.store, recs, base, st);
    } else {
      recs' := SettleMirrors(s.store, recs, base, s.round.current, s.acc.acceptNum);
    }
  }

  lemma SyncReplyMirrors(s: Server, recs: seq<Rec>, base: nat, o: Outcome<SyncRes>) returns (recs': seq<Rec>)
    requires Mirrors(s.store, recs, base) && (o.Replied? && o.res.ack ==> AllReadable(o.res.logs))
    ensures recs <= recs' && Mirrors(SyncReply(s, o).store, recs', base)
  {
    recs' := recs;
    if o.Replied? && o.res.ack {
      recs' := SyncMirrors(s.cfg, s.store, recs, base, o.res.logs);
    }
  }

  /** A restart reads the whole log back, and reopens exactly what the rebuilt index leads to. */
  lemma {:induction false} RestartMirrors(log: seq<LogEntry>, recs: seq<Rec>)
    requires Regular(recs) && |log| == |recs| && forall i :: 0 <= i < |recs| ==> log[i] == Appended(recs[i])
    ensures ReadBack(log) == log && Reopened(log) == CrossOpen(recs)
  {
    if log != [] {
      var n := |log| - 1;
      RestartMirrors(log[..n], recs[..n]);
      RestartMirrorsOne(log, recs, n);
    }
  }

  lemma {:induction false} RestartMirrorsOne(log: seq<LogEntry>, recs: seq<Rec>, n: nat)
    requires |log| == |recs| == n + 1 && IsRegular(recs[n]) && log[n] == Appended(recs[n])
    requires ReadBack(log[..n]) == log[..n] && Reopened(log[..n]) == CrossOpen(recs[..n])
    ensures ReadBack(log) == log && Reopened(log) == CrossOpen(recs)
  {
    assert log == log[..n] + [log[n]];
  }

  /** Only a sync may bring an entry that recovery would not read. */
  predicate Sane(ev: Event) {
    ev.SyncAnswer? && ev.sout.Replied? && ev.sout.res.ack ==> AllReadable(ev.sout.res.logs)
  }

  lemma StepMirrors(s: Server, recs: seq<Rec>, base: nat, ev: Event) returns (recs': seq<Rec>, base': nat)
    requires Mirrors(s.store, recs, base) && Sane(ev)
    ensures recs <= recs' && Mirrors(Step(s, ev).store, recs', base') && base' == if ev.Crash? then |recs'| else base
  {
    recs', base' := recs, base;
    match ev
    case Client(call, req, cross) =>
    case OnPrepare(b, i) =>
    case OnAccept(b, batch, at) =>
      if !s.disconnected && s.acc.promised && b.num == s.acc.promisedNum.num {
        recs' := AcceptMirrors(s.cfg, s.store, recs, base, batch, b, at);
      }
    case OnCommit(b) =>
      if !s.disconnected && s.acc.promisedNum.num == b.num && s.acc.acceptNum.num == b.num {
        recs' := CommitAllMirrors(s.cfg, s.store, recs, base, s.acc.acceptBatch, s.acc.acceptNum);
      }
    case OnSync(last) =>
    case PrepareAnswer(o, asked, at) => recs' := PrepareReplyMirrors(s, recs, base, o, asked, at);
    case AcceptAnswer(o, asked) => recs' := AcceptReplyMirrors(s, recs, base, o, asked);
    case SyncAnswer(o) => recs' := SyncReplyMirrors(s, recs, base, o);
    case Decided(tid, commit) =>
      if !s.disconnected {
        recs' := DecideMirrors(s.cfg, s.store, recs, base, tid, commit);
      }
    case Expired(tid) => recs' := DecideMirrors(s.cfg, s.store, recs, base, tid, false);
    case Disconnect(on) =>
    case Crash =>
      RestartMirrors(s.store.log, recs);
      base' := |recs|;
  }

  /** Over every run, crashes included, the stored state mirrors the records appended. */
  lemma {:induction false} RunsMirror(cfg: Config, init: map<Account, int>, evs: seq<Event>) returns (recs: seq<Rec>, base: nat)
    requires forall ev :: ev in evs ==> Sane(ev)
    ensures Mirrors(Exec(Init(cfg, init), evs).store, recs, base)
  {
    recs, base := [], 0;
    if evs != [] {
      var front, ev := evs[..|evs| - 1], evs[|evs| - 1];
      assert ev in evs && forall x :: x in front ==> x in evs;
      recs, base := RunsMirror(cfg, init, front);
      recs, base := StepMirrors(Exec(Init(cfg, init), front), recs, base, ev);
    }
  }

  // ---------------------------------------------------------------- the file

  lemma {:induction false} SameBallot(n: int, log: seq<LogEntry>, recs: seq<Rec>)
    requires |log| == |recs| && forall i :: 0 <= i < |recs| ==> log[i] == Appended(recs[i])
    ensures MaxBallot(n, log) == Rebuild(n, recs).ballotNum
  {
    if log != [] {
      SameBallot(n, log[..|log| - 1], recs[..|recs| - 1]);
    }
  }

  /**
    What a server restarts with is what recovery reads from the file: the log, the ballot
    number, and for every indexed transaction the prepare that stands at its offset.
  */
  lemma RestartIsRecovery(s: Server, recs: seq<Rec>, base: nat, lines: seq<string>)
    requires Mirrors(s.store, recs, base) && AreLines(lines, recs)
    ensures var s', b := Restart(s), Recovered(s.acc.ballotNum, Join(lines));
            && s'.store.log == b.log && s'.acc.ballotNum == b.ballotNum && s'.store.open.Keys == b.index.Keys
            && forall t :: t in b.index.Keys ==> PrepareAt(Join(lines), b.index[t], s'.store.open[t])
  {
    RecoveryOfWhole(s.acc.ballotNum, lines, recs);
    RestartMirrors(s.store.log, recs);
    SameBallot(s.acc.ballotNum, s.store.log, recs);
    RebuildsLog(s.acc.ballotNum, recs);
    RebuildIndex(s.acc.ballotNum, recs);
    assert Live(recs, |recs|) == CrossLive(recs) && OpenOf(recs, |recs|) == CrossOpen(recs);
    forall t ensures t in CrossLive(recs) <==> t in CrossOpen(recs) {
      CrossLiveLeads(recs, t);
    }
    forall t | t in CrossLive(recs).Keys ensures PrepareAt(Join(lines), Placed(lines, CrossLive(recs))[t], CrossOpen(recs)[t]) {
      Lookup(lines, recs, |recs|, t);
    }
  }

  /** The line at this offset spells the prepare. */
  predicate PrepareAt(file: string, o: nat, e: LogEntry) {
    o < |file| && PreparedFrom(Parse(file[o..LineEnd(file, o)])) == e
  }

  /** The running server's open prepares survive a restart exactly if no sync touched one. */
  lemma RestartKeepsOpen(s: Server, recs: seq<Rec>, base: nat)
    requires Mirrors(s.store, recs, base)
    ensures Restart(s).store.log == s.store.log
    ensures Restart(s).store.open == s.store.open <==> NoneTouched(recs, base)
  {
    RestartMirrors(s.store.log, recs);
    SameLive(recs, base);
    forall t ensures (t in Live(recs, base) <==> t in OpenOf(recs, base)) && (t in CrossLive(recs) <==> t in CrossOpen(recs))
                     && (t in OpenOf(recs, base) ==> t in CrossOpen(recs) && OpenOf(recs, base)[t] == CrossOpen(recs)[t])
    {
      LiveLeads(recs, base, t);
      CrossLiveLeads(recs, t);
      IndexAgrees(recs, base, t);
    }
    SameMaps(OpenOf(recs, base), CrossOpen(recs));
    SameKeys(Live(recs, base).Keys, CrossLive(recs).Keys, OpenOf(recs, base).Keys, CrossOpen(recs).Keys);
  }

  /** A sync that uses the id of a prepare again for a transfer inside the cluster: a restart opens the prepare again. */
  lemma ReusedIdReturns(cfg: Config, init: map<Account, int>, p: LogEntry, c: LogEntry, last: Ballot)
    requires p.kind.Cross? && p.status.Prepared? && c.kind.Intra? && c.status.Committed? && c.tid == p.tid
    ensures var s := Exec(Init(cfg, init), [SyncAnswer(Replied(SyncRes(true, [p, c], last)))]);
            Sane(SyncAnswer(Replied(SyncRes(true, [p, c], last)))) && s.store.open == map[] && Restart(s).store.open == map[p.tid := p]
  {
    var s0, ev := Init(cfg, init), SyncAnswer(Replied(SyncRes(true, [p, c], last)));
    assert [ev][..0] == [] && Exec(s0, [ev]) == Step(Exec(s0, []), ev);
    assert [p, c][..1] == [p] && [p][..0] == [];
    var st := SyncEntries(cfg, s0.store, [p]);
    assert SyncEntries(cfg, s0.store, [p][..0]) == s0.store;
    assert st == SyncEntry(cfg, s0.store, p) && st.open == map[p.tid := p];
    assert SyncEntries(cfg, s0.store, [p, c]) == SyncEntry(cfg, st, c);
    assert [] + [p] + [c] == [p, c];
    assert Reopened([p][..0]) == map[] && Reopened([p]) == map[p.tid := p];
    assert Reopened([p, c]) == Reopened([p, c][..1]);
  }

  lemma SameMaps<T, V>(a: map<T, V>, b: map<T, V>)
    requires forall t :: t in a ==> t in b && a[t] == b[t]
    ensures a == b <==> a.Keys == b.Keys
  {
    if a.Keys == b.Keys {
      forall t ensures t in a <==> t in b {
        assert t in a.Keys <==> t in b.Keys;
      }
    }
  }

  lemma SameKeys<T>(a: set<T>, b: set<T>, c: set<T>, d: set<T>)
    requires forall t :: (t in a <==> t in c) && (t in b <==> t in d)
    ensures a == b <==> c == d
  {
    assert a == c && b == d;
  }

  // ---------------------------------------------------------------- a cluster

  ghost predicate Recorded(st: Store) {
    exists recs, base :: Mirrors(st, recs, base)
  }

  lemma RecordedIsReadable(st: Store)
    requires Recorded(st)
    ensures AllReadable(st.log)
  {
    var recs, base :| Mirrors(st, recs, base);
    forall e | e in st.log ensures Readable(e) {
      var i :| 0 <= i < |st.log| && st.log[i] == e;
      assert IsRegular(recs[i]);
    }
  }

  ghost predicate RepliesReadable(ms: set<Message>) {
    forall res :: SyncReplyMsg(res) in ms ==> AllReadable(res.logs)
  }

  /** Every server's state mirrors its records, and no reply carries an entry that recovery would not read. */
  ghost predicate AllRecorded(c: Ballots.Cluster) {
    && RepliesReadable(c.net)
    && forall i :: i in c.nodes ==> Recorded(c.nodes[i].store) && Ballots.Sent(c.nodes[i].out) <= c.net
  }

  /** Sync replies are sent by the sync handler only. */
  lemma NewReplies(s: Server, ev: Event, m: Message)
    requires m in Step(s, ev).out && m !in s.out && m.SyncReplyMsg?
    ensures ev.OnSync? && forall e :: e in m.sres.logs ==> e in s.store.log
  {
    SendsOnly(s, ev, m);
  }

  lemma NextRecorded(c: Ballots.Cluster, h: Ballots.Happening)
    requires AllRecorded(c) && Ballots.Possible(c, h)
    ensures AllRecorded(Ballots.Next(c, h))
  {
    var s, c' := c.nodes[h.id], Ballots.Next(c, h);
    var s' := Step(s, h.ev);
    var recs, base :| Mirrors(s.store, recs, base);
    var recs', base' := StepMirrors(s, recs, base, h.ev);
    RecordedIsReadable(s.store);
    forall res | SyncReplyMsg(res) in c'.net ensures AllReadable(res.logs) {
      if SyncReplyMsg(res) !in c.net {
        assert SyncReplyMsg(res) !in s.out;
        NewReplies(s, h.ev, SyncReplyMsg(res));
      }
    }
    forall i | i in c'.nodes ensures Recorded(c'.nodes[i].store) && Ballots.Sent(c'.nodes[i].out) <= c'.net {
      if i != h.id {
        assert i in c.nodes && c'.nodes[i] == c.nodes[i];
      }
    }
  }

  /** In every run of a cluster, crashes included, every server can be restarted from its file. */
  lemma {:induction false} ClusterRecorded(cs: seq<Ballots.Cluster>, hs: seq<Ballots.Happening>, n: nat)
    requires Ballots.IsRun(cs, hs) && n < |cs|
    ensures AllRecorded(cs[n])
  {
    if n == 0 {
      forall i | i in cs[0].nodes ensures Recorded(cs[0].nodes[i].store) && Ballots.Sent(cs[0].nodes[i].out) <= cs[0].net {
        assert Mirrors(cs[0].nodes[i].store, [], 0);
      }
    } else {
      ClusterRecorded(cs, hs, n - 1);
      assert Ballots.Possible(cs[n - 1], hs[n - 1]) && cs[n] == Ballots.Next(cs[n - 1], hs[n - 1]);
      NextRecorded(cs[n - 1], hs[n - 1]);
    }
  }
}
