/**
  Where every transaction id is used for one kind of transaction, inside a cluster or across
  clusters, the index of open prepares survives every restart (src/server/server.cc,
  src/server/wal.cc).
*/
module Kinds {
  import opened Protocol
  import opened ServerSpec
  import opened Wal
  import opened WalImpl
  import opened Durable
  import Ballots
  import opened Calls

  type KindOf = Tid -> TxnType

  // ---------------------------------------------------------------- one server

  /** The accounts are those of a transaction of its kind. */
  predicate Suits(cfg: Config, kind: KindOf, r: TransferReq) {
    if kind(r.tid).Cross? then InCluster(cfg, r.txn.sender) != InCluster(cfg, r.txn.receiver) else BothInside(cfg, r.txn)
  }

  ghost predicate LogKinds(kind: KindOf, log: seq<LogEntry>) {
    forall e :: e in log ==> e.kind == kind(e.tid)
  }

  ghost predicate StoreKinds(kind: KindOf, st: Store) {
    LogKinds(kind, st.log) && forall t :: t in st.open ==> st.open[t].tid == t && st.open[t].kind.Cross? && kind(t).Cross?
  }

  ghost predicate ItemKinds(cfg: Config, kind: KindOf, items: seq<Item>) {
    forall it :: it in items ==> (it.cross <==> kind(it.req.tid).Cross?) && Suits(cfg, kind, it.req)
  }

  ghost predicate BatchKinds(cfg: Config, kind: KindOf, batch: seq<TransferReq>) {
    forall r :: r in batch ==> Suits(cfg, kind, r)
  }

  ghost predicate ServerKinds(kind: KindOf, s: Server) {
    && StoreKinds(kind, s.store) && BatchKinds(s.cfg, kind, s.acc.acceptBatch)
    && ItemKinds(s.cfg, kind, s.round.current) && ItemKinds(s.cfg, kind, s.round.pending)
  }

  /** What clients and peers send keeps to the kinds. */
  ghost predicate KindEvent(cfg: Config, kind: KindOf, ev: Event) {
    match ev
    case Client(_, req, cross) => (cross <==> kind(req.tid).Cross?) && Suits(cfg, kind, req)
    case OnAccept(_, batch, _) => BatchKinds(cfg, kind, batch)
    case SyncAnswer(o) => o.Replied? && o.res.ack ==> LogKinds(kind, o.res.logs)
    case _ => true
  }

  lemma EntryKinds(kind: KindOf, st: Store, e: LogEntry, st': Store)
    requires StoreKinds(kind, st) && st'.log == st.log + [e] && e.kind == kind(e.tid)
    requires forall t :: t in st'.open ==> (t in st.open && st'.open[t] == st.open[t]) || (st'.open[t].tid == t && st'.open[t].kind.Cross? && kind(t).Cross?)
    ensures StoreKinds(kind, st')
  {
  }

  lemma PrepareKinds(kind: KindOf, st: Store, r: TransferReq, b: Ballot, now: int)
    requires StoreKinds(kind, st) && kind(r.tid).Cross?
    ensures StoreKinds(kind, LogPrepare(st, r, b, now))
  {
    EntryKinds(kind, st, EntryOf(r, b, Cross, Prepared), LogPrepare(st, r, b, now));
  }

  lemma CommitKinds(kind: KindOf, st: Store, r: TransferReq, b: Ballot)
    requires StoreKinds(kind, st) && kind(r.tid).Intra?
    ensures StoreKinds(kind, LogCommit(st, r, b))
  {
    if r.tid !in st.applied {
      EntryKinds(kind, st, EntryOf(r, b, Intra, Committed), LogCommit(st, r, b));
    }
  }

  lemma DecideKinds(cfg: Config, kind: KindOf, st: Store, tid: Tid, commit: bool)
    requires StoreKinds(kind, st)
    ensures StoreKinds(kind, Decide(cfg, st, tid, commit))
  {
    if tid in st.open {
      EntryKinds(kind, st, st.open[tid].(status := if commit then Committed else Aborted), Decide(cfg, st, tid, commit));
    }
  }

  lemma {:induction false} SyncKinds(cfg: Config, kind: KindOf, st: Store, es: seq<LogEntry>)
    requires StoreKinds(kind, st) && LogKinds(kind, es) && AllReadable(es)
    ensures StoreKinds(kind, SyncEntries(cfg, st, es))
  {
    if es != [] {
      var front, e := es[..|es| - 1], es[|es| - 1];
      assert e in es && forall x :: x in front ==> x in es;
      SyncKinds(cfg, kind, st, front);
      EntryKinds(kind, SyncEntries(cfg, st, front), e, SyncEntries(cfg, st, es));
    }
  }

  lemma {:induction false} ValidateKinds(cfg: Config, kind: KindOf, st: Store, items: seq<Item>, b: Ballot, now: int)
    requires StoreKinds(kind, st) && ItemKinds(cfg, kind, items)
    ensures var v := Validate(cfg, st, items, b, now); StoreKinds(kind, v.store) && ItemKinds(cfg, kind, v.kept)
  {
    if items != [] {
      var front, it := items[..|items| - 1], items[|items| - 1];
      assert it in items && forall x :: x in front ==> x in items;
      ValidateKinds(cfg, kind, st, front, b, now);
      var st1 := Validate(cfg, st, front, b, now).store;
      if !Blocked(cfg, st1, it.req.txn) && it.cross {
        PrepareKinds(kind, st1.(locks := st1.locks + InsideAccounts(cfg, it.req.txn)), it.req, b, now);
      }
    }
  }

  lemma {:induction false} SettleKinds(cfg: Config, kind: KindOf, st: Store, items: seq<Item>, b: Ballot)
    requires StoreKinds(kind, st) && ItemKinds(cfg, kind, items)
    ensures StoreKinds(kind, SettleAll(st, items, b))
  {
    if items != [] {
      var front, it := items[..|items| - 1], items[|items| - 1];
      assert it in items && forall x :: x in front ==> x in items;
      SettleKinds(cfg, kind, st, front, b);
      var st1 := SettleAll(st, front, b);
      if !it.cross {
        CommitKinds(kind, st1.(locks := st1.locks - {it.req.txn.sender, it.req.txn.receiver}), it.req, b);
      }
    }
  }

  lemma {:induction false} AcceptKinds(cfg: Config, kind: KindOf, st: Store, batch: seq<TransferReq>, b: Ballot, now: int)
    requires StoreKinds(kind, st) && BatchKinds(cfg, kind, batch)
    ensures StoreKinds(kind, AcceptAll(cfg, st, batch, b, now))
  {
    if batch != [] {
      var front, r := batch[..|batch| - 1], batch[|batch| - 1];
      assert r in batch && forall x :: x in front ==> x in batch;
      AcceptKinds(cfg, kind, st, front, b, now);
      var st1 := AcceptAll(cfg, st, front, b, now);
      if InCluster(cfg, r.txn.sender) != InCluster(cfg, r.txn.receiver) {
        PrepareKinds(kind, st1.(locks := st1.locks + InsideAccounts(cfg, r.txn)), r, b, now);
      }
    }
  }

  lemma {:induction false} CommitAllKinds(cfg: Config, kind: KindOf, st: Store, batch: seq<TransferReq>, b: Ballot)
    requires StoreKinds(kind, st) && BatchKinds(cfg, kind, batch)
    ensures StoreKinds(kind, CommitAll(cfg, st, batch, b))
  {
    if batch != [] {
      var front, r := batch[..|batch| - 1], batch[|batch| - 1];
      assert r in batch && forall x :: x in front ==> x in batch;
      CommitAllKinds(cfg, kind, st, front, b);
      var st1 := CommitAll(cfg, st, front, b);
      if BothInside(cfg, r.txn) {
        CommitKinds(kind, st1.(locks := st1.locks - InsideAccounts(cfg, r.txn)), r, b);
      }
    }
  }

  lemma RequestKinds(cfg: Config, kind: KindOf, items: seq<Item>)
    requires ItemKinds(cfg, kind, items)
    ensures BatchKinds(cfg, kind, Requests(items))
  {
    forall r | r in Requests(items) ensures Suits(cfg, kind, r) {
      var i :| 0 <= i < |items| && Requests(items)[i] == r;
      assert items[i] in items;
    }
  }

  lemma StartKinds(kind: KindOf, s: Server)
    requires ServerKinds(kind, s)
    ensures ServerKinds(kind, MaybeStartRound(s))
  {
  }

  lemma FinishKinds(kind: KindOf, s: Server)
    requires StoreKinds(kind, s.store) && ItemKinds(s.cfg, kind, s.round.pending)
    ensures ServerKinds(kind, FinishRound(s))
  {
    StartKinds(kind, s.(acc := s.acc.(promised := false, accepted := false, acceptBatch := []),
                        round := s.round.(running := false, awaitPrepare := false, awaitAccept := false, current := [])));
  }

  lemma QuorumKinds(kind: KindOf, s: Server, now: int)
    requires ServerKinds(kind, s)
    ensures ServerKinds(kind, OnPrepareQuorum(s, now))
  {
    var v := Validate(s.cfg, s.store, s.round.current, s.acc.promisedNum, now);
    ValidateKinds(s.cfg, kind, s.store, s.round.current, s.acc.promisedNum, now);
    RequestKinds(s.cfg, kind, v.kept);
    FinishKinds(kind, s.(store := v.store, answers := s.answers + v.answers, round := s.round.(awaitPrepare := false, current := v.kept)));
  }

  lemma AbortKinds(kind: KindOf, s: Server, flag: bool)
    requires ServerKinds(kind, s)
    ensures ServerKinds(kind, OnRoundAbort(s, flag))
  {
  }

  lemma PrepareReplyKinds(kind: KindOf, s: Server, o: Outcome<PrepareRes>, asked: Ballot, now: int)
    requires ServerKinds(kind, s)
    ensures ServerKinds(kind, PrepareVerdict(s, o, asked, now))
  {
    QuorumKinds(kind, s, now);
    AbortKinds(kind, s, true);
  }

  lemma AcceptReplyKinds(kind: KindOf, s: Server)
    requires ServerKinds(kind, s)
    ensures ServerKinds(kind, AcceptVerdict(s))
  {
    SettleKinds(s.cfg, kind, s.store, s.round.current, s.acc.acceptNum);
    FinishKinds(kind, s.(store := SettleAll(s.store, s.round.current, s.acc.acceptNum), answers := s.answers + Replies(s.round.current, true),
                         round := s.round.(awaitAccept := false), out := s.out + [CommitMsg(s.acc.acceptNum)]));
    AbortKinds(kind, s, false);
  }

  lemma SyncReplyKinds(kind: KindOf, s: Server, o: Outcome<SyncRes>)
    requires ServerKinds(kind, s) && KindEvent(s.cfg, kind, SyncAnswer(o)) && Sane(SyncAnswer(o))
    ensures ServerKinds(kind, SyncReply(s, o))
  {
    if o.Replied? && o.res.ack {
      SyncKinds(s.cfg, kind, s.store, o.res.logs);
    }
  }

  lemma EnqueueKinds(kind: KindOf, s: Server, call: int, req: TransferReq, cross: bool)
    requires ServerKinds(kind, s) && KindEvent(s.cfg, kind, Client(call, req, cross))
    ensures ServerKinds(kind, Enqueue(s, call, req, cross))
  {
    if !s.disconnected {
      StartKinds(kind, s.(round := s.round.(pending := s.round.pending + [Item(req, call, cross)])));
    }
  }

  lemma RestartKinds(kind: KindOf, s: Server)
    requires ServerKinds(kind, s)
    ensures ServerKinds(kind, Restart(s))
  {
    forall e | e in ReadBack(s.store.log) ensures e.kind == kind(e.tid) {
      ReadBackHolds(s.store.log, e);
    }
    forall t | t in Reopened(s.store.log) ensures Reopened(s.store.log)[t].tid == t && Reopened(s.store.log)[t].kind.Cross? && kind(t).Cross? {
      ReopenedIsPrepared(s.store.log, t);
    }
  }

  lemma StepKinds(kind: KindOf, s: Server, ev: Event)
    requires ServerKinds(kind, s) && KindEvent(s.cfg, kind, ev) && Sane(ev)
    ensures ServerKinds(kind, Step(s, ev))
  {
    match ev
    case Client(call, req, cross) => EnqueueKinds(kind, s, call, req, cross);
    case OnPrepare(b, i) =>
    case OnAccept(b, batch, at) => AcceptKinds(s.cfg, kind, s.store, batch, b, at);
    case OnCommit(b) => CommitAllKinds(s.cfg, kind, s.store, s.acc.acceptBatch, s.acc.acceptNum);
    case OnSync(last) =>
    case PrepareAnswer(o, asked, at) => PrepareReplyKinds(kind, CountPrepare(s, o, asked), o, asked, at);
    case AcceptAnswer(o, asked) => AcceptReplyKinds(kind, CountAccept(s, o, asked));
    case SyncAnswer(o) => SyncReplyKinds(kind, s, o);
    case Decided(tid, commit) => DecideKinds(s.cfg, kind, s.store, tid, commit);
    case Expired(tid) => DecideKinds(s.cfg, kind, s.store, tid, false);
    case Disconnect(on) =>
    case Crash => RestartKinds(kind, s);
  }

  /** No transaction id has records of both kinds, so no sync touches a prepare. */
  lemma OneKindUntouched(kind: KindOf, st: Store, recs: seq<Rec>, base: nat)
    requires Mirrors(st, recs, base) && LogKinds(kind, st.log)
    ensures NoneTouched(recs, base)
  {
    forall t, i: nat | LatestIsPrepare(recs, t, i) ensures Untouched(recs, base, t, i) {
      assert st.log[i] == Appended(recs[i]) && st.log[i] in st.log;
      forall j | i < j < |recs| && base <= j && recs[j].tid == t ensures recs[j].op != IsCommit {
        assert st.log[j] == Appended(recs[j]) && st.log[j] in st.log;
      }
    }
  }

  /** So a restart finds the open prepares as they were. */
  lemma RestartKeepsIndex(kind: KindOf, s: Server)
    requires ServerKinds(kind, s) && Recorded(s.store)
    ensures Restart(s).store.open == s.store.open && Restart(s).store.log == s.store.log
  {
    var recs, base :| Mirrors(s.store, recs, base);
    OneKindUntouched(kind, s.store, recs, base);
    RestartKeepsOpen(s, recs, base);
  }

  // ---------------------------------------------------------------- a cluster

  /** Every batch proposed and every entry in a sync reply keeps to the kinds. */
  ghost predicate NetKinds(cfg: Config, kind: KindOf, net: set<Message>) {
    && (forall b, batch :: AcceptMsg(b, batch) in net ==> BatchKinds(cfg, kind, batch))
    && (forall res :: SyncReplyMsg(res) in net ==> LogKinds(kind, res.logs))
  }

  predicate SameCluster(cfg: Config, other: Config) {
    cfg.clusterId == other.clusterId && cfg.numClusters == other.numClusters
  }

  ghost predicate ClusterKinds(cfg: Config, kind: KindOf, c: Ballots.Cluster) {
    && NetKinds(cfg, kind, c.net) && AllRecorded(c)
    && forall i :: i in c.nodes ==> SameCluster(cfg, c.nodes[i].cfg) && ServerKinds(kind, c.nodes[i])
  }

  lemma SameSuits(cfg: Config, other: Config, kind: KindOf, r: TransferReq)
    requires SameCluster(cfg, other)
    ensures Suits(cfg, kind, r) == Suits(other, kind, r)
  {
  }

  lemma SameBatchKinds(cfg: Config, other: Config, kind: KindOf, batch: seq<TransferReq>)
    requires SameCluster(cfg, other)
    ensures BatchKinds(cfg, kind, batch) == BatchKinds(other, kind, batch)
  {
    forall r | r in batch ensures Suits(cfg, kind, r) == Suits(other, kind, r) {
      SameSuits(cfg, other, kind, r);
    }
  }

  /** Proposals are sent when a prepare quorum is reached, with what is left of the batch. */
  lemma NewProposals(kind: KindOf, s: Server, ev: Event, b: Ballot, batch: seq<TransferReq>)
    requires ServerKinds(kind, s) && AcceptMsg(b, batch) in Step(s, ev).out && AcceptMsg(b, batch) !in s.out
    ensures BatchKinds(s.cfg, kind, batch)
  {
    SendsOnly(s, ev, AcceptMsg(b, batch));
    VerdictProposals(kind, CountPrepare(s, ev.pout, ev.asked), ev.pout, ev.asked, ev.at, b, batch);
  }

  lemma VerdictProposals(kind: KindOf, s: Server, o: Outcome<PrepareRes>, asked: Ballot, now: int, b: Ballot, batch: seq<TransferReq>)
    requires ServerKinds(kind, s) && AcceptMsg(b, batch) in PrepareVerdict(s, o, asked, now).out && AcceptMsg(b, batch) !in s.out
    ensures BatchKinds(s.cfg, kind, batch)
  {
    var v := Validate(s.cfg, s.store, s.round.current, s.acc.promisedNum, now);
    ValidateKinds(s.cfg, kind, s.store, s.round.current, s.acc.promisedNum, now);
    RequestKinds(s.cfg, kind, v.kept);
  }

  /** What clients ask for keeps to the kinds. */
  ghost predicate ClientKinds(cfg: Config, kind: KindOf, h: Ballots.Happening) {
    h.ev.Client? ==> KindEvent(cfg, kind, h.ev)
  }

  lemma EventKinds(cfg: Config, kind: KindOf, c: Ballots.Cluster, h: Ballots.Happening)
    requires ClusterKinds(cfg, kind, c) && Ballots.Possible(c, h) && ClientKinds(cfg, kind, h)
    ensures KindEvent(c.nodes[h.id].cfg, kind, h.ev) && Sane(h.ev)
  {
    var s := c.nodes[h.id];
    if h.ev.Client? {
      SameSuits(cfg, s.cfg, kind, h.ev.req);
    } else if h.ev.OnAccept? {
      SameBatchKinds(cfg, s.cfg, kind, h.ev.batch);
    }
  }

  lemma NextKinds(cfg: Config, kind: KindOf, c: Ballots.Cluster, h: Ballots.Happening)
    requires ClusterKinds(cfg, kind, c) && Ballots.Possible(c, h) && ClientKinds(cfg, kind, h)
    ensures ClusterKinds(cfg, kind, Ballots.Next(c, h))
  {
    var s, c' := c.nodes[h.id], Ballots.Next(c, h);
    EventKinds(cfg, kind, c, h);
    StepKinds(kind, s, h.ev);
    NextRecorded(c, h);
    StepKeepsConfig(s, h.ev);
    forall b, batch | AcceptMsg(b, batch) in c'.net ensures BatchKinds(cfg, kind, batch) {
      if AcceptMsg(b, batch) !in c.net {
        NewProposals(kind, s, h.ev, b, batch);
        SameBatchKinds(cfg, s.cfg, kind, batch);
      }
    }
    forall res | SyncReplyMsg(res) in c'.net ensures LogKinds(kind, res.logs) {
      if SyncReplyMsg(res) !in c.net {
        NewReplies(s, h.ev, SyncReplyMsg(res));
      }
    }
    forall i | i in c'.nodes ensures SameCluster(cfg, c'.nodes[i].cfg) && ServerKinds(kind, c'.nodes[i]) {
      if i != h.id {
        assert i in c.nodes && c'.nodes[i] == c.nodes[i];
      }
    }
  }

  lemma {:induction false} ClusterKeepsKinds(cfg: Config, kind: KindOf, cs: seq<Ballots.Cluster>, hs: seq<Ballots.Happening>, n: nat)
    requires Ballots.IsRun(cs, hs) && n < |cs| && (forall i :: i in cs[0].nodes ==> SameCluster(cfg, cs[0].nodes[i].cfg))
    requires forall k :: 0 <= k < |hs| ==> ClientKinds(cfg, kind, hs[k])
    ensures ClusterKinds(cfg, kind, cs[n])
  {
    if n == 0 {
      ClusterRecorded(cs, hs, 0);
    } else {
      ClusterKeepsKinds(cfg, kind, cs, hs, n - 1);
      assert Ballots.Possible(cs[n - 1], hs[n - 1]) && cs[n] == Ballots.Next(cs[n - 1], hs[n - 1]);
      NextKinds(cfg, kind, cs[n - 1], hs[n - 1]);
    }
  }

  /**
    In every run of a cluster, crashes and syncs included, in which clients use each id for one kind of
    transaction, every server that restarts finds its log and its open prepares as they were.
  */
  lemma IndexSurvives(cfg: Config, kind: KindOf, cs: seq<Ballots.Cluster>, hs: seq<Ballots.Happening>, n: nat, i: int)
    requires Ballots.IsRun(cs, hs) && n < |cs| && i in cs[n].nodes && (forall j :: j in cs[0].nodes ==> SameCluster(cfg, cs[0].nodes[j].cfg))
    requires forall k :: 0 <= k < |hs| ==> ClientKinds(cfg, kind, hs[k])
    ensures Restart(cs[n].nodes[i]).store.open == cs[n].nodes[i].store.open && Restart(cs[n].nodes[i]).store.log == cs[n].nodes[i].store.log
  {
    ClusterKeepsKinds(cfg, kind, cs, hs, n);
    RestartKeepsIndex(kind, cs[n].nodes[i]);
  }
}
