/**
  Nothing is committed without an accept quorum (src/server/server.cc: processAcceptCall,
  handleAcceptReply, onAcceptQuorum, processCommitCall): whatever a commit message, a log or a
  positive reply says, a server other than the proposer had taken over the batch before.
*/
module Accepts {
  import opened Protocol
  import opened ServerSpec
  import opened Calls
  import opened Ballots

  // ---------------------------------------------------------------- what is confirmed

  /** A server other than the issuer has accepted what was proposed under b. */
  ghost predicate Confirmed(net: set<Message>, b: Ballot) {
    exists j :: j != b.serverId && AcceptReplyMsg(j, b, true) in net
  }

  function BallotOf(e: LogEntry): Ballot {
    Ballot(e.ballotNum, e.ballotServerId)
  }

  predicate IsCommit(e: LogEntry) {
    e.kind.Intra? && e.status.Committed?
  }

  ghost predicate LogConfirmed(net: set<Message>, log: seq<LogEntry>) {
    forall e :: e in log && IsCommit(e) ==> Confirmed(net, BallotOf(e))
  }

  /** The transaction is in a batch that server i proposed and committed. */
  ghost predicate Told(net: set<Message>, i: int, t: Tid) {
    exists b: Ballot, batch, r: TransferReq :: b.serverId == i && CommitMsg(b) in net && AcceptMsg(b, batch) in net && r in batch && r.tid == t
  }

  ghost predicate AnswersConfirmed(net: set<Message>, i: int, answers: seq<Answer>) {
    forall a :: a in answers && a.ack ==> Told(net, i, a.tid)
  }

  ghost predicate NetConfirmed(net: set<Message>) {
    && (forall j, b, ack :: AcceptReplyMsg(j, b, ack) in net ==> j != b.serverId)
    && (forall b :: CommitMsg(b) in net ==> Proposed(net, b) && Confirmed(net, b))
    && (forall res :: SyncReplyMsg(res) in net ==> LogConfirmed(net, res.logs))
  }

  ghost predicate ServerConfirmed(net: set<Message>, s: Server) {
    LogConfirmed(net, s.store.log) && AnswersConfirmed(net, s.cfg.serverId, s.answers)
  }

  ghost predicate ClusterConfirmed(c: Cluster) {
    NetConfirmed(c.net) && forall i :: i in c.nodes ==> ServerConfirmed(c.net, c.nodes[i])
  }

  lemma MoreConfirmed(net: set<Message>, net': set<Message>, s: Server)
    requires net <= net' && ServerConfirmed(net, s)
    ensures ServerConfirmed(net', s)
  {
    forall e | e in s.store.log && IsCommit(e) ensures Confirmed(net', BallotOf(e)) {
      assert Confirmed(net, BallotOf(e));
    }
    forall a | a in s.answers && a.ack ensures Told(net', s.cfg.serverId, a.tid) {
      assert Told(net, s.cfg.serverId, a.tid);
    }
  }

  // ---------------------------------------------------------------- the log

  /** What commits log is tagged with a ballot that is confirmed. */
  lemma {:induction false} SettleConfirmed(net: set<Message>, st: Store, items: seq<Item>, b: Ballot)
    requires LogConfirmed(net, st.log) && Confirmed(net, b)
    ensures LogConfirmed(net, SettleAll(st, items, b).log)
  {
    if items != [] {
      SettleConfirmed(net, st, items[..|items| - 1], b);
    }
  }

  lemma {:induction false} CommitConfirmed(net: set<Message>, cfg: Config, st: Store, batch: seq<TransferReq>, b: Ballot)
    requires LogConfirmed(net, st.log) && Confirmed(net, b)
    ensures LogConfirmed(net, CommitAll(cfg, st, batch, b).log)
  {
    if batch != [] {
      CommitConfirmed(net, cfg, st, batch[..|batch| - 1], b);
    }
  }

  lemma {:induction false} AcceptConfirmed(net: set<Message>, cfg: Config, st: Store, batch: seq<TransferReq>, b: Ballot, now: int)
    requires LogConfirmed(net, st.log)
    ensures LogConfirmed(net, AcceptAll(cfg, st, batch, b, now).log)
  {
    if batch != [] {
      AcceptConfirmed(net, cfg, st, batch[..|batch| - 1], b, now);
    }
  }

  lemma {:induction false} ValidateConfirmed(net: set<Message>, cfg: Config, st: Store, items: seq<Item>, b: Ballot, now: int)
    requires LogConfirmed(net, st.log)
    ensures var v := Validate(cfg, st, items, b, now); LogConfirmed(net, v.store.log) && forall a :: a in v.answers ==> !a.ack
  {
    if items != [] {
      ValidateConfirmed(net, cfg, st, items[..|items| - 1], b, now);
    }
  }

  lemma {:induction false} SyncConfirmed(net: set<Message>, cfg: Config, st: Store, es: seq<LogEntry>)
    requires LogConfirmed(net, st.log) && LogConfirmed(net, es)
    ensures LogConfirmed(net, SyncEntries(cfg, st, es).log)
  {
    if es != [] {
      var front := es[..|es| - 1];
      assert forall x :: x in front ==> x in es;
      SyncConfirmed(net, cfg, st, front);
      assert es[|es| - 1] in es;
    }
  }

  // ---------------------------------------------------------------- the handlers

  /** A counted acceptance is about the own proposal, and comes from another server. */
  lemma CountedConfirms(net: set<Message>, ids: set<int>, s: Server, o: Outcome<(Ballot, bool)>, asked: Ballot)
    requires |ids| == 3 && Ready(net, ids, s) && NetConfirmed(net) && s.round.awaitAccept
    requires o.Replied? ==> exists from :: AcceptReplyMsg(from, o.res.0, o.res.1) in net
    requires CountAccept(s, o, asked).round.acceptSuccesses >= Majority
    ensures Confirmed(net, s.acc.acceptNum) && s.acc.acceptNum.serverId == s.cfg.serverId
    ensures AcceptMsg(s.acc.acceptNum, Requests(s.round.current)) in net
  {
    var from :| AcceptReplyMsg(from, o.res.0, o.res.1) in net;
    AcceptReplyIsOwn(net, ids, s, o.res.0);
  }

  /** A commit for the number of an accepted batch is a commit of that batch. */
  lemma CommitIsAccepted(net: set<Message>, ids: set<int>, s: Server, b: Ballot)
    requires |ids| == 3 && Ready(net, ids, s) && NetConfirmed(net) && CommitMsg(b) in net
    requires s.acc.acceptNum.num == b.num && s.acc.acceptBatch != []
    ensures Confirmed(net, s.acc.acceptNum)
  {
    OneQuorum(net, ids, b, s.acc.acceptNum);
  }

  lemma RepliesTold(net: set<Message>, i: int, items: seq<Item>, b: Ballot, answers: seq<Answer>)
    requires AnswersConfirmed(net, i, answers) && b.serverId == i && CommitMsg(b) in net && AcceptMsg(b, Requests(items)) in net
    ensures AnswersConfirmed(net, i, answers + Replies(items, true))
  {
    forall a | a in Replies(items, true) ensures Told(net, i, a.tid) {
      var k :| 0 <= k < |items| && Replies(items, true)[k] == a;
      assert Requests(items)[k] in Requests(items);
    }
  }

  lemma NoneTold(net: set<Message>, i: int, items: seq<Item>, answers: seq<Answer>)
    requires AnswersConfirmed(net, i, answers)
    ensures AnswersConfirmed(net, i, answers + Replies(items, false))
  {
  }

  lemma QuorumConfirmed(net: set<Message>, s: Server)
    requires ServerConfirmed(net, s) && Confirmed(net, s.acc.acceptNum) && s.acc.acceptNum.serverId == s.cfg.serverId
    requires AcceptMsg(s.acc.acceptNum, Requests(s.round.current)) in net
    ensures var s' := OnAcceptQuorum(s);
            && ServerConfirmed(net + Sent(s'.out), s') && CommitMsg(s.acc.acceptNum) in s'.out
            && forall m :: m in s'.out && m !in s.out ==> m.PrepareMsg? || m == CommitMsg(s.acc.acceptNum)
  {
    var b, m := s.acc.acceptNum, CommitMsg(s.acc.acceptNum);
    var s1 := s.(store := SettleAll(s.store, s.round.current, b), answers := s.answers + Replies(s.round.current, true),
                 round := s.round.(awaitAccept := false), out := s.out + [m]);
    FinishSame(s1);
    var s' := OnAcceptQuorum(s);
    assert m in s1.out && m in s'.out;
    SettleConfirmed(net, s.store, s.round.current, b);
    MoreConfirmed(net, net + Sent(s'.out), s.(store := s1.store));
    RepliesTold(net + Sent(s'.out), s.cfg.serverId, s.round.current, b, s.answers);
  }

  lemma AbortConfirmed(net: set<Message>, s: Server, preparePhase: bool)
    requires ServerConfirmed(net, s)
    ensures var s' := OnRoundAbort(s, preparePhase);
            ServerConfirmed(net, s') && forall m :: m in s'.out && m !in s.out ==> m.PrepareMsg?
  {
    var locks := if preparePhase then s.store.locks else ReleaseIntra(s.store.locks, s.round.current);
    FinishSame(s.(store := s.store.(locks := locks), answers := s.answers + Replies(s.round.current, false)));
    NoneTold(net, s.cfg.serverId, s.round.current, s.answers);
  }

  /** Messages that say nothing about acceptance. */
  predicate Silent(m: Message) {
    m.PrepareMsg? || m.PrepareReplyMsg? || m.AcceptMsg? || m.SyncMsg?
  }

  /** The step confirms what it sends and logs: where it sends commits, accept replies or logs these are confirmed. */
  ghost predicate Confirms(net: set<Message>, s: Server, s': Server) {
    && ServerConfirmed(net + Sent(s'.out), s')
    && forall m :: m in s'.out && m !in s.out ==>
         || Silent(m)
         || (m.AcceptReplyMsg? && m.from != m.ballot.serverId)
         || (m.CommitMsg? && Proposed(net, m.ballot) && Confirmed(net, m.ballot))
         || (m.SyncReplyMsg? && LogConfirmed(net, m.sres.logs))
  }

  /** A step that tells and logs nothing that needs confirming. */
  lemma QuietConfirms(net: set<Message>, s: Server, s': Server)
    requires ServerConfirmed(net, s') && forall m :: m in s'.out && m !in s.out ==> Silent(m)
    ensures Confirms(net, s, s')
  {
    MoreConfirmed(net, net + Sent(s'.out), s');
  }

  lemma AcceptReplyConfirms(net: set<Message>, ids: set<int>, s: Server, o: Outcome<(Ballot, bool)>, asked: Ballot)
    requires |ids| == 3 && Ready(net, ids, s) && NetConfirmed(net) && ServerConfirmed(net, s)
    requires o.Replied? ==> exists from :: AcceptReplyMsg(from, o.res.0, o.res.1) in net
    ensures Confirms(net, s, AcceptReply(s, o, asked))
  {
    var s1 := CountAccept(s, o, asked);
    if s.round.awaitAccept && s1.round.acceptSuccesses >= Majority {
      CountedConfirms(net, ids, s, o, asked);
      QuorumConfirmed(net, s1);
      assert Proposed(net, s.acc.acceptNum);
    } else {
      AbortConfirmed(net, s1, false);
      QuietConfirms(net, s, AcceptReply(s, o, asked));
    }
  }

  lemma PrepareQuorumConfirmed(net: set<Message>, s: Server, now: int)
    requires ServerConfirmed(net, s)
    ensures var s' := OnPrepareQuorum(s, now);
            ServerConfirmed(net, s') && forall m :: m in s'.out && m !in s.out ==> Silent(m)
  {
    var v := Validate(s.cfg, s.store, s.round.current, s.acc.promisedNum, now);
    ValidateConfirmed(net, s.cfg, s.store, s.round.current, s.acc.promisedNum, now);
    FinishSame(s.(store := v.store, answers := s.answers + v.answers, round := s.round.(awaitPrepare := false, current := v.kept)));
  }

  lemma VerdictConfirmed(net: set<Message>, s: Server, o: Outcome<PrepareRes>, asked: Ballot, now: int)
    requires ServerConfirmed(net, s)
    ensures var s' := PrepareVerdict(s, o, asked, now);
            ServerConfirmed(net, s') && forall m :: m in s'.out && m !in s.out ==> Silent(m)
  {
    PrepareQuorumConfirmed(net, s, now);
    AbortConfirmed(net, s, true);
  }

  lemma PrepareReplyConfirms(net: set<Message>, s: Server, o: Outcome<PrepareRes>, asked: Ballot, now: int)
    requires ServerConfirmed(net, s)
    ensures Confirms(net, s, PrepareReply(s, o, asked, now))
  {
    VerdictConfirmed(net, CountPrepare(s, o, asked), o, asked, now);
    QuietConfirms(net, s, PrepareReply(s, o, asked, now));
  }

  lemma SyncReplyConfirms(net: set<Message>, s: Server, o: Outcome<SyncRes>)
    requires ServerConfirmed(net, s) && (o.Replied? && o.res.ack ==> LogConfirmed(net, o.res.logs))
    ensures Confirms(net, s, SyncReply(s, o))
  {
    if o.Replied? && o.res.ack {
      SyncConfirmed(net, s.cfg, s.store, o.res.logs);
    }
    QuietConfirms(net, s, SyncReply(s, o));
  }

  lemma CommitCallConfirms(net: set<Message>, ids: set<int>, s: Server, b: Ballot)
    requires |ids| == 3 && Ready(net, ids, s) && NetConfirmed(net) && ServerConfirmed(net, s) && CommitMsg(b) in net
    ensures Confirms(net, s, CommitCall(s, b))
  {
    if s.acc.acceptNum.num == b.num && s.acc.acceptBatch != [] {
      CommitIsAccepted(net, ids, s, b);
      CommitConfirmed(net, s.cfg, s.store, s.acc.acceptBatch, s.acc.acceptNum);
    }
    QuietConfirms(net, s, CommitCall(s, b));
  }

  lemma AcceptCallConfirms(net: set<Message>, s: Server, b: Ballot, batch: seq<TransferReq>, now: int)
    requires ServerConfirmed(net, s) && b.serverId != s.cfg.serverId
    ensures Confirms(net, s, AcceptCall(s, b, batch, now))
  {
    AcceptConfirmed(net, s.cfg, s.store, batch, b, now);
    var s' := AcceptCall(s, b, batch, now);
    MoreConfirmed(net, net + Sent(s'.out), s');
  }

  lemma SyncCallConfirms(net: set<Message>, s: Server, last: int)
    requires ServerConfirmed(net, s)
    ensures Confirms(net, s, SyncCall(s, last))
  {
    assert forall e :: e in Tail(s.store.log, last + 1) ==> e in s.store.log;
    MoreConfirmed(net, net + Sent(SyncCall(s, last).out), SyncCall(s, last));
  }

  lemma DecideConfirms(net: set<Message>, s: Server, tid: Tid, commit: bool)
    requires ServerConfirmed(net, s) && StoreOk(net, s.store)
    ensures Confirms(net, s, s.(store := Decide(s.cfg, s.store, tid, commit)))
  {
    QuietConfirms(net, s, s.(store := Decide(s.cfg, s.store, tid, commit)));
  }

  lemma RestartConfirms(net: set<Message>, s: Server)
    requires ServerConfirmed(net, s)
    ensures Confirms(net, s, Restart(s))
  {
    forall e | e in ReadBack(s.store.log) ensures e in s.store.log {
      ReadBackHolds(s.store.log, e);
    }
    QuietConfirms(net, s, Restart(s));
  }

  lemma EnqueueConfirms(net: set<Message>, s: Server, call: int, req: TransferReq, cross: bool)
    requires ServerConfirmed(net, s)
    ensures Confirms(net, s, Enqueue(s, call, req, cross))
  {
    QuietConfirms(net, s, Enqueue(s, call, req, cross));
  }

  lemma StepConfirms(net: set<Message>, ids: set<int>, s: Server, ev: Event)
    requires |ids| == 3 && Ready(net, ids, s) && NetConfirmed(net) && ServerConfirmed(net, s) && Deliverable(net, s, ev)
    ensures Confirms(net, s, Step(s, ev))
  {
    match ev
    case Client(call, req, cross) => EnqueueConfirms(net, s, call, req, cross);
    case OnPrepare(b, i) => QuietConfirms(net, s, PrepareCall(s, b, i));
    case OnAccept(b, batch, at) => AcceptCallConfirms(net, s, b, batch, at);
    case OnCommit(b) => CommitCallConfirms(net, ids, s, b);
    case OnSync(last) => SyncCallConfirms(net, s, last);
    case PrepareAnswer(o, asked, at) => PrepareReplyConfirms(net, s, o, asked, at);
    case AcceptAnswer(o, asked) => AcceptReplyConfirms(net, ids, s, o, asked);
    case SyncAnswer(o) => SyncReplyConfirms(net, s, o);
    case Decided(tid, commit) => DecideConfirms(net, s, tid, commit);
    case Expired(tid) => DecideConfirms(net, s, tid, false);
    case Disconnect(on) => QuietConfirms(net, s, Step(s, ev));
    case Crash => RestartConfirms(net, s);
  }

  // ---------------------------------------------------------------- the cluster

  lemma NetStaysConfirmed(net: set<Message>, s: Server, s': Server)
    requires NetConfirmed(net) && Confirms(net, s, s') && Sent(s.out) <= net
    ensures NetConfirmed(net + Sent(s'.out))
  {
    var net' := net + Sent(s'.out);
    Grow(net, net');
    forall m | m in net' && m !in net ensures m in s'.out && m !in s.out {
    }
    forall b | CommitMsg(b) in net' ensures Proposed(net', b) && Confirmed(net', b) {
      assert Confirmed(net, b);
    }
    forall res | SyncReplyMsg(res) in net' ensures LogConfirmed(net', res.logs) {
      forall e | e in res.logs && IsCommit(e) ensures Confirmed(net', BallotOf(e)) {
        assert Confirmed(net, BallotOf(e));
      }
    }
  }

  lemma NextConfirmed(c: Cluster, h: Happening)
    requires ClusterOk(c) && ClusterConfirmed(c) && Possible(c, h)
    ensures ClusterConfirmed(Next(c, h))
  {
    var s, c' := c.nodes[h.id], Next(c, h);
    StepConfirms(c.net, c.nodes.Keys, s, h.ev);
    NetStaysConfirmed(c.net, s, Step(s, h.ev));
    forall i | i in c'.nodes ensures ServerConfirmed(c'.net, c'.nodes[i]) {
      if i != h.id {
        assert i in c.nodes && c'.nodes[i] == c.nodes[i];
        MoreConfirmed(c.net, c'.net, c.nodes[i]);
      }
    }
  }

  lemma {:induction false} RunsStayConfirmed(cs: seq<Cluster>, hs: seq<Happening>, n: nat)
    requires IsRun(cs, hs) && n < |cs|
    ensures ClusterConfirmed(cs[n])
  {
    if n == 0 {
      forall i | i in cs[0].nodes ensures ServerConfirmed(cs[0].net, cs[0].nodes[i]) {
        var init :| cs[0].nodes[i] == Init(cs[0].nodes[i].cfg, init);
      }
    } else {
      RunsStayConfirmed(cs, hs, n - 1);
      RunsStayOk(cs, hs, n - 1);
      assert Possible(cs[n - 1], hs[n - 1]) && cs[n] == Next(cs[n - 1], hs[n - 1]);
      NextConfirmed(cs[n - 1], hs[n - 1]);
    }
  }

  // ---------------------------------------------------------------- who accepted, and when

  /** In this step server j takes over the batch proposed under b, which is another's ballot. */
  ghost predicate TakesOver(c: Cluster, h: Happening, j: int, b: Ballot) {
    && h.id == j && j in c.nodes && j != b.serverId && h.ev.OnAccept? && h.ev.ballot == b && AcceptMsg(b, h.ev.batch) in c.net
    && var acc := Step(c.nodes[j], h.ev).acc; acc.accepted && acc.acceptNum == b && acc.acceptBatch == h.ev.batch
  }

  /** Some server other than the issuer of b has taken over its batch within the first n steps. */
  ghost predicate Accepted(cs: seq<Cluster>, hs: seq<Happening>, n: nat, b: Ballot) {
    exists k, j :: 0 <= k < n && k < |hs| && k < |cs| && TakesOver(cs[k], hs[k], j, b)
  }

  /** Acceptances are sent by the accept handler, and only where the batch is taken over. */
  lemma NewAcceptance(s: Server, ev: Event, j: int, b: Ballot)
    requires AcceptReplyMsg(j, b, true) in Step(s, ev).out && AcceptReplyMsg(j, b, true) !in s.out
    ensures ev.OnAccept? && ev.ballot == b && j == s.cfg.serverId
    ensures var acc := Step(s, ev).acc; acc.accepted && acc.acceptNum == b && acc.acceptBatch == ev.batch
  {
    SendsOnly(s, ev, AcceptReplyMsg(j, b, true));
  }

  lemma {:induction false} AcceptanceIsTakeover(cs: seq<Cluster>, hs: seq<Happening>, n: nat, j: int, b: Ballot)
    requires IsRun(cs, hs) && n < |cs| && AcceptReplyMsg(j, b, true) in cs[n].net
    ensures Accepted(cs, hs, n, b)
  {
    if n > 0 {
      var c, h := cs[n - 1], hs[n - 1];
      assert Possible(c, h) && cs[n] == Next(c, h);
      if AcceptReplyMsg(j, b, true) in c.net {
        AcceptanceIsTakeover(cs, hs, n - 1, j, b);
      } else {
        RunsStayOk(cs, hs, n - 1);
        NewAcceptance(c.nodes[h.id], h.ev, j, b);
        assert TakesOver(cs[n - 1], hs[n - 1], j, b);
      }
    }
  }

  lemma ConfirmedIsAccepted(cs: seq<Cluster>, hs: seq<Happening>, n: nat, b: Ballot)
    requires IsRun(cs, hs) && n < |cs| && Confirmed(cs[n].net, b)
    ensures Accepted(cs, hs, n, b)
  {
    var j :| j != b.serverId && AcceptReplyMsg(j, b, true) in cs[n].net;
    AcceptanceIsTakeover(cs, hs, n, j, b);
  }

  // ---------------------------------------------------------------- main results

  /** A commit message is sent only after a server other than its sender has taken over the batch: two of three hold it. */
  lemma CommitNeedsQuorum(cs: seq<Cluster>, hs: seq<Happening>, n: nat, b: Ballot)
    requires IsRun(cs, hs) && n < |cs| && CommitMsg(b) in cs[n].net
    ensures Proposed(cs[n].net, b) && Accepted(cs, hs, n, b)
  {
    RunsStayConfirmed(cs, hs, n);
    ConfirmedIsAccepted(cs, hs, n, b);
  }

  /** So is every intra-shard commit in any log at any time, own, taken over or synced. */
  lemma LoggedNeedsQuorum(cs: seq<Cluster>, hs: seq<Happening>, n: nat, i: int, e: LogEntry)
    requires IsRun(cs, hs) && n < |cs| && i in cs[n].nodes && e in cs[n].nodes[i].store.log && IsCommit(e)
    ensures Accepted(cs, hs, n, BallotOf(e))
  {
    RunsStayConfirmed(cs, hs, n);
    ConfirmedIsAccepted(cs, hs, n, BallotOf(e));
  }

  /** And every positive reply to a client is about a transaction of a batch that was proposed, accepted and committed. */
  lemma AnswerNeedsQuorum(cs: seq<Cluster>, hs: seq<Happening>, n: nat, i: int, a: Answer) returns (b: Ballot, batch: seq<TransferReq>, r: TransferReq)
    requires IsRun(cs, hs) && n < |cs| && i in cs[n].nodes && a in cs[n].nodes[i].answers && a.ack
    ensures b.serverId == i && AcceptMsg(b, batch) in cs[n].net && r in batch && r.tid == a.tid
    ensures CommitMsg(b) in cs[n].net && Accepted(cs, hs, n, b)
  {
    RunsStayConfirmed(cs, hs, n);
    RunsStayOk(cs, hs, n);
    assert ServerConfirmed(cs[n].net, cs[n].nodes[i]) && Told(cs[n].net, i, a.tid);
    b, batch, r :| b.serverId == i && CommitMsg(b) in cs[n].net && AcceptMsg(b, batch) in cs[n].net && r in batch && r.tid == a.tid;
    CommitNeedsQuorum(cs, hs, n, b);
  }
}
