/**
  One value per ballot in a three-server cluster
  (src/server/server.cc: reissuePrepareForCurrent to onAcceptQuorum, the peer calls
  and the reply handlers, persistBallotNum).

  Messages are never removed from the network, so a step may use a message late,
  repeatedly or never: delay, duplication and loss. Servers may crash and restart.
  The one hypothesis on a run is that no sync takes a server's ballot number below a vote it has given.
*/
module Ballots {
  import opened Protocol
  import opened ServerSpec
  import opened Calls
  import Sums

  function Sent(out: seq<Message>): set<Message> {
    set m | m in out
  }

  // ---------------------------------------------------------------- votes and proposals

  /** Server i stands behind ballot b: it issued it, or promised it to its issuer. */
  predicate IsVote(m: Message, i: int, b: Ballot) {
    || (m.PrepareMsg? && m.ballot == b && b.serverId == i)
    || (m.PrepareReplyMsg? && m.from == i && m.pres.ack && m.pres.ballot == b)
  }

  ghost predicate Voted(net: set<Message>, i: int, b: Ballot) {
    exists m :: m in net && IsVote(m, i, b)
  }

  ghost predicate Asked(net: set<Message>, b: Ballot) {
    exists p :: PrepareMsg(b, p) in net
  }

  ghost predicate Proposed(net: set<Message>, b: Ballot) {
    exists batch :: AcceptMsg(b, batch) in net
  }

  /** The issuer and at least one other server, hence a majority of three. */
  ghost predicate Quorum(net: set<Message>, b: Ballot) {
    Voted(net, b.serverId, b) && exists j :: j != b.serverId && Voted(net, j, b)
  }

  /** Request r is part of the batch proposed under b. */
  ghost predicate Backed(net: set<Message>, b: Ballot, r: TransferReq) {
    exists batch :: AcceptMsg(b, batch) in net && r in batch
  }

  ghost predicate EntryOk(net: set<Message>, e: LogEntry) {
    IsPaxosEntry(e) ==> Backed(net, Ballot(e.ballotNum, e.ballotServerId), TransferReq(e.tid, e.txn))
  }

  // ---------------------------------------------------------------- the network

  ghost predicate VotesOk(net: set<Message>, ids: set<int>) {
    && (forall i, b :: Voted(net, i, b) ==> i in ids && b.num >= 1)
    && (forall i, b, b' :: Voted(net, i, b) && Voted(net, i, b') && b.num == b'.num ==> b == b')
  }

  ghost predicate ProposalsOk(net: set<Message>) {
    && (forall b, x :: AcceptMsg(b, x) in net ==> Quorum(net, b))
    && (forall b, x, y :: AcceptMsg(b, x) in net && AcceptMsg(b, y) in net ==> x == y)
  }

  ghost predicate PrepareReplyOk(net: set<Message>, from: int, res: PrepareRes) {
    && from != res.ballot.serverId && Asked(net, res.ballot)
    && (res.latestBallotNum.Some? ==> res.latestBallotNum.value >= res.ballot.num)
  }

  ghost predicate RepliesOk(net: set<Message>) {
    && (forall f, res :: PrepareReplyMsg(f, res) in net ==> PrepareReplyOk(net, f, res))
    && (forall f, b, ack :: AcceptReplyMsg(f, b, ack) in net ==> Proposed(net, b))
    && (forall res :: SyncReplyMsg(res) in net ==> forall e :: e in res.logs ==> EntryOk(net, e))
  }

  ghost predicate NetOk(net: set<Message>, ids: set<int>) {
    VotesOk(net, ids) && ProposalsOk(net) && RepliesOk(net)
  }

  /** Two majorities of three servers share a voter, who votes once per number. */
  lemma OneQuorum(net: set<Message>, ids: set<int>, b: Ballot, b': Ballot)
    requires |ids| == 3 && VotesOk(net, ids) && Quorum(net, b) && Quorum(net, b') && b.num == b'.num
    ensures b == b'
  {
    var i, i' := b.serverId, b'.serverId;
    var j :| j != i && Voted(net, j, b);
    var j' :| j' != i' && Voted(net, j', b');
    if i != i' && i != j' && j != i' && j != j' {
      var four := {i, j, i', j'};
      assert four <= ids;
      Sums.SubsetSize(four, ids);
    }
  }

  // ---------------------------------------------------------------- growing networks

  lemma Grow(net: set<Message>, net': set<Message>)
    requires net <= net'
    ensures forall i, b :: Voted(net, i, b) ==> Voted(net', i, b)
    ensures forall b :: Asked(net, b) ==> Asked(net', b)
    ensures forall b :: Proposed(net, b) ==> Proposed(net', b)
    ensures forall b, r :: Backed(net, b, r) ==> Backed(net', b, r)
  {
  }

  lemma GrowQuorum(net: set<Message>, net': set<Message>, b: Ballot)
    requires net <= net' && Quorum(net, b)
    ensures Quorum(net', b)
  {
    Grow(net, net');
  }

  /** A vote for a number above all earlier votes of the same server. */
  ghost predicate NewVote(net: set<Message>, ids: set<int>, i: int, b: Ballot) {
    i in ids && b.num >= 1 && forall b' :: Voted(net, i, b') ==> b'.num < b.num
  }

  /** What the network needs of the next message. */
  ghost predicate Fit(net: set<Message>, ids: set<int>, m: Message) {
    match m
    case PrepareMsg(b, _) => NewVote(net, ids, b.serverId, b)
    case PrepareReplyMsg(f, res) => PrepareReplyOk(net, f, res) && (res.ack ==> NewVote(net, ids, f, res.ballot))
    case AcceptMsg(b, _) => Quorum(net, b) && !Proposed(net, b)
    case AcceptReplyMsg(_, b, _) => Proposed(net, b)
    case CommitMsg(_) => true
    case SyncMsg(_, _) => true
    case SyncReplyMsg(res) => forall e :: e in res.logs ==> EntryOk(net, e)
  }

  lemma VotedAdd(net: set<Message>, m: Message, i: int, b: Ballot)
    ensures Voted(net + {m}, i, b) <==> Voted(net, i, b) || IsVote(m, i, b)
  {
    if IsVote(m, i, b) {
      assert m in net + {m};
    }
    if Voted(net, i, b) {
      Grow(net, net + {m});
    }
  }

  lemma AddKeepsVotes(net: set<Message>, ids: set<int>, m: Message)
    requires NetOk(net, ids) && Fit(net, ids, m)
    ensures VotesOk(net + {m}, ids)
  {
    forall i, b ensures Voted(net + {m}, i, b) <==> Voted(net, i, b) || IsVote(m, i, b) {
      VotedAdd(net, m, i, b);
    }
  }

  lemma AddKeepsProposals(net: set<Message>, ids: set<int>, m: Message)
    requires NetOk(net, ids) && Fit(net, ids, m)
    ensures ProposalsOk(net + {m})
  {
    var net' := net + {m};
    forall b, x | AcceptMsg(b, x) in net' ensures Quorum(net', b) {
      GrowQuorum(net, net', b);
    }
  }

  lemma AddKeepsReplies(net: set<Message>, ids: set<int>, m: Message)
    requires NetOk(net, ids) && Fit(net, ids, m)
    ensures RepliesOk(net + {m})
  {
    Grow(net, net + {m});
  }

  lemma Add(net: set<Message>, ids: set<int>, m: Message)
    requires NetOk(net, ids) && Fit(net, ids, m)
    ensures NetOk(net + {m}, ids)
  {
    AddKeepsVotes(net, ids, m);
    AddKeepsProposals(net, ids, m);
    AddKeepsReplies(net, ids, m);
  }

  // ---------------------------------------------------------------- one server

  /** Messages that only server i can have written. */
  predicate Mine(m: Message, i: int) {
    match m
    case PrepareMsg(b, _) => b.serverId == i
    case PrepareReplyMsg(f, _) => f == i
    case AcceptMsg(b, _) => b.serverId == i
    case _ => true
  }

  ghost predicate StoreOk(net: set<Message>, st: Store) {
    && (forall e :: e in st.log ==> EntryOk(net, e))
    && (forall t :: t in st.open ==> st.open[t].kind.Cross?)
  }

  ghost predicate VotesBelow(net: set<Message>, i: int, n: int) {
    forall b :: Voted(net, i, b) ==> b.num <= n
  }

  ghost predicate AcceptorOk(net: set<Message>, i: int, acc: Acceptor) {
    && acc.ballotNum >= 0 && VotesBelow(net, i, acc.ballotNum)
    && (acc.promisedNum == NoBallot || Voted(net, i, acc.promisedNum))
    && (acc.acceptNum == NoBallot || Proposed(net, acc.acceptNum))
    && (acc.acceptBatch == [] || AcceptMsg(acc.acceptNum, acc.acceptBatch) in net)
  }

  ghost predicate ProposalsBelow(net: set<Message>, i: int, n: int) {
    forall b :: Proposed(net, b) && b.serverId == i ==> b.num < n
  }

  /** What holds while a round waits for prepare or accept replies. */
  ghost predicate WaitOk(net: set<Message>, i: int, acc: Acceptor, r: Round) {
    && (r.awaitPrepare ==> acc.ballotNum == acc.promisedNum.num && r.prepareSuccesses == 1 && ProposalsBelow(net, i, acc.ballotNum))
    && (r.awaitAccept ==> r.acceptSuccesses == 1 &&
                          (acc.acceptNum.serverId == i ==> AcceptMsg(acc.acceptNum, Requests(r.current)) in net))
  }

  ghost predicate OutOk(net: set<Message>, s: Server) {
    forall m :: m in s.out ==> m in net && Mine(m, s.cfg.serverId)
  }

  ghost predicate LocalOk(net: set<Message>, s: Server) {
    && OutOk(net, s)
    && StoreOk(net, s.store)
    && AcceptorOk(net, s.cfg.serverId, s.acc)
    && WaitOk(net, s.cfg.serverId, s.acc, s.round)
    && RoundOk(s)
  }

  /** A step of one server only adds its own messages, so what the others rely on stays. */
  lemma OthersUnaffected(net: set<Message>, out: seq<Message>, i: int, s: Server)
    requires LocalOk(net, s) && s.cfg.serverId != i
    requires forall m :: m in out ==> Mine(m, i)
    ensures LocalOk(net + Sent(out), s)
  {
    var net', k := net + Sent(out), s.cfg.serverId;
    Grow(net, net');
    forall b | Voted(net', k, b) ensures Voted(net, k, b) {
      var m :| m in net' && IsVote(m, k, b);
      assert m in net;
    }
    forall b | Proposed(net', b) && b.serverId == k ensures Proposed(net, b) {
      var x :| AcceptMsg(b, x) in net';
      assert AcceptMsg(b, x) in net;
    }
  }

  lemma StoreGrows(net: set<Message>, net': set<Message>, st: Store)
    requires net <= net' && StoreOk(net, st)
    ensures StoreOk(net', st)
  {
    Grow(net, net');
  }

  // ---------------------------------------------------------------- the log

  lemma LogPrepareOk(net: set<Message>, st: Store, r: TransferReq, b: Ballot, now: int)
    requires StoreOk(net, st) && Backed(net, b, r)
    ensures StoreOk(net, LogPrepare(st, r, b, now))
  {
    var e := EntryOf(r, b, Cross, Prepared);
    assert TransferReq(e.tid, e.txn) == r && Ballot(e.ballotNum, e.ballotServerId) == b;
  }

  lemma LogCommitOk(net: set<Message>, st: Store, r: TransferReq, b: Ballot)
    requires StoreOk(net, st) && Backed(net, b, r)
    ensures StoreOk(net, LogCommit(st, r, b))
  {
    var e := EntryOf(r, b, Intra, Committed);
    assert TransferReq(e.tid, e.txn) == r && Ballot(e.ballotNum, e.ballotServerId) == b;
  }

  lemma DecideOk(net: set<Message>, cfg: Config, st: Store, tid: Tid, commit: bool)
    requires StoreOk(net, st)
    ensures StoreOk(net, Decide(cfg, st, tid, commit))
  {
  }

  lemma {:induction false} SyncEntriesOk(net: set<Message>, cfg: Config, st: Store, es: seq<LogEntry>)
    requires StoreOk(net, st) && forall e :: e in es ==> EntryOk(net, e)
    ensures StoreOk(net, SyncEntries(cfg, st, es))
  {
    if es != [] {
      SyncEntriesOk(net, cfg, st, es[..|es| - 1]);
      assert es[|es| - 1] in es;
    }
  }

  lemma {:induction false} ValidateOk(net: set<Message>, cfg: Config, st: Store, items: seq<Item>, b: Ballot, now: int)
    requires StoreOk(net, st)
    requires forall it :: it in Validate(cfg, st, items, b, now).kept ==> Backed(net, b, it.req)
    ensures StoreOk(net, Validate(cfg, st, items, b, now).store)
  {
    if items != [] {
      var front, it := items[..|items| - 1], items[|items| - 1];
      var v, w := Validate(cfg, st, front, b, now), Validate(cfg, st, items, b, now);
      assert forall x :: x in v.kept ==> x in w.kept;
      ValidateOk(net, cfg, st, front, b, now);
      if !Blocked(cfg, v.store, it.req.txn) && it.cross {
        assert it in w.kept;
        LogPrepareOk(net, v.store.(locks := v.store.locks + InsideAccounts(cfg, it.req.txn)), it.req, b, now);
      }
    }
  }

  lemma {:induction false} SettleAllOk(net: set<Message>, st: Store, items: seq<Item>, b: Ballot)
    requires StoreOk(net, st) && forall it :: it in items ==> Backed(net, b, it.req)
    ensures StoreOk(net, SettleAll(st, items, b))
  {
    if items != [] {
      var front, it := items[..|items| - 1], items[|items| - 1];
      SettleAllOk(net, st, front, b);
      var st1 := SettleAll(st, front, b);
      assert it in items;
      LogCommitOk(net, st1.(locks := st1.locks - {it.req.txn.sender, it.req.txn.receiver}), it.req, b);
    }
  }

  lemma {:induction false} AcceptAllOk(net: set<Message>, cfg: Config, st: Store, batch: seq<TransferReq>, b: Ballot, now: int)
    requires StoreOk(net, st) && forall r :: r in batch ==> Backed(net, b, r)
    ensures StoreOk(net, AcceptAll(cfg, st, batch, b, now))
  {
    if batch != [] {
      var front, r := batch[..|batch| - 1], batch[|batch| - 1];
      AcceptAllOk(net, cfg, st, front, b, now);
      var st1 := AcceptAll(cfg, st, front, b, now);
      assert r in batch;
      LogPrepareOk(net, st1.(locks := st1.locks + InsideAccounts(cfg, r.txn)), r, b, now);
    }
  }

  lemma {:induction false} CommitAllOk(net: set<Message>, cfg: Config, st: Store, batch: seq<TransferReq>, b: Ballot)
    requires StoreOk(net, st) && forall r :: r in batch ==> Backed(net, b, r)
    ensures StoreOk(net, CommitAll(cfg, st, batch, b))
  {
    if batch != [] {
      var front, r := batch[..|batch| - 1], batch[|batch| - 1];
      CommitAllOk(net, cfg, st, front, b);
      var st1 := CommitAll(cfg, st, front, b);
      assert r in batch;
      LogCommitOk(net, st1.(locks := st1.locks - InsideAccounts(cfg, r.txn)), r, b);
    }
  }

  // ---------------------------------------------------------------- rounds

  /** Everything but what a waiting round relies on. */
  ghost predicate Core(net: set<Message>, ids: set<int>, s: Server) {
    && s.cfg.serverId in ids && NetOk(net, ids) && OutOk(net, s)
    && StoreOk(net, s.store) && AcceptorOk(net, s.cfg.serverId, s.acc)
  }

  ghost predicate Ready(net: set<Message>, ids: set<int>, s: Server) {
    Core(net, ids, s) && WaitOk(net, s.cfg.serverId, s.acc, s.round) && RoundOk(s)
  }

  /** A step from a network, with everything the server has sent by then. */
  ghost predicate Leads(net: set<Message>, ids: set<int>, s': Server) {
    Ready(net + Sent(s'.out), ids, s')
  }

  lemma AcceptorGrows(net: set<Message>, m: Message, i: int, acc: Acceptor)
    requires AcceptorOk(net, i, acc)
    requires forall b :: IsVote(m, i, b) ==> b.num <= acc.ballotNum
    ensures AcceptorOk(net + {m}, i, acc)
  {
    Grow(net, net + {m});
    forall b | Voted(net + {m}, i, b) ensures b.num <= acc.ballotNum {
      VotedAdd(net, m, i, b);
    }
  }

  /** Sending a message that is no vote and no proposal. */
  lemma CoreSends(net: set<Message>, ids: set<int>, s: Server, m: Message)
    requires Core(net, ids, s) && Fit(net, ids, m) && Mine(m, s.cfg.serverId)
    requires forall b :: IsVote(m, s.cfg.serverId, b) ==> b.num <= s.acc.ballotNum
    ensures Core(net + {m}, ids, s.(out := s.out + [m]))
  {
    Add(net, ids, m);
    StoreGrows(net, net + {m}, s.store);
    AcceptorGrows(net, m, s.cfg.serverId, s.acc);
  }

  lemma WaitGrows(net: set<Message>, m: Message, i: int, acc: Acceptor, r: Round)
    requires WaitOk(net, i, acc, r) && !m.AcceptMsg?
    ensures WaitOk(net + {m}, i, acc, r)
  {
    forall b | Proposed(net + {m}, b) ensures Proposed(net, b) {
      var x :| AcceptMsg(b, x) in net + {m};
      assert AcceptMsg(b, x) in net;
    }
  }

  /** Every ballot this server proposed under is one of its votes. */
  lemma ProposalsAreVotes(net: set<Message>, ids: set<int>, i: int, n: int)
    requires NetOk(net, ids) && VotesBelow(net, i, n)
    ensures ProposalsBelow(net, i, n + 1)
  {
    forall b | Proposed(net, b) && b.serverId == i ensures b.num < n + 1 {
      assert Quorum(net, b);
    }
  }

  lemma ReissueOk(net: set<Message>, ids: set<int>, s: Server)
    requires Core(net, ids, s) && s.round.running && s.round.current != []
    ensures Leads(net, ids, ReissuePrepare(s))
  {
    var i := s.cfg.serverId;
    var b := Ballot(s.acc.ballotNum + 1, i);
    var m := PrepareMsg(b, s.store.paxosIndex);
    var s' := ReissuePrepare(s);
    ProposalsAreVotes(net, ids, i, s.acc.ballotNum);
    CoreSends(net, ids, s.(acc := s.acc.(ballotNum := b.num)), m);
    assert IsVote(m, i, b) && Voted(net + {m}, i, b);
    WaitGrows(net, m, i, s'.acc, s'.round);
    assert net + Sent(s'.out) == net + {m};
  }

  lemma StartOk(net: set<Message>, ids: set<int>, s: Server)
    requires Ready(net, ids, s)
    ensures Leads(net, ids, MaybeStartRound(s))
  {
    if s.round.running || s.round.inSync || s.round.pending == [] {
      assert net + Sent(s.out) == net;
    } else {
      ReissueOk(net, ids, s.(round := s.round.(current := s.round.pending, pending := [], running := true)));
    }
  }

  lemma FinishOk(net: set<Message>, ids: set<int>, s: Server)
    requires Core(net, ids, s)
    ensures Leads(net, ids, FinishRound(s))
  {
    StartOk(net, ids, Ended(s));
  }

  /** The prepare quorum: propose the surviving items under the promised ballot. */
  lemma PrepareQuorumOk(net: set<Message>, ids: set<int>, s: Server, now: int)
    requires Core(net, ids, s) && s.round.running
    requires Quorum(net, s.acc.promisedNum) && s.acc.promisedNum.serverId == s.cfg.serverId
    requires ProposalsBelow(net, s.cfg.serverId, s.acc.promisedNum.num)
    ensures Leads(net, ids, OnPrepareQuorum(s, now))
  {
    var p := s.acc.promisedNum;
    var v := Validate(s.cfg, s.store, s.round.current, p, now);
    if v.kept == [] {
      ValidateOk(net, s.cfg, s.store, s.round.current, p, now);
      FinishOk(net, ids, s.(store := v.store, answers := s.answers + v.answers,
                            round := s.round.(awaitPrepare := false, current := v.kept)));
    } else {
      ProposeOk(net, ids, s, now);
    }
  }

  lemma ProposeOk(net: set<Message>, ids: set<int>, s: Server, now: int)
    requires Core(net, ids, s) && s.round.running
    requires Quorum(net, s.acc.promisedNum) && s.acc.promisedNum.serverId == s.cfg.serverId
    requires ProposalsBelow(net, s.cfg.serverId, s.acc.promisedNum.num)
    requires Validate(s.cfg, s.store, s.round.current, s.acc.promisedNum, now).kept != []
    ensures Leads(net, ids, OnPrepareQuorum(s, now))
  {
    var p := s.acc.promisedNum;
    var v := Validate(s.cfg, s.store, s.round.current, p, now);
    var m := AcceptMsg(p, Requests(v.kept));
    var s' := OnPrepareQuorum(s, now);
    CoreSends(net, ids, s, m);
    assert m in net + {m} && Proposed(net + {m}, p);
    KeptBacked(net + {m}, p, v.kept);
    ValidateOk(net + {m}, s.cfg, s.store, s.round.current, p, now);
    assert net + Sent(s'.out) == net + {m};
  }

  lemma KeptBacked(net: set<Message>, b: Ballot, items: seq<Item>)
    requires AcceptMsg(b, Requests(items)) in net
    ensures forall it :: it in items ==> Backed(net, b, it.req)
  {
    forall it | it in items ensures Backed(net, b, it.req) {
      var k :| 0 <= k < |items| && items[k] == it;
      assert Requests(items)[k] == it.req;
    }
  }

  /** The accept quorum: commit the batch that was proposed. */
  lemma AcceptQuorumOk(net: set<Message>, ids: set<int>, s: Server)
    requires Core(net, ids, s) && AcceptMsg(s.acc.acceptNum, Requests(s.round.current)) in net
    ensures Leads(net, ids, OnAcceptQuorum(s))
  {
    var m := CommitMsg(s.acc.acceptNum);
    var s1 := s.(store := SettleAll(s.store, s.round.current, s.acc.acceptNum),
                 answers := s.answers + Replies(s.round.current, true),
                 round := s.round.(awaitAccept := false),
                 out := s.out + [m]);
    KeptBacked(net, s.acc.acceptNum, s.round.current);
    SettleAllOk(net, s.store, s.round.current, s.acc.acceptNum);
    CoreSends(net, ids, s.(store := s1.store), m);
    FinishOk(net + {m}, ids, s1);
    assert m in FinishRound(s1).out;
    assert net + {m} + Sent(FinishRound(s1).out) == net + Sent(FinishRound(s1).out);
  }

  lemma AbortOk(net: set<Message>, ids: set<int>, s: Server, preparePhase: bool)
    requires Core(net, ids, s)
    ensures Leads(net, ids, OnRoundAbort(s, preparePhase))
  {
    var locks := if preparePhase then s.store.locks else ReleaseIntra(s.store.locks, s.round.current);
    FinishOk(net, ids, s.(store := s.store.(locks := locks), answers := s.answers + Replies(s.round.current, false)));
  }

  // ---------------------------------------------------------------- calls from peers

  /** Sending a message that is neither vote nor proposal, with the acceptor and the round as they were. */
  lemma QuietSend(net: set<Message>, ids: set<int>, s: Server, m: Message)
    requires Ready(net, ids, s) && Fit(net, ids, m) && Mine(m, s.cfg.serverId) && !m.AcceptMsg?
    requires forall b :: !IsVote(m, s.cfg.serverId, b)
    ensures Leads(net, ids, Respond(s, m))
    ensures Ready(net + {m}, ids, Respond(s, m))
  {
    CoreSends(net, ids, s, m);
    WaitGrows(net, m, s.cfg.serverId, s.acc, s.round);
    assert net + Sent(Respond(s, m).out) == net + {m};
  }

  /** The promise to another server's ballot. */
  lemma PromiseOk(net: set<Message>, ids: set<int>, s: Server, b: Ballot, res: PrepareRes)
    requires Ready(net, ids, s) && Asked(net, b) && b.serverId != s.cfg.serverId && b.num > s.acc.ballotNum
    requires res.ack && res.ballot == b && res.latestBallotNum.None?
    ensures Leads(net, ids, Respond(s.(acc := s.acc.(promised := true, promisedNum := b, ballotNum := b.num)),
                                    PrepareReplyMsg(s.cfg.serverId, res)))
  {
    var i, m := s.cfg.serverId, PrepareReplyMsg(s.cfg.serverId, res);
    var s1 := s.(acc := s.acc.(promised := true, promisedNum := b, ballotNum := b.num));
    CoreSends(net, ids, s.(acc := s.acc.(ballotNum := b.num)), m);
    assert IsVote(m, i, b) && Voted(net + {m}, i, b);
    WaitGrows(net, m, i, s1.acc, s1.round);
    assert net + Sent(Respond(s1, m).out) == net + {m};
  }

  /** A refusal, preceded by a request to catch up when this server is behind. */
  lemma RefuseOk(net: set<Message>, ids: set<int>, s: Server, b: Ballot, res: PrepareRes, behind: bool)
    requires Ready(net, ids, s) && Asked(net, b) && b.serverId != s.cfg.serverId
    requires !res.ack && res.ballot == b && (res.latestBallotNum.Some? ==> res.latestBallotNum.value >= b.num)
    ensures var s1 := if behind then s.(round := s.round.(inSync := true), out := s.out + [SyncMsg(b.serverId, s.store.lastInserted)])
                      else s;
            Leads(net, ids, Respond(s1, PrepareReplyMsg(s.cfg.serverId, res)))
  {
    var m := PrepareReplyMsg(s.cfg.serverId, res);
    if behind {
      var m0 := SyncMsg(b.serverId, s.store.lastInserted);
      var s1 := s.(round := s.round.(inSync := true), out := s.out + [m0]);
      QuietSend(net, ids, s.(round := s.round.(inSync := true)), m0);
      Grow(net, net + {m0});
      QuietSend(net + {m0}, ids, s1, m);
      assert net + {m0} + Sent(Respond(s1, m).out) == net + Sent(Respond(s1, m).out);
    } else {
      QuietSend(net, ids, s, m);
    }
  }

  lemma PrepareCallOk(net: set<Message>, ids: set<int>, s: Server, b: Ballot, index: int)
    requires Ready(net, ids, s) && PrepareMsg(b, index) in net && b.serverId != s.cfg.serverId
    ensures Leads(net, ids, PrepareCall(s, b, index))
  {
    assert Asked(net, b);
    if s.disconnected {
      RefuseOk(net, ids, s, b, PrepareRes(false, b, None, [], None, None, 0), false);
    } else if b.num > s.acc.ballotNum && index == s.store.paxosIndex {
      PromiseOk(net, ids, s, b, if s.acc.accepted then PrepareRes(true, b, Some(s.acc.acceptNum), s.acc.acceptBatch, None, None, 0)
                                else PrepareRes(true, b, None, [], None, None, 0));
    } else {
      RefuseOk(net, ids, s, b,
               PrepareRes(false, b, None, [],
                          if b.num <= s.acc.ballotNum then Some(s.acc.ballotNum) else None,
                          if index < s.store.paxosIndex then Some(s.store.paxosIndex) else None, s.cfg.serverId),
               b.num > s.acc.ballotNum && index > s.store.paxosIndex);
    }
  }

  /**
    An accept may come from a server whose ballot has the number of this server's own
    waiting ballot: only numbers are compared. Then that server holds the quorum.
  */
  lemma AcceptCallOk(net: set<Message>, ids: set<int>, s: Server, b: Ballot, batch: seq<TransferReq>, now: int)
    requires Ready(net, ids, s) && AcceptMsg(b, batch) in net && b.serverId != s.cfg.serverId
    ensures Leads(net, ids, AcceptCall(s, b, batch, now))
  {
    assert Proposed(net, b);
    if !s.disconnected && s.acc.promised && b.num == s.acc.promisedNum.num {
      assert forall r :: r in batch ==> Backed(net, b, r);
      AcceptAllOk(net, s.cfg, s.store, batch, b, now);
      QuietSend(net, ids, s.(acc := s.acc.(accepted := true, acceptNum := b, acceptBatch := batch),
                             store := AcceptAll(s.cfg, s.store, batch, b, now)),
                AcceptReplyMsg(s.cfg.serverId, b, true));
    } else {
      QuietSend(net, ids, s, AcceptReplyMsg(s.cfg.serverId, b, false));
    }
  }

  lemma CommitCallOk(net: set<Message>, ids: set<int>, s: Server, b: Ballot)
    requires Ready(net, ids, s)
    ensures Leads(net, ids, CommitCall(s, b))
  {
    assert forall r :: r in s.acc.acceptBatch ==> Backed(net, s.acc.acceptNum, r);
    CommitAllOk(net, s.cfg, s.store, s.acc.acceptBatch, s.acc.acceptNum);
    assert net + Sent(s.out) == net;
  }

  lemma SyncCallOk(net: set<Message>, ids: set<int>, s: Server, last: int)
    requires Ready(net, ids, s)
    ensures Leads(net, ids, SyncCall(s, last))
  {
    var res := if s.store.lastInserted > last then SyncRes(true, Tail(s.store.log, last + 1), s.store.lastBallot)
               else SyncRes(false, [], NoBallot);
    QuietSend(net, ids, s, SyncReplyMsg(res));
  }

  // ---------------------------------------------------------------- replies from peers

  /** A counted positive reply comes from a second voter for the ballot being prepared. */
  lemma ReplyMakesQuorum(net: set<Message>, ids: set<int>, s: Server, from: int, res: PrepareRes)
    requires Ready(net, ids, s) && PrepareReplyMsg(from, res) in net && res.ack
    requires res.ballot.num == s.acc.promisedNum.num && res.ballot.serverId == s.cfg.serverId
    ensures s.acc.promisedNum == res.ballot && Quorum(net, res.ballot)
  {
    var i, b, m := s.cfg.serverId, res.ballot, PrepareReplyMsg(from, res);
    assert PrepareReplyOk(net, from, res);
    var p :| PrepareMsg(b, p) in net;
    assert IsVote(PrepareMsg(b, p), i, b);
    assert IsVote(m, from, b);
    assert Voted(net, i, b) && Voted(net, from, b);
  }

  /** The event that makes a server the owner of a ballot number. */
  predicate Wins(s: Server, o: Outcome<PrepareRes>, asked: Ballot) {
    && s.round.awaitPrepare && o.Replied? && PrepareMatches(s, o, asked) && o.res.ack
    && o.res.latestBallotNum.None? && !(o.res.paxosIndex.Some? && o.res.paxosIndex.value > s.store.paxosIndex)
  }

  /** It is exactly the reply that takes the handler into onPrepareQuorum; every other one retries, syncs, gives up or waits. */
  lemma WinsIsQuorum(net: set<Message>, s: Server, o: Outcome<PrepareRes>, asked: Ballot, now: int)
    requires WaitOk(net, s.cfg.serverId, s.acc, s.round) && s.round.awaitPrepare
    ensures var s1, s' := CountPrepare(s, o, asked), PrepareReply(s, o, asked, now);
            if Wins(s, o, asked) then s' == OnPrepareQuorum(s1, now)
            else
              || (o.Replied? && o.res.latestBallotNum.Some? && s' == ReissuePrepare(s1.(acc := s1.acc.(ballotNum := o.res.latestBallotNum.value))))
              || (o.Replied? && s' == s1.(round := s1.round.(inSync := true, awaitPrepare := false), out := s1.out + [SyncMsg(o.res.serverId, s1.store.lastInserted)]))
              || s' == OnRoundAbort(s1, true) || s' == s1
  {
  }

  lemma PrepareReplyOkStep(net: set<Message>, ids: set<int>, s: Server, o: Outcome<PrepareRes>, asked: Ballot, now: int)
    requires Ready(net, ids, s)
    requires o.Replied? ==> exists from :: PrepareReplyMsg(from, o.res) in net
    ensures Leads(net, ids, PrepareReply(s, o, asked, now))
    ensures Wins(s, o, asked) ==> s.acc.promisedNum.serverId == s.cfg.serverId && Quorum(net, s.acc.promisedNum)
  {
    assert net + Sent(s.out) == net;
    if s.round.awaitPrepare {
      var s1 := CountPrepare(s, o, asked);
      assert Core(net, ids, s1) && RoundOk(s1);
      if o.Replied? && PrepareMatches(s, o, asked) {
        var from :| PrepareReplyMsg(from, o.res) in net;
        assert PrepareReplyOk(net, from, o.res);
        if o.res.ack {
          ReplyMakesQuorum(net, ids, s, from, o.res);
        }
      }
      PrepareVerdictOk(net, ids, s1, o, asked, now);
    }
  }

  lemma PrepareVerdictOk(net: set<Message>, ids: set<int>, s: Server, o: Outcome<PrepareRes>, asked: Ballot, now: int)
    requires Core(net, ids, s) && RoundOk(s) && s.round.awaitPrepare && WaitOk(net, s.cfg.serverId, s.acc, s.round.(prepareSuccesses := 1))
    requires s.round.prepareSuccesses >= Majority ==> s.acc.promisedNum.serverId == s.cfg.serverId && Quorum(net, s.acc.promisedNum)
    requires s.round.prepareSuccesses < Majority ==> s.round.prepareSuccesses == 1
    requires o.Replied? && PrepareMatches(s, o, asked) && o.res.latestBallotNum.Some? ==> o.res.latestBallotNum.value >= s.acc.ballotNum
    ensures Leads(net, ids, PrepareVerdict(s, o, asked, now))
  {
    assert net + Sent(s.out) == net;
    if o.Replied? && PrepareMatches(s, o, asked) && o.res.latestBallotNum.Some? {
      ReissueOk(net, ids, s.(acc := s.acc.(ballotNum := o.res.latestBallotNum.value)));
    } else if o.Replied? && PrepareMatches(s, o, asked) && o.res.paxosIndex.Some? && o.res.paxosIndex.value > s.store.paxosIndex {
      QuietSend(net, ids, s.(round := s.round.(inSync := true, awaitPrepare := false)), SyncMsg(o.res.serverId, s.store.lastInserted));
    } else if s.round.prepareSuccesses >= Majority {
      PrepareQuorumOk(net, ids, s, now);
    } else if s.round.prepareFailures >= Majority {
      AbortOk(net, ids, s, true);
    }
  }

  /** An accept reply that matches is about the server's own proposal. */
  lemma AcceptReplyIsOwn(net: set<Message>, ids: set<int>, s: Server, b: Ballot)
    requires |ids| == 3 && Ready(net, ids, s) && Proposed(net, b)
    requires b.num == s.acc.acceptNum.num && b.serverId == s.cfg.serverId
    ensures s.acc.acceptNum == b
  {
    var x :| AcceptMsg(b, x) in net;
    assert Quorum(net, b);
    if s.acc.acceptNum != NoBallot {
      var y :| AcceptMsg(s.acc.acceptNum, y) in net;
      assert Quorum(net, s.acc.acceptNum);
      OneQuorum(net, ids, b, s.acc.acceptNum);
    }
  }

  lemma AcceptReplyOkStep(net: set<Message>, ids: set<int>, s: Server, o: Outcome<(Ballot, bool)>, asked: Ballot)
    requires |ids| == 3 && Ready(net, ids, s)
    requires o.Replied? ==> exists from :: AcceptReplyMsg(from, o.res.0, o.res.1) in net
    ensures Leads(net, ids, AcceptReply(s, o, asked))
  {
    assert net + Sent(s.out) == net;
    if s.round.awaitAccept {
      var s1 := CountAccept(s, o, asked);
      if s1.round.acceptSuccesses >= Majority {
        var from :| AcceptReplyMsg(from, o.res.0, o.res.1) in net;
        AcceptReplyIsOwn(net, ids, s, o.res.0);
        AcceptQuorumOk(net, ids, s1);
      } else if s1.round.acceptFailures >= Majority {
        AbortOk(net, ids, s1, false);
      }
    }
  }

  /** The ballot number that a sync brings is not below a vote of the server. */
  ghost predicate Covers(net: set<Message>, s: Server, res: SyncRes) {
    res.lastBallot.num >= 0 && VotesBelow(net, s.cfg.serverId, res.lastBallot.num)
  }

  lemma SyncReplyOkStep(net: set<Message>, ids: set<int>, s: Server, o: Outcome<SyncRes>)
    requires Ready(net, ids, s)
    requires o.Replied? ==> SyncReplyMsg(o.res) in net
    requires o.Replied? && o.res.ack ==> Covers(net, s, o.res)
    ensures Leads(net, ids, SyncReply(s, o))
  {
    var s1 := if o.Replied? && o.res.ack then Absorb(s, o.res) else s;
    if o.Replied? && o.res.ack {
      SyncEntriesOk(net, s.cfg, s.store, o.res.logs);
    }
    var s2 := s1.(round := s1.round.(inSync := false));
    if s2.round.current != [] {
      ReissueOk(net, ids, s2);
    } else {
      StartOk(net, ids, s2);
    }
  }

  // ---------------------------------------------------------------- the cluster

  datatype Cluster = Cluster(nodes: map<int, Server>, net: set<Message>)

  datatype Happening = At(id: int, ev: Event)

  /** Three fresh servers and nothing sent. */
  ghost predicate Initial(c: Cluster) {
    && |c.nodes.Keys| == 3 && c.net == {}
    && forall i :: i in c.nodes ==> c.nodes[i].cfg.serverId == i && exists init :: c.nodes[i] == Init(c.nodes[i].cfg, init)
  }

  /**
    What may reach a server: calls and replies that were sent to it at some time, and
    anything at all from clients, coordinators, clocks and crashes. A sync must not take
    the ballot number below a vote.
  */
  ghost predicate Deliverable(net: set<Message>, s: Server, ev: Event) {
    match ev
    case OnPrepare(b, index) => PrepareMsg(b, index) in net && b.serverId != s.cfg.serverId
    case OnAccept(b, batch, _) => AcceptMsg(b, batch) in net && b.serverId != s.cfg.serverId
    case OnCommit(b) => CommitMsg(b) in net
    case PrepareAnswer(o, _, _) => o.Replied? ==> exists from :: PrepareReplyMsg(from, o.res) in net
    case AcceptAnswer(o, _) => o.Replied? ==> exists from :: AcceptReplyMsg(from, o.res.0, o.res.1) in net
    case SyncAnswer(o) => o.Replied? ==> SyncReplyMsg(o.res) in net && (o.res.ack ==> Covers(net, s, o.res))
    case _ => true
  }

  ghost predicate Possible(c: Cluster, h: Happening) {
    h.id in c.nodes && Deliverable(c.net, c.nodes[h.id], h.ev)
  }

  function Next(c: Cluster, h: Happening): Cluster
    requires h.id in c.nodes
  {
    var s' := Step(c.nodes[h.id], h.ev);
    Cluster(c.nodes[h.id := s'], c.net + Sent(s'.out))
  }

  ghost predicate IsRun(cs: seq<Cluster>, hs: seq<Happening>) {
    && |cs| == |hs| + 1 && Initial(cs[0])
    && forall k :: 0 <= k < |hs| ==> Possible(cs[k], hs[k]) && cs[k + 1] == Next(cs[k], hs[k])
  }

  ghost predicate ClusterOk(c: Cluster) {
    && |c.nodes.Keys| == 3 && NetOk(c.net, c.nodes.Keys)
    && forall i :: i in c.nodes ==> c.nodes[i].cfg.serverId == i && LocalOk(c.net, c.nodes[i])
  }

  lemma {:induction false} MaxBallotAbove(n: int, log: seq<LogEntry>)
    ensures MaxBallot(n, log) >= n
  {
    if log != [] {
      MaxBallotAbove(n, log[..|log| - 1]);
    }
  }

  lemma RestartOk(net: set<Message>, ids: set<int>, s: Server)
    requires Ready(net, ids, s)
    ensures Leads(net, ids, Restart(s))
  {
    MaxBallotAbove(s.acc.ballotNum, s.store.log);
    assert net + Sent(s.out) == net;
    forall e | e in ReadBack(s.store.log) ensures EntryOk(net, e) {
      ReadBackHolds(s.store.log, e);
    }
    forall t | t in Reopened(s.store.log) ensures Reopened(s.store.log)[t].kind.Cross? {
      ReopenedIsPrepared(s.store.log, t);
    }
  }

  lemma QueueOk(net: set<Message>, ids: set<int>, s: Server, call: int, req: TransferReq, cross: bool)
    requires Ready(net, ids, s)
    ensures Leads(net, ids, Enqueue(s, call, req, cross))
  {
    if s.disconnected {
      assert net + Sent(s.out) == net;
    } else {
      StartOk(net, ids, s.(round := s.round.(pending := s.round.pending + [Item(req, call, cross)])));
    }
  }

  lemma DecisionOk(net: set<Message>, ids: set<int>, s: Server, tid: Tid, commit: bool)
    requires Ready(net, ids, s)
    ensures Leads(net, ids, s.(store := Decide(s.cfg, s.store, tid, commit)))
  {
    DecideOk(net, s.cfg, s.store, tid, commit);
    assert net + Sent(s.out) == net;
  }

  lemma StepOk(net: set<Message>, ids: set<int>, s: Server, ev: Event)
    requires |ids| == 3 && Ready(net, ids, s) && Deliverable(net, s, ev)
    ensures Leads(net, ids, Step(s, ev))
  {
    assert net + Sent(s.out) == net;
    match ev
    case Client(call, req, cross) => QueueOk(net, ids, s, call, req, cross);
    case OnPrepare(b, i) => PrepareCallOk(net, ids, s, b, i);
    case OnAccept(b, batch, at) => AcceptCallOk(net, ids, s, b, batch, at);
    case OnCommit(b) => CommitCallOk(net, ids, s, b);
    case OnSync(last) => SyncCallOk(net, ids, s, last);
    case PrepareAnswer(o, asked, at) => PrepareReplyOkStep(net, ids, s, o, asked, at);
    case AcceptAnswer(o, asked) => AcceptReplyOkStep(net, ids, s, o, asked);
    case SyncAnswer(o) => SyncReplyOkStep(net, ids, s, o);
    case Decided(tid, commit) => DecisionOk(net, ids, s, tid, commit);
    case Expired(tid) => DecisionOk(net, ids, s, tid, false);
    case Disconnect(on) =>
    case Crash => RestartOk(net, ids, s);
  }

  lemma NextOk(c: Cluster, h: Happening)
    requires ClusterOk(c) && Possible(c, h)
    ensures ClusterOk(Next(c, h)) && Next(c, h).nodes.Keys == c.nodes.Keys
  {
    var s, s', ids := c.nodes[h.id], Step(c.nodes[h.id], h.ev), c.nodes.Keys;
    StepOk(c.net, ids, s, h.ev);
    StepKeepsConfig(s, h.ev);
    assert Next(c, h).nodes.Keys == ids;
    forall i | i in c.nodes && i != h.id ensures LocalOk(c.net + Sent(s'.out), c.nodes[i]) {
      OthersUnaffected(c.net, s'.out, h.id, c.nodes[i]);
    }
  }

  lemma InitialOk(c: Cluster)
    requires Initial(c)
    ensures ClusterOk(c)
  {
    forall i | i in c.nodes ensures LocalOk(c.net, c.nodes[i]) {
      var init :| c.nodes[i] == Init(c.nodes[i].cfg, init);
    }
  }

  lemma {:induction false} RunsStayOk(cs: seq<Cluster>, hs: seq<Happening>, n: nat)
    requires IsRun(cs, hs) && n < |cs|
    ensures ClusterOk(cs[n]) && cs[n].nodes.Keys == cs[0].nodes.Keys
  {
    if n == 0 {
      InitialOk(cs[0]);
    } else {
      RunsStayOk(cs, hs, n - 1);
      assert Possible(cs[n - 1], hs[n - 1]) && cs[n] == Next(cs[n - 1], hs[n - 1]);
      NextOk(cs[n - 1], hs[n - 1]);
    }
  }

  lemma {:induction false} NetGrows(cs: seq<Cluster>, hs: seq<Happening>, m: nat, n: nat)
    requires IsRun(cs, hs) && m <= n < |cs|
    ensures cs[m].net <= cs[n].net
  {
    if m < n {
      NetGrows(cs, hs, m, n - 1);
      assert cs[n - 1 + 1] == Next(cs[n - 1], hs[n - 1]);
    }
  }

  // ---------------------------------------------------------------- main results

  /** Under any ballot number at most one batch is ever proposed, by at most one server. */
  lemma OneProposal(cs: seq<Cluster>, hs: seq<Happening>, n: nat, b: Ballot, x: seq<TransferReq>, b': Ballot, x': seq<TransferReq>)
    requires IsRun(cs, hs) && n < |cs|
    requires AcceptMsg(b, x) in cs[n].net && AcceptMsg(b', x') in cs[n].net && b.num == b'.num
    ensures b == b' && x == x'
  {
    RunsStayOk(cs, hs, n);
    OneQuorum(cs[n].net, cs[n].nodes.Keys, b, b');
  }

  /**
    Every agreed entry in any log was proposed under the ballot it is tagged with, and
    lies in every batch ever proposed under that number: there is only one.
  */
  lemma OneValuePerBallot(cs: seq<Cluster>, hs: seq<Happening>, n: nat, i: int, e: LogEntry)
    requires IsRun(cs, hs) && n < |cs| && i in cs[n].nodes && e in cs[n].nodes[i].store.log && IsPaxosEntry(e)
    ensures Proposed(cs[n].net, Ballot(e.ballotNum, e.ballotServerId))
    ensures forall b, x :: AcceptMsg(b, x) in cs[n].net && b.num == e.ballotNum
                           ==> b.serverId == e.ballotServerId && TransferReq(e.tid, e.txn) in x
  {
    RunsStayOk(cs, hs, n);
    assert EntryOk(cs[n].net, e);
    var own := Ballot(e.ballotNum, e.ballotServerId);
    var y :| AcceptMsg(own, y) in cs[n].net && TransferReq(e.tid, e.txn) in y;
    forall b, x | AcceptMsg(b, x) in cs[n].net && b.num == e.ballotNum
      ensures b.serverId == e.ballotServerId && TransferReq(e.tid, e.txn) in x
    {
      OneProposal(cs, hs, n, own, y, b, x);
    }
  }

  lemma WinnerHasQuorum(cs: seq<Cluster>, hs: seq<Happening>, k: nat)
    requires IsRun(cs, hs) && k < |hs| && hs[k].ev.PrepareAnswer?
    requires Possible(cs[k], hs[k]) && Wins(cs[k].nodes[hs[k].id], hs[k].ev.pout, hs[k].ev.asked)
    ensures var p := cs[k].nodes[hs[k].id].acc.promisedNum; p.serverId == hs[k].id && Quorum(cs[k].net, p)
  {
    RunsStayOk(cs, hs, k);
    PrepareReplyOkStep(cs[k].net, cs[k].nodes.Keys, cs[k].nodes[hs[k].id], hs[k].ev.pout, hs[k].ev.asked, hs[k].ev.at);
  }

  /** At most one server ever reaches the prepare quorum for a ballot number, whenever it does. */
  lemma OneWinner(cs: seq<Cluster>, hs: seq<Happening>, k: nat, l: nat)
    requires IsRun(cs, hs) && k <= l < |hs| && hs[k].ev.PrepareAnswer? && hs[l].ev.PrepareAnswer?
    requires Possible(cs[k], hs[k]) && Wins(cs[k].nodes[hs[k].id], hs[k].ev.pout, hs[k].ev.asked)
    requires Possible(cs[l], hs[l]) && Wins(cs[l].nodes[hs[l].id], hs[l].ev.pout, hs[l].ev.asked)
    requires cs[k].nodes[hs[k].id].acc.promisedNum.num == cs[l].nodes[hs[l].id].acc.promisedNum.num
    ensures hs[k].id == hs[l].id
  {
    WinnerHasQuorum(cs, hs, k);
    WinnerHasQuorum(cs, hs, l);
    NetGrows(cs, hs, k, l);
    RunsStayOk(cs, hs, l);
    GrowQuorum(cs[k].net, cs[l].net, cs[k].nodes[hs[k].id].acc.promisedNum);
    OneQuorum(cs[l].net, cs[l].nodes.Keys, cs[k].nodes[hs[k].id].acc.promisedNum, cs[l].nodes[hs[l].id].acc.promisedNum);
  }

  // ---------------------------------------------------------------- the hypothesis

  /** Server i stands behind two ballots of one number. */
  ghost predicate TwoVotes(net: set<Message>, i: int) {
    exists b, b' :: Voted(net, i, b) && Voted(net, i, b') && b.num == b'.num && b != b'
  }

  /** The number that a sync reply leaves: the one reported by the peer, or the server's own. */
  function NumberLeft(s: Server, o: Outcome<SyncRes>): int {
    if o.Replied? && o.res.ack then o.res.lastBallot.num else s.acc.ballotNum
  }

  /** A round was paused or calls wait, so that a ballot is issued next. */
  predicate Reissues(s: Server) {
    s.round.current != [] || (!s.round.running && s.round.pending != [])
  }

  /**
    A vote of the server is above the number left, where a ballot issued next takes one
    more number, and is no vote for another.
  */
  ghost predicate BelowVote(net: set<Message>, s: Server, o: Outcome<SyncRes>) {
    exists v :: Voted(net, s.cfg.serverId, v) &&
      if Reissues(s) then v.num > NumberLeft(s, o) + 1 || (v.num == NumberLeft(s, o) + 1 && v.serverId != s.cfg.serverId)
      else v.num > NumberLeft(s, o)
  }

  /** What the handler of a sync reply sends: nothing, or a prepare for the number it then stands at. */
  lemma SyncSends(s: Server, o: Outcome<SyncRes>)
    ensures var s' := SyncReply(s, o);
            && s'.cfg == s.cfg && s'.disconnected == s.disconnected
            && s'.acc.ballotNum == NumberLeft(s, o) + (if Reissues(s) then 1 else 0)
            && s'.out == if Reissues(s) then s.out + [PrepareMsg(Ballot(s'.acc.ballotNum, s.cfg.serverId), s'.store.paxosIndex)] else s.out
  {
  }

  /** A connected server answers a prepare for its position with a promise exactly if the number is above its own. */
  lemma PrepareSends(s: Server, b: Ballot, index: int)
    requires !s.disconnected && b.serverId != s.cfg.serverId
    ensures var out := PrepareCall(s, b, index).out;
            && s.out <= out
            && (forall m, v :: m in out && m !in s.out && IsVote(m, s.cfg.serverId, v) ==> v == b && b.num > s.acc.ballotNum)
            && (b.num > s.acc.ballotNum && index == s.store.paxosIndex ==> exists m :: m in out && IsVote(m, s.cfg.serverId, b))
  {
    var s' := PrepareCall(s, b, index);
    assert s'.out[|s'.out| - 1] in s'.out;
    assert forall m :: m in s'.out ==> m in s.out || m.SyncMsg? || m == s'.out[|s'.out| - 1];
  }

  /** The network after the handler and one prepare call from another server. */
  function Later(net: set<Message>, s': Server, b: Ballot, index: int): set<Message> {
    net + Sent(s'.out) + Sent(PrepareCall(s', b, index).out)
  }

  /** Votes seen then: earlier ones, the ballot just issued, and the one promised. */
  lemma LaterVotes(net: set<Message>, ids: set<int>, s: Server, o: Outcome<SyncRes>, b: Ballot, index: int, v: Ballot)
    requires Ready(net, ids, s) && !s.disconnected && b.serverId != s.cfg.serverId
    requires Voted(Later(net, SyncReply(s, o), b, index), s.cfg.serverId, v)
    ensures var s' := SyncReply(s, o);
            || Voted(net, s.cfg.serverId, v)
            || (Reissues(s) && v == Ballot(s'.acc.ballotNum, s.cfg.serverId))
            || (v == b && b.num > s'.acc.ballotNum)
  {
    var s' := SyncReply(s, o);
    SyncSends(s, o);
    PrepareSends(s', b, index);
    var m :| m in Later(net, s', b, index) && IsVote(m, s.cfg.serverId, v);
    if m !in net {
      assert m !in s.out;
    }
  }

  /**
    The hypothesis is exactly what the votes need: after a sync some prepare call makes the
    server vote for two ballots of one number if and only if the number left by the sync is
    below a vote it has given, the ballot it may issue itself included.
  */
  lemma RevotesIffBelowVote(net: set<Message>, ids: set<int>, s: Server, o: Outcome<SyncRes>)
    requires Ready(net, ids, s) && !s.disconnected
    ensures (exists b: Ballot, index :: b.serverId != s.cfg.serverId && TwoVotes(Later(net, SyncReply(s, o), b, index), s.cfg.serverId))
            <==> BelowVote(net, s, o)
  {
    var i, s' := s.cfg.serverId, SyncReply(s, o);
    if b: Ballot, index :| b.serverId != i && TwoVotes(Later(net, s', b, index), i) {
      RevoteShows(net, ids, s, o, b, index);
    }
    if BelowVote(net, s, o) {
      BelowRevotes(net, ids, s, o);
    }
  }

  lemma RevoteShows(net: set<Message>, ids: set<int>, s: Server, o: Outcome<SyncRes>, b: Ballot, index: int)
    requires Ready(net, ids, s) && !s.disconnected && b.serverId != s.cfg.serverId
    requires TwoVotes(Later(net, SyncReply(s, o), b, index), s.cfg.serverId)
    ensures BelowVote(net, s, o)
  {
    var i, all := s.cfg.serverId, Later(net, SyncReply(s, o), b, index);
    var v, v' :| Voted(all, i, v) && Voted(all, i, v') && v.num == v'.num && v != v';
    SyncSends(s, o);
    LaterVotes(net, ids, s, o, b, index, v);
    LaterVotes(net, ids, s, o, b, index, v');
    assert !(Voted(net, i, v) && Voted(net, i, v'));
  }

  lemma BelowRevotes(net: set<Message>, ids: set<int>, s: Server, o: Outcome<SyncRes>)
    requires Ready(net, ids, s) && !s.disconnected && BelowVote(net, s, o)
    ensures exists b: Ballot, index :: b.serverId != s.cfg.serverId && TwoVotes(Later(net, SyncReply(s, o), b, index), s.cfg.serverId)
  {
    var i, s' := s.cfg.serverId, SyncReply(s, o);
    SyncSends(s, o);
    var v :| Voted(net, i, v) && (v.num > s'.acc.ballotNum || (Reissues(s) && v.num == s'.acc.ballotNum && v.serverId != i));
    var other := if v.serverId == i then i + 1 else 2 * i - v.serverId;
    var b, index := Ballot(v.num, other), s'.store.paxosIndex;
    assert other != i && other != v.serverId;
    var all := Later(net, s', b, index);
    PrepareSends(s', b, index);
    Grow(net, all);
    if v.num > s'.acc.ballotNum {
      var m :| m in PrepareCall(s', b, index).out && IsVote(m, i, b);
      assert m in all && Voted(all, i, b);
    } else {
      var own := Ballot(s'.acc.ballotNum, i);
      assert s'.out[|s'.out| - 1] in all && IsVote(s'.out[|s'.out| - 1], i, own);
      assert Voted(all, i, own);
    }
  }
}
