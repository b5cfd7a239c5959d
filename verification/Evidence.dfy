/**
  Prepared evidence for every commit across shards
  (src/client/client.cc: processTransactions, consumeReplies; src/server/server.cc:
  prepareTransaction, processTpcDecision, onPrepareQuorum, onAcceptQuorum, the sync handlers).
*/
module Evidence {
  import opened Protocol
  import opened ServerSpec
  import opened Calls

  // ---------------------------------------------------------------- logs

  predicate PreparedIn(log: seq<LogEntry>, tid: Tid) {
    exists e :: e in log && e.tid == tid && e.kind.Cross? && e.status.Prepared?
  }

  /** Every cross-shard commit in these entries was decided. */
  predicate Decreed(commits: set<Tid>, log: seq<LogEntry>) {
    forall e :: e in log && e.kind.Cross? && e.status.Committed? ==> e.tid in commits
  }

  ghost predicate Logged(commits: set<Tid>, st: Store) {
    Decreed(commits, st.log) && forall t :: t in st.open ==> st.open[t].tid == t
  }

  /** The log only grew, and soundly. */
  ghost predicate Extends(commits: set<Tid>, st: Store, st': Store) {
    st.log <= st'.log && (Logged(commits, st) ==> Logged(commits, st'))
  }

  lemma PreparedStays(log: seq<LogEntry>, log': seq<LogEntry>, tid: Tid)
    requires PreparesKept(log, log') && PreparedIn(log, tid)
    ensures PreparedIn(log', tid)
  {
  }

  /** No prepare is lost: a log grows, or is read back after a crash. */
  ghost predicate PreparesKept(log: seq<LogEntry>, log': seq<LogEntry>) {
    forall e :: e in log && e.kind.Cross? && e.status.Prepared? ==> e in log'
  }

  lemma GrownKeeps(log: seq<LogEntry>, log': seq<LogEntry>)
    requires log <= log'
    ensures PreparesKept(log, log')
  {
    forall e | e in log ensures e in log' {
      var k :| 0 <= k < |log| && log[k] == e;
      assert log'[k] == e;
    }
  }

  lemma LogPrepareExtends(commits: set<Tid>, st: Store, r: TransferReq, b: Ballot, now: int)
    ensures Extends(commits, st, LogPrepare(st, r, b, now)) && PreparedIn(LogPrepare(st, r, b, now).log, r.tid)
  {
    var e := EntryOf(r, b, Cross, Prepared);
    assert LogPrepare(st, r, b, now).log[|st.log|] == e;
  }

  lemma DecideExtends(commits: set<Tid>, cfg: Config, st: Store, tid: Tid, commit: bool)
    requires commit ==> tid in commits
    ensures Extends(commits, st, Decide(cfg, st, tid, commit))
  {
  }

  lemma {:induction false} SyncEntriesExtend(commits: set<Tid>, cfg: Config, st: Store, es: seq<LogEntry>)
    requires Decreed(commits, es)
    ensures Extends(commits, st, SyncEntries(cfg, st, es))
  {
    if es != [] {
      SyncEntriesExtend(commits, cfg, st, es[..|es| - 1]);
      assert es[|es| - 1] in es;
    }
  }

  /** Every cross-shard item that survives validation has been logged as prepared. */
  lemma {:induction false} ValidateExtends(commits: set<Tid>, cfg: Config, st: Store, items: seq<Item>, b: Ballot, now: int)
    ensures var v := Validate(cfg, st, items, b, now);
            && Extends(commits, st, v.store) && (forall it :: it in v.kept ==> it in items)
            && (forall it :: it in v.kept && it.cross ==> PreparedIn(v.store.log, it.req.tid))
  {
    if items != [] {
      var front, it := items[..|items| - 1], items[|items| - 1];
      ValidateExtends(commits, cfg, st, front, b, now);
      var v, w := Validate(cfg, st, front, b, now), Validate(cfg, st, items, b, now);
      assert it in items && forall x :: x in front ==> x in items;
      if !Blocked(cfg, v.store, it.req.txn) && it.cross {
        LogPrepareExtends(commits, v.store.(locks := v.store.locks + InsideAccounts(cfg, it.req.txn)), it.req, b, now);
        forall x | x in v.kept && x.cross ensures PreparedIn(w.store.log, x.req.tid) {
          GrownKeeps(v.store.log, w.store.log);
          PreparedStays(v.store.log, w.store.log, x.req.tid);
        }
      }
    }
  }

  lemma {:induction false} SettleAllExtends(commits: set<Tid>, st: Store, items: seq<Item>, b: Ballot)
    ensures Extends(commits, st, SettleAll(st, items, b))
  {
    if items != [] {
      SettleAllExtends(commits, st, items[..|items| - 1], b);
    }
  }

  lemma {:induction false} AcceptAllExtends(commits: set<Tid>, cfg: Config, st: Store, batch: seq<TransferReq>, b: Ballot, now: int)
    ensures Extends(commits, st, AcceptAll(cfg, st, batch, b, now))
  {
    if batch != [] {
      AcceptAllExtends(commits, cfg, st, batch[..|batch| - 1], b, now);
    }
  }

  lemma {:induction false} CommitAllExtends(commits: set<Tid>, cfg: Config, st: Store, batch: seq<TransferReq>, b: Ballot)
    ensures Extends(commits, st, CommitAll(cfg, st, batch, b))
  {
    if batch != [] {
      CommitAllExtends(commits, cfg, st, batch[..|batch| - 1], b);
    }
  }

  // ---------------------------------------------------------------- one server

  /** cross: the coordinator's prepare calls, each for one transaction. */
  predicate ItemOk(cross: map<int, Tid>, it: Item) {
    if it.cross then it.call in cross && cross[it.call] == it.req.tid else it.call !in cross
  }

  /** A positive reply to a prepare call is backed by a log entry. */
  predicate AnswerOk(cross: map<int, Tid>, log: seq<LogEntry>, a: Answer) {
    a.call in cross ==> a.tid == cross[a.call] && (a.ack ==> PreparedIn(log, a.tid))
  }

  ghost predicate ItemsOk(cross: map<int, Tid>, r: Round, log: seq<LogEntry>) {
    && (forall it :: it in r.pending ==> ItemOk(cross, it))
    && (forall it :: it in r.current ==> ItemOk(cross, it))
    && (r.awaitAccept ==> forall it :: it in r.current && it.cross ==> PreparedIn(log, it.req.tid))
  }

  ghost predicate AnswersOk(cross: map<int, Tid>, answers: seq<Answer>, log: seq<LogEntry>) {
    forall a :: a in answers ==> AnswerOk(cross, log, a)
  }

  ghost predicate SyncsOk(commits: set<Tid>, out: seq<Message>) {
    forall res :: SyncReplyMsg(res) in out ==> Decreed(commits, res.logs)
  }

  ghost predicate Backs(cross: map<int, Tid>, commits: set<Tid>, s: Server) {
    && Logged(commits, s.store) && ItemsOk(cross, s.round, s.store.log)
    && AnswersOk(cross, s.answers, s.store.log) && SyncsOk(commits, s.out)
  }

  /** Items and answers stay backed when the log grows. */
  lemma BackingGrows(cross: map<int, Tid>, r: Round, answers: seq<Answer>, log: seq<LogEntry>, log': seq<LogEntry>)
    requires log <= log' && ItemsOk(cross, r, log) && AnswersOk(cross, answers, log)
    ensures ItemsOk(cross, r, log') && AnswersOk(cross, answers, log')
  {
    forall tid | PreparedIn(log, tid) ensures PreparedIn(log', tid) {
      GrownKeeps(log, log');
      PreparedStays(log, log', tid);
    }
  }

  /** A step that only works on the stored state. */
  lemma StoreBacks(cross: map<int, Tid>, commits: set<Tid>, s: Server, st': Store)
    requires Backs(cross, commits, s) && Extends(commits, s.store, st')
    ensures Backs(cross, commits, s.(store := st'))
  {
    BackingGrows(cross, s.round, s.answers, s.store.log, st'.log);
  }

  lemma ReissueBacks(cross: map<int, Tid>, commits: set<Tid>, s: Server)
    requires Backs(cross, commits, s)
    ensures Backs(cross, commits, ReissuePrepare(s))
  {
  }

  lemma StartBacks(cross: map<int, Tid>, commits: set<Tid>, s: Server)
    requires Backs(cross, commits, s) && (s.round.awaitAccept ==> s.round.running)
    ensures Backs(cross, commits, MaybeStartRound(s)) && MaybeStartRound(s).store == s.store
  {
    if !s.round.running {
      ReissueBacks(cross, commits, s.(round := s.round.(current := s.round.pending, pending := [], running := true)));
    }
  }

  lemma FinishBacks(cross: map<int, Tid>, commits: set<Tid>, s: Server)
    requires Backs(cross, commits, s)
    ensures Backs(cross, commits, FinishRound(s)) && FinishRound(s).store == s.store
  {
    StartBacks(cross, commits, Ended(s));
  }

  /** Replying to everyone in the round. */
  lemma RepliesBack(cross: map<int, Tid>, s: Server, ack: bool)
    requires ItemsOk(cross, s.round, s.store.log) && AnswersOk(cross, s.answers, s.store.log) && (ack ==> s.round.awaitAccept)
    ensures AnswersOk(cross, s.answers + Replies(s.round.current, ack), s.store.log)
  {
    forall a | a in Replies(s.round.current, ack) ensures AnswerOk(cross, s.store.log, a) {
      var k :| 0 <= k < |s.round.current| && Replies(s.round.current, ack)[k] == a;
      assert ItemOk(cross, s.round.current[k]);
    }
  }

  lemma {:induction false} ValidateAnswers(cross: map<int, Tid>, cfg: Config, st: Store, items: seq<Item>, b: Ballot, now: int, log: seq<LogEntry>)
    requires forall it :: it in items ==> ItemOk(cross, it)
    ensures AnswersOk(cross, Validate(cfg, st, items, b, now).answers, log)
  {
    if items != [] {
      ValidateAnswers(cross, cfg, st, items[..|items| - 1], b, now, log);
      assert ItemOk(cross, items[|items| - 1]);
    }
  }

  lemma PrepareQuorumBacks(cross: map<int, Tid>, commits: set<Tid>, s: Server, now: int)
    requires Backs(cross, commits, s)
    ensures Backs(cross, commits, OnPrepareQuorum(s, now)) && s.store.log <= OnPrepareQuorum(s, now).store.log
  {
    var v := Validate(s.cfg, s.store, s.round.current, s.acc.promisedNum, now);
    var s1 := s.(store := v.store, answers := s.answers + v.answers, round := s.round.(awaitPrepare := false, current := v.kept));
    ValidateExtends(commits, s.cfg, s.store, s.round.current, s.acc.promisedNum, now);
    ValidateAnswers(cross, s.cfg, s.store, s.round.current, s.acc.promisedNum, now, v.store.log);
    BackingGrows(cross, s.round, s.answers, s.store.log, v.store.log);
    assert Backs(cross, commits, s1);
    if v.kept == [] {
      FinishBacks(cross, commits, s1);
    }
  }

  lemma AcceptQuorumBacks(cross: map<int, Tid>, commits: set<Tid>, s: Server)
    requires Backs(cross, commits, s) && s.round.awaitAccept
    ensures Backs(cross, commits, OnAcceptQuorum(s)) && s.store.log <= OnAcceptQuorum(s).store.log
  {
    var st := SettleAll(s.store, s.round.current, s.acc.acceptNum);
    RepliesBack(cross, s, true);
    SettleAllExtends(commits, s.store, s.round.current, s.acc.acceptNum);
    BackingGrows(cross, s.round, s.answers + Replies(s.round.current, true), s.store.log, st.log);
    FinishBacks(cross, commits, s.(store := st, answers := s.answers + Replies(s.round.current, true),
                                   round := s.round.(awaitAccept := false), out := s.out + [CommitMsg(s.acc.acceptNum)]));
  }

  lemma AbortBacks(cross: map<int, Tid>, commits: set<Tid>, s: Server, preparePhase: bool)
    requires Backs(cross, commits, s)
    ensures Backs(cross, commits, OnRoundAbort(s, preparePhase)) && s.store.log <= OnRoundAbort(s, preparePhase).store.log
  {
    var locks := if preparePhase then s.store.locks else ReleaseIntra(s.store.locks, s.round.current);
    RepliesBack(cross, s, false);
    FinishBacks(cross, commits, s.(store := s.store.(locks := locks), answers := s.answers + Replies(s.round.current, false)));
  }

  lemma PrepareVerdictBacks(cross: map<int, Tid>, commits: set<Tid>, s: Server, o: Outcome<PrepareRes>, asked: Ballot, now: int)
    requires Backs(cross, commits, s)
    ensures var s' := PrepareVerdict(s, o, asked, now); Backs(cross, commits, s') && s.store.log <= s'.store.log
  {
    if o.Replied? && PrepareMatches(s, o, asked) && o.res.latestBallotNum.Some? {
      ReissueBacks(cross, commits, s.(acc := s.acc.(ballotNum := o.res.latestBallotNum.value)));
    } else if o.Replied? && PrepareMatches(s, o, asked) && o.res.paxosIndex.Some? && o.res.paxosIndex.value > s.store.paxosIndex {
    } else if s.round.prepareSuccesses >= Majority {
      PrepareQuorumBacks(cross, commits, s, now);
    } else if s.round.prepareFailures >= Majority {
      AbortBacks(cross, commits, s, true);
    }
  }

  lemma AcceptVerdictBacks(cross: map<int, Tid>, commits: set<Tid>, s: Server)
    requires Backs(cross, commits, s) && s.round.awaitAccept
    ensures Backs(cross, commits, AcceptVerdict(s)) && s.store.log <= AcceptVerdict(s).store.log
  {
    if s.round.acceptSuccesses >= Majority {
      AcceptQuorumBacks(cross, commits, s);
    } else if s.round.acceptFailures >= Majority {
      AbortBacks(cross, commits, s, false);
    }
  }

  lemma SyncReplyBacks(cross: map<int, Tid>, commits: set<Tid>, s: Server, o: Outcome<SyncRes>)
    requires Backs(cross, commits, s) && RoundOk(s) && (o.Replied? ==> Decreed(commits, o.res.logs))
    ensures Backs(cross, commits, SyncReply(s, o)) && s.store.log <= SyncReply(s, o).store.log
  {
    var s1 := s;
    if o.Replied? && o.res.ack {
      SyncEntriesExtend(commits, s.cfg, s.store, o.res.logs);
      s1 := Absorb(s, o.res);
      BackingGrows(cross, s.round, s.answers, s.store.log, s1.store.log);
    }
    var s2 := s1.(round := s1.round.(inSync := false));
    ReissueBacks(cross, commits, s2);
    StartBacks(cross, commits, s2);
  }

  lemma EnqueueBacks(cross: map<int, Tid>, commits: set<Tid>, s: Server, call: int, req: TransferReq, isCross: bool)
    requires Backs(cross, commits, s) && RoundOk(s) && ItemOk(cross, Item(req, call, isCross))
    ensures Backs(cross, commits, Enqueue(s, call, req, isCross)) && Enqueue(s, call, req, isCross).store == s.store
  {
    if !s.disconnected {
      StartBacks(cross, commits, s.(round := s.round.(pending := s.round.pending + [Item(req, call, isCross)])));
    }
  }

  /** What may reach a server: registered prepare calls, decisions that were taken, sound sync replies. */
  ghost predicate Admissible(cross: map<int, Tid>, commits: set<Tid>, ev: Event) {
    match ev
    case Client(call, req, isCross) => ItemOk(cross, Item(req, call, isCross))
    case Decided(tid, commit) => commit ==> tid in commits
    case SyncAnswer(o) => o.Replied? ==> Decreed(commits, o.res.logs)
    case _ => true
  }

  lemma PeerCallBacks(cross: map<int, Tid>, commits: set<Tid>, s: Server, ev: Event)
    requires Backs(cross, commits, s) && (ev.OnPrepare? || ev.OnAccept? || ev.OnCommit? || ev.OnSync?)
    ensures Backs(cross, commits, Step(s, ev)) && s.store.log <= Step(s, ev).store.log
  {
    match ev
    case OnPrepare(_, _) =>
    case OnAccept(b, batch, at) =>
      AcceptAllExtends(commits, s.cfg, s.store, batch, b, at);
      StoreBacks(cross, commits, s, AcceptAll(s.cfg, s.store, batch, b, at));
    case OnCommit(b) =>
      CommitAllExtends(commits, s.cfg, s.store, s.acc.acceptBatch, s.acc.acceptNum);
      StoreBacks(cross, commits, s, CommitAll(s.cfg, s.store, s.acc.acceptBatch, s.acc.acceptNum));
    case OnSync(last) =>
  }

  lemma ReplyBacks(cross: map<int, Tid>, commits: set<Tid>, s: Server, ev: Event)
    requires Backs(cross, commits, s) && RoundOk(s) && Admissible(cross, commits, ev)
    requires ev.PrepareAnswer? || ev.AcceptAnswer? || ev.SyncAnswer?
    ensures Backs(cross, commits, Step(s, ev)) && s.store.log <= Step(s, ev).store.log
  {
    match ev
    case PrepareAnswer(o, asked, at) =>
      if s.round.awaitPrepare {
        PrepareVerdictBacks(cross, commits, CountPrepare(s, o, asked), o, asked, at);
      }
    case AcceptAnswer(o, asked) =>
      if s.round.awaitAccept {
        AcceptVerdictBacks(cross, commits, CountAccept(s, o, asked));
      }
    case SyncAnswer(o) => SyncReplyBacks(cross, commits, s, o);
  }

  lemma DecisionBacks(cross: map<int, Tid>, commits: set<Tid>, s: Server, tid: Tid, commit: bool)
    requires Backs(cross, commits, s) && (commit ==> tid in commits)
    ensures var st := Decide(s.cfg, s.store, tid, commit); Backs(cross, commits, s.(store := st)) && s.store.log <= st.log
  {
    DecideExtends(commits, s.cfg, s.store, tid, commit);
    StoreBacks(cross, commits, s, Decide(s.cfg, s.store, tid, commit));
  }

  lemma StepBacks(cross: map<int, Tid>, commits: set<Tid>, s: Server, ev: Event)
    requires Backs(cross, commits, s) && RoundOk(s) && Admissible(cross, commits, ev)
    ensures Backs(cross, commits, Step(s, ev)) && PreparesKept(s.store.log, Step(s, ev).store.log)
  {
    if ev.Crash? {
      RestartBacks(cross, commits, s);
    } else {
      RunningBacks(cross, commits, s, ev);
      GrownKeeps(s.store.log, Step(s, ev).store.log);
    }
  }

  /** A restart reads every prepare back, and opens nothing else. */
  lemma RestartBacks(cross: map<int, Tid>, commits: set<Tid>, s: Server)
    requires Backs(cross, commits, s)
    ensures Backs(cross, commits, Restart(s)) && PreparesKept(s.store.log, Restart(s).store.log)
  {
    var log, log' := s.store.log, ReadBack(s.store.log);
    forall e ensures e in log' <==> e in log && Readable(e) {
      ReadBackHolds(log, e);
    }
    forall t | t in Reopened(log) ensures Reopened(log)[t].tid == t {
      ReopenedIsPrepared(log, t);
    }
    forall a | a in s.answers ensures AnswerOk(cross, log', a) {
      assert AnswerOk(cross, log, a);
    }
  }

  lemma RunningBacks(cross: map<int, Tid>, commits: set<Tid>, s: Server, ev: Event)
    requires Backs(cross, commits, s) && RoundOk(s) && Admissible(cross, commits, ev) && !ev.Crash?
    ensures Backs(cross, commits, Step(s, ev)) && s.store.log <= Step(s, ev).store.log
  {
    if ev.PrepareAnswer? || ev.AcceptAnswer? || ev.SyncAnswer? {
      ReplyBacks(cross, commits, s, ev);
    } else if ev.OnPrepare? || ev.OnAccept? || ev.OnCommit? || ev.OnSync? {
      PeerCallBacks(cross, commits, s, ev);
    } else {
      match ev
      case Client(call, req, isCross) => EnqueueBacks(cross, commits, s, call, req, isCross);
      case Decided(tid, commit) => DecisionBacks(cross, commits, s, tid, commit);
      case Expired(tid) => DecisionBacks(cross, commits, s, tid, false);
      case Disconnect(on) =>
    }
  }

  // ---------------------------------------------------------------- the coordinator

  /** Replies counted so far for one transaction. */
  datatype Tally = Tally(successes: int, failures: int)

  /** The coordinator's prepare calls: their transaction, their server, and the two of each transaction. */
  datatype Routing = Routing(txns: map<Tid, Transaction>, cross: map<int, Tid>, home: map<int, int>,
                             toSender: map<Tid, int>, toReceiver: map<Tid, int>)

  datatype System = System(nodes: map<int, Server>, processing: map<Tid, Tally>, begun: set<Tid>,
                           consumed: map<int, bool>, decisions: seq<(Tid, bool)>)

  datatype Action = Begin(tid: Tid) | Serve(id: int, ev: Event) | Consume(call: int, reply: Answer)

  /** Call c is one of the two of its transaction and goes to a server of the given account's cluster. */
  ghost predicate CallsCluster(r: Routing, nodes: map<int, Server>, c: int, t: Tid, a: Account) {
    && c in r.cross && r.cross[c] == t && c in r.home && r.home[c] in nodes
    && InCluster(nodes[r.home[c]].cfg, a)
  }

  ghost predicate RoutingOk(r: Routing, nodes: map<int, Server>) {
    && (forall t :: t in r.txns ==>
          && t in r.toSender && t in r.toReceiver && r.toSender[t] != r.toReceiver[t]
          && CallsCluster(r, nodes, r.toSender[t], t, r.txns[t].sender)
          && CallsCluster(r, nodes, r.toReceiver[t], t, r.txns[t].receiver))
    && (forall c :: c in r.cross ==>
          && r.cross[c] in r.txns && c in r.home
          && (c == r.toSender[r.cross[c]] || c == r.toReceiver[r.cross[c]]))
  }

  function Commits(decisions: seq<(Tid, bool)>): set<Tid> {
    set d | d in decisions && d.1 :: d.0
  }

  ghost predicate Possible(r: Routing, y: System, a: Action) {
    match a
    case Begin(tid) => tid in r.txns && tid !in y.begun
    case Serve(id, ev) =>
      && id in y.nodes
      && (match ev
          case Client(call, req, isCross) => ItemOk(r.cross, Item(req, call, isCross))
          case Decided(tid, commit) => (tid, commit) in y.decisions
          case SyncAnswer(o) => o.Replied? ==> exists j :: j in y.nodes && SyncReplyMsg(o.res) in y.nodes[j].out
          case _ => true)
    case Consume(call, reply) =>
      && call in r.cross && call !in y.consumed && r.cross[call] in y.begun
      && call in r.home && r.home[call] in y.nodes
      && reply in y.nodes[r.home[call]].answers && reply.call == call
  }

  /** Client::consumeReplies on one prepare reply. */
  function Count(y: System, call: int, reply: Answer): System {
    var before := if reply.tid in y.processing then y.processing[reply.tid] else Tally(0, 0);
    var t := if reply.ack then before.(successes := before.successes + 1) else before.(failures := before.failures + 1);
    var commit := t.successes == 2;
    var abort := t.failures > 0 && t.successes + t.failures == 2;
    var y1 := y.(consumed := y.consumed[call := reply.ack]);
    if commit || abort then y1.(processing := y.processing - {reply.tid}, decisions := y.decisions + [(reply.tid, commit)])
    else y1.(processing := y.processing[reply.tid := t])
  }

  function Next(y: System, a: Action): System {
    match a
    case Begin(tid) => y.(begun := y.begun + {tid}, processing := y.processing[tid := Tally(0, 0)])
    case Serve(id, ev) => if id in y.nodes then y.(nodes := y.nodes[id := Step(y.nodes[id], ev)]) else y
    case Consume(call, reply) => Count(y, call, reply)
  }

  ghost predicate Initial(y: System) {
    && y.processing == map[] && y.begun == {} && y.consumed == map[] && y.decisions == []
    && forall i :: i in y.nodes ==> exists init :: y.nodes[i] == Init(y.nodes[i].cfg, init)
  }

  ghost predicate IsRun(r: Routing, ys: seq<System>, acts: seq<Action>) {
    && |ys| == |acts| + 1 && Initial(ys[0]) && RoutingOk(r, ys[0].nodes)
    && forall k :: 0 <= k < |acts| ==> Possible(r, ys[k], acts[k]) && ys[k + 1] == Next(ys[k], acts[k])
  }

  // ---------------------------------------------------------------- the system invariant

  function Said(consumed: map<int, bool>, c: int, what: bool): int {
    if c in consumed && consumed[c] == what then 1 else 0
  }

  function TallyOf(r: Routing, consumed: map<int, bool>, t: Tid): Tally
    requires t in r.toSender && t in r.toReceiver
  {
    Tally(Said(consumed, r.toSender[t], true) + Said(consumed, r.toReceiver[t], true),
          Said(consumed, r.toSender[t], false) + Said(consumed, r.toReceiver[t], false))
  }

  predicate DecidedTid(y: System, t: Tid) {
    exists d :: d in y.decisions && d.0 == t
  }

  /** A begun transaction is either still being counted, or decided with both calls answered. */
  ghost predicate TidOk(r: Routing, y: System, t: Tid) {
    && t in r.toSender && t in r.toReceiver
    && var both := r.toSender[t] in y.consumed && r.toReceiver[t] in y.consumed;
       if DecidedTid(y, t) then both else !both && t in y.processing && y.processing[t] == TallyOf(r, y.consumed, t)
  }

  ghost predicate CountsOk(r: Routing, y: System) {
    && (forall t :: t in y.begun ==> t in r.txns && TidOk(r, y, t))
    && (forall d :: d in y.decisions ==> d.0 in y.begun)
    && (forall c :: c in y.consumed ==> c in r.cross && r.cross[c] in y.begun)
  }

  /** One decision per transaction, and a commit only after two positive replies. */
  ghost predicate DecisionsOk(r: Routing, y: System) {
    && (forall i, j :: 0 <= i < j < |y.decisions| ==> y.decisions[i].0 != y.decisions[j].0)
    && (forall d :: d in y.decisions && d.1 ==> d.0 in r.txns && Both(r, y, d.0))
  }

  ghost predicate Both(r: Routing, y: System, t: Tid) {
    && t in r.toSender && t in r.toReceiver
    && r.toSender[t] in y.consumed && y.consumed[r.toSender[t]]
    && r.toReceiver[t] in y.consumed && y.consumed[r.toReceiver[t]]
  }

  /** A consumed positive reply has its log entry. */
  ghost predicate RepliesOk(r: Routing, y: System) {
    forall c :: c in y.consumed && y.consumed[c] && c in r.cross ==>
      c in r.home && r.home[c] in y.nodes && PreparedIn(y.nodes[r.home[c]].store.log, r.cross[c])
  }

  ghost predicate NodesOk(r: Routing, y: System) {
    forall i :: i in y.nodes ==> RoundOk(y.nodes[i]) && Backs(r.cross, Commits(y.decisions), y.nodes[i])
  }

  ghost predicate SystemOk(r: Routing, y: System) {
    RoutingOk(r, y.nodes) && CountsOk(r, y) && DecisionsOk(r, y) && RepliesOk(r, y) && NodesOk(r, y)
  }

  // ---------------------------------------------------------------- steps of the system

  lemma BacksMonotone(cross: map<int, Tid>, commits: set<Tid>, commits': set<Tid>, s: Server)
    requires Backs(cross, commits, s) && commits <= commits'
    ensures Backs(cross, commits', s)
  {
  }

  lemma NodeBacks(r: Routing, y: System, i: int)
    requires NodesOk(r, y) && i in y.nodes
    ensures RoundOk(y.nodes[i]) && Backs(r.cross, Commits(y.decisions), y.nodes[i])
  {
  }

  lemma BeginOk(r: Routing, y: System, tid: Tid)
    requires SystemOk(r, y) && Possible(r, y, Begin(tid))
    ensures SystemOk(r, Next(y, Begin(tid)))
  {
    var y' := Next(y, Begin(tid));
    forall t | t in y'.begun ensures t in r.txns && TidOk(r, y', t) {
      if t == tid {
        assert r.cross[r.toSender[t]] == t && r.cross[r.toReceiver[t]] == t;
      } else {
        assert TidOk(r, y, t);
      }
    }
  }

  lemma ServedNode(r: Routing, y: System, id: int, ev: Event)
    requires SystemOk(r, y) && Possible(r, y, Serve(id, ev))
    ensures var s, s' := y.nodes[id], Step(y.nodes[id], ev);
            PreparesKept(s.store.log, s'.store.log) && s'.cfg == s.cfg && RoundOk(s') && Backs(r.cross, Commits(y.decisions), s')
  {
    var s := y.nodes[id];
    DeliveredIsAdmissible(r, y, id, ev);
    NodeBacks(r, y, id);
    StepBacks(r.cross, Commits(y.decisions), s, ev);
    StepKeepsConfig(s, ev);
    if !ev.Crash? {
      StepKeepsCalls(s, ev);
    }
  }

  /** No prepare is lost, so evidence stays. */
  lemma EvidenceStays(r: Routing, y: System, y': System)
    requires RepliesOk(r, y) && y'.consumed == y.consumed && y'.nodes.Keys == y.nodes.Keys
    requires forall i :: i in y.nodes ==> PreparesKept(y.nodes[i].store.log, y'.nodes[i].store.log)
    ensures RepliesOk(r, y')
  {
    forall c | c in y.consumed && y.consumed[c] && c in r.cross
      ensures c in r.home && r.home[c] in y'.nodes && PreparedIn(y'.nodes[r.home[c]].store.log, r.cross[c])
    {
      var i := r.home[c];
      assert i in y.nodes;
      PreparedStays(y.nodes[i].store.log, y'.nodes[i].store.log, r.cross[c]);
    }
  }

  lemma RoutingStays(r: Routing, nodes: map<int, Server>, nodes': map<int, Server>)
    requires RoutingOk(r, nodes) && nodes'.Keys == nodes.Keys && forall i :: i in nodes ==> nodes'[i].cfg == nodes[i].cfg
    ensures RoutingOk(r, nodes')
  {
    forall c, t, a | CallsCluster(r, nodes, c, t, a) ensures CallsCluster(r, nodes', c, t, a) {
      var i := r.home[c];
      assert i in nodes;
    }
  }

  lemma ServeOk(r: Routing, y: System, id: int, ev: Event)
    requires SystemOk(r, y) && Possible(r, y, Serve(id, ev))
    ensures SystemOk(r, Next(y, Serve(id, ev)))
  {
    var y' := Next(y, Serve(id, ev));
    ServedNode(r, y, id, ev);
    assert y'.nodes.Keys == y.nodes.Keys;
    RoutingStays(r, y.nodes, y'.nodes);
    EvidenceStays(r, y, y');
    CountsUntouched(r, y, y');
    forall i | i in y'.nodes ensures RoundOk(y'.nodes[i]) && Backs(r.cross, Commits(y'.decisions), y'.nodes[i]) {
      NodeBacks(r, y, i);
    }
  }

  lemma DeliveredIsAdmissible(r: Routing, y: System, id: int, ev: Event)
    requires SystemOk(r, y) && Possible(r, y, Serve(id, ev))
    ensures Admissible(r.cross, Commits(y.decisions), ev)
  {
    match ev
    case Decided(tid, commit) =>
      if commit {
        assert (tid, commit).0 in Commits(y.decisions);
      }
    case SyncAnswer(o) =>
      if o.Replied? {
        var j :| j in y.nodes && SyncReplyMsg(o.res) in y.nodes[j].out;
        assert SyncsOk(Commits(y.decisions), y.nodes[j].out);
      }
    case _ =>
  }

  lemma CountsUntouched(r: Routing, y: System, y': System)
    requires CountsOk(r, y) && DecisionsOk(r, y)
    requires y'.processing == y.processing && y'.begun == y.begun && y'.consumed == y.consumed && y'.decisions == y.decisions
    ensures CountsOk(r, y') && DecisionsOk(r, y')
  {
    forall t | t in y.begun ensures TidOk(r, y', t) {
      assert TidOk(r, y, t);
      assert DecidedTid(y, t) == DecidedTid(y', t);
    }
    forall d | d in y.decisions && d.1 ensures Both(r, y', d.0) {
      assert Both(r, y, d.0);
    }
  }

  /** The counted reply is about the call's own transaction, and a positive one has evidence. */
  lemma ReplyIsBacked(r: Routing, y: System, call: int, reply: Answer)
    requires SystemOk(r, y) && Possible(r, y, Consume(call, reply))
    ensures reply.tid == r.cross[call] && (reply.ack ==> PreparedIn(y.nodes[r.home[call]].store.log, r.cross[call]))
  {
    var i := r.home[call];
    NodeBacks(r, y, i);
    assert AnswerOk(r.cross, y.nodes[i].store.log, reply);
  }

  /** A decision is taken exactly when the second of the two calls has been answered. */
  lemma CountDecides(r: Routing, y: System, call: int, reply: Answer)
    requires SystemOk(r, y) && Possible(r, y, Consume(call, reply))
    ensures var y', t := Count(y, call, reply), r.cross[call];
            && !DecidedTid(y, t)
            && TidOk(r, y', t)
            && (DecidedTid(y', t) ==> y'.decisions == y.decisions + [(t, Both(r, y', t))])
            && (!DecidedTid(y', t) ==> y'.decisions == y.decisions)
  {
    var y', t := Count(y, call, reply), r.cross[call];
    ReplyIsBacked(r, y, call, reply);
    assert TidOk(r, y, t);
    var a, b := r.toSender[t], r.toReceiver[t];
    assert call == a || call == b;
    var before := TallyOf(r, y.consumed, t);
    assert y.processing[t] == before;
    if y'.decisions != y.decisions {
      assert (t, y'.decisions[|y.decisions|].1) in y'.decisions;
      assert DecidedTid(y', t);
    } else {
      assert DecidedTid(y', t) == DecidedTid(y, t);
    }
  }

  lemma OthersCounted(r: Routing, y: System, call: int, reply: Answer, t: Tid)
    requires SystemOk(r, y) && Possible(r, y, Consume(call, reply)) && t in y.begun && t != r.cross[call]
    ensures TidOk(r, Count(y, call, reply), t)
  {
    var y' := Count(y, call, reply);
    ReplyIsBacked(r, y, call, reply);
    assert TidOk(r, y, t);
    assert r.cross[r.toSender[t]] == t && r.cross[r.toReceiver[t]] == t;
    assert DecidedTid(y', t) == DecidedTid(y, t) by {
      assert y'.decisions == y.decisions || exists x :: y'.decisions == y.decisions + [(r.cross[call], x)];
    }
  }

  lemma ConsumeKeepsCounts(r: Routing, y: System, call: int, reply: Answer)
    requires SystemOk(r, y) && Possible(r, y, Consume(call, reply))
    ensures CountsOk(r, Count(y, call, reply))
  {
    var y' := Count(y, call, reply);
    CountDecides(r, y, call, reply);
    ReplyIsBacked(r, y, call, reply);
    forall t | t in y'.begun ensures t in r.txns && TidOk(r, y', t) {
      if t != r.cross[call] {
        OthersCounted(r, y, call, reply, t);
      }
    }
  }

  lemma ConsumeKeepsDecisions(r: Routing, y: System, call: int, reply: Answer)
    requires SystemOk(r, y) && Possible(r, y, Consume(call, reply))
    ensures DecisionsOk(r, Count(y, call, reply))
  {
    var y', t := Count(y, call, reply), r.cross[call];
    CountDecides(r, y, call, reply);
    forall d | d in y'.decisions && d.1 ensures d.0 in r.txns && Both(r, y', d.0) {
      if d in y.decisions {
        assert Both(r, y, d.0);
      }
    }
    forall i | 0 <= i < |y.decisions| ensures y.decisions[i].0 != t {
      assert y.decisions[i] in y.decisions;
    }
  }

  lemma ConsumeOk(r: Routing, y: System, call: int, reply: Answer)
    requires SystemOk(r, y) && Possible(r, y, Consume(call, reply))
    ensures SystemOk(r, Next(y, Consume(call, reply)))
  {
    var y' := Count(y, call, reply);
    ConsumeKeepsCounts(r, y, call, reply);
    ConsumeKeepsDecisions(r, y, call, reply);
    ConsumeKeepsReplies(r, y, call, reply);
    CountDecides(r, y, call, reply);
    NodesMonotone(r, y, y');
  }

  lemma ConsumeKeepsReplies(r: Routing, y: System, call: int, reply: Answer)
    requires SystemOk(r, y) && Possible(r, y, Consume(call, reply))
    ensures RepliesOk(r, Count(y, call, reply))
  {
    ReplyIsBacked(r, y, call, reply);
  }

  lemma NodesMonotone(r: Routing, y: System, y': System)
    requires NodesOk(r, y) && y'.nodes == y.nodes && y.decisions <= y'.decisions
    ensures NodesOk(r, y')
  {
    assert forall d :: d in y.decisions ==> d in y'.decisions;
    assert Commits(y.decisions) <= Commits(y'.decisions);
    forall i | i in y'.nodes ensures RoundOk(y'.nodes[i]) && Backs(r.cross, Commits(y'.decisions), y'.nodes[i]) {
      NodeBacks(r, y, i);
      BacksMonotone(r.cross, Commits(y.decisions), Commits(y'.decisions), y.nodes[i]);
    }
  }

  // ---------------------------------------------------------------- main results

  lemma InitialOk(r: Routing, y: System)
    requires Initial(y) && RoutingOk(r, y.nodes)
    ensures SystemOk(r, y)
  {
    forall i | i in y.nodes ensures RoundOk(y.nodes[i]) && Backs(r.cross, {}, y.nodes[i]) {
      var init :| y.nodes[i] == Init(y.nodes[i].cfg, init);
    }
  }

  lemma {:induction false} RunsStayOk(r: Routing, ys: seq<System>, acts: seq<Action>, n: nat)
    requires IsRun(r, ys, acts) && n < |ys|
    ensures SystemOk(r, ys[n])
  {
    if n == 0 {
      InitialOk(r, ys[0]);
    } else {
      RunsStayOk(r, ys, acts, n - 1);
      assert Possible(r, ys[n - 1], acts[n - 1]) && ys[n] == Next(ys[n - 1], acts[n - 1]);
      match acts[n - 1]
      case Begin(tid) => BeginOk(r, ys[n - 1], tid);
      case Serve(id, ev) => ServeOk(r, ys[n - 1], id, ev);
      case Consume(call, reply) => ConsumeOk(r, ys[n - 1], call, reply);
    }
  }

  /** The coordinator decides a transaction at most once. */
  lemma OneDecision(r: Routing, ys: seq<System>, acts: seq<Action>, n: nat, i: nat, j: nat)
    requires IsRun(r, ys, acts) && n < |ys| && i < j < |ys[n].decisions|
    ensures ys[n].decisions[i].0 != ys[n].decisions[j].0
  {
    RunsStayOk(r, ys, acts, n);
  }

  /**
    A cross-shard commit in any log, at any time, has behind it a prepare of the same
    transaction in the log of a server of each of the two clusters involved.
  */
  lemma CommitsHaveEvidence(r: Routing, ys: seq<System>, acts: seq<Action>, n: nat, id: int, e: LogEntry)
    requires IsRun(r, ys, acts) && n < |ys| && id in ys[n].nodes
    requires e in ys[n].nodes[id].store.log && e.kind.Cross? && e.status.Committed?
    ensures e.tid in r.txns
    ensures exists j :: j in ys[n].nodes && InCluster(ys[n].nodes[j].cfg, r.txns[e.tid].sender) && PreparedIn(ys[n].nodes[j].store.log, e.tid)
    ensures exists j :: j in ys[n].nodes && InCluster(ys[n].nodes[j].cfg, r.txns[e.tid].receiver) && PreparedIn(ys[n].nodes[j].store.log, e.tid)
  {
    RunsStayOk(r, ys, acts, n);
    var y := ys[n];
    NodeBacks(r, y, id);
    var d :| d in y.decisions && d.1 && d.0 == e.tid;
    EvidenceOf(r, y, e.tid);
  }

  lemma EvidenceOf(r: Routing, y: System, t: Tid)
    requires SystemOk(r, y) && (t, true) in y.decisions
    ensures t in r.txns
    ensures exists j :: j in y.nodes && InCluster(y.nodes[j].cfg, r.txns[t].sender) && PreparedIn(y.nodes[j].store.log, t)
    ensures exists j :: j in y.nodes && InCluster(y.nodes[j].cfg, r.txns[t].receiver) && PreparedIn(y.nodes[j].store.log, t)
  {
    assert Both(r, y, t);
    HasPrepared(r, y, r.toSender[t], t, r.txns[t].sender);
    HasPrepared(r, y, r.toReceiver[t], t, r.txns[t].receiver);
  }

  lemma HasPrepared(r: Routing, y: System, c: int, t: Tid, a: Account)
    requires RepliesOk(r, y) && CallsCluster(r, y.nodes, c, t, a) && c in y.consumed && y.consumed[c]
    ensures exists j :: j in y.nodes && InCluster(y.nodes[j].cfg, a) && PreparedIn(y.nodes[j].store.log, t)
  {
    var j := r.home[c];
    assert j in y.nodes && InCluster(y.nodes[j].cfg, a) && PreparedIn(y.nodes[j].store.log, t);
  }
}
