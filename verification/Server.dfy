/**
  The handlers of one server as functions on its state (src/server/server.cc).
*/
module ServerSpec {
  import opened Protocol

  const Majority: int := 2
  const LockTimeout: int := 5000

  /** Balances, idempotence set, locks, lock timestamps, open prepares and the log. */
  datatype Store = Store(
    balances: map<Account, int>,
    applied: set<Tid>,
    locks: set<Account>,
    stamps: map<Tid, int>,
    open: map<Tid, LogEntry>,     // the prepares found through the WAL's transferIndex
    log: seq<LogEntry>,
    lastInserted: int,
    lastBallot: Ballot,
    paxosIndex: int)

  datatype Acceptor = Acceptor(
    ballotNum: int,
    promised: bool,
    promisedNum: Ballot,
    accepted: bool,
    acceptNum: Ballot,
    acceptBatch: seq<TransferReq>)

  datatype Round = Round(
    pending: seq<Item>,
    current: seq<Item>,
    running: bool,
    inSync: bool,
    awaitPrepare: bool,
    awaitAccept: bool,
    prepareSuccesses: int,
    prepareFailures: int,
    acceptSuccesses: int,
    acceptFailures: int)

  datatype Server = Server(
    cfg: Config,
    disconnected: bool,
    store: Store,
    acc: Acceptor,
    round: Round,
    out: seq<Message>,       // every message sent so far, in order
    answers: seq<Answer>)    // every reply to a client call, in order

  const NoBallot := Ballot(0, 0)

  /** A fresh server. */
  function Init(cfg: Config, balances: map<Account, int>): Server {
    Server(cfg, false,
           Store(balances, {}, {}, map[], map[], [], -1, NoBallot, -1),
           Acceptor(0, false, NoBallot, false, NoBallot, []),
           Round([], [], false, false, false, false, 0, 0, 0, 0),
           [], [])
  }

  // ---------------------------------------------------------------- balances, locks and the log

  function Balance(b: map<Account, int>, a: Account): int {
    if a in b then b[a] else 0
  }

  function Credit(b: map<Account, int>, a: Account, x: int): map<Account, int> {
    b[a := Balance(b, a) + x]
  }

  /** Both sides of a transfer, as far as they live in this cluster. */
  function MoveInside(cfg: Config, b: map<Account, int>, t: Transaction): map<Account, int> {
    var b1 := if InCluster(cfg, t.sender) then Credit(b, t.sender, -t.amount) else b;
    if InCluster(cfg, t.receiver) then Credit(b1, t.receiver, t.amount) else b1
  }

  function InsideAccounts(cfg: Config, t: Transaction): set<Account> {
    (if InCluster(cfg, t.sender) then {t.sender} else {}) + (if InCluster(cfg, t.receiver) then {t.receiver} else {})
  }

  /** ServerImpl::prepareTransaction */
  function LogPrepare(st: Store, r: TransferReq, b: Ballot, now: int): Store {
    var e := EntryOf(r, b, Cross, Prepared);
    st.(log := st.log + [e], open := st.open[r.tid := e], lastInserted := |st.log|, lastBallot := b,
        paxosIndex := st.paxosIndex + 1, stamps := st.stamps[r.tid := now])
  }

  /** ServerImpl::commitTransaction: at most once per tid. */
  function LogCommit(st: Store, r: TransferReq, b: Ballot): Store {
    if r.tid in st.applied then st
    else
      var e := EntryOf(r, b, Intra, Committed);
      st.(log := st.log + [e], applied := st.applied + {r.tid},
          balances := Credit(Credit(st.balances, r.txn.sender, -r.txn.amount), r.txn.receiver, r.txn.amount),
          lastInserted := |st.log|, lastBallot := b, paxosIndex := st.paxosIndex + 1)
  }

  /** ServerImpl::processTpcDecision on the stored state. */
  function Decide(cfg: Config, st: Store, tid: Tid, commit: bool): Store {
    var st1 := st.(stamps := st.stamps - {tid});
    if tid !in st.open then st1
    else
      var e := st.open[tid].(status := if commit then Committed else Aborted);
      st1.(open := st.open - {tid}, log := st.log + [e],
           applied := if commit then st.applied + {e.tid} else st.applied,
           locks := st.locks - InsideAccounts(cfg, e.txn),
           balances := if commit && e.tid !in st.applied then MoveInside(cfg, st.balances, e.txn) else st.balances)
  }

  /** Releasing the locks of one prepare that has been open for too long. */
  function Expire(cfg: Config, st: Store, tid: Tid): Store {
    Decide(cfg, st, tid, false)
  }

  /** Several expiries in a row. */
  function ExpireAll(cfg: Config, st: Store, tids: seq<Tid>): Store
    decreases |tids|
  {
    if tids == [] then st else ExpireAll(cfg, Expire(cfg, st, tids[0]), tids[1..])
  }

  /** One entry of a sync reply. */
  function SyncEntry(cfg: Config, st: Store, e: LogEntry): Store {
    var open :=
      match e.status
      case Prepared => st.open[e.tid := e.(kind := Cross)]
      case Committed => st.open - {e.tid}
      case Aborted => st.open - {e.tid}
      case NoStatus => st.open;
    st.(log := st.log + [e], open := open,
        paxosIndex := st.paxosIndex + (if IsPaxosEntry(e) then 1 else 0),
        applied := if e.status.Committed? then st.applied + {e.tid} else st.applied,
        balances := if e.status.Committed? && e.tid !in st.applied then MoveInside(cfg, st.balances, e.txn) else st.balances)
  }

  function SyncEntries(cfg: Config, st: Store, es: seq<LogEntry>): Store {
    if es == [] then st else SyncEntry(cfg, SyncEntries(cfg, st, es[..|es| - 1]), es[|es| - 1])
  }

  // ---------------------------------------------------------------- rounds

  /** ServerImpl::reissuePrepareForCurrent */
  function ReissuePrepare(s: Server): Server {
    var b := Ballot(s.acc.ballotNum + 1, s.cfg.serverId);
    s.(acc := s.acc.(ballotNum := b.num, promised := true, promisedNum := b),
       round := s.round.(awaitPrepare := true, awaitAccept := false, prepareSuccesses := 1, prepareFailures := 0),
       out := s.out + [PrepareMsg(b, s.store.paxosIndex)])
  }

  /** ServerImpl::maybeStartRound and startRound */
  function MaybeStartRound(s: Server): Server {
    if s.round.running || s.round.inSync || s.round.pending == [] then s
    else ReissuePrepare(s.(round := s.round.(current := s.round.pending, pending := [], running := true)))
  }

  /** ServerImpl::finishRound */
  function FinishRound(s: Server): Server {
    MaybeStartRound(s.(acc := s.acc.(promised := false, accepted := false, acceptBatch := []),
                       round := s.round.(running := false, awaitPrepare := false, awaitAccept := false, current := [])))
  }

  /** ServerImpl::enqueueClientTxn */
  function Enqueue(s: Server, call: int, req: TransferReq, cross: bool): Server {
    if s.disconnected then s.(answers := s.answers + [Answer(call, false, req.tid)])
    else MaybeStartRound(s.(round := s.round.(pending := s.round.pending + [Item(req, call, cross)])))
  }

  /** The preconditions that abort an item as soon as the prepare quorum is reached. */
  predicate Blocked(cfg: Config, st: Store, t: Transaction) {
    || (InCluster(cfg, t.sender) && t.sender in st.locks)
    || (InCluster(cfg, t.receiver) && t.receiver in st.locks)
    || (InCluster(cfg, t.sender) && Balance(st.balances, t.sender) < t.amount)
  }

  /** Lock the accounts of an admitted item and, across shards, log its prepare. */
  function Admit(cfg: Config, st: Store, it: Item, b: Ballot, now: int): Store {
    var st1 := st.(locks := st.locks + InsideAccounts(cfg, it.req.txn));
    if it.cross then LogPrepare(st1, it.req, b, now) else st1
  }

  datatype Validation = Validation(store: Store, kept: seq<Item>, answers: seq<Answer>)

  /** The loop of onPrepareQuorum over the items of the round. */
  function Validate(cfg: Config, st: Store, items: seq<Item>, b: Ballot, now: int): Validation {
    if items == [] then Validation(st, [], [])
    else
      var v := Validate(cfg, st, items[..|items| - 1], b, now);
      var it := items[|items| - 1];
      if Blocked(cfg, v.store, it.req.txn) then v.(answers := v.answers + [Answer(it.call, false, it.req.tid)])
      else v.(store := Admit(cfg, v.store, it, b, now), kept := v.kept + [it])
  }

  function Requests(items: seq<Item>): (rs: seq<TransferReq>)
    ensures |rs| == |items| && forall i :: 0 <= i < |items| ==> rs[i] == items[i].req
  {
    seq(|items|, i requires 0 <= i < |items| => items[i].req)
  }

  /** ServerImpl::onPrepareQuorum */
  function OnPrepareQuorum(s: Server, now: int): Server {
    var v := Validate(s.cfg, s.store, s.round.current, s.acc.promisedNum, now);
    var s1 := s.(store := v.store, answers := s.answers + v.answers, round := s.round.(awaitPrepare := false, current := v.kept));
    if v.kept == [] then FinishRound(s1)
    else
      s1.(acc := s1.acc.(accepted := true, acceptNum := s1.acc.promisedNum, acceptBatch := Requests(v.kept)),
          round := s1.round.(awaitAccept := true, acceptSuccesses := 1, acceptFailures := 0),
          out := s1.out + [AcceptMsg(s1.acc.promisedNum, Requests(v.kept))])
  }

  /** One item of onAcceptQuorum. */
  function Settle(st: Store, it: Item, b: Ballot): Store {
    if it.cross then st
    else LogCommit(st.(locks := st.locks - {it.req.txn.sender, it.req.txn.receiver}), it.req, b)
  }

  function SettleAll(st: Store, items: seq<Item>, b: Ballot): Store {
    if items == [] then st else Settle(SettleAll(st, items[..|items| - 1], b), items[|items| - 1], b)
  }

  function Replies(items: seq<Item>, ack: bool): (r: seq<Answer>)
    ensures |r| == |items| && forall i :: 0 <= i < |items| ==> r[i] == Answer(items[i].call, ack, items[i].req.tid)
  {
    seq(|items|, i requires 0 <= i < |items| => Answer(items[i].call, ack, items[i].req.tid))
  }

  /** ServerImpl::onAcceptQuorum */
  function OnAcceptQuorum(s: Server): Server {
    FinishRound(s.(store := SettleAll(s.store, s.round.current, s.acc.acceptNum),
                   answers := s.answers + Replies(s.round.current, true),
                   round := s.round.(awaitAccept := false),
                   out := s.out + [CommitMsg(s.acc.acceptNum)]))
  }

  function ReleaseIntra(locks: set<Account>, items: seq<Item>): set<Account> {
    if items == [] then locks
    else
      var it := items[|items| - 1];
      var rest := ReleaseIntra(locks, items[..|items| - 1]);
      if it.cross then rest else rest - {it.req.txn.sender, it.req.txn.receiver}
  }

  /** ServerImpl::onRoundAbort */
  function OnRoundAbort(s: Server, preparePhase: bool): Server {
    var locks := if preparePhase then s.store.locks else ReleaseIntra(s.store.locks, s.round.current);
    FinishRound(s.(store := s.store.(locks := locks), answers := s.answers + Replies(s.round.current, false)))
  }

  // ---------------------------------------------------------------- calls from peers

  function Respond(s: Server, m: Message): Server {
    s.(out := s.out + [m])
  }

  /** ServerImpl::processPrepareCall */
  function PrepareCall(s: Server, b: Ballot, index: int): Server {
    if s.disconnected then
      Respond(s, PrepareReplyMsg(s.cfg.serverId, PrepareRes(false, b, None, [], None, None, 0)))
    else if b.num > s.acc.ballotNum && index == s.store.paxosIndex then
      var s1 := s.(acc := s.acc.(promised := true, promisedNum := b, ballotNum := b.num));
      var res := if s.acc.accepted then PrepareRes(true, b, Some(s.acc.acceptNum), s.acc.acceptBatch, None, None, 0)
                 else PrepareRes(true, b, None, [], None, None, 0);
      Respond(s1, PrepareReplyMsg(s.cfg.serverId, res))
    else
      var s1 := if b.num > s.acc.ballotNum && index > s.store.paxosIndex
                then s.(round := s.round.(inSync := true), out := s.out + [SyncMsg(b.serverId, s.store.lastInserted)])
                else s;
      var res := PrepareRes(false, b, None, [],
                            if b.num <= s.acc.ballotNum then Some(s.acc.ballotNum) else None,
                            if index < s.store.paxosIndex then Some(s.store.paxosIndex) else None, s.cfg.serverId);
      Respond(s1, PrepareReplyMsg(s.cfg.serverId, res))
  }

  /** One request of an accepted batch: lock, and log the prepare when exactly one side is inside. */
  function AcceptOne(cfg: Config, st: Store, r: TransferReq, b: Ballot, now: int): Store {
    var st1 := st.(locks := st.locks + InsideAccounts(cfg, r.txn));
    if InCluster(cfg, r.txn.sender) != InCluster(cfg, r.txn.receiver) then LogPrepare(st1, r, b, now) else st1
  }

  function AcceptAll(cfg: Config, st: Store, batch: seq<TransferReq>, b: Ballot, now: int): Store {
    if batch == [] then st
    else AcceptOne(cfg, AcceptAll(cfg, st, batch[..|batch| - 1], b, now), batch[|batch| - 1], b, now)
  }

  /** ServerImpl::processAcceptCall */
  function AcceptCall(s: Server, b: Ballot, batch: seq<TransferReq>, now: int): Server {
    if !s.disconnected && s.acc.promised && b.num == s.acc.promisedNum.num then
      Respond(s.(acc := s.acc.(accepted := true, acceptNum := b, acceptBatch := batch),
                 store := AcceptAll(s.cfg, s.store, batch, b, now)),
              AcceptReplyMsg(s.cfg.serverId, b, true))
    else Respond(s, AcceptReplyMsg(s.cfg.serverId, b, false))
  }

  function CommitOne(cfg: Config, st: Store, r: TransferReq, b: Ballot): Store {
    var st1 := st.(locks := st.locks - InsideAccounts(cfg, r.txn));
    if BothInside(cfg, r.txn) then LogCommit(st1, r, b) else st1
  }

  function CommitAll(cfg: Config, st: Store, batch: seq<TransferReq>, b: Ballot): Store {
    if batch == [] then st
    else CommitOne(cfg, CommitAll(cfg, st, batch[..|batch| - 1], b), batch[|batch| - 1], b)
  }

  /** ServerImpl::processCommitCall */
  function CommitCall(s: Server, b: Ballot): Server {
    if !s.disconnected && s.acc.promisedNum.num == b.num && s.acc.acceptNum.num == b.num then
      s.(store := CommitAll(s.cfg, s.store, s.acc.acceptBatch, s.acc.acceptNum),
         acc := s.acc.(promised := false, accepted := false))
    else s
  }

  /** The entries from a position on. */
  function Tail(log: seq<LogEntry>, from: int): seq<LogEntry> {
    if from < 0 then log else if from <= |log| then log[from..] else []
  }

  /** ServerImpl::processSyncCall */
  function SyncCall(s: Server, lastInserted: int): Server {
    var res := if s.store.lastInserted > lastInserted then SyncRes(true, Tail(s.store.log, lastInserted + 1), s.store.lastBallot)
               else SyncRes(false, [], NoBallot);
    Respond(s, SyncReplyMsg(res))
  }

  // ---------------------------------------------------------------- replies from peers

  /** How an outgoing call ended. */
  datatype Outcome<+T> = Replied(res: T) | Deadline | Failed

  /** Does this reply count as an answer to the ballot that is being prepared? */
  predicate PrepareMatches(s: Server, o: Outcome<PrepareRes>, asked: Ballot) {
    match o
    case Replied(res) => res.ballot.num == s.acc.promisedNum.num && res.ballot.serverId == s.cfg.serverId
    case Deadline => asked.num == s.acc.promisedNum.num && asked.serverId == s.cfg.serverId
    case Failed => false
  }

  function CountPrepare(s: Server, o: Outcome<PrepareRes>, asked: Ballot): Server {
    if !PrepareMatches(s, o, asked) then s
    else if o.Replied? && o.res.ack then s.(round := s.round.(prepareSuccesses := s.round.prepareSuccesses + 1))
    else s.(round := s.round.(prepareFailures := s.round.prepareFailures + 1))
  }

  /** What happens once a prepare reply has been counted: retry, sync, go on, give up or wait. */
  function PrepareVerdict(s: Server, o: Outcome<PrepareRes>, asked: Ballot, now: int): Server {
    if o.Replied? && PrepareMatches(s, o, asked) && o.res.latestBallotNum.Some? then
      ReissuePrepare(s.(acc := s.acc.(ballotNum := o.res.latestBallotNum.value)))
    else if o.Replied? && PrepareMatches(s, o, asked) && o.res.paxosIndex.Some? && o.res.paxosIndex.value > s.store.paxosIndex then
      s.(round := s.round.(inSync := true, awaitPrepare := false),
         out := s.out + [SyncMsg(o.res.serverId, s.store.lastInserted)])
    else if s.round.prepareSuccesses >= Majority then OnPrepareQuorum(s, now)
    else if s.round.prepareFailures >= Majority then OnRoundAbort(s, true)
    else s
  }

  /** ServerImpl::handlePrepareReply */
  function PrepareReply(s: Server, o: Outcome<PrepareRes>, asked: Ballot, now: int): Server {
    if !s.round.awaitPrepare then s else PrepareVerdict(CountPrepare(s, o, asked), o, asked, now)
  }

  predicate AcceptMatches(s: Server, o: Outcome<(Ballot, bool)>, asked: Ballot) {
    match o
    case Replied(res) => res.0.num == s.acc.acceptNum.num && res.0.serverId == s.cfg.serverId
    case Deadline => asked.num == s.acc.acceptNum.num && asked.serverId == s.cfg.serverId
    case Failed => false
  }

  function CountAccept(s: Server, o: Outcome<(Ballot, bool)>, asked: Ballot): Server {
    if !AcceptMatches(s, o, asked) then s
    else if o.Replied? && o.res.1 then s.(round := s.round.(acceptSuccesses := s.round.acceptSuccesses + 1))
    else s.(round := s.round.(acceptFailures := s.round.acceptFailures + 1))
  }

  function AcceptVerdict(s: Server): Server {
    if s.round.acceptSuccesses >= Majority then OnAcceptQuorum(s)
    else if s.round.acceptFailures >= Majority then OnRoundAbort(s, false)
    else s
  }

  /** ServerImpl::handleAcceptReply */
  function AcceptReply(s: Server, o: Outcome<(Ballot, bool)>, asked: Ballot): Server {
    if !s.round.awaitAccept then s else AcceptVerdict(CountAccept(s, o, asked))
  }

  /** A prepare reply stores nothing unless the round goes on to check its batch. */
  lemma PrepareVerdictStores(s: Server, o: Outcome<PrepareRes>, asked: Ballot, now: int)
    ensures var st := PrepareVerdict(s, o, asked, now).store;
            st == s.store || st == Validate(s.cfg, s.store, s.round.current, s.acc.promisedNum, now).store
  {
  }

  /** An accept reply logs nothing unless the round has its accept quorum. */
  lemma AcceptVerdictStores(s: Server)
    ensures var st := AcceptVerdict(s).store;
            st == s.store.(locks := st.locks) || st == SettleAll(s.store, s.round.current, s.acc.acceptNum)
  {
  }

  lemma AcceptReplyStores(s: Server, o: Outcome<(Ballot, bool)>, asked: Ballot)
    ensures var st := AcceptReply(s, o, asked).store;
            st == s.store.(locks := st.locks) || st == SettleAll(s.store, s.round.current, s.acc.acceptNum)
  {
    var s1 := CountAccept(s, o, asked);
    assert s1.store == s.store && s1.round.current == s.round.current && s1.acc == s.acc;
    AcceptVerdictStores(s1);
  }

  /** The log entries, ballot and indices taken over from a sync reply. */
  function Absorb(s: Server, res: SyncRes): Server {
    var st := SyncEntries(s.cfg, s.store, res.logs);
    s.(store := st.(lastInserted := s.store.lastInserted + |res.logs|, lastBallot := res.lastBallot),
       acc := s.acc.(ballotNum := res.lastBallot.num))
  }

  /** After a sync: retry the paused round, or start one for whatever queued up. */
  function Resume(s: Server): Server {
    var s1 := s.(round := s.round.(inSync := false));
    if s1.round.current != [] then ReissuePrepare(s1) else MaybeStartRound(s1)
  }

  /** ServerImpl::handleSyncReply */
  function SyncReply(s: Server, o: Outcome<SyncRes>): Server {
    Resume(if o.Replied? && o.res.ack then Absorb(s, o.res) else s)
  }

  /** ServerImpl::processTpcDecision */
  function Decision(s: Server, tid: Tid, commit: bool): Server {
    if s.disconnected then s else s.(store := Decide(s.cfg, s.store, tid, commit))
  }

  // ---------------------------------------------------------------- restart

  function MaxBallot(n: int, log: seq<LogEntry>): int {
    if log == [] then n
    else
      var m := MaxBallot(n, log[..|log| - 1]);
      if log[|log| - 1].ballotNum > m then log[|log| - 1].ballotNum else m
  }

  function PaxosCount(log: seq<LogEntry>): nat {
    if log == [] then 0 else PaxosCount(log[..|log| - 1]) + (if IsPaxosEntry(log[|log| - 1]) then 1 else 0)
  }

  /** The kinds of entry that recovery reads back from the write-ahead log. */
  predicate Readable(e: LogEntry) {
    IsPaxosEntry(e) || (e.kind.Cross? && (e.status.Committed? || e.status.Aborted?))
  }

  function ReadBack(log: seq<LogEntry>): seq<LogEntry> {
    if log == [] then []
    else ReadBack(log[..|log| - 1]) + if Readable(log[|log| - 1]) then [log[|log| - 1]] else []
  }

  /** The open prepares that recovery finds: opened by a cross-shard prepare, closed by a cross-shard outcome. */
  function Reopened(log: seq<LogEntry>): map<Tid, LogEntry> {
    if log == [] then map[]
    else
      var open, e := Reopened(log[..|log| - 1]), log[|log| - 1];
      if !e.kind.Cross? then open
      else if e.status.Prepared? then open[e.tid := e]
      else if e.status.Committed? || e.status.Aborted? then open - {e.tid}
      else open
  }

  /**
    Restart after a crash: the log, its index and the ballot number come back as recovery
    reads them from the write-ahead log, all else is fresh.
  */
  function Restart(s: Server): Server {
    var log := ReadBack(s.store.log);
    var last := if log == [] then NoBallot else Ballot(log[|log| - 1].ballotNum, log[|log| - 1].ballotServerId);
    Init(s.cfg, s.store.balances).(
      store := Store(s.store.balances, {}, {}, map[], Reopened(s.store.log), log, |log| - 1, last, PaxosCount(log) - 1),
      acc := Acceptor(MaxBallot(s.acc.ballotNum, s.store.log), false, NoBallot, false, NoBallot, []),
      out := s.out, answers := s.answers)
  }

  lemma {:induction false} ReadBackHolds(log: seq<LogEntry>, e: LogEntry)
    ensures e in ReadBack(log) <==> e in log && Readable(e)
  {
    if log != [] {
      ReadBackHolds(log[..|log| - 1], e);
      assert log == log[..|log| - 1] + [log[|log| - 1]];
    }
  }

  /** What is reopened is a cross-shard prepare of the log. */
  lemma {:induction false} ReopenedIsPrepared(log: seq<LogEntry>, t: Tid)
    ensures t in Reopened(log) ==> var e := Reopened(log)[t]; e in log && e.tid == t && e.kind.Cross? && e.status.Prepared?
  {
    if log != [] {
      ReopenedIsPrepared(log[..|log| - 1], t);
      assert log == log[..|log| - 1] + [log[|log| - 1]];
    }
  }

  // ---------------------------------------------------------------- events

  datatype Event =
    | Client(call: int, req: TransferReq, cross: bool)
    | OnPrepare(ballot: Ballot, index: int)
    | OnAccept(ballot: Ballot, batch: seq<TransferReq>, at: int)
    | OnCommit(ballot: Ballot)
    | OnSync(lastInserted: int)
    | PrepareAnswer(pout: Outcome<PrepareRes>, asked: Ballot, at: int)
    | AcceptAnswer(aout: Outcome<(Ballot, bool)>, asked: Ballot)
    | SyncAnswer(sout: Outcome<SyncRes>)
    | Decided(tid: Tid, commit: bool)
    | Expired(tid: Tid)
    | Disconnect(on: bool)
    | Crash

  function Step(s: Server, ev: Event): Server {
    match ev
    case Client(call, req, cross) => Enqueue(s, call, req, cross)
    case OnPrepare(b, i) => PrepareCall(s, b, i)
    case OnAccept(b, batch, at) => AcceptCall(s, b, batch, at)
    case OnCommit(b) => CommitCall(s, b)
    case OnSync(last) => SyncCall(s, last)
    case PrepareAnswer(o, asked, at) => PrepareReply(s, o, asked, at)
    case AcceptAnswer(o, asked) => AcceptReply(s, o, asked)
    case SyncAnswer(o) => SyncReply(s, o)
    case Decided(tid, commit) => Decision(s, tid, commit)
    case Expired(tid) => s.(store := Expire(s.cfg, s.store, tid))
    case Disconnect(on) => s.(disconnected := on)
    case Crash => Restart(s)
  }

  function Exec(s: Server, evs: seq<Event>): Server {
    if evs == [] then s else Step(Exec(s, evs[..|evs| - 1]), evs[|evs| - 1])
  }

  // ---------------------------------------------------------------- who sends what

  /** The end of a round stores and answers nothing, and may ask for the next ballot. */
  lemma FinishSame(s: Server)
    ensures FinishRound(s).store == s.store && FinishRound(s).answers == s.answers && FinishRound(s).cfg == s.cfg
    ensures s.out <= FinishRound(s).out && forall m :: m in FinishRound(s).out && m !in s.out ==> m.PrepareMsg?
  {
  }

  lemma VerdictsSend(s: Server, o: Outcome<PrepareRes>, asked: Ballot, now: int, m: Message)
    requires m !in s.out
    ensures m in PrepareVerdict(s, o, asked, now).out ==> m.PrepareMsg? || m.AcceptMsg? || m.SyncMsg?
    ensures m in AcceptVerdict(s).out ==> m.PrepareMsg? || m.CommitMsg?
  {
  }

  /** The kind of a message tells which handler sent it. */
  predicate SentIn(m: Message, ev: Event) {
    match m
    case PrepareMsg(_, _) => ev.Client? || ev.PrepareAnswer? || ev.AcceptAnswer? || ev.SyncAnswer?
    case PrepareReplyMsg(_, _) => ev.OnPrepare?
    case AcceptMsg(_, _) => ev.PrepareAnswer?
    case AcceptReplyMsg(_, _, _) => ev.OnAccept?
    case CommitMsg(_) => ev.AcceptAnswer?
    case SyncMsg(_, _) => ev.OnPrepare? || ev.PrepareAnswer?
    case SyncReplyMsg(_) => ev.OnSync?
  }

  lemma SendsOnly(s: Server, ev: Event, m: Message)
    requires m in Step(s, ev).out && m !in s.out
    ensures SentIn(m, ev)
  {
    match ev
    case PrepareAnswer(o, asked, at) => VerdictsSend(CountPrepare(s, o, asked), o, asked, at, m);
    case AcceptAnswer(o, asked) => VerdictsSend(CountAccept(s, o, asked), Failed, asked, 0, m);
    case _ =>
  }
}
