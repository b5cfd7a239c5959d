/**
  Balances are the ledger: in every run of the handlers (client calls, rounds, peer
  calls, two-phase-commit decisions, timeouts and syncs) the balances are the initial
  ones with the first committed log entry of every transaction applied exactly once.
*/
module Ledger {
  import opened Protocol
  import opened ServerSpec

  ghost function CommittedTids(log: seq<LogEntry>): set<Tid> {
    set e | e in log && e.status.Committed? :: e.tid
  }

  /** The balances a server started with, the transaction that each id stands for, and how many log entries it started with. */
  datatype Book = Book(init: map<Account, int>, txns: Tid -> Transaction, since: nat)

  /** The first committed entry of each tid, applied in log order to the sides in this cluster. */
  ghost function Replay(cfg: Config, init: map<Account, int>, log: seq<LogEntry>): map<Account, int> {
    if log == [] then init
    else
      var front, e := log[..|log| - 1], log[|log| - 1];
      var b := Replay(cfg, init, front);
      if e.status.Committed? && e.tid !in CommittedTids(front) then MoveInside(cfg, b, e.txn) else b
  }

  /**
    The idempotence set is the set of tids committed since the start, the balances are the log
    replayed since then, the Paxos index counts the agreed entries, and every open prepare is one.
  */
  ghost predicate LedgerOk(cfg: Config, bk: Book, st: Store) {
    && bk.since <= |st.log|
    && st.applied == CommittedTids(st.log[bk.since..])
    && st.balances == Replay(cfg, bk.init, st.log[bk.since..])
    && st.paxosIndex + 1 == PaxosCount(st.log)
    && (forall t :: t in st.open ==> IsOpenPrepare(st.open[t], t) && st.open[t].txn == bk.txns(t))
    && (forall e :: e in st.log ==> e.txn == bk.txns(e.tid))
  }

  predicate IsOpenPrepare(e: LogEntry, t: Tid) {
    e.tid == t && e.kind.Cross? && e.status.Prepared?
  }

  lemma CommittedAppend(log: seq<LogEntry>, e: LogEntry)
    ensures CommittedTids(log + [e]) == CommittedTids(log) + (if e.status.Committed? then {e.tid} else {})
  {
    assert forall x :: x in log + [e] <==> x in log || x == e;
  }

  lemma ReplayAppend(cfg: Config, init: map<Account, int>, log: seq<LogEntry>, e: LogEntry)
    ensures Replay(cfg, init, log + [e]) ==
            if e.status.Committed? && e.tid !in CommittedTids(log) then MoveInside(cfg, Replay(cfg, init, log), e.txn) else Replay(cfg, init, log)
  {
    assert (log + [e])[..|log|] == log;
  }

  lemma PaxosCountAppend(log: seq<LogEntry>, e: LogEntry)
    ensures PaxosCount(log + [e]) == PaxosCount(log) + if IsPaxosEntry(e) then 1 else 0
  {
    assert (log + [e])[..|log|] == log;
  }

  /** Appending one entry and updating both sides of the ledger to match. */
  lemma AppendKeeps(cfg: Config, bk: Book, st: Store, e: LogEntry, st': Store)
    requires LedgerOk(cfg, bk, st)
    requires st'.log == st.log + [e]
    requires st'.applied == if e.status.Committed? then st.applied + {e.tid} else st.applied
    requires st'.balances == if e.status.Committed? && e.tid !in st.applied then MoveInside(cfg, st.balances, e.txn) else st.balances
    requires st'.paxosIndex == st.paxosIndex + if IsPaxosEntry(e) then 1 else 0
    requires e.txn == bk.txns(e.tid)
    requires forall t :: t in st'.open ==> (t in st.open && st'.open[t] == st.open[t]) || (IsOpenPrepare(st'.open[t], t) && t == e.tid && st'.open[t].txn == e.txn)
    ensures LedgerOk(cfg, bk, st')
  {
    assert st'.log[bk.since..] == st.log[bk.since..] + [e];
    CommittedAppend(st.log[bk.since..], e);
    ReplayAppend(cfg, bk.init, st.log[bk.since..], e);
    PaxosCountAppend(st.log, e);
    assert forall x :: x in st'.log ==> x in st.log || x == e;
  }

  lemma PrepareKeeps(cfg: Config, bk: Book, st: Store, r: TransferReq, b: Ballot, now: int)
    requires LedgerOk(cfg, bk, st) && r.txn == bk.txns(r.tid)
    ensures LedgerOk(cfg, bk, LogPrepare(st, r, b, now))
  {
    AppendKeeps(cfg, bk, st, EntryOf(r, b, Cross, Prepared), LogPrepare(st, r, b, now));
  }

  lemma CommitKeeps(cfg: Config, bk: Book, st: Store, r: TransferReq, b: Ballot)
    requires LedgerOk(cfg, bk, st) && BothInside(cfg, r.txn) && r.txn == bk.txns(r.tid)
    ensures LedgerOk(cfg, bk, LogCommit(st, r, b))
  {
    if r.tid !in st.applied {
      AppendKeeps(cfg, bk, st, EntryOf(r, b, Intra, Committed), LogCommit(st, r, b));
    }
  }

  lemma DecideKeeps(cfg: Config, bk: Book, st: Store, tid: Tid, commit: bool)
    requires LedgerOk(cfg, bk, st)
    ensures LedgerOk(cfg, bk, Decide(cfg, st, tid, commit))
  {
    if tid in st.open {
      DecisionIsEntry(cfg, bk, st, tid, commit);
      AppendKeeps(cfg, bk, st, st.open[tid].(status := if commit then Committed else Aborted), Decide(cfg, st, tid, commit));
    }
  }

  /** A decision appends the prepared entry with its new status, which is not an agreed entry. */
  lemma DecisionIsEntry(cfg: Config, bk: Book, st: Store, tid: Tid, commit: bool)
    requires tid in st.open && (forall t :: t in st.open ==> IsOpenPrepare(st.open[t], t) && st.open[t].txn == bk.txns(t))
    ensures var e, st' := st.open[tid].(status := if commit then Committed else Aborted), Decide(cfg, st, tid, commit);
            && e.tid == tid && !IsPaxosEntry(e) && e.txn == bk.txns(tid)
            && st'.log == st.log + [e] && st'.open == st.open - {tid} && st'.paxosIndex == st.paxosIndex
            && st'.applied == (if e.status.Committed? then st.applied + {e.tid} else st.applied)
  {
  }

  lemma {:induction false} SyncKeeps(cfg: Config, bk: Book, st: Store, es: seq<LogEntry>)
    requires LedgerOk(cfg, bk, st) && forall e :: e in es ==> e.txn == bk.txns(e.tid)
    ensures LedgerOk(cfg, bk, SyncEntries(cfg, st, es))
  {
    if es != [] {
      var mid := SyncEntries(cfg, st, es[..|es| - 1]);
      SyncKeeps(cfg, bk, st, es[..|es| - 1]);
      AppendKeeps(cfg, bk, mid, es[|es| - 1], SyncEntry(cfg, mid, es[|es| - 1]));
    }
  }

  // ---------------------------------------------------------------- batches

  /** An item sent as a plain transfer has both accounts in this cluster. */
  predicate Booked(cfg: Config, bk: Book, it: Item) {
    it.req.txn == bk.txns(it.req.tid) && (!it.cross ==> BothInside(cfg, it.req.txn))
  }

  ghost predicate AllBooked(cfg: Config, bk: Book, items: seq<Item>) {
    forall it :: it in items ==> Booked(cfg, bk, it)
  }

  ghost predicate AllKnown(bk: Book, batch: seq<TransferReq>) {
    forall r :: r in batch ==> r.txn == bk.txns(r.tid)
  }

  lemma {:induction false} ValidateKeeps(cfg: Config, bk: Book, st: Store, items: seq<Item>, b: Ballot, now: int)
    requires LedgerOk(cfg, bk, st) && AllBooked(cfg, bk, items)
    ensures LedgerOk(cfg, bk, Validate(cfg, st, items, b, now).store)
    ensures forall it :: it in Validate(cfg, st, items, b, now).kept ==> it in items
  {
    if items != [] {
      var front, it := items[..|items| - 1], items[|items| - 1];
      assert it in items;
      ValidateKeeps(cfg, bk, st, front, b, now);
      var v := Validate(cfg, st, front, b, now);
      if !Blocked(cfg, v.store, it.req.txn) && it.cross {
        PrepareKeeps(cfg, bk, v.store.(locks := v.store.locks + InsideAccounts(cfg, it.req.txn)), it.req, b, now);
      }
    }
  }

  lemma {:induction false} SettleKeeps(cfg: Config, bk: Book, st: Store, items: seq<Item>, b: Ballot)
    requires LedgerOk(cfg, bk, st) && AllBooked(cfg, bk, items)
    ensures LedgerOk(cfg, bk, SettleAll(st, items, b))
  {
    if items != [] {
      var front, it := items[..|items| - 1], items[|items| - 1];
      SettleKeeps(cfg, bk, st, front, b);
      if !it.cross {
        var mid := SettleAll(st, front, b);
        assert it in items;
        CommitKeeps(cfg, bk, mid.(locks := mid.locks - {it.req.txn.sender, it.req.txn.receiver}), it.req, b);
      }
    }
  }

  lemma {:induction false} AcceptKeeps(cfg: Config, bk: Book, st: Store, batch: seq<TransferReq>, b: Ballot, now: int)
    requires LedgerOk(cfg, bk, st) && AllKnown(bk, batch)
    ensures LedgerOk(cfg, bk, AcceptAll(cfg, st, batch, b, now))
  {
    if batch != [] {
      var front, r := batch[..|batch| - 1], batch[|batch| - 1];
      assert r in batch;
      AcceptKeeps(cfg, bk, st, front, b, now);
      var mid := AcceptAll(cfg, st, front, b, now);
      PrepareKeeps(cfg, bk, mid.(locks := mid.locks + InsideAccounts(cfg, r.txn)), r, b, now);
    }
  }

  lemma {:induction false} CommitAllKeeps(cfg: Config, bk: Book, st: Store, batch: seq<TransferReq>, b: Ballot)
    requires LedgerOk(cfg, bk, st) && AllKnown(bk, batch)
    ensures LedgerOk(cfg, bk, CommitAll(cfg, st, batch, b))
  {
    if batch != [] {
      var front, r := batch[..|batch| - 1], batch[|batch| - 1];
      assert r in batch;
      CommitAllKeeps(cfg, bk, st, front, b);
      var mid := CommitAll(cfg, st, front, b);
      if BothInside(cfg, r.txn) {
        CommitKeeps(cfg, bk, mid.(locks := mid.locks - InsideAccounts(cfg, r.txn)), r, b);
      }
    }
  }

  // ---------------------------------------------------------------- runs

  ghost predicate LedgerInv(bk: Book, s: Server) {
    && LedgerOk(s.cfg, bk, s.store)
    && AllBooked(s.cfg, bk, s.round.pending) && AllBooked(s.cfg, bk, s.round.current)
    && AllKnown(bk, s.acc.acceptBatch)
  }

  /**
    What client routing and unique transaction ids guarantee about the messages that
    reach a server.
  */
  ghost predicate Legal(cfg: Config, bk: Book, ev: Event) {
    && (ev.Client? ==> Booked(cfg, bk, Item(ev.req, ev.call, ev.cross)))
    && (ev.OnAccept? ==> AllKnown(bk, ev.batch))
    && (ev.SyncAnswer? && ev.sout.Replied? ==> forall e :: e in ev.sout.res.logs ==> e.txn == bk.txns(e.tid))
  }

  lemma FinishKeepsLedger(bk: Book, s: Server)
    requires LedgerOk(s.cfg, bk, s.store) && AllBooked(s.cfg, bk, s.round.pending)
    ensures LedgerInv(bk, FinishRound(s)) && FinishRound(s).cfg == s.cfg
  {
  }

  lemma PrepareQuorumKeeps(bk: Book, s: Server, now: int)
    requires LedgerInv(bk, s)
    ensures LedgerInv(bk, OnPrepareQuorum(s, now)) && OnPrepareQuorum(s, now).cfg == s.cfg
  {
    var v := Validate(s.cfg, s.store, s.round.current, s.acc.promisedNum, now);
    ValidateKeeps(s.cfg, bk, s.store, s.round.current, s.acc.promisedNum, now);
    var s1 := s.(store := v.store, answers := s.answers + v.answers, round := s.round.(awaitPrepare := false, current := v.kept));
    if v.kept == [] {
      FinishKeepsLedger(bk, s1);
    } else {
      var rs := Requests(v.kept);
      forall r | r in rs
        ensures r.txn == bk.txns(r.tid)
      {
        var i :| 0 <= i < |rs| && rs[i] == r;
        assert v.kept[i] in v.kept;
      }
    }
  }

  lemma AcceptQuorumKeeps(bk: Book, s: Server)
    requires LedgerInv(bk, s)
    ensures LedgerInv(bk, OnAcceptQuorum(s)) && OnAcceptQuorum(s).cfg == s.cfg
  {
    SettleKeeps(s.cfg, bk, s.store, s.round.current, s.acc.acceptNum);
    FinishKeepsLedger(bk, s.(store := SettleAll(s.store, s.round.current, s.acc.acceptNum),
                               answers := s.answers + Replies(s.round.current, true),
                               round := s.round.(awaitAccept := false),
                               out := s.out + [CommitMsg(s.acc.acceptNum)]));
  }

  lemma AbortKeeps(bk: Book, s: Server, preparePhase: bool)
    requires LedgerInv(bk, s)
    ensures LedgerInv(bk, OnRoundAbort(s, preparePhase)) && OnRoundAbort(s, preparePhase).cfg == s.cfg
  {
    var locks := if preparePhase then s.store.locks else ReleaseIntra(s.store.locks, s.round.current);
    FinishKeepsLedger(bk, s.(store := s.store.(locks := locks), answers := s.answers + Replies(s.round.current, false)));
  }

  lemma PrepareVerdictKeeps(bk: Book, s: Server, o: Outcome<PrepareRes>, asked: Ballot, now: int)
    requires LedgerInv(bk, s)
    ensures LedgerInv(bk, PrepareVerdict(s, o, asked, now)) && PrepareVerdict(s, o, asked, now).cfg == s.cfg
  {
    PrepareQuorumKeeps(bk, s, now);
    AbortKeeps(bk, s, true);
  }

  lemma PrepareReplyKeeps(bk: Book, s: Server, o: Outcome<PrepareRes>, asked: Ballot, now: int)
    requires LedgerInv(bk, s)
    ensures LedgerInv(bk, PrepareReply(s, o, asked, now)) && PrepareReply(s, o, asked, now).cfg == s.cfg
  {
    PrepareVerdictKeeps(bk, CountPrepare(s, o, asked), o, asked, now);
  }

  lemma AcceptReplyKeeps(bk: Book, s: Server, o: Outcome<(Ballot, bool)>, asked: Ballot)
    requires LedgerInv(bk, s)
    ensures LedgerInv(bk, AcceptReply(s, o, asked)) && AcceptReply(s, o, asked).cfg == s.cfg
  {
    AcceptVerdictKeeps(bk, CountAccept(s, o, asked));
  }

  lemma AcceptVerdictKeeps(bk: Book, s: Server)
    requires LedgerInv(bk, s)
    ensures LedgerInv(bk, AcceptVerdict(s)) && AcceptVerdict(s).cfg == s.cfg
  {
    if s.round.acceptSuccesses >= Majority {
      AcceptQuorumKeeps(bk, s);
    } else {
      AbortKeeps(bk, s, false);
    }
  }

  lemma AbsorbKeeps(bk: Book, s: Server, res: SyncRes)
    requires LedgerInv(bk, s) && forall e :: e in res.logs ==> e.txn == bk.txns(e.tid)
    ensures LedgerInv(bk, Absorb(s, res)) && Absorb(s, res).cfg == s.cfg
  {
    SyncKeeps(s.cfg, bk, s.store, res.logs);
  }

  lemma ResumeKeeps(bk: Book, s: Server)
    requires LedgerInv(bk, s)
    ensures LedgerInv(bk, Resume(s)) && Resume(s).cfg == s.cfg
  {
  }

  lemma SyncReplyKeeps(bk: Book, s: Server, o: Outcome<SyncRes>)
    requires LedgerInv(bk, s) && (o.Replied? ==> forall e :: e in o.res.logs ==> e.txn == bk.txns(e.tid))
    ensures LedgerInv(bk, SyncReply(s, o)) && SyncReply(s, o).cfg == s.cfg
  {
    if o.Replied? && o.res.ack {
      AbsorbKeeps(bk, s, o.res);
      ResumeKeeps(bk, Absorb(s, o.res));
    } else {
      ResumeKeeps(bk, s);
    }
  }

  lemma PeerCallsKeep(bk: Book, s: Server, ev: Event)
    requires LedgerInv(bk, s) && Legal(s.cfg, bk, ev) && (ev.OnPrepare? || ev.OnAccept? || ev.OnCommit? || ev.OnSync?)
    ensures LedgerInv(bk, Step(s, ev)) && Step(s, ev).cfg == s.cfg
  {
    match ev
    case OnPrepare(b, i) =>
    case OnAccept(b, batch, at) => AcceptKeeps(s.cfg, bk, s.store, batch, b, at);
    case OnCommit(b) => CommitAllKeeps(s.cfg, bk, s.store, s.acc.acceptBatch, s.acc.acceptNum);
    case OnSync(last) =>
  }

  lemma StepKeepsLedger(bk: Book, s: Server, ev: Event)
    requires LedgerInv(bk, s) && Legal(s.cfg, bk, ev) && !ev.Crash?
    ensures LedgerInv(bk, Step(s, ev)) && Step(s, ev).cfg == s.cfg
  {
    match ev
    case OnPrepare(_, _) => PeerCallsKeep(bk, s, ev);
    case OnAccept(_, _, _) => PeerCallsKeep(bk, s, ev);
    case OnCommit(_) => PeerCallsKeep(bk, s, ev);
    case OnSync(_) => PeerCallsKeep(bk, s, ev);
    case PrepareAnswer(o, asked, at) => PrepareReplyKeeps(bk, s, o, asked, at);
    case AcceptAnswer(o, asked) => AcceptReplyKeeps(bk, s, o, asked);
    case SyncAnswer(o) => SyncReplyKeeps(bk, s, o);
    case Decided(tid, commit) => DecideKeeps(s.cfg, bk, s.store, tid, commit);
    case Expired(tid) => DecideKeeps(s.cfg, bk, s.store, tid, false);
    case Client(_, _, _) =>
    case Disconnect(_) =>
  }

  // ---------------------------------------------------------------- restarts

  /** A server that restarts begins a new book, with the balances it has. */
  lemma RestartKeepsLedger(bk: Book, s: Server)
    requires LedgerInv(bk, s)
    ensures LedgerInv(Book(s.store.balances, bk.txns, |Restart(s).store.log|), Restart(s)) && Restart(s).cfg == s.cfg
  {
    var s' := Restart(s);
    assert s'.store.log[|s'.store.log|..] == [];
    forall e | e in s'.store.log ensures e.txn == bk.txns(e.tid) {
      ReadBackHolds(s.store.log, e);
    }
    forall t | t in s'.store.open ensures IsOpenPrepare(s'.store.open[t], t) && s'.store.open[t].txn == bk.txns(t) {
      ReopenedIsPrepared(s.store.log, t);
    }
  }

  /** The entries that the incarnations of a server have logged, and how many log entries the present one started with. */
  datatype Lives = Lives(parts: seq<seq<LogEntry>>, since: nat)

  /** With the log after a step, which may be a crash. */
  function NextLives(l: Lives, crash: bool, log: seq<LogEntry>): (l': Lives)
    requires l.parts != []
    ensures l'.parts != []
  {
    if crash then Lives(l.parts + [[]], |log|)
    else Lives(l.parts[..|l.parts| - 1] + [if l.since <= |log| then log[l.since..] else []], l.since)
  }

  ghost function LivesOf(cfg: Config, init: map<Account, int>, evs: seq<Event>): (l: Lives)
    ensures l.parts != []
  {
    if evs == [] then Lives([[]], 0)
    else
      NextLives(LivesOf(cfg, init, evs[..|evs| - 1]), evs[|evs| - 1].Crash?, Exec(Init(cfg, init), evs).store.log)
  }

  /** In each incarnation the first committed entry of each tid is applied. */
  ghost function ReplayEach(cfg: Config, init: map<Account, int>, parts: seq<seq<LogEntry>>): map<Account, int> {
    if parts == [] then init
    else Replay(cfg, ReplayEach(cfg, init, parts[..|parts| - 1]), parts[|parts| - 1])
  }

  /** The book of the present incarnation. */
  ghost function BookOf(cfg: Config, bk: Book, l: Lives): Book
    requires l.parts != []
  {
    Book(ReplayEach(cfg, bk.init, l.parts[..|l.parts| - 1]), bk.txns, l.since)
  }

  ghost predicate AllLogged(bk: Book, parts: seq<seq<LogEntry>>) {
    forall i, e :: 0 <= i < |parts| && e in parts[i] ==> e.txn == bk.txns(e.tid)
  }

  ghost predicate Accounted(cfg: Config, bk: Book, l: Lives, s: Server) {
    && s.cfg == cfg && l.parts != [] && LedgerInv(BookOf(cfg, bk, l), s) && AllLogged(bk, l.parts)
    && l.parts[|l.parts| - 1] == s.store.log[l.since..]
  }

  lemma RestartAccounted(cfg: Config, bk: Book, l: Lives, s: Server)
    requires Accounted(cfg, bk, l, s)
    ensures Accounted(cfg, bk, NextLives(l, true, Restart(s).store.log), Restart(s))
  {
    RestartKeepsLedger(BookOf(cfg, bk, l), s);
    assert (l.parts + [[]])[..|l.parts|] == l.parts;
  }

  lemma StepAccounted(cfg: Config, bk: Book, l: Lives, s: Server, ev: Event)
    requires Accounted(cfg, bk, l, s) && Legal(cfg, bk, ev) && !ev.Crash?
    ensures Accounted(cfg, bk, NextLives(l, false, Step(s, ev).store.log), Step(s, ev))
  {
    StepKeepsLedger(BookOf(cfg, bk, l), s, ev);
    var l' := NextLives(l, false, Step(s, ev).store.log);
    assert l'.parts[..|l'.parts| - 1] == l.parts[..|l.parts| - 1];
  }

  lemma {:induction false} RunsAccounted(cfg: Config, bk: Book, evs: seq<Event>)
    requires forall ev :: ev in evs ==> Legal(cfg, bk, ev)
    ensures Accounted(cfg, bk, LivesOf(cfg, bk.init, evs), Exec(Init(cfg, bk.init), evs))
  {
    if evs != [] {
      var front, ev := evs[..|evs| - 1], evs[|evs| - 1];
      RunsAccounted(cfg, bk, front);
      assert ev in evs;
      if ev.Crash? {
        RestartAccounted(cfg, bk, LivesOf(cfg, bk.init, front), Exec(Init(cfg, bk.init), front));
      } else {
        StepAccounted(cfg, bk, LivesOf(cfg, bk.init, front), Exec(Init(cfg, bk.init), front), ev);
      }
    }
  }

  /**
    Main result: over every run, crashes included, the balances are the initial ones with the first
    committed entry that each incarnation has logged of a transaction applied once.
  */
  lemma BalancesAreTheLedger(cfg: Config, bk: Book, evs: seq<Event>)
    requires forall ev :: ev in evs ==> Legal(cfg, bk, ev)
    ensures var s, l := Exec(Init(cfg, bk.init), evs), LivesOf(cfg, bk.init, evs);
            && s.store.balances == ReplayEach(cfg, bk.init, l.parts) && AllLogged(bk, l.parts)
            && l.since <= |s.store.log| && l.parts[|l.parts| - 1] == s.store.log[l.since..]
            && s.store.applied == CommittedTids(s.store.log[l.since..]) && s.store.paxosIndex + 1 == PaxosCount(s.store.log)
  {
    RunsAccounted(cfg, bk, evs);
  }

  // ---------------------------------------------------------------- once over all incarnations

  ghost function Flat(parts: seq<seq<LogEntry>>): seq<LogEntry> {
    if parts == [] then [] else Flat(parts[..|parts| - 1]) + parts[|parts| - 1]
  }

  /** No transaction is committed in two incarnations. */
  ghost predicate OnceEach(parts: seq<seq<LogEntry>>) {
    forall i, j :: 0 <= i < j < |parts| ==> CommittedTids(parts[i]) !! CommittedTids(parts[j])
  }

  lemma CommittedConcat(a: seq<LogEntry>, b: seq<LogEntry>)
    ensures CommittedTids(a + b) == CommittedTids(a) + CommittedTids(b)
  {
    assert forall x :: x in a + b <==> x in a || x in b;
  }

  lemma {:induction false} ReplayConcat(cfg: Config, init: map<Account, int>, a: seq<LogEntry>, b: seq<LogEntry>)
    requires CommittedTids(a) !! CommittedTids(b)
    ensures Replay(cfg, init, a + b) == Replay(cfg, Replay(cfg, init, a), b)
  {
    if b == [] {
      assert a + b == a;
    } else {
      var front, e := b[..|b| - 1], b[|b| - 1];
      assert b == front + [e] && a + b == (a + front) + [e];
      CommittedAppend(front, e);
      ReplayConcat(cfg, init, a, front);
      CommittedConcat(a, front);
      ReplayAppend(cfg, init, a + front, e);
      ReplayAppend(cfg, Replay(cfg, init, a), front, e);
    }
  }

  lemma {:induction false} FlatCommitted(parts: seq<seq<LogEntry>>, t: Tid)
    ensures t in CommittedTids(Flat(parts)) <==> exists i :: 0 <= i < |parts| && t in CommittedTids(parts[i])
  {
    if parts != [] {
      var front, last := parts[..|parts| - 1], parts[|parts| - 1];
      FlatCommitted(front, t);
      CommittedConcat(Flat(front), last);
      if i :| 0 <= i < |front| && t in CommittedTids(front[i]) {
        assert t in CommittedTids(parts[i]);
      }
      if i :| 0 <= i < |parts| && t in CommittedTids(parts[i]) {
        assert i < |front| ==> t in CommittedTids(front[i]);
      }
    }
  }

  /** If no transaction is committed in two incarnations, each is applied once over all of them. */
  lemma {:induction false} OnceIsReplay(cfg: Config, init: map<Account, int>, parts: seq<seq<LogEntry>>)
    requires OnceEach(parts)
    ensures ReplayEach(cfg, init, parts) == Replay(cfg, init, Flat(parts))
  {
    if parts != [] {
      var front, last := parts[..|parts| - 1], parts[|parts| - 1];
      OnceIsReplay(cfg, init, front);
      forall t | t in CommittedTids(Flat(front)) ensures t !in CommittedTids(last) {
        FlatCommitted(front, t);
        var i :| 0 <= i < |front| && t in CommittedTids(front[i]);
        assert CommittedTids(parts[i]) !! CommittedTids(last);
      }
      ReplayConcat(cfg, init, Flat(front), last);
    }
  }

  // ---------------------------------------------------------------- the position, restarts included

  /** The position counts the agreed entries, and only cross-shard prepares are open. */
  ghost predicate Positioned(st: Store) {
    st.paxosIndex + 1 == PaxosCount(st.log) && forall t :: t in st.open ==> st.open[t].kind.Cross?
  }

  lemma OneMore(st: Store, e: LogEntry, st': Store)
    requires Positioned(st) && st'.log == st.log + [e] && st'.paxosIndex == st.paxosIndex + (if IsPaxosEntry(e) then 1 else 0)
    requires forall t :: t in st'.open ==> st'.open[t].kind.Cross?
    ensures Positioned(st')
  {
    PaxosCountAppend(st.log, e);
  }

  lemma LogPositioned(st: Store, r: TransferReq, b: Ballot, now: int)
    requires Positioned(st)
    ensures Positioned(LogPrepare(st, r, b, now)) && Positioned(LogCommit(st, r, b))
  {
    OneMore(st, EntryOf(r, b, Cross, Prepared), LogPrepare(st, r, b, now));
    if r.tid !in st.applied {
      OneMore(st, EntryOf(r, b, Intra, Committed), LogCommit(st, r, b));
    }
  }

  lemma DecidePositioned(cfg: Config, st: Store, tid: Tid, commit: bool)
    requires Positioned(st)
    ensures Positioned(Decide(cfg, st, tid, commit))
  {
    if tid in st.open {
      OneMore(st, st.open[tid].(status := if commit then Committed else Aborted), Decide(cfg, st, tid, commit));
    }
  }

  lemma {:induction false} SyncPositioned(cfg: Config, st: Store, es: seq<LogEntry>)
    requires Positioned(st)
    ensures Positioned(SyncEntries(cfg, st, es))
  {
    if es != [] {
      SyncPositioned(cfg, st, es[..|es| - 1]);
      OneMore(SyncEntries(cfg, st, es[..|es| - 1]), es[|es| - 1], SyncEntries(cfg, st, es));
    }
  }

  lemma {:induction false} ValidatePositioned(cfg: Config, st: Store, items: seq<Item>, b: Ballot, now: int)
    requires Positioned(st)
    ensures Positioned(Validate(cfg, st, items, b, now).store)
  {
    if items != [] {
      ValidatePositioned(cfg, st, items[..|items| - 1], b, now);
      var st1, it := Validate(cfg, st, items[..|items| - 1], b, now).store, items[|items| - 1];
      LogPositioned(st1.(locks := st1.locks + InsideAccounts(cfg, it.req.txn)), it.req, b, now);
    }
  }

  lemma {:induction false} SettlePositioned(st: Store, items: seq<Item>, b: Ballot)
    requires Positioned(st)
    ensures Positioned(SettleAll(st, items, b))
  {
    if items != [] {
      SettlePositioned(st, items[..|items| - 1], b);
      var st1, it := SettleAll(st, items[..|items| - 1], b), items[|items| - 1];
      LogPositioned(st1.(locks := st1.locks - {it.req.txn.sender, it.req.txn.receiver}), it.req, b, 0);
    }
  }

  lemma {:induction false} BatchPositioned(cfg: Config, st: Store, batch: seq<TransferReq>, b: Ballot, now: int)
    requires Positioned(st)
    ensures Positioned(AcceptAll(cfg, st, batch, b, now)) && Positioned(CommitAll(cfg, st, batch, b))
  {
    if batch != [] {
      var front, r := batch[..|batch| - 1], batch[|batch| - 1];
      BatchPositioned(cfg, st, front, b, now);
      var st1, st2 := AcceptAll(cfg, st, front, b, now), CommitAll(cfg, st, front, b);
      LogPositioned(st1.(locks := st1.locks + InsideAccounts(cfg, r.txn)), r, b, now);
      LogPositioned(st2.(locks := st2.locks - InsideAccounts(cfg, r.txn)), r, b, now);
    }
  }

  lemma PrepareVerdictPositioned(s: Server, o: Outcome<PrepareRes>, asked: Ballot, now: int)
    requires Positioned(s.store)
    ensures Positioned(PrepareVerdict(s, o, asked, now).store)
  {
    PrepareVerdictStores(s, o, asked, now);
    ValidatePositioned(s.cfg, s.store, s.round.current, s.acc.promisedNum, now);
  }

  lemma AcceptVerdictPositioned(s: Server)
    requires Positioned(s.store)
    ensures Positioned(AcceptVerdict(s).store)
  {
    AcceptVerdictStores(s);
    SettlePositioned(s.store, s.round.current, s.acc.acceptNum);
  }

  lemma SyncReplyPositioned(s: Server, o: Outcome<SyncRes>)
    requires Positioned(s.store)
    ensures Positioned(SyncReply(s, o).store)
  {
    if o.Replied? {
      SyncPositioned(s.cfg, s.store, o.res.logs);
    }
  }

  lemma RestartPositioned(s: Server)
    ensures Positioned(Restart(s).store)
  {
    forall t | t in Reopened(s.store.log) ensures Reopened(s.store.log)[t].kind.Cross? {
      ReopenedIsPrepared(s.store.log, t);
    }
  }

  lemma StepPositioned(s: Server, ev: Event)
    requires Positioned(s.store)
    ensures Positioned(Step(s, ev).store)
  {
    match ev
    case OnAccept(b, batch, at) => BatchPositioned(s.cfg, s.store, batch, b, at);
    case OnCommit(b) => BatchPositioned(s.cfg, s.store, s.acc.acceptBatch, s.acc.acceptNum, 0);
    case PrepareAnswer(o, asked, at) => PrepareVerdictPositioned(CountPrepare(s, o, asked), o, asked, at);
    case AcceptAnswer(o, asked) => AcceptVerdictPositioned(CountAccept(s, o, asked));
    case SyncAnswer(o) => SyncReplyPositioned(s, o);
    case Decided(tid, commit) => DecidePositioned(s.cfg, s.store, tid, commit);
    case Expired(tid) => DecidePositioned(s.cfg, s.store, tid, false);
    case Crash => RestartPositioned(s);
    case _ =>
  }

  /** After every handler and every recovery, in any run, the position counts the agreed entries of the log. */
  lemma {:induction false} PositionCountsAgreed(cfg: Config, init: map<Account, int>, evs: seq<Event>)
    ensures var st := Exec(Init(cfg, init), evs).store; st.paxosIndex + 1 == PaxosCount(st.log) && Positioned(st)
  {
    if evs != [] {
      PositionCountsAgreed(cfg, init, evs[..|evs| - 1]);
      StepPositioned(Exec(Init(cfg, init), evs[..|evs| - 1]), evs[|evs| - 1]);
    }
  }
}
