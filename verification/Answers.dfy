/**
  What a client is told is what the log says (src/server/server.cc: enqueueClientTxn,
  onPrepareQuorum, onAcceptQuorum, onRoundAbort; src/server/in_call.cc: completeTransfer): a
  positive reply has the commit or the prepare of its transaction behind it, at any later time
  and across restarts, and a step that gives a negative one commits nothing.
*/
module Answers {
  import opened Protocol
  import opened ServerSpec
  import opened Kinds
  import Durable
  import Calls

  // ---------------------------------------------------------------- what a reply rests on

  predicate IsPrepare(e: LogEntry) {
    e.kind.Cross? && e.status.Prepared?
  }

  /** Entries that a reply may rest on. */
  predicate Lasting(e: LogEntry) {
    e.status.Committed? || IsPrepare(e)
  }

  ghost predicate HasCommit(log: seq<LogEntry>, t: Tid) {
    exists e :: e in log && e.tid == t && e.status.Committed?
  }

  ghost predicate HasPrepare(log: seq<LogEntry>, r: TransferReq) {
    exists e :: e in log && e.tid == r.tid && e.txn == r.txn && IsPrepare(e)
  }

  /** The call has had its effect: a prepare is logged, or a transfer committed. */
  ghost predicate Done(log: seq<LogEntry>, it: Item) {
    if it.cross then HasPrepare(log, it.req) else HasCommit(log, it.req.tid)
  }

  /** The reply is to a call that came, and if it is positive the call has had its effect. */
  ghost predicate Heard(came: set<Item>, log: seq<LogEntry>, a: Answer) {
    exists it :: it in came && it.call == a.call && it.req.tid == a.tid && (a.ack ==> Done(log, it))
  }

  ghost predicate AllHeard(came: set<Item>, log: seq<LogEntry>, answers: seq<Answer>) {
    forall a :: a in answers ==> Heard(came, log, a)
  }

  ghost predicate AppliedLogged(st: Store) {
    forall t :: t in st.applied ==> HasCommit(st.log, t)
  }

  ghost predicate CrossDone(log: seq<LogEntry>, items: seq<Item>) {
    forall it :: it in items && it.cross ==> Done(log, it)
  }

  ghost predicate Honest(came: set<Item>, s: Server) {
    && (forall it :: it in s.round.current || it in s.round.pending ==> it in came)
    && AllHeard(came, s.store.log, s.answers) && AppliedLogged(s.store)
    && (s.round.awaitAccept ==> CrossDone(s.store.log, s.round.current))
  }

  /** No entry that a reply rests on is lost. */
  ghost predicate Keeps(log: seq<LogEntry>, log': seq<LogEntry>) {
    forall e :: e in log && Lasting(e) ==> e in log'
  }

  lemma KeepsDone(log: seq<LogEntry>, log': seq<LogEntry>, it: Item)
    requires Keeps(log, log') && Done(log, it)
    ensures Done(log', it)
  {
    if it.cross {
      var e :| e in log && e.tid == it.req.tid && e.txn == it.req.txn && IsPrepare(e);
      assert e in log';
    } else {
      var e :| e in log && e.tid == it.req.tid && e.status.Committed?;
      assert e in log';
    }
  }

  lemma KeepsHeard(came: set<Item>, came': set<Item>, log: seq<LogEntry>, log': seq<LogEntry>, answers: seq<Answer>)
    requires came <= came' && Keeps(log, log') && AllHeard(came, log, answers)
    ensures AllHeard(came', log', answers)
  {
    forall a | a in answers ensures Heard(came', log', a) {
      var it :| it in came && it.call == a.call && it.req.tid == a.tid && (a.ack ==> Done(log, it));
      if a.ack {
        KeepsDone(log, log', it);
      }
      assert it in came';
    }
  }

  lemma KeepsCross(log: seq<LogEntry>, log': seq<LogEntry>, items: seq<Item>)
    requires Keeps(log, log') && CrossDone(log, items)
    ensures CrossDone(log', items)
  {
    forall it | it in items && it.cross ensures Done(log', it) {
      KeepsDone(log, log', it);
    }
  }

  lemma KeepsCommit(log: seq<LogEntry>, log': seq<LogEntry>, t: Tid)
    requires Keeps(log, log') && HasCommit(log, t)
    ensures HasCommit(log', t)
  {
    var e :| e in log && e.tid == t && e.status.Committed?;
    assert e in log';
  }

  /** A store that only grew, its applied transactions with their commits. */
  ghost predicate Grew(st: Store, st': Store) {
    Keeps(st.log, st'.log) && (AppliedLogged(st) ==> AppliedLogged(st'))
  }

  lemma GrewTwice(st: Store, mid: Store, st': Store)
    requires Grew(st, mid) && Grew(mid, st')
    ensures Grew(st, st')
  {
  }

  /** One more entry, and perhaps its transaction applied. */
  lemma EntryGrew(st: Store, e: LogEntry, st': Store)
    requires st'.log == st.log + [e] && (st'.applied == st.applied || (st'.applied == st.applied + {e.tid} && e.status.Committed?))
    ensures Grew(st, st') && e in st'.log
  {
    assert e in st'.log;
    if AppliedLogged(st) {
      forall t | t in st'.applied ensures HasCommit(st'.log, t) {
        if t in st.applied {
          KeepsCommit(st.log, st'.log, t);
        }
      }
    }
  }

  // ---------------------------------------------------------------- the log

  lemma CommitGrew(st: Store, r: TransferReq, b: Ballot)
    requires AppliedLogged(st)
    ensures var st' := LogCommit(st, r, b); Grew(st, st') && HasCommit(st'.log, r.tid)
  {
    if r.tid !in st.applied {
      EntryGrew(st, EntryOf(r, b, Intra, Committed), LogCommit(st, r, b));
    }
  }

  lemma DecideGrew(cfg: Config, st: Store, tid: Tid, commit: bool)
    ensures Grew(st, Decide(cfg, st, tid, commit))
  {
    if tid in st.open {
      EntryGrew(st, st.open[tid].(status := if commit then Committed else Aborted), Decide(cfg, st, tid, commit));
    }
  }

  lemma {:induction false} SyncGrew(cfg: Config, st: Store, es: seq<LogEntry>)
    ensures Grew(st, SyncEntries(cfg, st, es))
  {
    if es != [] {
      var mid := SyncEntries(cfg, st, es[..|es| - 1]);
      SyncGrew(cfg, st, es[..|es| - 1]);
      EntryGrew(mid, es[|es| - 1], SyncEntries(cfg, st, es));
      GrewTwice(st, mid, SyncEntries(cfg, st, es));
    }
  }

  lemma {:induction false} AcceptGrew(cfg: Config, st: Store, batch: seq<TransferReq>, b: Ballot, now: int)
    ensures Grew(st, AcceptAll(cfg, st, batch, b, now))
  {
    if batch != [] {
      var mid, r := AcceptAll(cfg, st, batch[..|batch| - 1], b, now), batch[|batch| - 1];
      AcceptGrew(cfg, st, batch[..|batch| - 1], b, now);
      if InCluster(cfg, r.txn.sender) != InCluster(cfg, r.txn.receiver) {
        EntryGrew(mid, EntryOf(r, b, Cross, Prepared), AcceptAll(cfg, st, batch, b, now));
      }
      GrewTwice(st, mid, AcceptAll(cfg, st, batch, b, now));
    }
  }

  lemma {:induction false} CommitAllGrew(cfg: Config, st: Store, batch: seq<TransferReq>, b: Ballot)
    requires AppliedLogged(st)
    ensures Grew(st, CommitAll(cfg, st, batch, b))
  {
    if batch != [] {
      var mid, r := CommitAll(cfg, st, batch[..|batch| - 1], b), batch[|batch| - 1];
      CommitAllGrew(cfg, st, batch[..|batch| - 1], b);
      if BothInside(cfg, r.txn) {
        CommitGrew(mid.(locks := mid.locks - InsideAccounts(cfg, r.txn)), r, b);
      }
      GrewTwice(st, mid, CommitAll(cfg, st, batch, b));
    }
  }

  /** Checking a batch: what is kept across shards is prepared, and the replies are negative and to calls of the batch. */
  lemma {:induction false} ValidateGrew(cfg: Config, st: Store, items: seq<Item>, b: Ballot, now: int)
    requires AppliedLogged(st)
    ensures var v := Validate(cfg, st, items, b, now);
            && Grew(st, v.store) && CrossDone(v.store.log, v.kept) && (forall it :: it in v.kept ==> it in items)
            && forall a :: a in v.answers ==> !a.ack && exists it :: it in items && a == Answer(it.call, false, it.req.tid)
  {
    if items != [] {
      var front, it := items[..|items| - 1], items[|items| - 1];
      var v, w := Validate(cfg, st, front, b, now), Validate(cfg, st, items, b, now);
      ValidateGrew(cfg, st, front, b, now);
      assert it in items && forall x :: x in front ==> x in items;
      AdmitGrew(cfg, v.store, it, b, now);
      if !Blocked(cfg, v.store, it.req.txn) {
        GrewTwice(st, v.store, w.store);
        KeepsCross(v.store.log, w.store.log, v.kept);
      }
    }
  }

  lemma AdmitGrew(cfg: Config, st: Store, it: Item, b: Ballot, now: int)
    requires AppliedLogged(st)
    ensures var st' := Admit(cfg, st, it, b, now); Grew(st, st') && (it.cross ==> Done(st'.log, it))
  {
    if it.cross {
      EntryGrew(st, EntryOf(it.req, b, Cross, Prepared), Admit(cfg, st, it, b, now));
    }
  }

  /** Settling a batch commits every transfer of it. */
  lemma {:induction false} SettleGrew(st: Store, items: seq<Item>, b: Ballot)
    requires AppliedLogged(st)
    ensures var st' := SettleAll(st, items, b); Grew(st, st') && forall it :: it in items && !it.cross ==> Done(st'.log, it)
  {
    if items != [] {
      var front, it := items[..|items| - 1], items[|items| - 1];
      var mid, st' := SettleAll(st, front, b), SettleAll(st, items, b);
      SettleGrew(st, front, b);
      if !it.cross {
        CommitGrew(mid.(locks := mid.locks - {it.req.txn.sender, it.req.txn.receiver}), it.req, b);
      }
      GrewTwice(st, mid, st');
      forall x | x in items && !x.cross ensures Done(st'.log, x) {
        if x in front {
          KeepsDone(mid.log, st'.log, x);
        }
      }
    }
  }

  // ---------------------------------------------------------------- the handlers

  lemma StartHonest(came: set<Item>, s: Server)
    requires Honest(came, s)
    ensures Honest(came, MaybeStartRound(s))
  {
  }

  lemma FinishHonest(came: set<Item>, s: Server)
    requires Honest(came, s.(round := s.round.(awaitAccept := false)))
    ensures Honest(came, FinishRound(s))
  {
    StartHonest(came, s.(acc := s.acc.(promised := false, accepted := false, acceptBatch := []),
                         round := s.round.(running := false, awaitPrepare := false, awaitAccept := false, current := [])));
  }

  lemma RepliesHeard(came: set<Item>, log: seq<LogEntry>, answers: seq<Answer>, items: seq<Item>, ack: bool)
    requires AllHeard(came, log, answers) && forall it :: it in items ==> it in came && (ack ==> Done(log, it))
    ensures AllHeard(came, log, answers + Replies(items, ack))
  {
    forall a | a in Replies(items, ack) ensures Heard(came, log, a) {
      var k :| 0 <= k < |items| && Replies(items, ack)[k] == a;
      assert items[k] in items;
    }
  }

  lemma AcceptQuorumHonest(came: set<Item>, s: Server)
    requires Honest(came, s) && s.round.awaitAccept
    ensures Honest(came, OnAcceptQuorum(s))
  {
    var st, items := SettleAll(s.store, s.round.current, s.acc.acceptNum), s.round.current;
    SettleGrew(s.store, items, s.acc.acceptNum);
    KeepsHeard(came, came, s.store.log, st.log, s.answers);
    KeepsCross(s.store.log, st.log, items);
    RepliesHeard(came, st.log, s.answers, items, true);
    FinishHonest(came, s.(store := st, answers := s.answers + Replies(items, true), round := s.round.(awaitAccept := false),
                          out := s.out + [CommitMsg(s.acc.acceptNum)]));
  }

  lemma AbortHonest(came: set<Item>, s: Server, preparePhase: bool)
    requires Honest(came, s)
    ensures Honest(came, OnRoundAbort(s, preparePhase))
  {
    var locks := if preparePhase then s.store.locks else ReleaseIntra(s.store.locks, s.round.current);
    RepliesHeard(came, s.store.log, s.answers, s.round.current, false);
    FinishHonest(came, s.(store := s.store.(locks := locks), answers := s.answers + Replies(s.round.current, false)));
  }

  lemma PrepareQuorumHonest(came: set<Item>, s: Server, now: int)
    requires Honest(came, s)
    ensures Honest(came, OnPrepareQuorum(s, now))
  {
    var v := Validate(s.cfg, s.store, s.round.current, s.acc.promisedNum, now);
    ValidateGrew(s.cfg, s.store, s.round.current, s.acc.promisedNum, now);
    KeepsHeard(came, came, s.store.log, v.store.log, s.answers);
    forall a | a in v.answers ensures Heard(came, v.store.log, a) {
      var it :| it in s.round.current && a == Answer(it.call, false, it.req.tid);
      assert it in came;
    }
    var s1 := s.(store := v.store, answers := s.answers + v.answers, round := s.round.(awaitPrepare := false, current := v.kept));
    FinishHonest(came, s1);
  }

  lemma PrepareReplyHonest(came: set<Item>, s: Server, o: Outcome<PrepareRes>, asked: Ballot, now: int)
    requires Honest(came, s)
    ensures Honest(came, PrepareVerdict(s, o, asked, now))
  {
    PrepareQuorumHonest(came, s, now);
    AbortHonest(came, s, true);
  }

  lemma AcceptReplyHonest(came: set<Item>, s: Server)
    requires Honest(came, s) && s.round.awaitAccept
    ensures Honest(came, AcceptVerdict(s))
  {
    AcceptQuorumHonest(came, s);
    AbortHonest(came, s, false);
  }

  lemma GrewHonest(came: set<Item>, s: Server, s': Server)
    requires Honest(came, s) && Grew(s.store, s'.store) && s'.round == s.round && s'.answers == s.answers
    ensures Honest(came, s')
  {
    KeepsHeard(came, came, s.store.log, s'.store.log, s.answers);
    if s.round.awaitAccept {
      KeepsCross(s.store.log, s'.store.log, s.round.current);
    }
  }

  lemma SyncReplyHonest(came: set<Item>, s: Server, o: Outcome<SyncRes>)
    requires Honest(came, s)
    ensures Honest(came, SyncReply(s, o))
  {
    var s1 := s;
    if o.Replied? && o.res.ack {
      s1 := Absorb(s, o.res);
      SyncGrew(s.cfg, s.store, o.res.logs);
      GrewHonest(came, s, s1);
    }
    StartHonest(came, s1.(round := s1.round.(inSync := false)));
  }

  lemma RestartHonest(came: set<Item>, s: Server)
    requires Honest(came, s)
    ensures Honest(came, Restart(s))
  {
    forall e | e in s.store.log && Lasting(e) ensures e in ReadBack(s.store.log) {
      ReadBackHolds(s.store.log, e);
    }
    KeepsHeard(came, came, s.store.log, ReadBack(s.store.log), s.answers);
  }

  lemma EnqueueHonest(came: set<Item>, s: Server, it: Item)
    requires Honest(came, s)
    ensures Honest(came + {it}, Enqueue(s, it.call, it.req, it.cross))
  {
    KeepsHeard(came, came + {it}, s.store.log, s.store.log, s.answers);
    if s.disconnected {
      assert Heard(came + {it}, s.store.log, Answer(it.call, false, it.req.tid));
    } else {
      StartHonest(came + {it}, s.(round := s.round.(pending := s.round.pending + [it])));
    }
  }

  lemma PeerCallHonest(came: set<Item>, s: Server, ev: Event)
    requires Honest(came, s) && (ev.OnPrepare? || ev.OnAccept? || ev.OnCommit? || ev.OnSync? || ev.Decided? || ev.Expired? || ev.Disconnect?)
    ensures Honest(came, Step(s, ev))
  {
    match ev
    case OnPrepare(b, i) => PrepareCallHonest(came, s, b, i);
    case OnAccept(b, batch, at) =>
      AcceptGrew(s.cfg, s.store, batch, b, at);
      GrewHonest(came, s, Step(s, ev));
    case OnCommit(b) =>
      CommitAllGrew(s.cfg, s.store, s.acc.acceptBatch, s.acc.acceptNum);
      GrewHonest(came, s, Step(s, ev));
    case OnSync(last) => GrewHonest(came, s, Step(s, ev));
    case Decided(tid, commit) =>
      DecideGrew(s.cfg, s.store, tid, commit);
      GrewHonest(came, s, Step(s, ev));
    case Expired(tid) =>
      DecideGrew(s.cfg, s.store, tid, false);
      GrewHonest(came, s, Step(s, ev));
    case Disconnect(on) => GrewHonest(came, s, Step(s, ev));
  }

  lemma PrepareCallHonest(came: set<Item>, s: Server, b: Ballot, index: int)
    requires Honest(came, s)
    ensures Honest(came, PrepareCall(s, b, index))
  {
  }

  // ---------------------------------------------------------------- runs

  ghost function Arrived(ev: Event): set<Item> {
    if ev.Client? then {Item(ev.req, ev.call, ev.cross)} else {}
  }

  lemma StepHonest(came: set<Item>, s: Server, ev: Event)
    requires Honest(came, s)
    ensures Honest(came + Arrived(ev), Step(s, ev))
  {
    assert !ev.Client? ==> came + Arrived(ev) == came;
    match ev
    case Client(call, req, cross) => EnqueueHonest(came, s, Item(req, call, cross));
    case PrepareAnswer(o, asked, at) => PrepareReplyHonest(came, CountPrepare(s, o, asked), o, asked, at);
    case AcceptAnswer(o, asked) =>
      if s.round.awaitAccept {
        AcceptReplyHonest(came, CountAccept(s, o, asked));
      }
    case SyncAnswer(o) => SyncReplyHonest(came, s, o);
    case Crash => RestartHonest(came, s);
    case _ => PeerCallHonest(came, s, ev);
  }

  /** The calls that reached a server. */
  ghost function Came(evs: seq<Event>): set<Item> {
    if evs == [] then {} else Came(evs[..|evs| - 1]) + Arrived(evs[|evs| - 1])
  }

  lemma {:induction false} RunsStayHonest(cfg: Config, init: map<Account, int>, evs: seq<Event>)
    ensures Honest(Came(evs), Exec(Init(cfg, init), evs))
  {
    if evs != [] {
      RunsStayHonest(cfg, init, evs[..|evs| - 1]);
      StepHonest(Came(evs[..|evs| - 1]), Exec(Init(cfg, init), evs[..|evs| - 1]), evs[|evs| - 1]);
    }
  }

  lemma {:induction false} CameByEvent(evs: seq<Event>, it: Item)
    ensures it in Came(evs) <==> Client(it.call, it.req, it.cross) in evs
  {
    if evs != [] {
      CameByEvent(evs[..|evs| - 1], it);
      assert evs == evs[..|evs| - 1] + [evs[|evs| - 1]];
    }
  }

  /**
    Over every run, crashes included: every reply is to a call that came, and a positive one has the
    prepare of its transfer in the log, or a commit of its transaction.
  */
  lemma AnsweredIsLogged(cfg: Config, init: map<Account, int>, evs: seq<Event>, a: Answer) returns (it: Item)
    requires a in Exec(Init(cfg, init), evs).answers
    ensures Client(it.call, it.req, it.cross) in evs && it.call == a.call && it.req.tid == a.tid
    ensures a.ack ==> Done(Exec(Init(cfg, init), evs).store.log, it)
  {
    var s := Exec(Init(cfg, init), evs);
    RunsStayHonest(cfg, init, evs);
    assert Heard(Came(evs), s.store.log, a);
    it :| it in Came(evs) && it.call == a.call && it.req.tid == a.tid && (a.ack ==> Done(s.store.log, it));
    CameByEvent(evs, it);
  }

  lemma {:induction false} RunsKeepKinds(cfg: Config, init: map<Account, int>, kind: KindOf, evs: seq<Event>)
    requires forall ev :: ev in evs ==> KindEvent(cfg, kind, ev) && Durable.Sane(ev)
    ensures ServerKinds(kind, Exec(Init(cfg, init), evs)) && Exec(Init(cfg, init), evs).cfg == cfg
  {
    if evs != [] {
      var front, ev := evs[..|evs| - 1], evs[|evs| - 1];
      assert ev in evs && forall x :: x in front ==> x in evs;
      RunsKeepKinds(cfg, init, kind, front);
      StepKinds(kind, Exec(Init(cfg, init), front), ev);
      Calls.StepKeepsConfig(Exec(Init(cfg, init), front), ev);
    }
  }

  /** Where each id is used for one kind of transaction, a transfer inside the cluster has its own intra-shard commit. */
  lemma TransferIsCommitted(cfg: Config, init: map<Account, int>, kind: KindOf, evs: seq<Event>, a: Answer) returns (it: Item, e: LogEntry)
    requires forall ev :: ev in evs ==> KindEvent(cfg, kind, ev) && Durable.Sane(ev)
    requires a in Exec(Init(cfg, init), evs).answers && a.ack && kind(a.tid).Intra?
    ensures Client(it.call, it.req, false) in evs && it.call == a.call && it.req.tid == a.tid
    ensures e in Exec(Init(cfg, init), evs).store.log && e.tid == a.tid && e.kind.Intra? && e.status.Committed?
  {
    var log := Exec(Init(cfg, init), evs).store.log;
    it := AnsweredIsLogged(cfg, init, evs, a);
    RunsKeepKinds(cfg, init, kind, evs);
    assert KindEvent(cfg, kind, Client(it.call, it.req, it.cross));
    e :| e in log && e.tid == it.req.tid && e.status.Committed?;
  }

  // ---------------------------------------------------------------- negative replies

  /** Whatever the state: a step that replies negatively to any call commits nothing. */
  ghost predicate RefusesOrCommits(s: Server, s': Server) {
    && s.answers <= s'.answers && s.store.log <= s'.store.log
    && ((forall a :: a in s'.answers[|s.answers|..] ==> a.ack) || (forall e :: e in s'.store.log[|s.store.log|..] ==> !e.status.Committed?))
  }

  lemma {:induction false} ValidateCommitsNone(cfg: Config, st: Store, items: seq<Item>, b: Ballot, now: int)
    ensures var v := Validate(cfg, st, items, b, now);
            st.log <= v.store.log && forall e :: e in v.store.log[|st.log|..] ==> !e.status.Committed?
  {
    if items != [] {
      ValidateCommitsNone(cfg, st, items[..|items| - 1], b, now);
    }
  }

  lemma {:induction false} SettleExtends(st: Store, items: seq<Item>, b: Ballot)
    ensures st.log <= SettleAll(st, items, b).log
  {
    if items != [] {
      SettleExtends(st, items[..|items| - 1], b);
    }
  }

  lemma PrepareQuorumRefuses(s: Server, now: int)
    ensures RefusesOrCommits(s, OnPrepareQuorum(s, now))
  {
    var v := Validate(s.cfg, s.store, s.round.current, s.acc.promisedNum, now);
    ValidateCommitsNone(s.cfg, s.store, s.round.current, s.acc.promisedNum, now);
    FinishSame(s.(store := v.store, answers := s.answers + v.answers, round := s.round.(awaitPrepare := false, current := v.kept)));
  }

  lemma AbortRefuses(s: Server, preparePhase: bool)
    ensures RefusesOrCommits(s, OnRoundAbort(s, preparePhase))
  {
    var locks := if preparePhase then s.store.locks else ReleaseIntra(s.store.locks, s.round.current);
    FinishSame(s.(store := s.store.(locks := locks), answers := s.answers + Replies(s.round.current, false)));
  }

  lemma PrepareVerdictRefuses(s: Server, o: Outcome<PrepareRes>, asked: Ballot, now: int)
    ensures RefusesOrCommits(s, PrepareVerdict(s, o, asked, now))
  {
    PrepareQuorumRefuses(s, now);
    AbortRefuses(s, true);
  }

  lemma AcceptVerdictRefuses(s: Server)
    ensures RefusesOrCommits(s, AcceptVerdict(s))
  {
    var s1 := s.(store := SettleAll(s.store, s.round.current, s.acc.acceptNum), answers := s.answers + Replies(s.round.current, true),
                 round := s.round.(awaitAccept := false), out := s.out + [CommitMsg(s.acc.acceptNum)]);
    SettleExtends(s.store, s.round.current, s.acc.acceptNum);
    FinishSame(s1);
    AbortRefuses(s, false);
  }

  /** Only client calls and replies to own messages make a server reply to calls. */
  lemma OthersSilent(s: Server, ev: Event)
    requires !ev.Client? && !ev.PrepareAnswer? && !ev.AcceptAnswer?
    ensures Step(s, ev).answers == s.answers
  {
  }

  /** A step that replies negatively to a call commits nothing, so no transaction refused in a step is committed by it. */
  lemma NegativeCommitsNothing(s: Server, ev: Event, a: Answer, e: LogEntry)
    requires s.answers <= Step(s, ev).answers && s.store.log <= Step(s, ev).store.log
    requires a in Step(s, ev).answers[|s.answers|..] && !a.ack && e in Step(s, ev).store.log[|s.store.log|..]
    ensures !e.status.Committed?
  {
    match ev
    case PrepareAnswer(o, asked, at) => PrepareVerdictRefuses(CountPrepare(s, o, asked), o, asked, at);
    case AcceptAnswer(o, asked) => AcceptVerdictRefuses(CountAccept(s, o, asked));
    case Client(_, _, _) =>
    case _ => OthersSilent(s, ev);
  }
}
