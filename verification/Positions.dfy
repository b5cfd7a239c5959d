/**
  What the counters of a server count (src/server/server.cc): the number and the ballot of the last
  entry by which peers sync, the times by which locks expire, and the failures by which a round
  is given up, each over whole runs and told by the log and the messages alone.
*/
module Positions {
  import opened Protocol
  import opened ServerSpec

  function BallotOf(e: LogEntry): Ballot {
    Ballot(e.ballotNum, e.ballotServerId)
  }

  // ---------------------------------------------------------------- entries appended by rounds

  /** Agreed entries were appended, or nothing; the last one is where the store stands. */
  ghost predicate Rounded(st: Store, st': Store) {
    && st.log <= st'.log && st'.open.Keys >= st.open.Keys
    && if st'.log == st.log then st'.lastInserted == st.lastInserted && st'.lastBallot == st.lastBallot
       else IsPaxosEntry(st'.log[|st'.log| - 1]) && st'.lastInserted == |st'.log| - 1 && st'.lastBallot == BallotOf(st'.log[|st'.log| - 1])
  }

  ghost predicate OpenCross(st: Store) {
    forall t :: t in st.open ==> st.open[t].kind.Cross?
  }

  lemma RoundedTwice(st: Store, mid: Store, st': Store)
    requires Rounded(st, mid) && Rounded(mid, st')
    ensures Rounded(st, st')
  {
  }

  lemma {:induction false} ValidateRounds(cfg: Config, st: Store, items: seq<Item>, b: Ballot, now: int)
    requires OpenCross(st)
    ensures var st' := Validate(cfg, st, items, b, now).store; Rounded(st, st') && OpenCross(st')
  {
    if items != [] {
      var mid := Validate(cfg, st, items[..|items| - 1], b, now).store;
      ValidateRounds(cfg, st, items[..|items| - 1], b, now);
      RoundedTwice(st, mid, Validate(cfg, st, items, b, now).store);
    }
  }

  lemma {:induction false} SettleRounds(st: Store, items: seq<Item>, b: Ballot)
    requires OpenCross(st)
    ensures var st' := SettleAll(st, items, b); Rounded(st, st') && OpenCross(st')
  {
    if items != [] {
      var mid := SettleAll(st, items[..|items| - 1], b);
      SettleRounds(st, items[..|items| - 1], b);
      RoundedTwice(st, mid, SettleAll(st, items, b));
    }
  }

  lemma {:induction false} AcceptRounds(cfg: Config, st: Store, batch: seq<TransferReq>, b: Ballot, now: int)
    requires OpenCross(st)
    ensures var st' := AcceptAll(cfg, st, batch, b, now); Rounded(st, st') && OpenCross(st')
  {
    if batch != [] {
      var mid := AcceptAll(cfg, st, batch[..|batch| - 1], b, now);
      AcceptRounds(cfg, st, batch[..|batch| - 1], b, now);
      RoundedTwice(st, mid, AcceptAll(cfg, st, batch, b, now));
    }
  }

  lemma {:induction false} CommitRounds(cfg: Config, st: Store, batch: seq<TransferReq>, b: Ballot)
    requires OpenCross(st)
    ensures var st' := CommitAll(cfg, st, batch, b); Rounded(st, st') && OpenCross(st')
  {
    if batch != [] {
      var mid := CommitAll(cfg, st, batch[..|batch| - 1], b);
      CommitRounds(cfg, st, batch[..|batch| - 1], b);
      RoundedTwice(st, mid, CommitAll(cfg, st, batch, b));
    }
  }

  lemma {:induction false} SyncAppends(cfg: Config, st: Store, es: seq<LogEntry>)
    requires OpenCross(st)
    ensures var st' := SyncEntries(cfg, st, es);
            st'.log == st.log + es && OpenCross(st') && st'.lastInserted == st.lastInserted && st'.lastBallot == st.lastBallot && st'.stamps == st.stamps
  {
    if es == [] {
      assert st.log + es == st.log;
    } else {
      SyncAppends(cfg, st, es[..|es| - 1]);
      assert st.log + es == st.log + es[..|es| - 1] + [es[|es| - 1]];
    }
  }

  // ---------------------------------------------------------------- where a server stands

  /** How many outcomes the server has appended since the last agreed entry of a round, or since it started. */
  ghost function Lag(s0: Server, evs: seq<Event>): int {
    if evs == [] then 0
    else
      var front, ev := evs[..|evs| - 1], evs[|evs| - 1];
      var log, log' := Exec(s0, front).store.log, Exec(s0, evs).store.log;
      if ev.Crash? then 0
      else if ev.SyncAnswer? || log' == log || log' == [] then Lag(s0, front)
      else if IsPaxosEntry(log'[|log'| - 1]) then 0 else Lag(s0, front) + 1
  }

  /** The ballot of that entry, or what a peer reported since, or that of the last entry recovered. */
  ghost function LastRound(s0: Server, evs: seq<Event>): Ballot {
    if evs == [] then NoBallot
    else
      var front, ev := evs[..|evs| - 1], evs[|evs| - 1];
      var log, log' := Exec(s0, front).store.log, Exec(s0, evs).store.log;
      if ev.Crash? then (if log' == [] then NoBallot else BallotOf(log'[|log'| - 1]))
      else if ev.SyncAnswer? then (if ev.sout.Replied? && ev.sout.res.ack then ev.sout.res.lastBallot else LastRound(s0, front))
      else if log' != log && log' != [] && IsPaxosEntry(log'[|log'| - 1]) then BallotOf(log'[|log'| - 1])
      else LastRound(s0, front)
  }

  /** One step of the two. */
  ghost predicate Moved(s: Server, ev: Event, s': Server) {
    var st, st' := s.store, s'.store;
    && OpenCross(st')
    && if ev.Crash? then st'.lastInserted == |st'.log| - 1 && st'.lastBallot == (if st'.log == [] then NoBallot else BallotOf(st'.log[|st'.log| - 1]))
       else if ev.SyncAnswer? then
         if ev.sout.Replied? && ev.sout.res.ack
         then st'.lastInserted - st.lastInserted == |st'.log| - |st.log| && st'.lastBallot == ev.sout.res.lastBallot
         else st'.log == st.log && st'.lastInserted == st.lastInserted && st'.lastBallot == st.lastBallot
       else Rounded(st, st') || Outcome(st, st')
  }

  /** One outcome was appended. */
  predicate Outcome(st: Store, st': Store) {
    && |st'.log| == |st.log| + 1 && st'.log[..|st.log|] == st.log && !IsPaxosEntry(st'.log[|st.log|])
    && st'.lastInserted == st.lastInserted && st'.lastBallot == st.lastBallot
  }

  lemma DecideMoves(cfg: Config, st: Store, tid: Tid, commit: bool)
    requires OpenCross(st)
    ensures var st' := Decide(cfg, st, tid, commit);
            OpenCross(st') && (Outcome(st, st') || (st'.log == st.log && st'.lastInserted == st.lastInserted && st'.lastBallot == st.lastBallot && st'.open == st.open))
  {
  }

  lemma RestartMoves(s: Server)
    ensures Moved(s, Crash, Restart(s))
  {
    forall t | t in Reopened(s.store.log) ensures Reopened(s.store.log)[t].kind.Cross? {
      ReopenedIsPrepared(s.store.log, t);
    }
  }

  lemma PrepareReplyMoves(s: Server, o: Outcome<PrepareRes>, asked: Ballot, now: int)
    requires OpenCross(s.store)
    ensures var st := PrepareReply(s, o, asked, now).store; Rounded(s.store, st) && OpenCross(st)
  {
    PrepareVerdictStores(CountPrepare(s, o, asked), o, asked, now);
    ValidateRounds(s.cfg, s.store, s.round.current, s.acc.promisedNum, now);
  }

  lemma AcceptReplyMoves(s: Server, o: Outcome<(Ballot, bool)>, asked: Ballot)
    requires OpenCross(s.store)
    ensures var st := AcceptReply(s, o, asked).store; Rounded(s.store, st) && OpenCross(st)
  {
    AcceptReplyStores(s, o, asked);
    SettleRounds(s.store, s.round.current, s.acc.acceptNum);
  }

  lemma StepMoves(s: Server, ev: Event)
    requires OpenCross(s.store)
    ensures Moved(s, ev, Step(s, ev))
  {
    match ev
    case OnAccept(b, batch, at) => AcceptRounds(s.cfg, s.store, batch, b, at);
    case OnCommit(b) => CommitRounds(s.cfg, s.store, s.acc.acceptBatch, s.acc.acceptNum);
    case PrepareAnswer(o, asked, at) => PrepareReplyMoves(s, o, asked, at);
    case AcceptAnswer(o, asked) => AcceptReplyMoves(s, o, asked);
    case SyncAnswer(o) =>
      if o.Replied? && o.res.ack {
        SyncAppends(s.cfg, s.store, o.res.logs);
      }
    case Decided(tid, commit) => DecideMoves(s.cfg, s.store, tid, commit);
    case Expired(tid) => DecideMoves(s.cfg, s.store, tid, false);
    case Crash => RestartMoves(s);
    case _ => QuietMoves(s, ev);
  }

  lemma QuietMoves(s: Server, ev: Event)
    requires ev.Client? || ev.OnPrepare? || ev.OnSync? || ev.Disconnect?
    ensures Step(s, ev).store == s.store
  {
  }

  /**
    Over every run, crashes and syncs included: the entry number by which a server asks for a sync is
    the length of its log less the outcomes appended since the last agreed entry of a round, and the
    ballot it reports is that entry's, or what a peer reported since.
  */
  lemma {:induction false} LastEntryIs(cfg: Config, init: map<Account, int>, evs: seq<Event>)
    ensures var st, s0 := Exec(Init(cfg, init), evs).store, Init(cfg, init);
            OpenCross(st) && st.lastInserted == |st.log| - 1 - Lag(s0, evs) && st.lastBallot == LastRound(s0, evs)
  {
    if evs != [] {
      var s0, front, ev := Init(cfg, init), evs[..|evs| - 1], evs[|evs| - 1];
      LastEntryIs(cfg, init, front);
      StepMoves(Exec(s0, front), ev);
      MovedOn(Exec(s0, front), ev, Exec(s0, evs), Lag(s0, front), LastRound(s0, front), Lag(s0, evs), LastRound(s0, evs));
    }
  }

  lemma MovedOn(s: Server, ev: Event, s': Server, lag: int, last: Ballot, lag': int, last': Ballot)
    requires Moved(s, ev, s') && s.store.lastInserted == |s.store.log| - 1 - lag && s.store.lastBallot == last
    requires var log, log' := s.store.log, s'.store.log;
             lag' == if ev.Crash? then 0 else if ev.SyncAnswer? || log' == log || log' == [] then lag else if IsPaxosEntry(log'[|log'| - 1]) then 0 else lag + 1
    requires var log, log' := s.store.log, s'.store.log;
             last' == if ev.Crash? then (if log' == [] then NoBallot else BallotOf(log'[|log'| - 1]))
                      else if ev.SyncAnswer? then (if ev.sout.Replied? && ev.sout.res.ack then ev.sout.res.lastBallot else last)
                      else if log' != log && log' != [] && IsPaxosEntry(log'[|log'| - 1]) then BallotOf(log'[|log'| - 1]) else last
    ensures s'.store.lastInserted == |s'.store.log| - 1 - lag' && s'.store.lastBallot == last'
  {
  }

  // ---------------------------------------------------------------- how long a prepare is open

  /** The part of a log that a step appended. */
  function Added(st: Store, st': Store): seq<LogEntry> {
    if |st.log| <= |st'.log| then st'.log[|st.log|..] else []
  }

  predicate About(es: seq<LogEntry>, t: Tid) {
    exists e :: e in es && e.tid == t
  }

  /** Transactions prepared in the step are stamped, and no others. */
  ghost predicate Stamped(st: Store, st': Store, now: int) {
    && st.log <= st'.log
    && forall t :: if About(Added(st, st'), t) then t in st'.stamps && st'.stamps[t] == now
                   else (t in st'.stamps <==> t in st.stamps) && (t in st.stamps ==> st'.stamps[t] == st.stamps[t])
  }

  lemma StampOne(st: Store, r: TransferReq, b: Ballot, now: int)
    ensures Stamped(st, LogPrepare(st, r, b, now), now)
  {
    var st' := LogPrepare(st, r, b, now);
    var e := EntryOf(r, b, Cross, Prepared);
    assert Added(st, st') == [e];
    forall t ensures About(Added(st, st'), t) <==> t == r.tid {
      assert t == r.tid ==> e in Added(st, st');
    }
  }

  lemma StampedTwice(st: Store, mid: Store, st': Store, now: int)
    requires Stamped(st, mid, now) && Stamped(mid, st', now)
    ensures Stamped(st, st', now)
  {
    assert Added(st, st') == Added(st, mid) + Added(mid, st');
    forall t ensures About(Added(st, st'), t) <==> About(Added(st, mid), t) || About(Added(mid, st'), t) {
      if About(Added(st, mid), t) {
        var e :| e in Added(st, mid) && e.tid == t;
        assert e in Added(st, st');
      }
      if About(Added(mid, st'), t) {
        var e :| e in Added(mid, st') && e.tid == t;
        assert e in Added(st, st');
      }
    }
  }

  lemma StampedNone(st: Store, st': Store, now: int)
    requires st'.log == st.log && st'.stamps == st.stamps
    ensures Stamped(st, st', now)
  {
    assert Added(st, st') == [];
  }

  lemma {:induction false} ValidateStamps(cfg: Config, st: Store, items: seq<Item>, b: Ballot, now: int)
    ensures Stamped(st, Validate(cfg, st, items, b, now).store, now)
  {
    if items == [] {
      StampedNone(st, st, now);
    } else {
      var v, it := Validate(cfg, st, items[..|items| - 1], b, now), items[|items| - 1];
      ValidateStamps(cfg, st, items[..|items| - 1], b, now);
      if !Blocked(cfg, v.store, it.req.txn) {
        var st1 := v.store.(locks := v.store.locks + InsideAccounts(cfg, it.req.txn));
        StampOne(st1, it.req, b, now);
        StampedNone(v.store, st1, now);
        StampedTwice(st, v.store, st1, now);
        if it.cross {
          StampedTwice(st, st1, LogPrepare(st1, it.req, b, now), now);
        }
      }
    }
  }

  lemma {:induction false} AcceptStamps(cfg: Config, st: Store, batch: seq<TransferReq>, b: Ballot, now: int)
    ensures Stamped(st, AcceptAll(cfg, st, batch, b, now), now)
  {
    if batch == [] {
      StampedNone(st, st, now);
    } else {
      var mid, r := AcceptAll(cfg, st, batch[..|batch| - 1], b, now), batch[|batch| - 1];
      AcceptStamps(cfg, st, batch[..|batch| - 1], b, now);
      var st1 := mid.(locks := mid.locks + InsideAccounts(cfg, r.txn));
      StampOne(st1, r, b, now);
      StampedNone(mid, st1, now);
      StampedTwice(st, mid, st1, now);
      if InCluster(cfg, r.txn.sender) != InCluster(cfg, r.txn.receiver) {
        StampedTwice(st, st1, LogPrepare(st1, r, b, now), now);
      }
    }
  }

  lemma {:induction false} SettleStamps(st: Store, items: seq<Item>, b: Ballot)
    ensures SettleAll(st, items, b).stamps == st.stamps
  {
    if items != [] {
      SettleStamps(st, items[..|items| - 1], b);
    }
  }

  lemma {:induction false} CommitStamps(cfg: Config, st: Store, batch: seq<TransferReq>, b: Ballot)
    ensures CommitAll(cfg, st, batch, b).stamps == st.stamps
  {
    if batch != [] {
      CommitStamps(cfg, st, batch[..|batch| - 1], b);
    }
  }

  /** Since when the transaction is open by a prepare of a round here: the time of the step that logged it, until it is decided. */
  ghost function OpenSince(s0: Server, evs: seq<Event>, t: Tid): Option<int> {
    if evs == [] then None
    else
      var front, ev := evs[..|evs| - 1], evs[|evs| - 1];
      var s, s' := Exec(s0, front), Exec(s0, evs);
      if ev.Crash? || (ev.Expired? && ev.tid == t) || (ev.Decided? && ev.tid == t && !s.disconnected) then None
      else if (ev.PrepareAnswer? || ev.OnAccept?) && About(Added(s.store, s'.store), t) then Some(ev.at)
      else OpenSince(s0, front, t)
  }

  /** One step of that. */
  ghost predicate Restamped(s: Server, ev: Event, s': Server, t: Tid) {
    var old0, new0 := s.store.stamps, s'.store.stamps;
    if ev.Crash? || (ev.Expired? && ev.tid == t) || (ev.Decided? && ev.tid == t && !s.disconnected) then t !in new0
    else if (ev.PrepareAnswer? || ev.OnAccept?) && About(Added(s.store, s'.store), t) then t in new0 && new0[t] == ev.at
    else (t in new0 <==> t in old0) && (t in old0 ==> new0[t] == old0[t])
  }

  lemma PrepareReplyStamps(s: Server, o: Outcome<PrepareRes>, asked: Ballot, now: int)
    ensures Stamped(s.store, PrepareReply(s, o, asked, now).store, now)
  {
    PrepareVerdictStores(CountPrepare(s, o, asked), o, asked, now);
    ValidateStamps(s.cfg, s.store, s.round.current, s.acc.promisedNum, now);
    StampedNone(s.store, s.store, now);
  }

  lemma AcceptReplyStamps(s: Server, o: Outcome<(Ballot, bool)>, asked: Ballot)
    ensures AcceptReply(s, o, asked).store.stamps == s.store.stamps
  {
    AcceptReplyStores(s, o, asked);
    SettleStamps(s.store, s.round.current, s.acc.acceptNum);
  }

  lemma StepStamps(s: Server, ev: Event, t: Tid)
    requires OpenCross(s.store)
    ensures Restamped(s, ev, Step(s, ev), t)
  {
    match ev
    case OnAccept(b, batch, at) =>
      AcceptStamps(s.cfg, s.store, batch, b, at);
      StampedNone(s.store, s.store, at);
    case OnCommit(b) => CommitStamps(s.cfg, s.store, s.acc.acceptBatch, s.acc.acceptNum);
    case PrepareAnswer(o, asked, at) => PrepareReplyStamps(s, o, asked, at);
    case AcceptAnswer(o, asked) => AcceptReplyStamps(s, o, asked);
    case SyncAnswer(o) =>
      if o.Replied? && o.res.ack {
        SyncAppends(s.cfg, s.store, o.res.logs);
      }
    case Decided(tid, commit) =>
    case Expired(tid) =>
    case Crash =>
    case _ => QuietMoves(s, ev);
  }

  /** Over every run the sweep for timeouts knows each transaction since exactly when it was prepared here. */
  lemma {:induction false} StampsAreOpenSince(cfg: Config, init: map<Account, int>, evs: seq<Event>, t: Tid)
    ensures var stamps, since := Exec(Init(cfg, init), evs).store.stamps, OpenSince(Init(cfg, init), evs, t);
            (t in stamps <==> since.Some?) && (t in stamps ==> since == Some(stamps[t]))
  {
    if evs != [] {
      var front := evs[..|evs| - 1];
      StampsAreOpenSince(cfg, init, front, t);
      LastEntryIs(cfg, init, front);
      StepStamps(Exec(Init(cfg, init), front), evs[|evs| - 1], t);
    }
  }

  // ---------------------------------------------------------------- when a round is given up

  /** The step asks for a ballot, or proposes a batch. */
  predicate Asks(s: Server, s': Server) {
    |s'.out| > |s.out| && s'.out[|s'.out| - 1].PrepareMsg?
  }

  predicate Proposes(s: Server, s': Server) {
    |s'.out| > |s.out| && s'.out[|s'.out| - 1].AcceptMsg?
  }

  /** The reply refuses the ballot being prepared, or did not come in time. */
  predicate Refused(s: Server, ev: Event) {
    ev.PrepareAnswer? && s.round.awaitPrepare && PrepareMatches(s, ev.pout, ev.asked) && !(ev.pout.Replied? && ev.pout.res.ack)
  }

  predicate Rejected(s: Server, ev: Event) {
    ev.AcceptAnswer? && s.round.awaitAccept && AcceptMatches(s, ev.aout, ev.asked) && !(ev.aout.Replied? && ev.aout.res.1)
  }

  /** Refusals since the last ballot was asked for. */
  ghost function Refusals(s0: Server, evs: seq<Event>): int {
    if evs == [] then 0
    else
      var front, ev := evs[..|evs| - 1], evs[|evs| - 1];
      var s, s' := Exec(s0, front), Exec(s0, evs);
      if Asks(s, s') then 0 else Refusals(s0, front) + if Refused(s, ev) then 1 else 0
  }

  /** Rejections since the last batch was proposed. */
  ghost function Rejections(s0: Server, evs: seq<Event>): int {
    if evs == [] then 0
    else
      var front, ev := evs[..|evs| - 1], evs[|evs| - 1];
      var s, s' := Exec(s0, front), Exec(s0, evs);
      if Proposes(s, s') then 0 else Rejections(s0, front) + if Rejected(s, ev) then 1 else 0
  }

  /** One step of both. */
  ghost predicate Counted(s: Server, ev: Event, s': Server) {
    && (s'.round.awaitPrepare ==> if Asks(s, s') then s'.round.prepareFailures == 0
                                  else s.round.awaitPrepare && s'.round.prepareFailures == s.round.prepareFailures + if Refused(s, ev) then 1 else 0)
    && (s'.round.awaitAccept ==> if Proposes(s, s') then s'.round.acceptFailures == 0
                                 else s.round.awaitAccept && s'.round.acceptFailures == s.round.acceptFailures + if Rejected(s, ev) then 1 else 0)
  }

  ghost predicate Waiting(s: Server) {
    && (s.round.awaitPrepare ==> s.round.prepareSuccesses == 1 && s.round.prepareFailures < Majority)
    && (s.round.awaitAccept ==> s.round.acceptSuccesses == 1 && s.round.acceptFailures < Majority)
    && !(s.round.awaitPrepare && s.round.awaitAccept)
  }

  lemma StartCounts(s: Server, s1: Server, ev: Event)
    requires Waiting(s1) && s1.out == s.out && !ev.PrepareAnswer? && !ev.AcceptAnswer? && s1.round.awaitPrepare == s.round.awaitPrepare
    requires s1.round.awaitAccept == s.round.awaitAccept && s1.round.prepareFailures == s.round.prepareFailures && s1.round.acceptFailures == s.round.acceptFailures
    ensures Counted(s, ev, MaybeStartRound(s1)) && Waiting(MaybeStartRound(s1))
    ensures Counted(s, ev, ReissuePrepare(s1)) && Waiting(ReissuePrepare(s1))
  {
  }

  lemma FinishCounts(s: Server, s1: Server, ev: Event)
    requires s.out <= s1.out
    ensures Counted(s, ev, FinishRound(s1)) && Waiting(FinishRound(s1))
  {
  }

  lemma QuorumCounts(s: Server, s1: Server, ev: Event, now: int)
    requires s1.out == s.out
    ensures Counted(s, ev, OnPrepareQuorum(s1.(round := s1.round.(awaitAccept := false)), now))
    ensures Waiting(OnPrepareQuorum(s1.(round := s1.round.(awaitAccept := false)), now))
  {
    var s2 := s1.(round := s1.round.(awaitAccept := false));
    var v := Validate(s2.cfg, s2.store, s2.round.current, s2.acc.promisedNum, now);
    FinishCounts(s, s2.(store := v.store, answers := s2.answers + v.answers, round := s2.round.(awaitPrepare := false, current := v.kept)), ev);
  }

  /** Counted, and waiting as a server does. */
  ghost predicate Sound(s: Server, ev: Event, s': Server) {
    Counted(s, ev, s') && Waiting(s')
  }

  lemma ReissueCounts(s: Server, s1: Server, ev: Event)
    requires s1.out == s.out
    ensures Sound(s, ev, ReissuePrepare(s1))
  {
  }

  lemma AbortCounts(s: Server, s1: Server, ev: Event, preparePhase: bool)
    requires s1.out == s.out
    ensures Sound(s, ev, OnRoundAbort(s1, preparePhase))
  {
    var locks := if preparePhase then s1.store.locks else ReleaseIntra(s1.store.locks, s1.round.current);
    FinishCounts(s, s1.(store := s1.store.(locks := locks), answers := s1.answers + Replies(s1.round.current, false)), ev);
  }

  lemma SyncCounts(s: Server, s1: Server, ev: Event, m: Message)
    requires s1.out == s.out && m.SyncMsg? && !s1.round.awaitAccept
    ensures Sound(s, ev, s1.(round := s1.round.(inSync := true, awaitPrepare := false), out := s1.out + [m]))
  {
  }

  lemma PrepareReplyCounts(s: Server, o: Outcome<PrepareRes>, asked: Ballot, now: int)
    requires Waiting(s)
    ensures Sound(s, PrepareAnswer(o, asked, now), PrepareReply(s, o, asked, now))
  {
    if s.round.awaitPrepare {
      var s1, ev := CountPrepare(s, o, asked), PrepareAnswer(o, asked, now);
      assert s1.(round := s1.round.(awaitAccept := false)) == s1;
      if o.Replied? && PrepareMatches(s, o, asked) && o.res.latestBallotNum.Some? {
        ReissueCounts(s, s1.(acc := s1.acc.(ballotNum := o.res.latestBallotNum.value)), ev);
      } else if Redirects(s, o, asked) {
        SyncCounts(s, s1, ev, SyncMsg(o.res.serverId, s1.store.lastInserted));
      } else if s1.round.prepareSuccesses >= Majority {
        QuorumCounts(s, s1, ev, now);
      } else if s1.round.prepareFailures >= Majority {
        AbortCounts(s, s1, ev, true);
      }
    }
  }

  lemma AcceptReplyCounts(s: Server, o: Outcome<(Ballot, bool)>, asked: Ballot)
    requires Waiting(s)
    ensures Sound(s, AcceptAnswer(o, asked), AcceptReply(s, o, asked))
  {
    if s.round.awaitAccept {
      var s1, ev := CountAccept(s, o, asked), AcceptAnswer(o, asked);
      FinishCounts(s, s1.(store := SettleAll(s1.store, s1.round.current, s1.acc.acceptNum), answers := s1.answers + Replies(s1.round.current, true),
                          round := s1.round.(awaitAccept := false), out := s1.out + [CommitMsg(s1.acc.acceptNum)]), ev);
      AbortCounts(s, s1, ev, false);
    }
  }

  lemma PeerCallCounts(s: Server, ev: Event)
    requires Waiting(s) && (ev.OnPrepare? || ev.OnAccept? || ev.OnCommit? || ev.OnSync? || ev.Decided? || ev.Expired? || ev.Disconnect? || ev.Crash?)
    ensures Counted(s, ev, Step(s, ev)) && Waiting(Step(s, ev))
  {
  }

  lemma EnqueueCounts(s: Server, call: int, req: TransferReq, cross: bool)
    requires Waiting(s)
    ensures Sound(s, Client(call, req, cross), Enqueue(s, call, req, cross))
  {
    if !s.disconnected {
      StartCounts(s, s.(round := s.round.(pending := s.round.pending + [Item(req, call, cross)])), Client(call, req, cross));
    }
  }

  lemma SyncReplyCounts(s: Server, o: Outcome<SyncRes>)
    requires Waiting(s)
    ensures Sound(s, SyncAnswer(o), SyncReply(s, o))
  {
    var s1 := if o.Replied? && o.res.ack then Absorb(s, o.res) else s;
    StartCounts(s, s1.(round := s1.round.(inSync := false)), SyncAnswer(o));
  }

  lemma StepCounts(s: Server, ev: Event)
    requires Waiting(s)
    ensures Sound(s, ev, Step(s, ev))
  {
    match ev
    case Client(call, req, cross) => EnqueueCounts(s, call, req, cross);
    case PrepareAnswer(o, asked, at) => PrepareReplyCounts(s, o, asked, at);
    case AcceptAnswer(o, asked) => AcceptReplyCounts(s, o, asked);
    case SyncAnswer(o) => SyncReplyCounts(s, o);
    case _ => PeerCallCounts(s, ev);
  }

  lemma {:induction false} FailuresAreCounted(cfg: Config, init: map<Account, int>, evs: seq<Event>)
    ensures var s, s0 := Exec(Init(cfg, init), evs), Init(cfg, init);
            && Waiting(s)
            && (s.round.awaitPrepare ==> s.round.prepareFailures == Refusals(s0, evs))
            && (s.round.awaitAccept ==> s.round.acceptFailures == Rejections(s0, evs))
  {
    if evs != [] {
      var front := evs[..|evs| - 1];
      FailuresAreCounted(cfg, init, front);
      StepCounts(Exec(Init(cfg, init), front), evs[|evs| - 1]);
    }
  }

  /** The reply asks for a higher number or for a sync instead. */
  predicate Redirects(s: Server, o: Outcome<PrepareRes>, asked: Ballot) {
    && o.Replied? && PrepareMatches(s, o, asked)
    && (o.res.latestBallotNum.Some? || (o.res.paxosIndex.Some? && o.res.paxosIndex.value > s.store.paxosIndex))
  }

  /**
    In every reachable state that waits for promises, a reply makes the server give the round up exactly
    if it is the second refusal of the ballot and asks for neither a higher number nor a sync.
  */
  lemma GivesUpOnSecondRefusal(cfg: Config, init: map<Account, int>, evs: seq<Event>, o: Outcome<PrepareRes>, asked: Ballot, now: int)
    requires Exec(Init(cfg, init), evs).round.awaitPrepare
    ensures var s := Exec(Init(cfg, init), evs);
            if Refused(s, PrepareAnswer(o, asked, now)) && Refusals(Init(cfg, init), evs) == 1 && !Redirects(s, o, asked)
            then PrepareReply(s, o, asked, now) == OnRoundAbort(CountPrepare(s, o, asked), true)
            else Redirects(s, o, asked) || PrepareReply(s, o, asked, now) == (if CountPrepare(s, o, asked).round.prepareSuccesses == 2
                                                                              then OnPrepareQuorum(CountPrepare(s, o, asked), now) else CountPrepare(s, o, asked))
  {
    FailuresAreCounted(cfg, init, evs);
  }

  /** The same for a proposal: given up on the second rejection, committed on the first acceptance. */
  lemma GivesUpOnSecondRejection(cfg: Config, init: map<Account, int>, evs: seq<Event>, o: Outcome<(Ballot, bool)>, asked: Ballot)
    requires Exec(Init(cfg, init), evs).round.awaitAccept
    ensures var s := Exec(Init(cfg, init), evs);
            var s1, s' := CountAccept(s, o, asked), AcceptReply(s, o, asked);
            if Rejected(s, AcceptAnswer(o, asked)) && Rejections(Init(cfg, init), evs) == 1 then s' == OnRoundAbort(s1, false)
            else if AcceptMatches(s, o, asked) && !Rejected(s, AcceptAnswer(o, asked)) then s' == OnAcceptQuorum(s1) else s' == s1
  {
    FailuresAreCounted(cfg, init, evs);
  }
}
