/**
  How rounds go on after a refusal (src/server/server.cc: processPrepareCall, handlePrepareReply,
  processSyncCall, handleSyncReply): two servers exchanging messages, handler by handler. A number
  that is too low is outbid, a log that is too short is caught up, and then the refuser promises.
*/
module Progress {
  import opened Protocol
  import opened ServerSpec

  /** The last message a server has sent. */
  function Reply(s: Server): Message
    requires s.out != []
  {
    s.out[|s.out| - 1]
  }

  /** The server waits for promises of ballot b for a batch. */
  predicate Awaits(p: Server, b: Ballot) {
    && p.round.awaitPrepare && p.acc.promisedNum == b && b.serverId == p.cfg.serverId && p.round.prepareSuccesses == 1
    && p.round.current != []
  }

  // ---------------------------------------------------------------- a number that is too low

  /** What a server answers that has seen a higher number. */
  lemma RefusesLow(r: Server, b: Ballot, index: int)
    requires !r.disconnected && b.num <= r.acc.ballotNum
    ensures var r' := PrepareCall(r, b, index);
            && r'.acc == r.acc && r'.store == r.store && !r'.disconnected && r'.cfg == r.cfg && r'.out != [] && Reply(r').PrepareReplyMsg?
            && var res := Reply(r').pres; !res.ack && res.ballot == b && res.latestBallotNum == Some(r.acc.ballotNum)
  {
  }

  /** The asker goes on with the next number. */
  lemma Outbids(p: Server, b: Ballot, res: PrepareRes, now: int)
    requires Awaits(p, b) && res.ballot == b && res.latestBallotNum.Some?
    ensures var b', p' := Ballot(res.latestBallotNum.value + 1, p.cfg.serverId), PrepareReply(p, Replied(res), b, now);
            && Awaits(p', b') && p'.out == p.out + [PrepareMsg(b', p.store.paxosIndex)] && p'.store == p.store && p'.cfg == p.cfg
  {
  }

  /** A server at the same place that has seen no higher number promises, and the asker has its quorum. */
  lemma PromiseWins(p: Server, r: Server, b: Ballot, index: int, now: int)
    requires Awaits(p, b) && !r.disconnected && b.num > r.acc.ballotNum && index == r.store.paxosIndex
    ensures var r' := PrepareCall(r, b, index);
            && r'.acc.promised && r'.acc.promisedNum == b && r'.out != [] && Reply(r').PrepareReplyMsg? && Reply(r').pres.ack
            && PrepareReply(p, Replied(Reply(r').pres), b, now) == OnPrepareQuorum(CountPrepare(p, Replied(Reply(r').pres), b), now)
  {
  }

  /** Refused for its number, a round at the same place is promised at the second attempt. */
  lemma RetrySucceeds(p: Server, r: Server, b: Ballot, now: int) returns (b': Ballot, p': Server, r': Server)
    requires Awaits(p, b) && !r.disconnected && b.num <= r.acc.ballotNum && p.store.paxosIndex == r.store.paxosIndex
    ensures var r1 := PrepareCall(r, b, p.store.paxosIndex);
            && r1.out != [] && Reply(r1).PrepareReplyMsg?
            && p' == PrepareReply(p, Replied(Reply(r1).pres), b, now) && p'.out == p.out + [PrepareMsg(b', p.store.paxosIndex)]
            && r' == PrepareCall(r1, b', p.store.paxosIndex) && r'.acc.promisedNum == b' && r'.out != [] && Reply(r').PrepareReplyMsg?
            && PrepareReply(p', Replied(Reply(r').pres), b', now) == OnPrepareQuorum(CountPrepare(p', Replied(Reply(r').pres), b'), now)
  {
    var r1 := PrepareCall(r, b, p.store.paxosIndex);
    RefusesLow(r, b, p.store.paxosIndex);
    Outbids(p, b, Reply(r1).pres, now);
    b', p' := Ballot(r.acc.ballotNum + 1, p.cfg.serverId), PrepareReply(p, Replied(Reply(r1).pres), b, now);
    PromiseWins(p', r1, b', p.store.paxosIndex, now);
    r' := PrepareCall(r1, b', p.store.paxosIndex);
  }

  // ---------------------------------------------------------------- a log that is too short

  /** Numbers and positions are those of the log, with no outcome behind the last agreed entry. */
  predicate AtEnd(st: Store) {
    st.lastInserted == |st.log| - 1 && st.paxosIndex + 1 == PaxosCount(st.log)
  }

  lemma {:induction false} PaxosCountConcat(a: seq<LogEntry>, b: seq<LogEntry>)
    ensures PaxosCount(a + b) == PaxosCount(a) + PaxosCount(b)
  {
    if b == [] {
      assert a + b == a;
    } else {
      PaxosCountConcat(a, b[..|b| - 1]);
      assert (a + b)[..|a + b| - 1] == a + b[..|b| - 1];
    }
  }

  lemma {:induction false} SyncCounts(cfg: Config, st: Store, es: seq<LogEntry>)
    ensures SyncEntries(cfg, st, es).paxosIndex == st.paxosIndex + PaxosCount(es) && SyncEntries(cfg, st, es).log == st.log + es
    ensures SyncEntries(cfg, st, es).lastInserted == st.lastInserted
  {
    if es == [] {
      assert st.log + es == st.log;
    } else {
      SyncCounts(cfg, st, es[..|es| - 1]);
      assert st.log + es == st.log + es[..|es| - 1] + [es[|es| - 1]];
    }
  }

  /** Asked by a server whose log is a part of its own, a server sends the rest. */
  lemma SendsRest(r: Server, log: seq<LogEntry>)
    requires AtEnd(r.store) && log <= r.store.log && |log| < |r.store.log|
    ensures SyncCall(r, |log| - 1).out == r.out + [SyncReplyMsg(SyncRes(true, r.store.log[|log|..], r.store.lastBallot))]
  {
  }

  /** With the rest taken over, the logs are the same. */
  lemma TakesRest(p: Server, log: seq<LogEntry>, last: Ballot)
    requires AtEnd(p.store) && p.store.log <= log
    ensures var st := Absorb(p, SyncRes(true, log[|p.store.log|..], last)).store; st.log == log && AtEnd(st) && st.lastBallot == last
  {
    var es := log[|p.store.log|..];
    SyncCounts(p.cfg, p.store, es);
    PaxosCountConcat(p.store.log, es);
    assert p.store.log + es == log;
  }

  /** Refused for its log, a leader asks the refuser for the rest. */
  lemma AsksForRest(p: Server, r: Server, b: Ballot, now: int) returns (p': Server)
    requires Awaits(p, b) && !r.disconnected && b.num > r.acc.ballotNum && p.store.paxosIndex < r.store.paxosIndex
    ensures var r1 := PrepareCall(r, b, p.store.paxosIndex);
            && r1.acc == r.acc && r1.store == r.store && r1.cfg == r.cfg && !r1.disconnected && r1.out != [] && Reply(r1).PrepareReplyMsg?
            && p' == PrepareReply(p, Replied(Reply(r1).pres), b, now) && p'.out == p.out + [SyncMsg(r.cfg.serverId, p.store.lastInserted)]
            && p'.round.inSync && p'.round.current == p.round.current && p'.store == p.store && p'.cfg == p.cfg && p'.disconnected == p.disconnected
  {
    p' := PrepareReply(p, Replied(Reply(PrepareCall(r, b, p.store.paxosIndex)).pres), b, now);
  }

  lemma AsksAgain(p: Server, res: SyncRes)
    requires res.ack && p.round.current != []
    ensures var p' := SyncReply(p, Replied(res));
            && Awaits(p', Ballot(res.lastBallot.num + 1, p.cfg.serverId)) && !p'.round.inSync && p'.cfg == p.cfg
            && p'.store == Absorb(p, res).store && p'.out == p.out + [PrepareMsg(Ballot(res.lastBallot.num + 1, p.cfg.serverId), p'.store.paxosIndex)]
  {
  }

  /**
    A leader with a part of another server's log, refused for it, catches up with the entries it lacks and
    asks again at the refuser's place; it is promised there at once, or after one more refusal for its number.
  */
  lemma LeaderCatchesUp(p: Server, r: Server, b: Ballot, now: int) returns (p': Server, r': Server, b': Ballot)
    requires Awaits(p, b) && !r.disconnected && b.num > r.acc.ballotNum && p.store.paxosIndex < r.store.paxosIndex
    requires AtEnd(p.store) && AtEnd(r.store) && p.store.log <= r.store.log
    ensures var r1 := PrepareCall(r, b, p.store.paxosIndex);
            && r1.out != [] && Reply(r1).PrepareReplyMsg?
            && var p1 := PrepareReply(p, Replied(Reply(r1).pres), b, now);
               && p1.out == p.out + [SyncMsg(r.cfg.serverId, p.store.lastInserted)]
               && r' == SyncCall(r1, p.store.lastInserted) && r'.out != [] && Reply(r').SyncReplyMsg?
               && p' == SyncReply(p1, Replied(Reply(r').sres)) && p'.out == p1.out + [PrepareMsg(b', r.store.paxosIndex)]
    ensures p'.store.log == r.store.log && AtEnd(p'.store) && Awaits(p', b') && b'.num == r.store.lastBallot.num + 1
    ensures b'.num > r.acc.ballotNum ==> PrepareCall(r', b', r.store.paxosIndex).acc.promisedNum == b'
    ensures b'.num <= r.acc.ballotNum ==>
              var r2 := PrepareCall(r', b', r.store.paxosIndex);
              && r2.out != [] && Reply(r2).PrepareReplyMsg?
              && PrepareCall(r2, Ballot(r.acc.ballotNum + 1, p.cfg.serverId), r.store.paxosIndex).acc.promisedNum == Ballot(r.acc.ballotNum + 1, p.cfg.serverId)
              && PrepareReply(p', Replied(Reply(r2).pres), b', now).acc.promisedNum == Ballot(r.acc.ballotNum + 1, p.cfg.serverId)
  {
    var r1 := PrepareCall(r, b, p.store.paxosIndex);
    var p1 := AsksForRest(p, r, b, now);
    PrefixCounts(p.store, r.store);
    SendsRest(r1, p.store.log);
    r' := SyncCall(r1, p.store.lastInserted);
    var res := SyncRes(true, r.store.log[|p.store.log|..], r.store.lastBallot);
    assert Reply(r') == SyncReplyMsg(res);
    TakesRest(p1, r.store.log, r.store.lastBallot);
    AsksAgain(p1, res);
    p', b' := SyncReply(p1, Replied(res)), Ballot(r.store.lastBallot.num + 1, p.cfg.serverId);
    if b'.num <= r.acc.ballotNum {
      RefusesLow(r', b', r.store.paxosIndex);
      var r2 := PrepareCall(r', b', r.store.paxosIndex);
      Outbids(p', b', Reply(r2).pres, now);
    }
  }

  /** A log with fewer agreed entries is shorter. */
  lemma PrefixCounts(st: Store, st': Store)
    requires AtEnd(st) && AtEnd(st') && st.log <= st'.log && st.paxosIndex < st'.paxosIndex
    ensures |st.log| < |st'.log|
  {
    assert |st.log| == |st'.log| ==> st.log == st'.log;
  }

  /** A follower with a part of the leader's log asks for the rest, catches up, and promises the next ballot asked for at the leader's place. */
  lemma FollowerCatchesUp(f: Server, l: Server, b: Ballot, b': Ballot) returns (f': Server, l': Server)
    requires !f.disconnected && b.num > f.acc.ballotNum && b.serverId == l.cfg.serverId && f.store.paxosIndex < l.store.paxosIndex
    requires AtEnd(f.store) && AtEnd(l.store) && f.store.log <= l.store.log && f.round.current == [] && f.round.pending == []
    requires b'.num > l.store.lastBallot.num
    ensures var f1 := PrepareCall(f, b, l.store.paxosIndex);
            && f1.round.inSync && |f1.out| == |f.out| + 2 && f1.out[|f.out|] == SyncMsg(l.cfg.serverId, f.store.lastInserted)
            && Reply(f1).PrepareReplyMsg? && !Reply(f1).pres.ack
            && l' == SyncCall(l, f.store.lastInserted) && l'.out != [] && Reply(l').SyncReplyMsg? && f' == SyncReply(f1, Replied(Reply(l').sres))
    ensures f'.store.log == l.store.log && AtEnd(f'.store) && !f'.round.inSync && f'.acc.ballotNum == l.store.lastBallot.num
    ensures PrepareCall(f', b', l.store.paxosIndex).acc.promisedNum == b'
  {
    var f1 := PrepareCall(f, b, l.store.paxosIndex);
    PrefixCounts(f.store, l.store);
    SendsRest(l, f.store.log);
    l' := SyncCall(l, f.store.lastInserted);
    TakesRest(f1, l.store.log, l.store.lastBallot);
    f' := SyncReply(f1, Replied(Reply(l').sres));
  }

  // ---------------------------------------------------------------- what promises report

  /** A promise reports the batch taken over and not yet committed, and none after its commit. */
  lemma PromiseReports(f: Server, b: Ballot, batch: seq<TransferReq>, now: int, b': Ballot)
    requires !f.disconnected && f.acc.promised && f.acc.promisedNum.num == b.num && b'.num > f.acc.ballotNum
    ensures var f1 := AcceptCall(f, b, batch, now);
            var f2 := CommitCall(f1, b);
            var p1, p2 := PrepareCall(f1, b', f1.store.paxosIndex), PrepareCall(f2, b', f2.store.paxosIndex);
            && p1.out != [] && Reply(p1) == PrepareReplyMsg(f.cfg.serverId, PrepareRes(true, b', Some(b), batch, None, None, 0))
            && p2.out != [] && Reply(p2) == PrepareReplyMsg(f.cfg.serverId, PrepareRes(true, b', None, [], None, None, 0))
  {
  }

  /** A batch that was committed is not taken over again. */
  lemma LateAcceptRefused(f: Server, b: Ballot, batch: seq<TransferReq>, now: int, late: int)
    requires !f.disconnected && f.acc.promised && f.acc.promisedNum.num == b.num
    ensures var f2 := CommitCall(AcceptCall(f, b, batch, now), b);
            var f3 := AcceptCall(f2, b, batch, late);
            f3.store == f2.store && f3.acc == f2.acc && f3.out == f2.out + [AcceptReplyMsg(f.cfg.serverId, b, false)]
  {
  }

  /** A leader reports its own proposal while it waits for its outcome, and nothing afterwards. */
  lemma ProposerReports(s: Server, now: int, b': Ballot)
    requires !s.disconnected && b'.num > s.acc.ballotNum && Validate(s.cfg, s.store, s.round.current, s.acc.promisedNum, now).kept != []
    ensures var s1 := OnPrepareQuorum(s, now);
            var p1 := PrepareCall(s1, b', s1.store.paxosIndex);
            p1.out != [] && Reply(p1) == PrepareReplyMsg(s.cfg.serverId, PrepareRes(true, b', Some(s.acc.promisedNum), Requests(s1.round.current), None, None, 0))
    ensures var s2 := FinishRound(s);
            s.round.pending == [] ==>
              && !s2.acc.promised && !s2.acc.accepted
              && Reply(PrepareCall(s2, b', s2.store.paxosIndex)) == PrepareReplyMsg(s.cfg.serverId, PrepareRes(true, b', None, [], None, None, 0))
  {
  }

  // ---------------------------------------------------------------- a server that is cut off

  predicate Heedless(ev: Event) {
    ev.Client? || ev.OnPrepare? || ev.OnAccept? || ev.OnCommit? || ev.Decided?
  }

  /** While disconnected, calls and decisions change nothing a server stores, and get negative replies only. */
  lemma {:induction false} DisconnectedIsDeaf(s: Server, evs: seq<Event>)
    requires s.disconnected && forall ev :: ev in evs ==> Heedless(ev)
    ensures var s' := Exec(s, evs);
            && s'.disconnected && s'.store == s.store && s'.acc == s.acc && s'.round == s.round && s.answers <= s'.answers && s.out <= s'.out
            && (forall a :: a in s'.answers[|s.answers|..] ==> !a.ack)
            && (forall m :: m in s'.out[|s.out|..] ==> (m.PrepareReplyMsg? && !m.pres.ack) || (m.AcceptReplyMsg? && !m.ack))
  {
    if evs != [] {
      var front, ev := evs[..|evs| - 1], evs[|evs| - 1];
      assert ev in evs && forall x :: x in front ==> x in evs;
      DisconnectedIsDeaf(s, front);
    }
  }
}
