/**
  The server as a class whose handlers update its fields in place
  (src/server/server.cc, class ServerImpl). Every handler is proved to carry out the
  step of the same name in ServerSpec, on which the other modules build. The fields of
  the original are grouped by what they serve: stored state, acceptor, round.
*/
module ServerImpl {
  import opened Protocol
  import opened ServerSpec

  class ServerImpl {
    const cfg: Config
    var iAmDisconnected: bool
    var store: Store
    var acc: Acceptor
    var round: Round
    var out: seq<Message>
    var answers: seq<Answer>

    ghost function View(): Server
      reads this
    {
      Server(cfg, iAmDisconnected, store, acc, round, out, answers)
    }

    constructor (cfg: Config, initial: map<Account, int>)
      ensures View() == Init(cfg, initial)
    {
      this.cfg := cfg;
      iAmDisconnected := false;
      store := Store(initial, {}, {}, map[], map[], [], -1, NoBallot, -1);
      acc := Acceptor(0, false, NoBallot, false, NoBallot, []);
      round := Round([], [], false, false, false, false, 0, 0, 0, 0);
      out, answers := [], [];
    }

    // -------------------------------------------------------------- decisions and the log

    method ReleaseLock(a: Account)
      modifies this`store
      ensures store == old(store).(locks := old(store).locks - {a})
    {
      store := store.(locks := store.locks - {a});
    }

    method ProcessTpcDecision(tid: Tid, isCommit: bool)
      modifies this`store
      ensures View() == Decision(old(View()), tid, isCommit)
    {
      if iAmDisconnected {
        return;
      }
      store := store.(stamps := store.stamps - {tid});
      if tid !in store.open {
        return;
      }
      var e := store.open[tid].(status := if isCommit then Committed else Aborted);
      store := store.(open := store.open - {tid}, log := store.log + [e]);
      var firstApply := isCommit && e.tid !in store.applied;
      if isCommit {
        store := store.(applied := store.applied + {e.tid});
      }
      SettleSides(e.txn, firstApply);
    }

    /** Unlock the sides that live here, and move the money when this is the first time. */
    method SettleSides(t: Transaction, firstApply: bool)
      modifies this`store
      ensures store == old(store).(locks := old(store).locks - InsideAccounts(cfg, t),
                                   balances := if firstApply then MoveInside(cfg, old(store).balances, t) else old(store).balances)
    {
      if InCluster(cfg, t.sender) {
        ReleaseLock(t.sender);
        if firstApply {
          store := store.(balances := Credit(store.balances, t.sender, -t.amount));
        }
      }
      if InCluster(cfg, t.receiver) {
        ReleaseLock(t.receiver);
        if firstApply {
          store := store.(balances := Credit(store.balances, t.receiver, t.amount));
        }
      }
      assert store.locks == old(store).locks - InsideAccounts(cfg, t);
    }

    method PrepareTransaction(req: TransferReq, b: Ballot, now: int)
      modifies this`store
      ensures store == LogPrepare(old(store), req, b, now)
    {
      var e := EntryOf(req, b, Cross, Prepared);
      store := store.(open := store.open[req.tid := e], log := store.log + [e]);
      store := store.(lastInserted := |store.log| - 1, lastBallot := b);
      store := store.(paxosIndex := store.paxosIndex + 1);
      store := store.(stamps := store.stamps[req.tid := now]);
    }

    method CommitTransaction(req: TransferReq, b: Ballot)
      modifies this`store
      ensures store == LogCommit(old(store), req, b)
    {
      if req.tid in store.applied {
        return;
      }
      store := store.(applied := store.applied + {req.tid});
      var e := EntryOf(req, b, Intra, Committed);
      store := store.(log := store.log + [e]);
      store := store.(balances := Credit(store.balances, e.txn.sender, -e.txn.amount));
      store := store.(balances := Credit(store.balances, e.txn.receiver, e.txn.amount));
      store := store.(lastInserted := |store.log| - 1, lastBallot := b);
      store := store.(paxosIndex := store.paxosIndex + 1);
    }

    // -------------------------------------------------------------- rounds

    method EnqueueClientTxn(call: int, req: TransferReq, isCrossShard: bool)
      modifies this
      ensures View() == Enqueue(old(View()), call, req, isCrossShard)
    {
      if iAmDisconnected {
        answers := answers + [Answer(call, false, req.tid)];
        return;
      }
      round := round.(pending := round.pending + [Item(req, call, isCrossShard)]);
      MaybeStart();
    }

    method MaybeStart()
      modifies this`round, this`acc, this`out
      ensures View() == MaybeStartRound(old(View()))
    {
      if round.running || round.inSync || round.pending == [] {
        return;
      }
      round := round.(current := round.pending, pending := [], running := true);
      ReissuePrepareForCurrent();
    }

    method ReissuePrepareForCurrent()
      modifies this`round, this`acc, this`out
      ensures View() == ReissuePrepare(old(View()))
    {
      acc := acc.(ballotNum := acc.ballotNum + 1);
      var b := Ballot(acc.ballotNum, cfg.serverId);
      acc := acc.(promised := true, promisedNum := b);
      round := round.(awaitPrepare := true, awaitAccept := false);
      round := round.(prepareSuccesses := 1, prepareFailures := 0);
      out := out + [PrepareMsg(b, store.paxosIndex)];
    }

    method Finish()
      modifies this`round, this`acc, this`out
      ensures View() == FinishRound(old(View()))
    {
      round := round.(running := false);
      acc := acc.(promised := false, accepted := false);
      round := round.(awaitPrepare := false, awaitAccept := false);
      round := round.(current := []);
      acc := acc.(acceptBatch := []);
      MaybeStart();
    }

    method LockInside(t: Transaction) returns (inCluster: nat)
      modifies this`store
      ensures store == old(store).(locks := old(store).locks + InsideAccounts(cfg, t))
      ensures inCluster == (if InCluster(cfg, t.sender) then 1 else 0) + (if InCluster(cfg, t.receiver) then 1 else 0)
    {
      inCluster := 0;
      if InCluster(cfg, t.sender) {
        store := store.(locks := store.locks + {t.sender});
        inCluster := inCluster + 1;
      }
      if InCluster(cfg, t.receiver) {
        store := store.(locks := store.locks + {t.receiver});
        inCluster := inCluster + 1;
      }
      assert store.locks == old(store).locks + InsideAccounts(cfg, t);
    }

    /** One item of a round that has reached its prepare quorum: abort it, or lock and log it. */
    method ValidateItem(e: Item, now: int) returns (ok: bool)
      modifies this`store, this`answers
      ensures ok == !Blocked(cfg, old(store), e.req.txn)
      ensures ok ==> store == Admit(cfg, old(store), e, acc.promisedNum, now) && answers == old(answers)
      ensures !ok ==> store == old(store) && answers == old(answers) + [Answer(e.call, false, e.req.tid)]
    {
      var t := e.req.txn;
      var senderInCluster, receiverInCluster := InCluster(cfg, t.sender), InCluster(cfg, t.receiver);
      if || (senderInCluster && t.sender in store.locks)
         || (receiverInCluster && t.receiver in store.locks)
         || (senderInCluster && Balance(store.balances, t.sender) < t.amount)
      {
        answers := answers + [Answer(e.call, false, e.req.tid)];
        return false;
      }
      var _ := LockInside(t);
      if e.cross {
        PrepareTransaction(e.req, acc.promisedNum, now);
      }
      return true;
    }

    method ValidateCurrent(now: int) returns (kept: seq<Item>)
      modifies this`store, this`answers
      ensures var v := Validate(cfg, old(store), round.current, acc.promisedNum, now);
              kept == v.kept && store == v.store && answers == old(answers) + v.answers
    {
      var items := round.current;
      kept := [];
      var i := 0;
      assert items[..0] == [];
      while i < |items|
        invariant 0 <= i <= |items|
        invariant var v := Validate(cfg, old(store), items[..i], acc.promisedNum, now);
                  kept == v.kept && store == v.store && answers == old(answers) + v.answers
      {
        assert items[..i + 1][..i] == items[..i];
        var ok := ValidateItem(items[i], now);
        if ok {
          kept := kept + [items[i]];
        }
        i := i + 1;
      }
      assert items[..i] == items;
    }

    method OnPrepareQuorum(now: int)
      modifies this
      ensures View() == ServerSpec.OnPrepareQuorum(old(View()), now)
    {
      var kept := ValidateCurrent(now);
      round := round.(awaitPrepare := false, current := kept);
      if kept == [] {
        Finish();
        return;
      }
      acc := acc.(accepted := true, acceptNum := acc.promisedNum, acceptBatch := Requests(kept));
      round := round.(awaitAccept := true, acceptSuccesses := 1, acceptFailures := 0);
      out := out + [AcceptMsg(acc.promisedNum, Requests(kept))];
    }

    method OnAcceptQuorum()
      modifies this
      ensures View() == ServerSpec.OnAcceptQuorum(old(View()))
    {
      round := round.(awaitAccept := false);
      out := out + [CommitMsg(acc.acceptNum)];
      SettleCurrent();
      Finish();
    }

    /** Commit the intra-shard items, and tell every caller. */
    method SettleCurrent()
      modifies this`store, this`answers
      ensures store == SettleAll(old(store), round.current, acc.acceptNum)
      ensures answers == old(answers) + Replies(round.current, true)
    {
      var items := round.current;
      var i := 0;
      while i < |items|
        invariant 0 <= i <= |items|
        invariant store == SettleAll(old(store), items[..i], acc.acceptNum)
        invariant answers == old(answers) + Replies(items[..i], true)
      {
        assert items[..i + 1][..i] == items[..i];
        var e := items[i];
        if !e.cross {
          ghost var before := store;
          ReleaseLock(e.req.txn.sender);
          ReleaseLock(e.req.txn.receiver);
          assert store.locks == before.locks - {e.req.txn.sender, e.req.txn.receiver};
          CommitTransaction(e.req, acc.acceptNum);
        }
        answers := answers + [Answer(e.call, true, e.req.tid)];
        assert Replies(items[..i + 1], true) == Replies(items[..i], true) + [Answer(e.call, true, e.req.tid)];
        i := i + 1;
      }
      assert items[..i] == items;
    }

    method OnRoundAbort(preparePhase: bool)
      modifies this
      ensures View() == ServerSpec.OnRoundAbort(old(View()), preparePhase)
    {
      AbortCurrent(preparePhase);
      Finish();
    }

    /** Tell every caller of the round, and unlock what its accept phase had locked. */
    method AbortCurrent(preparePhase: bool)
      modifies this`store, this`answers
      ensures store == old(store).(locks := if preparePhase then old(store).locks else ReleaseIntra(old(store).locks, round.current))
      ensures answers == old(answers) + Replies(round.current, false)
    {
      var items := round.current;
      var i := 0;
      while i < |items|
        invariant 0 <= i <= |items|
        invariant store == old(store).(locks := if preparePhase then old(store).locks else ReleaseIntra(old(store).locks, items[..i]))
        invariant answers == old(answers) + Replies(items[..i], false)
      {
        assert items[..i + 1][..i] == items[..i];
        var e := items[i];
        if !preparePhase && !e.cross {
          ReleaseLock(e.req.txn.sender);
          ReleaseLock(e.req.txn.receiver);
          assert store.locks == ReleaseIntra(old(store).locks, items[..i]) - {e.req.txn.sender, e.req.txn.receiver};
        }
        answers := answers + [Answer(e.call, false, e.req.tid)];
        assert Replies(items[..i + 1], false) == Replies(items[..i], false) + [Answer(e.call, false, e.req.tid)];
        i := i + 1;
      }
      assert items[..i] == items;
    }

    // -------------------------------------------------------------- calls from peers

    method ProcessPrepareCall(b: Ballot, index: int) returns (response: PrepareRes)
      modifies this
      ensures View() == PrepareCall(old(View()), b, index)
      ensures out[|out| - 1 ..] == [PrepareReplyMsg(cfg.serverId, response)]
    {
      response := PrepareRes(false, b, None, [], None, None, 0);
      if !iAmDisconnected {
        var ack := false;
        if b.num > acc.ballotNum {
          if index == store.paxosIndex {
            ack := true;
            acc := acc.(promised := true, promisedNum := b, ballotNum := b.num);
          } else if index > store.paxosIndex {
            round := round.(inSync := true);
            out := out + [SyncMsg(b.serverId, store.lastInserted)];
          }
        }
        if ack {
          response := response.(ack := true);
          if acc.accepted {
            response := response.(acceptNum := Some(acc.acceptNum), acceptVal := acc.acceptBatch);
          }
        } else {
          response := response.(serverId := cfg.serverId);
          if b.num <= acc.ballotNum {
            response := response.(latestBallotNum := Some(acc.ballotNum));
          }
          if index < store.paxosIndex {
            response := response.(paxosIndex := Some(store.paxosIndex));
          }
        }
      }
      out := out + [PrepareReplyMsg(cfg.serverId, response)];
    }

    method ProcessAcceptCall(b: Ballot, batch: seq<TransferReq>, now: int) returns (ack: bool)
      modifies this
      ensures View() == AcceptCall(old(View()), b, batch, now)
      ensures out == old(out) + [AcceptReplyMsg(cfg.serverId, b, ack)]
    {
      ack := !iAmDisconnected && acc.promised && b.num == acc.promisedNum.num;
      if ack {
        acc := acc.(accepted := true, acceptNum := b, acceptBatch := batch);
        AcceptBatch(batch, b, now);
      }
      out := out + [AcceptReplyMsg(cfg.serverId, b, ack)];
    }

    method AcceptBatch(batch: seq<TransferReq>, b: Ballot, now: int)
      modifies this`store
      ensures store == AcceptAll(cfg, old(store), batch, b, now)
    {
      var i := 0;
      while i < |batch|
        invariant 0 <= i <= |batch|
        invariant store == AcceptAll(cfg, old(store), batch[..i], b, now)
      {
        assert batch[..i + 1][..i] == batch[..i];
        var inCluster := LockInside(batch[i].txn);
        if inCluster == 1 {
          PrepareTransaction(batch[i], b, now);
        }
        i := i + 1;
      }
      assert batch[..i] == batch;
    }

    method ProcessCommitCall(b: Ballot)
      modifies this
      ensures View() == CommitCall(old(View()), b)
    {
      if !iAmDisconnected && acc.promisedNum.num == b.num && acc.acceptNum.num == b.num {
        CommitBatch(acc.acceptBatch, acc.acceptNum);
        acc := acc.(promised := false, accepted := false);
      }
    }

    method CommitBatch(batch: seq<TransferReq>, b: Ballot)
      modifies this`store
      ensures store == CommitAll(cfg, old(store), batch, b)
    {
      var i := 0;
      while i < |batch|
        invariant 0 <= i <= |batch|
        invariant store == CommitAll(cfg, old(store), batch[..i], b)
      {
        assert batch[..i + 1][..i] == batch[..i];
        var t := batch[i].txn;
        ghost var before := store;
        SettleSides(t, false);
        assert store == before.(locks := before.locks - InsideAccounts(cfg, t));
        if InCluster(cfg, t.sender) && InCluster(cfg, t.receiver) {
          CommitTransaction(batch[i], b);
        }
        i := i + 1;
      }
      assert batch[..i] == batch;
    }

    method ProcessSyncCall(last: int) returns (response: SyncRes)
      requires -1 <= last
      modifies this`out
      ensures View() == SyncCall(old(View()), last)
      ensures out == old(out) + [SyncReplyMsg(response)]
    {
      response := SyncRes(false, [], NoBallot);
      if store.lastInserted > last {
        var i, logs := last + 1, [];
        while i < |store.log|
          invariant last + 1 <= |store.log| ==> last + 1 <= i <= |store.log| && logs == store.log[last + 1..i]
          invariant last + 1 > |store.log| ==> i == last + 1 && logs == []
        {
          logs := logs + [store.log[i]];
          i := i + 1;
        }
        assert logs == Tail(store.log, last + 1);
        response := SyncRes(true, logs, store.lastBallot);
      }
      out := out + [SyncReplyMsg(response)];
    }

    // -------------------------------------------------------------- replies from peers

    /** Count the reply if it answers the ballot being prepared. */
    method CountPrepareReply(o: Outcome<PrepareRes>, asked: Ballot) returns (matches: bool)
      modifies this`round
      ensures View() == CountPrepare(old(View()), o, asked) && matches == PrepareMatches(old(View()), o, asked)
    {
      matches := false;
      if o.Deadline? && asked.num == acc.promisedNum.num && asked.serverId == cfg.serverId {
        matches := true;
        round := round.(prepareFailures := round.prepareFailures + 1);
      } else if o.Replied? && o.res.ballot.num == acc.promisedNum.num && o.res.ballot.serverId == cfg.serverId {
        matches := true;
        if o.res.ack {
          round := round.(prepareSuccesses := round.prepareSuccesses + 1);
        } else {
          round := round.(prepareFailures := round.prepareFailures + 1);
        }
      }
    }

    method HandlePrepareReply(o: Outcome<PrepareRes>, asked: Ballot, now: int)
      modifies this
      ensures View() == PrepareReply(old(View()), o, asked, now)
    {
      if !round.awaitPrepare {
        return;
      }
      var matches := CountPrepareReply(o, asked);
      DecidePrepare(o, asked, matches, now);
    }

    method DecidePrepare(o: Outcome<PrepareRes>, asked: Ballot, matches: bool, now: int)
      requires matches == PrepareMatches(View(), o, asked)
      modifies this
      ensures View() == PrepareVerdict(old(View()), o, asked, now)
    {
      if o.Replied? && matches {
        if o.res.latestBallotNum.Some? {
          acc := acc.(ballotNum := o.res.latestBallotNum.value);
          ReissuePrepareForCurrent();
          return;
        }
        if o.res.paxosIndex.Some? && o.res.paxosIndex.value > store.paxosIndex {
          round := round.(inSync := true, awaitPrepare := false);
          out := out + [SyncMsg(o.res.serverId, store.lastInserted)];
          return;
        }
      }
      if round.prepareSuccesses >= Majority {
        OnPrepareQuorum(now);
      } else if round.prepareFailures >= Majority {
        OnRoundAbort(true);
      }
    }

    method CountAcceptReply(o: Outcome<(Ballot, bool)>, asked: Ballot)
      modifies this`round
      ensures View() == CountAccept(old(View()), o, asked)
    {
      if o.Deadline? && asked.num == acc.acceptNum.num && asked.serverId == cfg.serverId {
        round := round.(acceptFailures := round.acceptFailures + 1);
      } else if o.Replied? && o.res.0.num == acc.acceptNum.num && o.res.0.serverId == cfg.serverId {
        if o.res.1 {
          round := round.(acceptSuccesses := round.acceptSuccesses + 1);
        } else {
          round := round.(acceptFailures := round.acceptFailures + 1);
        }
      }
    }

    method HandleAcceptReply(o: Outcome<(Ballot, bool)>, asked: Ballot)
      modifies this
      ensures View() == AcceptReply(old(View()), o, asked)
    {
      if !round.awaitAccept {
        return;
      }
      CountAcceptReply(o, asked);
      if round.acceptSuccesses >= Majority {
        OnAcceptQuorum();
      } else if round.acceptFailures >= Majority {
        OnRoundAbort(false);
      }
    }

    method HandleSyncReply(o: Outcome<SyncRes>)
      modifies this
      ensures View() == SyncReply(old(View()), o)
    {
      if o.Replied? && o.res.ack {
        InsertEntries(o.res.logs);
        acc := acc.(ballotNum := o.res.lastBallot.num);
        store := store.(lastInserted := store.lastInserted + |o.res.logs|, lastBallot := o.res.lastBallot);
      }
      round := round.(inSync := false);
      if round.current != [] {
        ReissuePrepareForCurrent();
      } else {
        MaybeStart();
      }
    }

    /** The write-ahead log keeps its index of open prepares in step with every entry it is given. */
    method InsertEntry(e: LogEntry)
      modifies this`store
      ensures store == SyncEntry(cfg, old(store), e)
    {
      store := store.(log := store.log + [e]);
      match e.status {
        case Prepared => store := store.(open := store.open[e.tid := e.(kind := Cross)]);
        case Committed => store := store.(open := store.open - {e.tid});
        case Aborted => store := store.(open := store.open - {e.tid});
        case NoStatus =>
      }
      if IsPaxosEntry(e) {
        store := store.(paxosIndex := store.paxosIndex + 1);
      }
      var firstApply := e.status.Committed? && e.tid !in store.applied;
      if e.status.Committed? {
        store := store.(applied := store.applied + {e.tid});
      }
      if firstApply && InCluster(cfg, e.txn.sender) {
        store := store.(balances := Credit(store.balances, e.txn.sender, -e.txn.amount));
      }
      if firstApply && InCluster(cfg, e.txn.receiver) {
        store := store.(balances := Credit(store.balances, e.txn.receiver, e.txn.amount));
      }
    }

    method InsertEntries(es: seq<LogEntry>)
      modifies this`store
      ensures store == SyncEntries(cfg, old(store), es) && store.lastInserted == old(store).lastInserted
    {
      var i := 0;
      while i < |es|
        invariant 0 <= i <= |es|
        invariant store == SyncEntries(cfg, old(store), es[..i]) && store.lastInserted == old(store).lastInserted
      {
        assert es[..i + 1][..i] == es[..i];
        InsertEntry(es[i]);
        i := i + 1;
      }
      assert es[..i] == es;
    }

    // -------------------------------------------------------------- lock timeouts

    method Any<T(==)>(s: set<T>) returns (x: T)
      requires s != {}
      ensures x in s
    {
      x :| x in s;
    }

    /** The smallest id of a non-empty set: the next key of an ordered map. */
    method Smallest(ids: set<Tid>) returns (t: Tid)
      requires ids != {}
      ensures t in ids && forall x :: x in ids ==> t <= x
    {
      t := Any(ids);
      var rest := ids - {t};
      while rest != {}
        invariant t in ids && rest <= ids
        invariant forall x :: x in ids && x !in rest ==> t <= x
        decreases |rest|
      {
        var x := Any(rest);
        if x < t {
          t := x;
        }
        rest := rest - {x};
      }
    }

    /** The sweep of HandleRPCs: every prepare open for too long is aborted, in key order. */
    method SweepTimeouts(now: int) returns (swept: seq<Tid>)
      modifies this`store
      ensures View() == old(View()).(store := ExpireAll(cfg, old(store), swept))
      ensures forall t :: t in swept <==> t in old(store).stamps && now - old(store).stamps[t] > LockTimeout
      ensures forall i, j :: 0 <= i < j < |swept| ==> swept[i] < swept[j]
    {
      swept := [];
      var todo := store.stamps.Keys;
      ghost var stamps := store.stamps;
      while todo != {}
        invariant todo <= stamps.Keys
        invariant store == ExpireAll(cfg, old(store), swept)
        invariant forall t :: t in todo ==> t in store.stamps && store.stamps[t] == stamps[t]
        invariant forall t :: t in swept <==> t in stamps && t !in todo && now - stamps[t] > LockTimeout
        invariant forall t, u :: t in stamps && t !in todo && u in todo ==> t < u
        invariant forall i, j :: 0 <= i < j < |swept| ==> swept[i] < swept[j]
        decreases |todo|
      {
        var t := Smallest(todo);
        if now - store.stamps[t] > LockTimeout {
          assert forall i :: 0 <= i < |swept| ==> swept[i] in swept;
          ExpireLast(cfg, old(store), swept, t);
          Abort(t);
          swept := swept + [t];
        }
        todo := todo - {t};
      }
    }

    method Abort(tid: Tid)
      modifies this`store
      ensures store == Expire(cfg, old(store), tid)
    {
      if tid in store.open {
        var e := store.open[tid].(status := Aborted);
        store := store.(open := store.open - {tid});
        SettleSides(e.txn, false);
        store := store.(log := store.log + [e]);
      }
      store := store.(stamps := store.stamps - {tid});
    }
  }

  lemma {:induction false} ExpireLast(cfg: Config, st: Store, tids: seq<Tid>, t: Tid)
    ensures ExpireAll(cfg, st, tids + [t]) == Expire(cfg, ExpireAll(cfg, st, tids), t)
    decreases |tids|
  {
    if tids == [] {
      assert [] + [t] == [t] && [t][1..] == [];
    } else {
      assert (tids + [t])[0] == tids[0] && (tids + [t])[1..] == tids[1..] + [t];
      ExpireLast(cfg, Expire(cfg, st, tids[0]), tids[1..], t);
    }
  }
}
