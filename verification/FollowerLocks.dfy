/**
  The locks of a follower (src/server/server.cc: processAcceptCall, processCommitCall,
  processTpcDecision): an accept takes the accounts of its batch, a commit gives them back, those of
  prepares that are still open among them.
*/
module FollowerLocks {
  import opened Protocol
  import opened ServerSpec
  import opened Replicas
  import Skipping

  // ---------------------------------------------------------------- one batch

  /** The account is one of this cluster that the batch is about. */
  predicate Concerns(cfg: Config, batch: seq<TransferReq>, a: Account) {
    exists r :: r in batch && a in InsideAccounts(cfg, r.txn)
  }

  lemma ConcernsSnoc(cfg: Config, batch: seq<TransferReq>, r: TransferReq, a: Account)
    ensures Concerns(cfg, batch + [r], a) <==> Concerns(cfg, batch, a) || a in InsideAccounts(cfg, r.txn)
  {
    assert r in batch + [r];
    if Concerns(cfg, batch, a) {
      var x :| x in batch && a in InsideAccounts(cfg, x.txn);
      assert x in batch + [r];
    }
  }

  /** Taking over a batch locks exactly its accounts besides those locked before. */
  lemma {:induction false} AcceptLocks(cfg: Config, st: Store, batch: seq<TransferReq>, b: Ballot, now: int, a: Account)
    ensures a in AcceptAll(cfg, st, batch, b, now).locks <==> a in st.locks || Concerns(cfg, batch, a)
  {
    if batch != [] {
      var front, r := batch[..|batch| - 1], batch[|batch| - 1];
      AcceptLocks(cfg, st, front, b, now, a);
      assert batch == front + [r];
      ConcernsSnoc(cfg, front, r, a);
    }
  }

  /** Committing it gives back exactly its accounts. */
  lemma {:induction false} CommitLocks(cfg: Config, st: Store, batch: seq<TransferReq>, b: Ballot, a: Account)
    ensures a in CommitAll(cfg, st, batch, b).locks <==> a in st.locks && !Concerns(cfg, batch, a)
  {
    if batch != [] {
      var front, r := batch[..|batch| - 1], batch[|batch| - 1];
      CommitLocks(cfg, st, front, b, a);
      assert batch == front + [r];
      ConcernsSnoc(cfg, front, r, a);
    }
  }

  // ---------------------------------------------------------------- runs

  /** In this move the replica takes over a batch about the account. */
  ghost predicate Takes(p: Pair, v: Move, a: Account) {
    var ms := Rounds(p.leader.out);
    v.Deliver? && p.handled < |ms| && ms[p.handled].AcceptMsg? && Concerns(p.replica.cfg, ms[p.handled].batch, a)
  }

  /** It commits a batch about the account, or learns the outcome of an open prepare about it. */
  ghost predicate Gives(p: Pair, v: Move, a: Account) {
    var ms, open := Rounds(p.leader.out), p.replica.store.open;
    || (v.Deliver? && p.handled < |ms| && ms[p.handled].CommitMsg? && Concerns(p.replica.cfg, LastBatch(ms[..p.handled]), a))
    || (v.AtReplica? && (v.ev.Decided? || v.ev.Expired?) && v.ev.tid in open && a in InsideAccounts(p.replica.cfg, open[v.ev.tid].txn))
  }

  lemma DeliverLocks(s: Server, ms: seq<Message>, k: nat, now: int, a: Account)
    requires InStep(s, ms, k) && k < |ms|
    ensures var locks := Handle(s, ms[k], now).store.locks;
            a in locks <==> if ms[k].AcceptMsg? then a in s.store.locks || Concerns(s.cfg, ms[k].batch, a)
                            else if ms[k].CommitMsg? then a in s.store.locks && !Concerns(s.cfg, LastBatch(ms[..k]), a)
                            else a in s.store.locks
  {
    PrefixNext(s.cfg, ms, k);
    assert k > 0 ==> ms[..k][k - 1] == ms[k - 1];
    match ms[k]
    case AcceptMsg(b, batch) => AcceptLocks(s.cfg, s.store, batch, b, now, a);
    case CommitMsg(b) => CommitLocks(s.cfg, s.store, s.acc.acceptBatch, s.acc.acceptNum, a);
    case _ =>
  }

  lemma OutcomeLocks(s: Server, ev: Event, a: Account)
    requires Between(ev) && !s.disconnected
    ensures a in Step(s, ev).store.locks <==>
            a in s.store.locks && !((ev.Decided? || ev.Expired?) && ev.tid in s.store.open && a in InsideAccounts(s.cfg, s.store.open[ev.tid].txn))
  {
    assert ev.SyncAnswer? ==> Step(s, ev).store == s.store;
  }

  lemma MoveLocks(p: Pair, v: Move, a: Account)
    requires PairInStep(p) && Possible(p, v) && !Next(p, v).replica.disconnected
    ensures a in Next(p, v).replica.store.locks <==> Takes(p, v, a) || (a in p.replica.store.locks && !Gives(p, v, a))
  {
    match v
    case AtLeader(ev) =>
    case AtReplica(ev) => OutcomeLocks(p.replica, ev, a);
    case Deliver(now) => DeliverLocks(p.replica, Rounds(p.leader.out), p.handled, now, a);
    case Catchup(last, upto, ballot) => NeverAsks(p, last);
  }

  /** Taken in some move before n, and not given back since. */
  ghost predicate Held(ps: seq<Pair>, vs: seq<Move>, n: nat, a: Account) {
    exists k :: 0 <= k < n && TakenAt(ps, vs, k, a) && forall l :: k < l < n ==> !GivenAt(ps, vs, l, a)
  }

  ghost predicate TakenAt(ps: seq<Pair>, vs: seq<Move>, k: nat, a: Account) {
    k < |ps| && k < |vs| && Takes(ps[k], vs[k], a)
  }

  ghost predicate GivenAt(ps: seq<Pair>, vs: seq<Move>, k: nat, a: Account) {
    k < |ps| && k < |vs| && Gives(ps[k], vs[k], a)
  }

  lemma HeldNext(ps: seq<Pair>, vs: seq<Move>, n: nat, a: Account)
    ensures Held(ps, vs, n + 1, a) <==> TakenAt(ps, vs, n, a) || (Held(ps, vs, n, a) && !GivenAt(ps, vs, n, a))
  {
    if Held(ps, vs, n, a) && !GivenAt(ps, vs, n, a) {
      var k :| 0 <= k < n && TakenAt(ps, vs, k, a) && forall l :: k < l < n ==> !GivenAt(ps, vs, l, a);
      assert forall l :: k < l < n + 1 ==> !GivenAt(ps, vs, l, a);
    }
  }

  /**
    An account is locked at a replica that stays connected exactly if a batch about it has been
    taken over since a batch about it was last committed or an open prepare about it decided.
  */
  lemma {:induction false} LockedIffHeld(ps: seq<Pair>, vs: seq<Move>, n: nat, a: Account)
    requires IsRun(ps, vs) && n < |ps| && forall k :: 0 <= k <= n ==> !ps[k].replica.disconnected
    ensures a in ps[n].replica.store.locks <==> Held(ps, vs, n, a)
  {
    if n > 0 {
      LockedIffHeld(ps, vs, n - 1, a);
      HeldNext(ps, vs, n - 1, a);
      ConnectedReplicaIsExact(ps, vs, n - 1);
      RunStep(ps, vs, n - 1);
      MoveLocks(ps[n - 1], vs[n - 1], a);
    }
  }

  /** No round was given up behind its accept before message k: every accept but the last is followed by its commit. */
  predicate Settled(ms: seq<Message>, k: nat) {
    forall j :: 0 <= j && j + 1 < k <= |ms| && ms[j].AcceptMsg? ==> ms[j + 1].CommitMsg?
  }

  /** Locks of the batch being agreed on after message k, if there is one. */
  ghost predicate OfLast(cfg: Config, ms: seq<Message>, k: nat, locks: set<Account>) {
    if 0 < k <= |ms| && ms[k - 1].AcceptMsg? then forall a :: a in locks ==> Concerns(cfg, ms[k - 1].batch, a)
    else locks == {}
  }

  ghost predicate OfLastBatch(p: Pair) {
    OfLast(p.replica.cfg, Rounds(p.leader.out), p.handled, p.replica.store.locks)
  }

  /** What message k does to the locks. */
  ghost predicate Relocked(cfg: Config, ms: seq<Message>, k: nat, locks: set<Account>, locks': set<Account>)
    requires k < |ms|
  {
    forall a :: a in locks' <==>
                if ms[k].AcceptMsg? then a in locks || Concerns(cfg, ms[k].batch, a)
                else if ms[k].CommitMsg? then a in locks && !Concerns(cfg, LastBatch(ms[..k]), a)
                else a in locks
  }

  lemma RelockedAt(cfg: Config, ms: seq<Message>, k: nat, locks: set<Account>, locks': set<Account>, a: Account)
    requires k < |ms| && Relocked(cfg, ms, k, locks, locks')
    ensures a in locks' <==>
            if ms[k].AcceptMsg? then a in locks || Concerns(cfg, ms[k].batch, a)
            else if ms[k].CommitMsg? then a in locks && !Concerns(cfg, LastBatch(ms[..k]), a)
            else a in locks
  {
  }

  lemma NextOfLast(cfg: Config, ms: seq<Message>, k: nat, locks: set<Account>, locks': set<Account>)
    requires k < |ms| && WellFormed(cfg, ms[..k + 1]) && Settled(ms, k + 1) && OfLast(cfg, ms, k, locks) && Relocked(cfg, ms, k, locks, locks')
    ensures OfLast(cfg, ms, k + 1, locks')
  {
    assert ms[..k + 1][..k] == ms[..k] && ms[..k + 1][k] == ms[k];
    assert k > 0 ==> ms[..k][k - 1] == ms[k - 1];
    if ms[k].CommitMsg? {
      assert LastBatch(ms[..k]) == ms[k - 1].batch;
    } else {
      assert locks == {};
    }
    if !ms[k].AcceptMsg? {
      forall a ensures a !in locks' {
        RelockedAt(cfg, ms, k, locks, locks', a);
      }
      NoneLeft(locks');
    }
  }

  lemma NoneLeft<T>(s: set<T>)
    requires forall x :: x !in s
    ensures s == {}
  {
  }

  lemma DeliverOfLast(s: Server, ms: seq<Message>, k: nat, now: int)
    requires InStep(s, ms, k) && k < |ms| && Settled(ms, k + 1) && OfLast(s.cfg, ms, k, s.store.locks)
    ensures OfLast(s.cfg, ms, k + 1, Handle(s, ms[k], now).store.locks)
  {
    var locks' := Handle(s, ms[k], now).store.locks;
    forall a ensures a in locks' <==>
                     if ms[k].AcceptMsg? then a in s.store.locks || Concerns(s.cfg, ms[k].batch, a)
                     else if ms[k].CommitMsg? then a in s.store.locks && !Concerns(s.cfg, LastBatch(ms[..k]), a)
                     else a in s.store.locks
    {
      DeliverLocks(s, ms, k, now, a);
    }
    PrefixNext(s.cfg, ms, k);
    NextOfLast(s.cfg, ms, k, s.store.locks, locks');
  }

  lemma OutcomeOfLast(p: Pair, ev: Event)
    requires PairInStep(p) && Between(ev) && OfLastBatch(p)
    ensures OfLastBatch(Next(p, AtReplica(ev)))
  {
    forall a ensures a in Step(p.replica, ev).store.locks ==> a in p.replica.store.locks {
      OutcomeLocks(p.replica, ev, a);
    }
    StepKeepsReplicaConfig(p.replica, ev);
  }

  lemma StepKeepsReplicaConfig(s: Server, ev: Event)
    requires Between(ev)
    ensures Step(s, ev).cfg == s.cfg
  {
  }

  lemma LeaderOfLast(p: Pair, ev: Event)
    requires p.handled <= |Rounds(p.leader.out)| && OfLastBatch(p)
    ensures OfLastBatch(Next(p, AtLeader(ev)))
  {
    OutGrows(p.leader, ev);
    RoundsPrefix(p.leader.out, Step(p.leader, ev).out);
  }

  lemma SettledBefore(p: Pair, v: Move)
    requires p.handled <= |Rounds(p.leader.out)| && Settled(Rounds(Next(p, v).leader.out), Next(p, v).handled)
    ensures Settled(Rounds(p.leader.out), p.handled)
  {
    if v.AtLeader? {
      OutGrows(p.leader, v.ev);
      RoundsPrefix(p.leader.out, Step(p.leader, v.ev).out);
    }
    var ms, ms', k := Rounds(p.leader.out), Rounds(Next(p, v).leader.out), p.handled;
    forall j | 0 <= j && j + 1 < k && ms[j].AcceptMsg? ensures ms[j + 1].CommitMsg? {
      assert ms'[j] == ms[j] && ms'[j + 1] == ms[j + 1];
    }
  }

  /** As long as no round was given up behind its accept, the locks are of the batch between its accept and its commit, and there are none otherwise. */
  lemma {:induction false} LocksOfRound(ps: seq<Pair>, vs: seq<Move>, n: nat)
    requires IsRun(ps, vs) && n < |ps| && forall k :: 0 <= k <= n ==> !ps[k].replica.disconnected
    requires Settled(Rounds(ps[n].leader.out), ps[n].handled)
    ensures OfLastBatch(ps[n])
  {
    if n > 0 {
      var p, v := ps[n - 1], vs[n - 1];
      RunStep(ps, vs, n - 1);
      ConnectedReplicaIsExact(ps, vs, n - 1);
      SettledBefore(p, v);
      LocksOfRound(ps, vs, n - 1);
      MoveOfLast(p, v);
    }
  }

  lemma MoveOfLast(p: Pair, v: Move)
    requires PairInStep(p) && Possible(p, v) && OfLastBatch(p) && Settled(Rounds(Next(p, v).leader.out), Next(p, v).handled)
    ensures OfLastBatch(Next(p, v))
  {
    match v
    case AtLeader(ev) => LeaderOfLast(p, ev);
    case AtReplica(ev) => OutcomeOfLast(p, ev);
    case Deliver(now) =>
      DeliverOfLast(p.replica, Rounds(p.leader.out), p.handled, now);
      HandleKeepsConfig(p.replica, Rounds(p.leader.out)[p.handled], now);
    case Catchup(last, upto, ballot) => NeverAsks(p, last);
  }

  // ---------------------------------------------------------------- a round that is given up

  const Stay := TransferReq(9, Transaction(1, 2, 1))
  const StayItem := Item(Stay, 0, false)

  lemma Sides()
    ensures InCluster(Skipping.Here, 1) && InCluster(Skipping.Here, 2) && InCluster(Skipping.There, 1) && InCluster(Skipping.There, 2) && !InCluster(Skipping.There, 2000)
  {
  }

  lemma StayAdmitted(cfg: Config, st: Store, b: Ballot)
    requires (cfg == Skipping.Here || cfg == Skipping.There) && st.locks == {} && Balance(st.balances, 1) >= 1
    ensures Validate(cfg, st, [StayItem], b, 0) == Validation(st.(locks := {1, 2}), [StayItem], [])
  {
    Sides();
    assert Validate(cfg, st, [StayItem][..0], b, 0) == Validation(st, [], []);
  }

  lemma StayAsked(s: Server) returns (s': Server)
    requires s == Init(Skipping.Here, Skipping.Ones)
    ensures SaneEvent(s, Client(0, Stay, false)) && s' == Step(s, Client(0, Stay, false))
    ensures s'.cfg == Skipping.Here && s'.store == s.store && !s'.disconnected && s'.acc == Acceptor(1, true, Skipping.B(1), false, NoBallot, [])
    ensures s'.out == [PrepareMsg(Skipping.B(1), -1)] && s'.round == Round([], [StayItem], true, false, true, false, 1, 0, 0, 0)
  {
    Sides();
    s' := Step(s, Client(0, Stay, false));
  }

  lemma StayProposed(s: Server) returns (s': Server)
    requires s.cfg == Skipping.Here && s.store == Init(Skipping.Here, Skipping.Ones).store && !s.disconnected
    requires s.acc == Acceptor(1, true, Skipping.B(1), false, NoBallot, [])
    requires s.out == [PrepareMsg(Skipping.B(1), -1)] && s.round == Round([], [StayItem], true, false, true, false, 1, 0, 0, 0)
    ensures SaneEvent(s, Skipping.Promise(0)) && s' == Step(s, Skipping.Promise(0))
    ensures s'.out == [PrepareMsg(Skipping.B(1), -1), AcceptMsg(Skipping.B(1), [Stay])] && s'.acc.acceptNum == Skipping.B(1)
    ensures s'.cfg == Skipping.Here && s'.store.locks == {1, 2} && s'.round == Round([], [StayItem], true, false, false, true, 2, 0, 1, 0)
  {
    StayAdmitted(Skipping.Here, s.store, Skipping.B(1));
    assert Requests([StayItem]) == [Stay];
    s' := Step(s, Skipping.Promise(0));
  }

  /** A leader whose first proposal is on its way. */
  lemma Proposed() returns (p: Pair)
    ensures Skipping.Reached(p) && p.replica == Init(Skipping.There, Skipping.Ones) && p.handled == 0
    ensures p.leader.out == [PrepareMsg(Skipping.B(1), -1), AcceptMsg(Skipping.B(1), [Stay])] && p.leader.acc.acceptNum == Skipping.B(1)
    ensures p.leader.cfg == Skipping.Here && p.leader.store.locks == {1, 2} && p.leader.round == Round([], [StayItem], true, false, false, true, 2, 0, 1, 0)
  {
    Skipping.StartReached();
    p := Skipping.Start;
    var s1 := StayAsked(p.leader);
    Skipping.LeaderMoves(p, Client(0, Stay, false));
    p := p.(leader := s1);
    var s2 := StayProposed(s1);
    Skipping.LeaderMoves(p, Skipping.Promise(0));
    p := p.(leader := s2);
  }

  /** Both replies are lost: the leader gives up and unlocks. */
  lemma GivenUp() returns (p: Pair)
    ensures Skipping.Reached(p) && p.replica == Init(Skipping.There, Skipping.Ones) && p.handled == 0
    ensures p.leader.out == [PrepareMsg(Skipping.B(1), -1), AcceptMsg(Skipping.B(1), [Stay])] && p.leader.store.locks == {} && !p.leader.round.running
  {
    var lost := AcceptAnswer(Deadline, Skipping.B(1));
    p := Proposed();
    Skipping.LeaderMoves(p, lost);
    p := p.(leader := Step(p.leader, lost));
    assert ReleaseIntra({1, 2}, [StayItem][..0]) == {1, 2} && ReleaseIntra({1, 2}, [StayItem]) == {};
    Skipping.LeaderMoves(p, lost);
    p := p.(leader := Step(p.leader, lost));
  }

  lemma RoundsOfTwo(a: Message, b: Message)
    requires IsRoundMsg(a) && IsRoundMsg(b)
    ensures Rounds([a, b]) == [a, b]
  {
    assert [a, b][..1] == [a] && [a][..0] == [];
    assert Rounds([a]) == [a];
  }

  lemma StayTakenOver(s: Server)
    requires s == Init(Skipping.There, Skipping.Ones)
    ensures Handle(Handle(s, PrepareMsg(Skipping.B(1), -1), 0), AcceptMsg(Skipping.B(1), [Stay]), 0).store.locks == {1, 2}
  {
    Sides();
    var s1 := PrepareCall(s, Skipping.B(1), -1);
    assert AcceptAll(Skipping.There, s1.store, [Stay][..0], Skipping.B(1), 0) == s1.store;
  }

  /** A round given up behind its accept: the leader has unlocked, the follower has handled all messages and keeps the accounts locked. */
  lemma GivenUpStaysLocked() returns (p: Pair)
    ensures Skipping.Reached(p) && p.handled == |Rounds(p.leader.out)| && p.leader.store.locks == {} && !p.leader.round.running
    ensures p.replica.store.locks == {1, 2}
  {
    p := GivenUp();
    RoundsOfTwo(p.leader.out[0], p.leader.out[1]);
    StayTakenOver(p.replica);
    p := Skipping.Delivers(p, PrepareMsg(Skipping.B(1), -1));
    p := Skipping.Delivers(p, AcceptMsg(Skipping.B(1), [Stay]));
  }

  // ---------------------------------------------------------------- a prepare that is not locked

  /** After the commit of a batch the prepares of the batch are open at the follower, and their accounts are not locked. */
  lemma CommitUnlocksPrepared(s: Server, b: Ballot, r: TransferReq, a: Account)
    requires !s.disconnected && s.acc.promisedNum.num == b.num && s.acc.acceptNum.num == b.num
    requires r in s.acc.acceptBatch && r.tid in s.store.open && a in InsideAccounts(s.cfg, r.txn)
    ensures r.tid in CommitCall(s, b).store.open && a !in CommitCall(s, b).store.locks
  {
    CommitLocks(s.cfg, s.store, s.acc.acceptBatch, s.acc.acceptNum, a);
    CommitKeepsOpen(s.cfg, s.store, s.acc.acceptBatch, s.acc.acceptNum);
  }

  lemma {:induction false} CommitKeepsOpen(cfg: Config, st: Store, batch: seq<TransferReq>, b: Ballot)
    ensures CommitAll(cfg, st, batch, b).open == st.open
  {
    if batch != [] {
      CommitKeepsOpen(cfg, st, batch[..|batch| - 1], b);
    }
  }

  /** The follower with transaction 1 prepared and committed by its leader. */
  lemma Prepared() returns (p: Pair)
    ensures Skipping.Reached(p) && Skipping.Resting(p.leader, 4) && Skipping.Holding(p.replica, [Skipping.P(1)], 0, 0, 1) && !p.replica.disconnected
    ensures var st := p.replica.store; st.open == map[1 := Skipping.P(1)] && st.locks == {} && st.balances == Skipping.Ones && st.applied == {}
    ensures p.replica.round == Round([], [], false, false, false, false, 0, 0, 0, 0)
  {
    p := Skipping.FourRounds();
    p := Skipping.ReplicaRound(p, [], -1, 1);
    assert [] + [Skipping.P(1)] == [Skipping.P(1)];
  }

  const Mine := Ballot(2, 2)

  /** A round of its own about the account, which its former leader would refuse. */
  function Spending(s: Server): Server {
    Step(Step(Step(s, Client(0, Stay, false)), PrepareAnswer(Replied(PrepareRes(true, Mine, None, [], None, None, 0)), Mine, 0)),
         AcceptAnswer(Replied((Mine, true)), Mine))
  }

  lemma Spends(s: Server) returns (s': Server)
    requires Skipping.Holding(s, [Skipping.P(1)], 0, 0, 1) && !s.disconnected && s.round == Round([], [], false, false, false, false, 0, 0, 0, 0)
    requires s.store.open == map[1 := Skipping.P(1)] && s.store.locks == {} && s.store.balances == Skipping.Ones && s.store.applied == {}
    ensures s' == Spending(s)
    ensures s'.cfg == s.cfg && !s'.disconnected && s'.store.open == s.store.open && Balance(s'.store.balances, 1) == 0 && s'.store.applied == {9}
  {
    Sides();
    var s1 := Step(s, Client(0, Stay, false));
    StayAdmitted(Skipping.There, s1.store, Mine);
    var s2 := Step(s1, PrepareAnswer(Replied(PrepareRes(true, Mine, None, [], None, None, 0)), Mine, 0));
    assert s2.store == s1.store.(locks := {1, 2}) && s2.round.awaitAccept && s2.acc.acceptNum == Mine && s2.round.current == [StayItem];
    assert SettleAll(s2.store, [StayItem][..0], Mine) == s2.store;
    s' := Step(s2, AcceptAnswer(Replied((Mine, true)), Mine));
    assert s'.store == SettleAll(s2.store, [StayItem], Mine);
  }

  lemma Overdraws(s: Server)
    requires s.cfg == Skipping.There && !s.disconnected && s.store.open == map[1 := Skipping.P(1)] && Balance(s.store.balances, 1) == 0 && s.store.applied == {9}
    ensures Balance(Step(s, Decided(1, true)).store.balances, 1) == -1
  {
    Sides();
  }

  /** A follower, reached from the start, that leads such a round; when the prepare is decided then, the account is overdrawn. */
  lemma FailoverOverdraws() returns (p: Pair)
    ensures Skipping.Reached(p) && Balance(Step(Spending(p.replica), Decided(1, true)).store.balances, 1) < 0
  {
    p := Prepared();
    var s := Spends(p.replica);
    Overdraws(s);
  }
}
