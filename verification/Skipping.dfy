/**
  A run of a leader and a replica, from the start, in which a sync skips an agreed entry
  (src/server/server.cc: processPrepareCall, processSyncCall, handleSyncReply): the outcome of a
  transaction has moved the replica's entry numbers, by which it asks.
*/
module Skipping {
  import opened Protocol
  import opened ServerSpec
  import opened Replicas

  // ---------------------------------------------------------------- runs

  ghost predicate Reached(p: Pair) {
    exists ps, vs :: IsRun(ps, vs) && ps[|vs|] == p
  }

  lemma RunStep(ps: seq<Pair>, vs: seq<Move>, k: nat)
    requires IsRun(ps, vs) && k < |vs|
    ensures Possible(ps[k], vs[k]) && ps[k + 1] == Next(ps[k], vs[k])
  {
  }

  lemma RunSnoc(ps: seq<Pair>, vs: seq<Move>, p: Pair, v: Move, ps': seq<Pair>, vs': seq<Move>)
    requires IsRun(ps, vs) && Possible(ps[|vs|], v) && p == Next(ps[|vs|], v) && ps' == ps + [p] && vs' == vs + [v]
    ensures IsRun(ps', vs')
  {
    forall k | 0 <= k < |vs'| ensures Possible(ps'[k], vs'[k]) && ps'[k + 1] == Next(ps'[k], vs'[k]) {
      if k < |vs| {
        RunStep(ps, vs, k);
      }
    }
  }

  lemma ReachedOn(p: Pair, v: Move, p': Pair)
    requires Reached(p) && Possible(p, v) && p' == Next(p, v)
    ensures Reached(p')
  {
    var ps, vs :| IsRun(ps, vs) && ps[|vs|] == p;
    RunSnoc(ps, vs, p', v, ps + [p'], vs + [v]);
    assert (ps + [p'])[|vs + [v]|] == p';
  }

  // ---------------------------------------------------------------- the leader

  const Here := Config(1, 1, 3)
  const There := Config(2, 1, 3)

  /** Round t is about one transfer, out of account t, with ballot number t. */
  function Ask(t: Tid): TransferReq {
    TransferReq(t, Transaction(t, 2000, 1))
  }

  function B(t: int): Ballot {
    Ballot(t, 1)
  }

  function P(t: Tid): LogEntry {
    EntryOf(Ask(t), B(t), Cross, Prepared)
  }

  function Entries(n: nat): seq<LogEntry> {
    seq(n, i requires 0 <= i < n => P(i + 1))
  }

  /** The messages of the first n rounds. */
  function Said(n: nat): seq<Message> {
    if n == 0 then [] else Said(n - 1) + [PrepareMsg(B(n), n - 2)] + [AcceptMsg(B(n), [Ask(n)])] + [CommitMsg(B(n))]
  }

  lemma Sides(t: Tid)
    requires 1 <= t <= 4
    ensures InCluster(Here, t) && InCluster(There, t) && !InCluster(Here, 2000) && !InCluster(There, 2000)
  {
  }

  /** The log after n rounds, with accounts and ids of later ones untouched. */
  ghost predicate Stored(st: Store, n: nat) {
    && st.log == Entries(n) && st.lastInserted == n - 1 && st.paxosIndex == n - 1
    && (forall a :: a in st.locks ==> 1 <= a <= n) && (forall t :: t in st.open ==> 1 <= t <= n)
    && (forall t :: n < t <= 4 ==> Balance(st.balances, t) >= 1)
  }

  /** The leader between rounds n and n + 1. */
  ghost predicate Resting(s: Server, n: nat) {
    && s.cfg == Here && !s.disconnected && Stored(s.store, n) && s.acc.ballotNum == n && Rounds(s.out) == Said(n)
    && s.round.pending == [] && s.round.current == [] && !s.round.running && !s.round.inSync && !s.round.awaitPrepare && !s.round.awaitAccept
  }

  /** The leader waiting for promises, and then for acceptance, in round n + 1. */
  ghost predicate Asking(s: Server, n: nat) {
    && s.cfg == Here && !s.disconnected && Stored(s.store, n) && s.acc.ballotNum == n + 1 && s.acc.promisedNum == B(n + 1)
    && Rounds(s.out) == Said(n) + [PrepareMsg(B(n + 1), n - 1)]
    && s.round == Round([], [Item(Ask(n + 1), 0, true)], true, false, true, false, 1, 0, s.round.acceptSuccesses, s.round.acceptFailures)
  }

  ghost predicate Proposing(s: Server, n: nat) {
    && s.cfg == Here && !s.disconnected && Stored(s.store, n + 1) && s.acc.ballotNum == n + 1 && s.acc.acceptNum == B(n + 1)
    && Rounds(s.out) == Said(n) + [PrepareMsg(B(n + 1), n - 1)] + [AcceptMsg(B(n + 1), [Ask(n + 1)])]
    && s.round.pending == [] && s.round.current == [Item(Ask(n + 1), 0, true)] && s.round.running && !s.round.inSync
    && !s.round.awaitPrepare && s.round.awaitAccept && s.round.acceptSuccesses == 1
  }

  lemma RoundsSnoc(out: seq<Message>, m: Message)
    ensures Rounds(out + [m]) == if IsRoundMsg(m) then Rounds(out) + [m] else Rounds(out)
  {
    assert (out + [m])[..|out|] == out;
    assert Rounds(out) + [] == Rounds(out);
  }

  lemma TidsSnoc(ms: seq<Message>, m: Message)
    ensures AllTids(ms + [m]) == AllTids(ms) + if m.AcceptMsg? then TidsOf(m.batch) else {}
  {
    assert (ms + [m])[..|ms|] == ms;
  }

  lemma {:induction false} SaidTids(n: nat)
    ensures forall t :: t in AllTids(Said(n)) ==> 1 <= t <= n
  {
    if n > 0 {
      SaidTids(n - 1);
      var ms := Said(n - 1);
      TidsSnoc(ms, PrepareMsg(B(n), n - 2));
      TidsSnoc(ms + [PrepareMsg(B(n), n - 2)], AcceptMsg(B(n), [Ask(n)]));
      TidsSnoc(ms + [PrepareMsg(B(n), n - 2)] + [AcceptMsg(B(n), [Ask(n)])], CommitMsg(B(n)));
    }
  }

  lemma Asks(s: Server, n: nat)
    requires Resting(s, n) && n < 4
    ensures SaneEvent(s, Client(0, Ask(n + 1), true)) && Asking(Step(s, Client(0, Ask(n + 1), true)), n)
  {
    Sides(n + 1);
    SaidTids(n);
    RoundsSnoc(s.out, PrepareMsg(B(n + 1), n - 1));
  }

  function Promise(n: nat): Event {
    PrepareAnswer(Replied(PrepareRes(true, B(n + 1), None, [], None, None, 0)), B(n + 1), 0)
  }

  lemma Admits(st: Store, n: nat)
    requires Stored(st, n) && n < 4
    ensures var it := Item(Ask(n + 1), 0, true);
            var v := Validate(Here, st, [it], B(n + 1), 0); v.kept == [it] && Stored(v.store, n + 1)
  {
    var it := Item(Ask(n + 1), 0, true);
    Sides(n + 1);
    assert Validate(Here, st, [it][..0], B(n + 1), 0) == Validation(st, [], []);
    assert st.log + [P(n + 1)] == Entries(n + 1);
  }

  lemma Proposes(s: Server, n: nat)
    requires Asking(s, n) && n < 4
    ensures SaneEvent(s, Promise(n)) && Proposing(Step(s, Promise(n)), n)
  {
    var it := Item(Ask(n + 1), 0, true);
    Admits(s.store, n);
    RoundsSnoc(s.out, AcceptMsg(B(n + 1), [Ask(n + 1)]));
    assert Requests([it]) == [Ask(n + 1)];
  }

  function Acceptance(n: nat): Event {
    AcceptAnswer(Replied((B(n + 1), true)), B(n + 1))
  }

  lemma Commits(s: Server, n: nat)
    requires Proposing(s, n)
    ensures SaneEvent(s, Acceptance(n)) && Resting(Step(s, Acceptance(n)), n + 1)
  {
    var it := Item(Ask(n + 1), 0, true);
    assert SettleAll(s.store, [it][..0], B(n + 1)) == s.store;
    RoundsSnoc(s.out, CommitMsg(B(n + 1)));
  }

  lemma LeaderMoves(p: Pair, ev: Event)
    requires Reached(p) && SaneEvent(p.leader, ev)
    ensures Reached(p.(leader := Step(p.leader, ev)))
  {
    ReachedOn(p, AtLeader(ev), p.(leader := Step(p.leader, ev)));
  }

  lemma OneRound(p: Pair, n: nat) returns (p': Pair)
    requires Reached(p) && Resting(p.leader, n) && n < 4
    ensures Reached(p') && Resting(p'.leader, n + 1) && p'.replica == p.replica && p'.handled == p.handled
  {
    Asks(p.leader, n);
    LeaderMoves(p, Client(0, Ask(n + 1), true));
    p' := p.(leader := Step(p.leader, Client(0, Ask(n + 1), true)));
    Proposes(p'.leader, n);
    LeaderMoves(p', Promise(n));
    p' := p'.(leader := Step(p'.leader, Promise(n)));
    Commits(p'.leader, n);
    LeaderMoves(p', Acceptance(n));
    p' := p'.(leader := Step(p'.leader, Acceptance(n)));
  }

  const Ones: map<Account, int> := map[1 := 1, 2 := 1, 3 := 1, 4 := 1]
  const Start := Pair(Init(Here, Ones), Init(There, Ones), 0)

  lemma StartReached()
    ensures Reached(Start) && Resting(Start.leader, 0)
  {
    assert Start.leader == Init(Start.leader.cfg, Ones) && forall a :: a in Ones ==> Ones[a] >= 0;
    var vs: seq<Move> := [];
    assert IsRun([Start], vs) && [Start][|vs|] == Start;
    assert Entries(0) == [];
  }

  /** The leader alone, for four rounds. */
  lemma FourRounds() returns (p: Pair)
    ensures Reached(p) && Resting(p.leader, 4) && p.replica == Init(There, Ones) && p.handled == 0
  {
    StartReached();
    p := OneRound(Start, 0);
    p := OneRound(p, 1);
    p := OneRound(p, 2);
    p := OneRound(p, 3);
  }

  // ---------------------------------------------------------------- the replica

  lemma {:induction false} SaidAt(n: nat, t: nat)
    requires 1 <= t <= n
    ensures |Said(n)| == 3 * n && Said(n)[3 * t - 3] == PrepareMsg(B(t), t - 2) && Said(n)[3 * t - 2] == AcceptMsg(B(t), [Ask(t)]) && Said(n)[3 * t - 1] == CommitMsg(B(t))
  {
    if t < n {
      SaidAt(n - 1, t);
    } else if n > 1 {
      SaidAt(n - 1, 1);
    }
  }

  lemma Delivers(p: Pair, m: Message) returns (p': Pair)
    requires Reached(p) && p.handled < |Rounds(p.leader.out)| && Rounds(p.leader.out)[p.handled] == m
    ensures Reached(p') && p' == p.(replica := Handle(p.replica, m, 0), handled := p.handled + 1)
  {
    p' := p.(replica := Handle(p.replica, m, 0), handled := p.handled + 1);
    ReachedOn(p, Deliver(0), p');
  }

  /** A replica with this log, at this entry number, that has promised nothing. */
  predicate Holding(s: Server, log: seq<LogEntry>, last: int, index: int, num: int) {
    && s.cfg == There && s.store.log == log && s.store.lastInserted == last && s.store.paxosIndex == index
    && s.acc.ballotNum == num && !s.acc.promised && Passive(s)
  }

  lemma HandlesRound(s: Server, log: seq<LogEntry>, last: int, t: nat)
    requires 1 <= t <= 4 && Holding(s, log, last, t - 2, t - 1) && !s.disconnected
    ensures var s' := Handle(Handle(Handle(s, PrepareMsg(B(t), t - 2), 0), AcceptMsg(B(t), [Ask(t)]), 0), CommitMsg(B(t)), 0);
            && Holding(s', log + [P(t)], |log|, t - 1, t) && !s'.disconnected && s'.store.open == s.store.open[t := P(t)]
            && s'.store.locks == s.store.locks - {t} && s'.store.balances == s.store.balances && s'.store.applied == s.store.applied
            && s'.round == s.round
  {
    Sides(t);
    var s1 := PrepareCall(s, B(t), t - 2);
    assert AcceptAll(There, s1.store, [Ask(t)][..0], B(t), 0) == s1.store;
    var s2 := AcceptCall(s1, B(t), [Ask(t)], 0);
    assert s2.store == AcceptOne(There, s1.store, Ask(t), B(t), 0);
    assert CommitAll(There, s2.store, [Ask(t)][..0], B(t)) == s2.store;
  }

  lemma ReplicaRound(p: Pair, log: seq<LogEntry>, last: int, t: nat) returns (p': Pair)
    requires Reached(p) && Resting(p.leader, 4) && 1 <= t <= 4 && p.handled == 3 * t - 3
    requires Holding(p.replica, log, last, t - 2, t - 1) && !p.replica.disconnected
    ensures Reached(p') && p'.leader == p.leader && p'.handled == 3 * t
    ensures Holding(p'.replica, log + [P(t)], |log|, t - 1, t) && !p'.replica.disconnected && p'.replica.store.open == p.replica.store.open[t := P(t)]
    ensures var st, st' := p.replica.store, p'.replica.store; st'.locks == st.locks - {t} && st'.balances == st.balances && st'.applied == st.applied
    ensures p'.replica.round == p.replica.round
  {
    HandlesRound(p.replica, log, last, t);
    p' := DeliversRound(p, t);
  }

  lemma DeliversRound(p: Pair, t: nat) returns (p': Pair)
    requires Reached(p) && Rounds(p.leader.out) == Said(4) && 1 <= t <= 4 && p.handled == 3 * t - 3
    ensures Reached(p') && p'.leader == p.leader && p'.handled == 3 * t
    ensures p'.replica == Handle(Handle(Handle(p.replica, PrepareMsg(B(t), t - 2), 0), AcceptMsg(B(t), [Ask(t)]), 0), CommitMsg(B(t)), 0)
  {
    SaidAt(4, t);
    p' := Delivers(p, PrepareMsg(B(t), t - 2));
    p' := Delivers(p', AcceptMsg(B(t), [Ask(t)]));
    p' := Delivers(p', CommitMsg(B(t)));
  }

  /** While it is disconnected nothing of a round reaches it. */
  lemma ReplicaMisses(p: Pair, log: seq<LogEntry>, last: int, t: nat, index: int, num: int) returns (p': Pair)
    requires Reached(p) && Resting(p.leader, 4) && 1 <= t <= 4 && p.handled == 3 * t - 3
    requires Holding(p.replica, log, last, index, num) && p.replica.disconnected
    ensures Reached(p') && p'.leader == p.leader && p'.handled == 3 * t && Holding(p'.replica, log, last, index, num) && p'.replica.disconnected
  {
    p' := DeliversRound(p, t);
  }

  lemma ReplicaMoves(p: Pair, ev: Event) returns (p': Pair)
    requires Reached(p) && Between(ev)
    ensures Reached(p') && p' == p.(replica := Step(p.replica, ev))
  {
    p' := p.(replica := Step(p.replica, ev));
    ReachedOn(p, AtReplica(ev), p');
  }

  const D1 := P(1).(status := Committed)

  /** Transaction 1 is prepared and its commit logged, which has a number of its own; then transaction 2. */
  lemma TwoRounds() returns (p: Pair)
    ensures Reached(p) && Resting(p.leader, 4) && p.handled == 6 && !p.replica.disconnected && Holding(p.replica, [P(1), D1, P(2)], 2, 1, 2)
  {
    p := FourRounds();
    p := ReplicaRound(p, [], -1, 1);
    assert [] + [P(1)] == [P(1)];
    p := ReplicaMoves(p, Decided(1, true));
    assert [P(1)] + [D1] == [P(1), D1];
    p := ReplicaRound(p, [P(1), D1], 0, 2);
    assert [P(1), D1] + [P(2)] == [P(1), D1, P(2)];
  }

  /** The replica misses round 3, and the prepare call of round 4 makes it ask for what it lacks, by entry number. */
  lemma BehindAndAsking() returns (p: Pair)
    ensures Reached(p) && Resting(p.leader, 4) && !p.replica.disconnected && Holding(p.replica, [P(1), D1, P(2)], 2, 1, 2) && SyncMsg(1, 2) in p.replica.out
  {
    p := TwoRounds();
    p := ReplicaMoves(p, Disconnect(true));
    p := ReplicaMisses(p, [P(1), D1, P(2)], 2, 3, 1, 2);
    p := ReplicaMoves(p, Disconnect(false));
    SaidAt(4, 4);
    var s := p.replica;
    p := Delivers(p, PrepareMsg(B(4), 2));
    assert p.replica.out[|s.out|] == SyncMsg(1, 2);
  }

  // ---------------------------------------------------------------- what it gets

  lemma PaxosOf3(a: LogEntry, b: LogEntry, c: LogEntry)
    ensures Paxos([a, b, c]) == (if IsPaxosEntry(a) then [a] else []) + (if IsPaxosEntry(b) then [b] else []) + if IsPaxosEntry(c) then [c] else []
  {
    assert [a, b, c][..2] == [a, b] && [a, b][..1] == [a] && [a][..0] == [];
    assert Paxos([a]) == if IsPaxosEntry(a) then [a] else [];
  }

  lemma PaxosOf4(a: LogEntry, b: LogEntry, c: LogEntry, d: LogEntry)
    ensures Paxos([a, b, c, d]) == Paxos([a, b, c]) + if IsPaxosEntry(d) then [d] else []
  {
    assert [a, b, c, d][..3] == [a, b, c];
  }

  lemma AnswersFromThree(s: Server)
    requires Resting(s, 4)
    ensures s.store.log == [P(1), P(2), P(3), P(4)]
    ensures SyncCall(s, 2).out == s.out + [SyncReplyMsg(SyncRes(true, [P(4)], s.store.lastBallot))]
  {
    assert s.store.log == [P(1), P(2), P(3), P(4)];
    assert s.store.log[3..] == [P(4)];
  }

  lemma TakesFour(s: Server, last: Ballot)
    requires Holding(s, [P(1), D1, P(2)], 2, 1, 2)
    ensures SyncReply(s, Replied(SyncRes(true, [P(4)], last))).store.log == [P(1), D1, P(2), P(4)]
  {
    assert SyncEntries(s.cfg, s.store, [P(4)][..0]) == s.store;
    assert [P(1), D1, P(2)] + [P(4)] == [P(1), D1, P(2), P(4)];
  }

  /**
    Numbers that are not aligned skip an entry: a leader and a replica, reached from the start, whose
    sync leaves the replica with transaction 4 but without transaction 3.
  */
  lemma SyncSkipsEntry() returns (p: Pair, res: SyncRes)
    ensures Reached(p) && SyncMsg(p.leader.cfg.serverId, p.replica.store.lastInserted) in p.replica.out
    ensures SyncCall(p.leader, p.replica.store.lastInserted).out == p.leader.out + [SyncReplyMsg(res)]
    ensures Paxos(p.leader.store.log) == [P(1), P(2), P(3), P(4)] && Paxos(p.replica.store.log) == [P(1), P(2)]
    ensures var log := Paxos(SyncReply(p.replica, Replied(res)).store.log); log == [P(1), P(2), P(4)] && !(log <= Paxos(p.leader.store.log))
  {
    p := BehindAndAsking();
    AnswersFromThree(p.leader);
    res := SyncRes(true, [P(4)], p.leader.store.lastBallot);
    TakesFour(p.replica, res.lastBallot);
    FourIsNoPrefix();
  }

  lemma FourIsNoPrefix()
    ensures Paxos([P(1), P(2), P(3), P(4)]) == [P(1), P(2), P(3), P(4)] && Paxos([P(1), D1, P(2)]) == [P(1), P(2)]
    ensures Paxos([P(1), D1, P(2), P(4)]) == [P(1), P(2), P(4)] && !([P(1), P(2), P(4)] <= [P(1), P(2), P(3), P(4)])
  {
    PaxosOf3(P(1), P(2), P(3));
    PaxosOf4(P(1), P(2), P(3), P(4));
    PaxosOf3(P(1), D1, P(2));
    PaxosOf4(P(1), D1, P(2), P(4));
    assert [P(1), P(2), P(4)][2] != [P(1), P(2), P(3), P(4)][2];
  }
}
