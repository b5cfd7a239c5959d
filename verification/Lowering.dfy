/**
  Why the hypothesis on syncs is there: a run of three servers, in which no message is handled
  twice, one commit is late, and one sync reply takes a ballot number below a vote, so that two
  servers propose different batches under one number (src/server/server.cc: handleSyncReply,
  processPrepareCall).
*/
module Lowering {
  import opened Protocol
  import opened ServerSpec
  import opened Ballots

  // ---------------------------------------------------------------- runs in which a sync may lower the number

  ghost predicate LaxPossible(c: Cluster, h: Happening) {
    h.id in c.nodes &&
    if h.ev.SyncAnswer? then h.ev.sout.Replied? ==> SyncReplyMsg(h.ev.sout.res) in c.net else Deliverable(c.net, c.nodes[h.id], h.ev)
  }

  ghost predicate IsLaxRun(cs: seq<Cluster>, hs: seq<Happening>) {
    && |cs| == |hs| + 1 && Initial(cs[0])
    && forall k :: 0 <= k < |hs| ==> LaxPossible(cs[k], hs[k]) && cs[k + 1] == Next(cs[k], hs[k])
  }

  ghost predicate Reachable(c: Cluster) {
    exists cs, hs :: IsLaxRun(cs, hs) && cs[|hs|] == c
  }

  lemma ReachableNext(c: Cluster, h: Happening)
    requires Reachable(c) && LaxPossible(c, h)
    ensures Reachable(Next(c, h))
  {
    var cs, hs :| IsLaxRun(cs, hs) && cs[|hs|] == c;
    var cs', hs' := cs + [Next(c, h)], hs + [h];
    forall k | 0 <= k < |hs'| ensures LaxPossible(cs'[k], hs'[k]) && cs'[k + 1] == Next(cs'[k], hs'[k]) {
      if k < |hs| {
        assert cs'[k] == cs[k] && cs'[k + 1] == cs[k + 1] && hs'[k] == hs[k];
      }
    }
    assert IsLaxRun(cs', hs') && cs'[|hs'|] == Next(c, h);
  }

  /** Servers 1, 2 and 3 of one cluster, with all they have sent in the network. */
  function Three(x: Server, y: Server, z: Server): Cluster {
    Cluster(map[1 := x, 2 := y, 3 := z], Sent(x.out) + Sent(y.out) + Sent(z.out))
  }

  ghost predicate Reached(x: Server, y: Server, z: Server) {
    Reachable(Three(x, y, z))
  }

  lemma SentMore(out: seq<Message>, out': seq<Message>)
    requires out <= out'
    ensures Sent(out) <= Sent(out')
  {
    forall m | m in out ensures m in out' {
      var k :| 0 <= k < |out| && out[k] == m;
      assert out'[k] == m;
    }
  }

  lemma First(x: Server, y: Server, z: Server, x': Server, ev: Event)
    requires Reached(x, y, z) && LaxPossible(Three(x, y, z), At(1, ev)) && x' == Step(x, ev) && x.out <= x'.out
    ensures Reached(x', y, z)
  {
    ReachableNext(Three(x, y, z), At(1, ev));
    SentMore(x.out, x'.out);
    assert Next(Three(x, y, z), At(1, ev)) == Three(x', y, z);
  }

  lemma Second(x: Server, y: Server, z: Server, y': Server, ev: Event)
    requires Reached(x, y, z) && LaxPossible(Three(x, y, z), At(2, ev)) && y' == Step(y, ev) && y.out <= y'.out
    ensures Reached(x, y', z)
  {
    ReachableNext(Three(x, y, z), At(2, ev));
    SentMore(y.out, y'.out);
    assert Next(Three(x, y, z), At(2, ev)) == Three(x, y', z);
  }

  lemma Third(x: Server, y: Server, z: Server, z': Server, ev: Event)
    requires Reached(x, y, z) && LaxPossible(Three(x, y, z), At(3, ev)) && z' == Step(z, ev) && z.out <= z'.out
    ensures Reached(x, y, z')
  {
    ReachableNext(Three(x, y, z), At(3, ev));
    SentMore(z.out, z'.out);
    assert Next(Three(x, y, z), At(3, ev)) == Three(x, y, z');
  }

  // ---------------------------------------------------------------- transfers, ballots and replies

  const Funds: map<Account, int> := map[1 := 10, 3 := 10]
  const R1 := TransferReq(1, Transaction(1, 2, 1))
  const R2 := TransferReq(2, Transaction(1, 2, 1))
  const R3 := TransferReq(3, Transaction(1, 2, 1))
  const R4 := TransferReq(4, Transaction(3, 4, 1))
  const E1 := EntryOf(R1, B11, Intra, Committed)
  const B11 := Ballot(1, 1)
  const B21 := Ballot(2, 1)
  const B31 := Ballot(3, 1)
  const B13 := Ballot(1, 3)
  const B33 := Ballot(3, 3)

  function Ack(b: Ballot): PrepareRes {
    PrepareRes(true, b, None, [], None, None, 0)
  }

  /** The promise of a server that has accepted the first transfer. */
  function AckAccepted(b: Ballot): PrepareRes {
    PrepareRes(true, b, Some(B11), [R1], None, None, 0)
  }

  /** Server 2 lacks an entry; server 1 knows a higher number and more entries. */
  const Behind := PrepareRes(false, B21, None, [], None, None, 2)
  const Ahead := PrepareRes(false, B13, None, [], Some(2), Some(0), 1)
  const Synced := SyncRes(true, [E1], B11)

  lemma Inside(i: int)
    ensures InCluster(Config(i, 1, 1), 1) && InCluster(Config(i, 1, 1), 2) && InCluster(Config(i, 1, 1), 3) && InCluster(Config(i, 1, 1), 4)
  {
  }

  /** A single transfer that may go ahead passes the checks. */
  lemma Admitted(i: int, st: Store, it: Item, b: Ballot)
    requires !it.cross && !Blocked(Config(i, 1, 1), st, it.req.txn) && (it.req.txn == R1.txn || it.req.txn == R4.txn)
    ensures var v := Validate(Config(i, 1, 1), st, [it], b, 0); v.kept == [it] && v.answers == []
    ensures it.req.txn == R1.txn ==> Validate(Config(i, 1, 1), st, [it], b, 0).store == st.(locks := st.locks + {1, 2})
  {
    Inside(i);
    assert Validate(Config(i, 1, 1), st, [it][..0], b, 0) == Validation(st, [], []);
    assert InsideAccounts(Config(i, 1, 1), R1.txn) == {1, 2};
  }

  // ---------------------------------------------------------------- server 1

  predicate IsA1(s: Server) {
    s == Init(Config(1, 1, 1), Funds).(acc := Acceptor(1, true, B11, false, NoBallot, []), out := [PrepareMsg(B11, -1)],
                                       round := Round([], [Item(R1, 1, false)], true, false, true, false, 1, 0, 0, 0))
  }

  predicate IsA2(s: Server) {
    && s.cfg == Config(1, 1, 1) && !s.disconnected && s.store == Init(Config(1, 1, 1), Funds).store.(locks := {1, 2})
    && s.acc == Acceptor(1, true, B11, true, B11, [R1]) && s.round == Round([], [Item(R1, 1, false)], true, false, false, true, 2, 0, 1, 0)
    && AcceptMsg(B11, [R1]) in s.out
  }

  /** What matters of server 1 from then on: its log and its ballot number. */
  predicate Holds(s: Server, n: int) {
    && s.cfg == Config(1, 1, 1) && !s.disconnected && s.store.log == [E1] && s.store.lastInserted == 0 && s.store.lastBallot == B11
    && s.store.paxosIndex == 0 && s.store.locks == {} && Balance(s.store.balances, 1) == 9 && s.acc.ballotNum == n
  }

  /** No round runs. */
  predicate Resting(s: Server) {
    s.round.pending == [] && s.round.current == [] && !s.round.running && !s.round.inSync && !s.round.awaitPrepare && !s.round.awaitAccept
  }

  /** A round with one call waits for promises, of which it has its own. */
  predicate Asking(s: Server, it: Item, b: Ballot, failures: int) {
    && s.round.current == [it] && s.round.pending == [] && s.round.running && !s.round.inSync && s.round.awaitPrepare && !s.round.awaitAccept
    && s.round.prepareSuccesses == 1 && s.round.prepareFailures == failures && s.acc.promisedNum == b && s.acc.ballotNum == b.num
  }

  lemma ToA1(s: Server) returns (s': Server)
    requires s == Init(Config(1, 1, 1), Funds)
    ensures s' == Step(s, Client(1, R1, false)) && IsA1(s') && s.out <= s'.out
  {
    s' := Step(s, Client(1, R1, false));
  }

  lemma ToA2(s: Server) returns (s': Server)
    requires IsA1(s)
    ensures s' == Step(s, PrepareAnswer(Replied(Ack(B11)), B11, 0)) && IsA2(s') && s.out <= s'.out
  {
    Inside(1);
    Admitted(1, s.store, Item(R1, 1, false), B11);
    assert Requests([Item(R1, 1, false)]) == [R1];
    s' := Step(s, PrepareAnswer(Replied(Ack(B11)), B11, 0));
  }

  lemma Settled(st: Store)
    requires st == Init(Config(1, 1, 1), Funds).store.(locks := {1, 2})
    ensures SettleAll(st, [Item(R1, 1, false)], B11) == LogCommit(st.(locks := {}), R1, B11)
    ensures var st' := LogCommit(st.(locks := {}), R1, B11); st'.log == [E1] && Balance(st'.balances, 1) == 9
  {
    assert SettleAll(st, [Item(R1, 1, false)][..0], B11) == st;
    assert {1, 2} - {1, 2} == {};
    assert [] + [E1] == [E1];
  }

  lemma ToA3(s: Server) returns (s': Server)
    requires IsA2(s)
    ensures s' == Step(s, AcceptAnswer(Replied((B11, true)), B11)) && Holds(s', 1) && Resting(s') && s.out <= s'.out
  {
    Settled(s.store);
    s' := Step(s, AcceptAnswer(Replied((B11, true)), B11));
  }

  lemma Asks(s: Server, call: int, r: TransferReq, n: int) returns (s': Server)
    requires Holds(s, n) && Resting(s)
    ensures s' == Step(s, Client(call, r, false)) && Holds(s', n + 1) && Asking(s', Item(r, call, false), Ballot(n + 1, 1), 0)
    ensures s.out <= s'.out && PrepareMsg(Ballot(n + 1, 1), 0) in s'.out
  {
    s' := Step(s, Client(call, r, false));
    assert s'.out[|s.out|] == PrepareMsg(Ballot(n + 1, 1), 0);
  }

  lemma Answers(s: Server, it: Item) returns (s': Server)
    requires Holds(s, 2) && Asking(s, it, B21, 0)
    ensures s' == Step(s, OnSync(-1)) && Holds(s', 2) && Asking(s', it, B21, 0) && s.out <= s'.out && SyncReplyMsg(Synced) in s'.out
  {
    s' := Step(s, OnSync(-1));
    assert [E1][0..] == [E1];
    assert s'.out[|s.out|] == SyncReplyMsg(Synced);
  }

  lemma Refuses(s: Server, it: Item) returns (s': Server)
    requires Holds(s, 2) && Asking(s, it, B21, 0)
    ensures s' == Step(s, OnPrepare(B13, -1)) && Holds(s', 2) && Asking(s', it, B21, 0) && s.out <= s'.out && PrepareReplyMsg(1, Ahead) in s'.out
  {
    s' := Step(s, OnPrepare(B13, -1));
    assert s'.out[|s.out|] == PrepareReplyMsg(1, Ahead);
  }

  lemma FailsOnce(s: Server, it: Item) returns (s': Server)
    requires Holds(s, 2) && Asking(s, it, B21, 0)
    ensures s' == Step(s, PrepareAnswer(Replied(Behind), B21, 0)) && Holds(s', 2) && Asking(s', it, B21, 1) && s'.out == s.out
  {
    s' := Step(s, PrepareAnswer(Replied(Behind), B21, 0));
  }

  lemma GivesUp(s: Server, it: Item) returns (s': Server)
    requires Holds(s, 2) && Asking(s, it, B21, 1)
    ensures s' == Step(s, PrepareAnswer(Deadline, B21, 0)) && Holds(s', 2) && Resting(s') && s'.out == s.out
  {
    s' := Step(s, PrepareAnswer(Deadline, B21, 0));
  }

  lemma Proposes(s: Server) returns (s': Server)
    requires Holds(s, 3) && Asking(s, Item(R3, 3, false), B31, 0)
    ensures s' == Step(s, PrepareAnswer(Replied(AckAccepted(B31)), B31, 0)) && s.out <= s'.out && AcceptMsg(B31, [R3]) in s'.out
  {
    Inside(1);
    Admitted(1, s.store, Item(R3, 3, false), B31);
    assert Requests([Item(R3, 3, false)]) == [R3];
    s' := Step(s, PrepareAnswer(Replied(AckAccepted(B31)), B31, 0));
    assert s'.out[|s.out|] == AcceptMsg(B31, [R3]);
  }

  // ---------------------------------------------------------------- server 2

  /** Server 2 with the ballot it stands at; it has accepted the first transfer but not committed it. */
  predicate Follower(s: Server, acc: Acceptor) {
    && s.cfg == Config(2, 1, 1) && !s.disconnected && s.store == Init(Config(2, 1, 1), Funds).store.(locks := {1, 2}) && s.acc == acc
    && s.round.pending == [] && s.round.current == [] && !s.round.running && !s.round.awaitPrepare && !s.round.awaitAccept
  }

  lemma ToC1(s: Server) returns (s': Server)
    requires s == Init(Config(2, 1, 1), Funds)
    ensures s' == Step(s, OnPrepare(B11, -1)) && s.out <= s'.out
    ensures s' == s.(acc := Acceptor(1, true, B11, false, NoBallot, []), out := [PrepareReplyMsg(2, Ack(B11))])
  {
    s' := Step(s, OnPrepare(B11, -1));
  }

  lemma ToC2(s: Server) returns (s': Server)
    requires s == Init(Config(2, 1, 1), Funds).(acc := Acceptor(1, true, B11, false, NoBallot, []), out := [PrepareReplyMsg(2, Ack(B11))])
    ensures s' == Step(s, OnAccept(B11, [R1], 0)) && Follower(s', Acceptor(1, true, B11, true, B11, [R1])) && s.out <= s'.out && AcceptReplyMsg(2, B11, true) in s'.out
  {
    Inside(2);
    assert AcceptAll(Config(2, 1, 1), s.store, [R1][..0], B11, 0) == s.store;
    assert InsideAccounts(Config(2, 1, 1), R1.txn) == {1, 2};
    s' := Step(s, OnAccept(B11, [R1], 0));
    assert s'.out[|s.out|] == AcceptReplyMsg(2, B11, true);
  }

  lemma ToC3(s: Server) returns (s': Server)
    requires Follower(s, Acceptor(1, true, B11, true, B11, [R1]))
    ensures s' == Step(s, OnPrepare(B21, 0)) && Follower(s', Acceptor(1, true, B11, true, B11, [R1])) && s.out <= s'.out
    ensures SyncMsg(1, -1) in s'.out && PrepareReplyMsg(2, Behind) in s'.out
  {
    s' := Step(s, OnPrepare(B21, 0));
    assert s'.out[|s.out|] == SyncMsg(1, -1) && s'.out[|s.out| + 1] == PrepareReplyMsg(2, Behind);
  }

  lemma ToC4(s: Server) returns (s': Server)
    requires Follower(s, Acceptor(1, true, B11, true, B11, [R1]))
    ensures s' == Step(s, OnPrepare(B33, -1)) && Follower(s', Acceptor(3, true, B33, true, B11, [R1])) && s.out <= s'.out
    ensures PrepareReplyMsg(2, AckAccepted(B33)) in s'.out
  {
    s' := Step(s, OnPrepare(B33, -1));
    assert s'.out[|s.out|] == PrepareReplyMsg(2, AckAccepted(B33));
  }

  /** The sync takes the number from 3 to 1. */
  lemma ToC5(s: Server) returns (s': Server)
    requires Follower(s, Acceptor(3, true, B33, true, B11, [R1]))
    ensures s' == Step(s, SyncAnswer(Replied(Synced))) && s'.out == s.out && s'.cfg == s.cfg && !s'.disconnected
    ensures s'.acc == Acceptor(1, true, B33, true, B11, [R1]) && s'.store.paxosIndex == 0
  {
    assert SyncEntries(s.cfg, s.store, [E1][..0]) == s.store;
    assert SyncEntries(s.cfg, s.store, [E1]) == SyncEntry(s.cfg, s.store, E1);
    s' := Step(s, SyncAnswer(Replied(Synced)));
  }

  /** So the server votes for a second ballot of number 3. */
  lemma ToC6(s: Server) returns (s': Server)
    requires s.cfg == Config(2, 1, 1) && !s.disconnected && s.acc == Acceptor(1, true, B33, true, B11, [R1]) && s.store.paxosIndex == 0
    ensures s' == Step(s, OnPrepare(B31, 0)) && s.out <= s'.out && PrepareReplyMsg(2, AckAccepted(B31)) in s'.out
  {
    s' := Step(s, OnPrepare(B31, 0));
    assert s'.out[|s.out|] == PrepareReplyMsg(2, AckAccepted(B31));
  }

  // ---------------------------------------------------------------- server 3

  predicate IsD(s: Server, b: Ballot, failures: int) {
    s.cfg == Config(3, 1, 1) && !s.disconnected && s.store == Init(Config(3, 1, 1), Funds).store && Asking(s, Item(R4, 4, false), b, failures)
  }

  lemma ToD1(s: Server) returns (s': Server)
    requires s == Init(Config(3, 1, 1), Funds)
    ensures s' == Step(s, Client(4, R4, false)) && IsD(s', B13, 0) && s.out <= s'.out && PrepareMsg(B13, -1) in s'.out
  {
    s' := Step(s, Client(4, R4, false));
    assert s'.out[|s.out|] == PrepareMsg(B13, -1);
  }

  lemma ToD2(s: Server) returns (s': Server)
    requires IsD(s, B13, 0)
    ensures s' == Step(s, PrepareAnswer(Replied(Ahead), B13, 0)) && IsD(s', B33, 0) && s.out <= s'.out && PrepareMsg(B33, -1) in s'.out
  {
    s' := Step(s, PrepareAnswer(Replied(Ahead), B13, 0));
    assert s'.out[|s.out|] == PrepareMsg(B33, -1);
  }

  lemma ToD3(s: Server) returns (s': Server)
    requires IsD(s, B33, 0)
    ensures s' == Step(s, PrepareAnswer(Replied(AckAccepted(B33)), B33, 0)) && s.out <= s'.out && AcceptMsg(B33, [R4]) in s'.out
  {
    Inside(3);
    Admitted(3, s.store, Item(R4, 4, false), B33);
    assert Requests([Item(R4, 4, false)]) == [R4];
    s' := Step(s, PrepareAnswer(Replied(AckAccepted(B33)), B33, 0));
    assert s'.out[|s.out|] == AcceptMsg(B33, [R4]);
  }

  // ---------------------------------------------------------------- the run

  lemma Start() returns (x: Server, y: Server, z: Server)
    ensures Reached(x, y, z) && x == Init(Config(1, 1, 1), Funds) && y == Init(Config(2, 1, 1), Funds) && z == Init(Config(3, 1, 1), Funds)
  {
    x, y, z := Init(Config(1, 1, 1), Funds), Init(Config(2, 1, 1), Funds), Init(Config(3, 1, 1), Funds);
    var c := Three(x, y, z);
    assert c.net == {} && c.nodes.Keys == {1, 2, 3};
    assert IsLaxRun([c], []);
  }

  lemma FirstPromised() returns (x: Server, y: Server, z: Server)
    ensures Reached(x, y, z) && IsA1(x) && z == Init(Config(3, 1, 1), Funds)
    ensures y == Init(Config(2, 1, 1), Funds).(acc := Acceptor(1, true, B11, false, NoBallot, []), out := [PrepareReplyMsg(2, Ack(B11))])
  {
    x, y, z := Start();
    var x' := ToA1(x);
    First(x, y, z, x', Client(1, R1, false));
    var y' := ToC1(y);
    Second(x', y, z, y', OnPrepare(B11, -1));
    x, y := x', y';
  }

  lemma FirstProposed() returns (x: Server, y: Server, z: Server)
    ensures Reached(x, y, z) && IsA2(x) && z == Init(Config(3, 1, 1), Funds)
    ensures y == Init(Config(2, 1, 1), Funds).(acc := Acceptor(1, true, B11, false, NoBallot, []), out := [PrepareReplyMsg(2, Ack(B11))])
  {
    x, y, z := FirstPromised();
    var x' := ToA2(x);
    assert PrepareReplyMsg(2, Ack(B11)) in y.out;
    First(x, y, z, x', PrepareAnswer(Replied(Ack(B11)), B11, 0));
    x := x';
  }

  /** The first transfer is agreed on and committed by server 1; server 2 has accepted it only. */
  lemma FirstRound() returns (x: Server, y: Server, z: Server)
    ensures Reached(x, y, z) && Holds(x, 1) && Resting(x) && Follower(y, Acceptor(1, true, B11, true, B11, [R1])) && z == Init(Config(3, 1, 1), Funds)
  {
    x, y, z := FirstProposed();
    var y' := ToC2(y);
    Second(x, y, z, y', OnAccept(B11, [R1], 0));
    var x' := ToA3(x);
    First(x, y', z, x', AcceptAnswer(Replied((B11, true)), B11));
    x, y := x', y';
  }

  /** Server 1 asks for number 2; server 2 is behind and asks for a sync, whose reply takes its time. */
  lemma SyncAsked() returns (x: Server, y: Server, z: Server)
    ensures Reached(x, y, z) && Holds(x, 2) && Asking(x, Item(R2, 2, false), B21, 0) && SyncReplyMsg(Synced) in x.out
    ensures Follower(y, Acceptor(1, true, B11, true, B11, [R1])) && PrepareReplyMsg(2, Behind) in y.out && z == Init(Config(3, 1, 1), Funds)
  {
    x, y, z := FirstRound();
    var x' := Asks(x, 2, R2, 1);
    First(x, y, z, x', Client(2, R2, false));
    var y' := ToC3(y);
    Second(x', y, z, y', OnPrepare(B21, 0));
    x := Answers(x', Item(R2, 2, false));
    First(x', y', z, x, OnSync(-1));
    y := y';
  }

  /** Server 3 learns of number 2 and asks for number 3. */
  lemma ThirdAsks() returns (x: Server, y: Server, z: Server)
    ensures Reached(x, y, z) && Holds(x, 2) && Asking(x, Item(R2, 2, false), B21, 0) && SyncReplyMsg(Synced) in x.out
    ensures Follower(y, Acceptor(1, true, B11, true, B11, [R1])) && PrepareReplyMsg(2, Behind) in y.out && IsD(z, B33, 0) && PrepareMsg(B33, -1) in z.out
  {
    x, y, z := SyncAsked();
    var z' := ToD1(z);
    Third(x, y, z, z', Client(4, R4, false));
    var x' := Refuses(x, Item(R2, 2, false));
    First(x, y, z', x', OnPrepare(B13, -1));
    z := ToD2(z');
    Third(x', y, z', z, PrepareAnswer(Replied(Ahead), B13, 0));
    x := x';
  }

  /** Server 2 promises it: server 3 proposes. */
  lemma ThirdProposes() returns (x: Server, y: Server, z: Server)
    ensures Reached(x, y, z) && Holds(x, 2) && Asking(x, Item(R2, 2, false), B21, 0) && SyncReplyMsg(Synced) in x.out
    ensures Follower(y, Acceptor(3, true, B33, true, B11, [R1])) && PrepareReplyMsg(2, Behind) in y.out && PrepareReplyMsg(2, AckAccepted(B33)) in y.out
    ensures AcceptMsg(B33, [R4]) in z.out
  {
    x, y, z := ThirdAsks();
    var y' := ToC4(y);
    Second(x, y, z, y', OnPrepare(B33, -1));
    var z' := ToD3(z);
    Third(x, y', z, z', PrepareAnswer(Replied(AckAccepted(B33)), B33, 0));
    y, z := y', z';
  }

  /** Server 1 gives up its round and asks for number 3 in turn. */
  lemma FirstAsksAgain() returns (x: Server, y: Server, z: Server)
    ensures Reached(x, y, z) && Holds(x, 3) && Asking(x, Item(R3, 3, false), B31, 0) && SyncReplyMsg(Synced) in x.out && PrepareMsg(B31, 0) in x.out
    ensures Follower(y, Acceptor(3, true, B33, true, B11, [R1])) && PrepareReplyMsg(2, AckAccepted(B33)) in y.out && AcceptMsg(B33, [R4]) in z.out
  {
    x, y, z := ThirdProposes();
    var x' := FailsOnce(x, Item(R2, 2, false));
    First(x, y, z, x', PrepareAnswer(Replied(Behind), B21, 0));
    x := GivesUp(x', Item(R2, 2, false));
    First(x', y, z, x, PrepareAnswer(Deadline, B21, 0));
    x' := Asks(x, 3, R3, 2);
    First(x, y, z, x', Client(3, R3, false));
    x := x';
  }

  /**
    The sync reply arrives and takes server 2 below its vote; it votes for number 3 again, and
    server 1 proposes as well: two batches under one number.
  */
  lemma LoweringSplitsBallot() returns (x: Server, y: Server, z: Server)
    ensures Reached(x, y, z)
    ensures AcceptMsg(B33, [R4]) in Three(x, y, z).net && AcceptMsg(B31, [R3]) in Three(x, y, z).net && B33.num == B31.num && B33 != B31 && R3 != R4
  {
    x, y, z := FirstAsksAgain();
    var y' := ToC5(y);
    Second(x, y, z, y', SyncAnswer(Replied(Synced)));
    y := ToC6(y');
    Second(x, y', z, y, OnPrepare(B31, 0));
    var x' := Proposes(x);
    First(x, y, z, x', PrepareAnswer(Replied(AckAccepted(B31)), B31, 0));
    x := x';
  }
}
