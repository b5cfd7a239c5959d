/**
  What a restart forgets (src/server/server.cc: the constructor): the locks, and the transactions
  that were applied. When this does no harm, and runs in which it does.
*/
module Restarts {
  import opened Protocol
  import opened ServerSpec
  import opened Locks

  // ---------------------------------------------------------------- locks

  /** After a restart the locks are right exactly if no open prepare has an account in this cluster. */
  lemma RestartLocksExact(s: Server)
    ensures var s' := Restart(s);
            LocksAreHolds(s.cfg, s'.store.locks, HoldsOf(s')) <==>
            forall t :: t in s'.store.open ==> InsideAccounts(s.cfg, s'.store.open[t].txn) == {}
  {
    var s' := Restart(s);
    assert HoldsOf(s') == OpenHolds(s'.store.open);
    forall t, a | t in s'.store.open && a in InsideAccounts(s.cfg, s'.store.open[t].txn)
      ensures !LocksAreHolds(s.cfg, s'.store.locks, HoldsOf(s'))
    {
      assert HoldOf(s'.store.open, t) in HoldsOf(s') && a in InsideAccounts(s.cfg, HoldOf(s'.store.open, t).1) && a !in s'.store.locks;
    }
    if forall t :: t in s'.store.open ==> InsideAccounts(s.cfg, s'.store.open[t].txn) == {} {
      forall h | h in HoldsOf(s') ensures InsideAccounts(s.cfg, h.1) == {} {
        var t :| t in s'.store.open && h == HoldOf(s'.store.open, t);
      }
    }
  }

  // ---------------------------------------------------------------- a round

  /** A transfer of m from account 1 to account 2, both in the first cluster. */
  function Spend(m: int): TransferReq {
    TransferReq(8, Transaction(1, 2, m))
  }

  predicate Ready(s: Server) {
    && s.cfg == Here && !s.disconnected && s.store.locks == {} && s.store.applied == {}
    && s.round.current == [] && s.round.pending == [] && !s.round.running && !s.round.inSync
  }

  function Asking(s: Server, m: int): Server {
    Step(s, Client(0, Spend(m), false))
  }

  function Promised(s: Server, b: Ballot): Server {
    Step(s, PrepareAnswer(Replied(PrepareRes(true, b, None, [], None, None, 0)), b, 0))
  }

  function Taken(s: Server, b: Ballot): Server {
    Step(s, AcceptAnswer(Replied((b, true)), b))
  }

  function Next(s: Server): Ballot {
    Ballot(s.acc.ballotNum + 1, 1)
  }

  /** The transfer comes, and a peer promises and accepts. */
  function Spent(s: Server, m: int): Server {
    Taken(Promised(Asking(s, m), Next(s)), Next(s))
  }

  lemma SpendAdmitted(st: Store, m: int, b: Ballot)
    requires st.locks == {} && 0 <= m <= Balance(st.balances, 1)
    ensures var it := Item(Spend(m), 0, false); Validate(Here, st, [it], b, 0) == Validation(st.(locks := {1, 2}), [it], [])
  {
    Sides();
    var it := Item(Spend(m), 0, false);
    assert Validate(Here, st, [it][..0], b, 0) == Validation(st, [], []);
  }

  lemma SpendSettles(st: Store, m: int, b: Ballot)
    requires st.locks == {1, 2}
    ensures SettleAll(st, [Item(Spend(m), 0, false)], b) == LogCommit(st.(locks := {}), Spend(m), b)
  {
    var it := Item(Spend(m), 0, false);
    assert SettleAll(st, [it][..0], b) == st;
    assert st.locks - {1, 2} == {};
  }

  predicate Same(s: Server, s': Server) {
    s'.cfg == s.cfg && s'.disconnected == s.disconnected
  }

  lemma Asks(s: Server, m: int)
    requires Ready(s)
    ensures var s' := Asking(s, m);
            && Same(s, s') && s'.store == s.store && s'.acc.promisedNum == Next(s)
            && s'.round.awaitPrepare && s'.round.prepareSuccesses == 1 && s'.round.current == [Item(Spend(m), 0, false)] && s'.round.pending == []
  {
  }

  lemma Proposes(s: Server, m: int, b: Ballot)
    requires s.cfg == Here && s.store.locks == {} && 0 <= m <= Balance(s.store.balances, 1) && s.acc.promisedNum == b && b.serverId == 1
    requires s.round.awaitPrepare && s.round.prepareSuccesses == 1 && s.round.current == [Item(Spend(m), 0, false)] && s.round.pending == []
    ensures var s' := Promised(s, b);
            && Same(s, s') && s'.store == s.store.(locks := {1, 2}) && s'.acc.acceptNum == b
            && s'.round.awaitAccept && s'.round.acceptSuccesses == 1 && s'.round.current == s.round.current && s'.round.pending == []
  {
    SpendAdmitted(s.store, m, b);
  }

  lemma Commits(s: Server, m: int, b: Ballot)
    requires s.cfg == Here && s.store.locks == {1, 2} && s.acc.acceptNum == b && b.serverId == 1
    requires s.round.awaitAccept && s.round.acceptSuccesses == 1 && s.round.current == [Item(Spend(m), 0, false)] && s.round.pending == []
    ensures Same(s, Taken(s, b)) && Taken(s, b).store == LogCommit(s.store.(locks := {}), Spend(m), b)
  {
    SpendSettles(s.store, m, b);
  }

  /** At an idle server the transfer is committed. */
  lemma Spends(s: Server, m: int)
    requires Ready(s) && 0 <= m <= Balance(s.store.balances, 1)
    ensures Same(s, Spent(s, m)) && Spent(s, m).store == LogCommit(s.store, Spend(m), Next(s))
  {
    var s1 := Asking(s, m);
    Asks(s, m);
    Proposes(s1, m, Next(s));
    Commits(Promised(s1, Next(s)), m, Next(s));
    assert s.store.(locks := {1, 2}).(locks := {}) == s.store;
  }

  // ---------------------------------------------------------------- runs that go wrong

  lemma Reopens(e: LogEntry)
    requires e.kind.Cross? && e.status.Prepared?
    ensures Reopened([e]) == map[e.tid := e]
  {
    assert Reopened([e][..0]) == map[];
  }

  /** The account of the prepare is emptied before its decision. */
  lemma Overdraws(s: Server, st: Store)
    requires s.cfg == Here && !s.disconnected && st.open == Open && Balance(st.balances, 1) == 10 && st.applied == {}
    requires s.store == LogCommit(st, Spend(10), Ballot(2, 1))
    ensures Balance(Decision(s, 7, true).store.balances, 1) == -5
  {
    Sides();
  }

  /**
    A leader, reached from the start, that crashes with a prepare open: the account is free, another
    transfer empties it, and when the prepare is decided the account is overdrawn.
  */
  lemma RestartOverdraws() returns (s: Server)
    ensures Led(s) && LeaderOk(s) && Balance(Decision(Spent(Restart(s), 10), 7, true).store.balances, 1) == -5
  {
    s := FirstOpen();
    LedIsOk(s);
    Reopens(Open[7]);
    var s1 := Restart(s);
    assert MaxBallot(1, [Open[7]][..0]) == 1 && s1.acc.ballotNum == 1;
    Spends(s1, 10);
    Overdraws(Spent(s1, 10), s1.store);
  }

  /** A commit of a transfer that is not known to be applied takes its amount. */
  lemma Takes(st: Store, m: int, b: Ballot)
    requires st.applied == {}
    ensures var st' := LogCommit(st, Spend(m), b); Balance(st'.balances, 1) == Balance(st.balances, 1) - m && 8 in st'.applied
  {
  }

  /** A client sends a transfer again that was committed before a crash: it is applied twice, and without the crash once. */
  lemma RestartAppliesTwice() returns (s: Server)
    ensures s == Spent(Init(Here, map[1 := 10]), 5) && Balance(s.store.balances, 1) == 5
    ensures Balance(Spent(Restart(s), 5).store.balances, 1) == 0
    ensures forall b :: LogCommit(s.store, Spend(5), b) == s.store
  {
    var s0 := Init(Here, map[1 := 10]);
    Spends(s0, 5);
    Takes(s0.store, 5, Next(s0));
    s := Spent(s0, 5);
    var s1 := Restart(s);
    assert Ready(s1) && s1.store.balances == s.store.balances;
    Spends(s1, 5);
    Takes(s1.store, 5, Next(s1));
  }
}
