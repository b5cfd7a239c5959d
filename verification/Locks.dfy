/**
  Lock discipline and absence of overdrafts at a server that acts only as leader
  (src/server/server.cc: the timeout sweep, processTpcDecision, onPrepareQuorum to
  finishRound).
*/
module Locks {
  import opened Protocol
  import opened ServerSpec
  import opened Calls

  type Hold = (Tid, Transaction)

  // ---------------------------------------------------------------- holders

  /** The sender, when it lives here, can pay for the transfer. */
  predicate CanPay(cfg: Config, balances: map<Account, int>, t: Transaction) {
    t.amount >= 0 && (InCluster(cfg, t.sender) ==> Balance(balances, t.sender) >= t.amount)
  }

  ghost predicate LocksAreHolds(cfg: Config, locks: set<Account>, holds: set<Hold>) {
    forall a :: a in locks <==> exists h :: h in holds && a in InsideAccounts(cfg, h.1)
  }

  /** No account is held twice. */
  ghost predicate HoldsDisjoint(cfg: Config, holds: set<Hold>) {
    forall g, h :: g in holds && h in holds && g != h ==> InsideAccounts(cfg, g.1) !! InsideAccounts(cfg, h.1)
  }

  ghost predicate Funded(cfg: Config, balances: map<Account, int>, holds: set<Hold>) {
    && (forall h :: h in holds ==> CanPay(cfg, balances, h.1))
    && (forall a :: a in balances ==> balances[a] >= 0)
  }

  ghost predicate Disciplined(cfg: Config, locks: set<Account>, balances: map<Account, int>, holds: set<Hold>) {
    LocksAreHolds(cfg, locks, holds) && HoldsDisjoint(cfg, holds) && Funded(cfg, balances, holds)
  }

  lemma Acquire(cfg: Config, locks: set<Account>, balances: map<Account, int>, holds: set<Hold>, h: Hold)
    requires Disciplined(cfg, locks, balances, holds)
    requires CanPay(cfg, balances, h.1) && locks !! InsideAccounts(cfg, h.1)
    ensures Disciplined(cfg, locks + InsideAccounts(cfg, h.1), balances, holds + {h})
  {
    var locks', holds' := locks + InsideAccounts(cfg, h.1), holds + {h};
    forall a ensures a in locks' <==> exists g :: g in holds' && a in InsideAccounts(cfg, g.1) {
      if a in InsideAccounts(cfg, h.1) {
        assert h in holds';
      } else if a in locks {
        var g :| g in holds && a in InsideAccounts(cfg, g.1);
        assert g in holds';
      }
    }
    forall g | g in holds ensures InsideAccounts(cfg, g.1) !! InsideAccounts(cfg, h.1) {
      forall a | a in InsideAccounts(cfg, g.1) ensures a in locks {
      }
    }
  }

  lemma Release(cfg: Config, locks: set<Account>, balances: map<Account, int>, holds: set<Hold>, h: Hold)
    requires Disciplined(cfg, locks, balances, holds) && h in holds
    ensures Disciplined(cfg, locks - InsideAccounts(cfg, h.1), balances, holds - {h})
  {
    var locks', holds' := locks - InsideAccounts(cfg, h.1), holds - {h};
    forall a ensures a in locks' <==> exists g :: g in holds' && a in InsideAccounts(cfg, g.1) {
      if a in locks' {
        var g :| g in holds && a in InsideAccounts(cfg, g.1);
        assert g in holds';
      }
      if g :| g in holds' && a in InsideAccounts(cfg, g.1) {
        assert g in holds && InsideAccounts(cfg, g.1) !! InsideAccounts(cfg, h.1);
      }
    }
  }

  /** Paying out a hold leaves every other hold funded and nobody overdrawn. */
  lemma Pay(cfg: Config, balances: map<Account, int>, holds: set<Hold>, h: Hold)
    requires HoldsDisjoint(cfg, holds) && Funded(cfg, balances, holds) && h in holds
    ensures Funded(cfg, MoveInside(cfg, balances, h.1), holds - {h})
  {
    var t := h.1;
    forall g | g in holds - {h} ensures CanPay(cfg, MoveInside(cfg, balances, t), g.1) {
      assert InsideAccounts(cfg, g.1) !! InsideAccounts(cfg, t);
      if InCluster(cfg, g.1.sender) {
        assert g.1.sender in InsideAccounts(cfg, g.1);
        assert g.1.sender !in InsideAccounts(cfg, t);
      }
    }
  }

  lemma PayAndRelease(cfg: Config, locks: set<Account>, balances: map<Account, int>, holds: set<Hold>, h: Hold)
    requires Disciplined(cfg, locks, balances, holds) && h in holds
    ensures Disciplined(cfg, locks - InsideAccounts(cfg, h.1), MoveInside(cfg, balances, h.1), holds - {h})
  {
    Release(cfg, locks, balances, holds, h);
    Pay(cfg, balances, holds, h);
  }

  // ---------------------------------------------------------------- who holds what

  function HoldOf(open: map<Tid, LogEntry>, t: Tid): Hold
    requires t in open
  {
    (t, open[t].txn)
  }

  /** The undecided prepared transactions. */
  ghost function OpenHolds(open: map<Tid, LogEntry>): set<Hold> {
    set t | t in open :: HoldOf(open, t)
  }

  /** The intra-shard transactions of a round in its accept phase. */
  ghost function RoundHolds(items: seq<Item>): set<Hold> {
    set it | it in items && !it.cross :: (it.req.tid, it.req.txn)
  }

  ghost function HoldsOf(s: Server): set<Hold> {
    OpenHolds(s.store.open) + if s.round.awaitAccept then RoundHolds(s.round.current) else {}
  }

  /** What the client's routing guarantees: a transfer inside one cluster, or exactly one side here. */
  predicate Routed(cfg: Config, r: TransferReq, cross: bool) {
    && r.txn.amount >= 0
    && (if cross then InCluster(cfg, r.txn.sender) != InCluster(cfg, r.txn.receiver) else BothInside(cfg, r.txn))
  }

  ghost predicate AllRouted(cfg: Config, items: seq<Item>) {
    forall it :: it in items ==> Routed(cfg, it.req, it.cross)
  }

  predicate DistinctTids(items: seq<Item>) {
    forall i, j :: 0 <= i < j < |items| ==> items[i].req.tid != items[j].req.tid
  }

  predicate NoneOpen(open: map<Tid, LogEntry>, items: seq<Item>) {
    forall it :: it in items ==> it.req.tid !in open
  }

  /** Intra-shard items are never found among the prepares. */
  predicate IntraNotOpen(open: map<Tid, LogEntry>, items: seq<Item>) {
    forall it :: it in items && !it.cross ==> it.req.tid !in open
  }

  ghost predicate StoreHolds(cfg: Config, st: Store, holds: set<Hold>) {
    (forall t :: t in st.open ==> st.open[t].tid == t) && Disciplined(cfg, st.locks, st.balances, holds)
  }

  ghost predicate LeaderOk(s: Server) {
    && RoundOk(s)
    && DistinctTids(s.round.current + s.round.pending) && AllRouted(s.cfg, s.round.current + s.round.pending)
    && NoneOpen(s.store.open, s.round.pending)
    && (if s.round.awaitAccept then IntraNotOpen(s.store.open, s.round.current) else NoneOpen(s.store.open, s.round.current))
    && !(s.round.awaitPrepare && s.round.awaitAccept)
    && StoreHolds(s.cfg, s.store, HoldsOf(s))
  }

  lemma OpenHold(open: map<Tid, LogEntry>, h: Hold)
    ensures h in OpenHolds(open) <==> h.0 in open && open[h.0].txn == h.1
  {
    assert h.0 in open && open[h.0].txn == h.1 ==> h == HoldOf(open, h.0);
  }

  lemma OpenDrop(open: map<Tid, LogEntry>, tid: Tid)
    requires tid in open
    ensures OpenHolds(open - {tid}) == OpenHolds(open) - {(tid, open[tid].txn)}
  {
    forall h ensures h in OpenHolds(open - {tid}) <==> h in OpenHolds(open) - {(tid, open[tid].txn)} {
      OpenHold(open, h);
      OpenHold(open - {tid}, h);
    }
  }

  lemma OpenPut(open: map<Tid, LogEntry>, tid: Tid, e: LogEntry)
    requires tid !in open
    ensures OpenHolds(open[tid := e]) == OpenHolds(open) + {(tid, e.txn)}
  {
    forall h ensures h in OpenHolds(open[tid := e]) <==> h in OpenHolds(open) + {(tid, e.txn)} {
      OpenHold(open, h);
      OpenHold(open[tid := e], h);
    }
  }

  // ---------------------------------------------------------------- decisions and timeouts

  lemma DecideHolds(cfg: Config, st: Store, tid: Tid, commit: bool, round: set<Hold>)
    requires StoreHolds(cfg, st, OpenHolds(st.open) + round)
    requires forall h :: h in round ==> h.0 !in st.open
    ensures var st' := Decide(cfg, st, tid, commit); StoreHolds(cfg, st', OpenHolds(st'.open) + round)
  {
    if tid in st.open {
      var h := HoldOf(st.open, tid);
      var holds := OpenHolds(st.open) + round;
      assert h in holds;
      Release(cfg, st.locks, st.balances, holds, h);
      PayAndRelease(cfg, st.locks, st.balances, holds, h);
      OpenDrop(st.open, tid);
      assert OpenHolds(st.open - {tid}) + round == holds - {h};
    }
  }

  // ---------------------------------------------------------------- the prepare quorum

  lemma AdmitIntra(cfg: Config, st: Store, kept: seq<Item>, it: Item)
    requires StoreHolds(cfg, st, OpenHolds(st.open) + RoundHolds(kept))
    requires !it.cross && Routed(cfg, it.req, it.cross) && !Blocked(cfg, st, it.req.txn)
    ensures var st' := st.(locks := st.locks + InsideAccounts(cfg, it.req.txn));
            StoreHolds(cfg, st', OpenHolds(st'.open) + RoundHolds(kept + [it]))
  {
    var h := (it.req.tid, it.req.txn);
    Acquire(cfg, st.locks, st.balances, OpenHolds(st.open) + RoundHolds(kept), h);
    assert RoundHolds(kept + [it]) == RoundHolds(kept) + {h};
    assert OpenHolds(st.open) + RoundHolds(kept) + {h} == OpenHolds(st.open) + RoundHolds(kept + [it]);
  }

  lemma AdmitCross(cfg: Config, st: Store, kept: seq<Item>, it: Item, b: Ballot, now: int)
    requires StoreHolds(cfg, st, OpenHolds(st.open) + RoundHolds(kept))
    requires it.cross && Routed(cfg, it.req, it.cross) && !Blocked(cfg, st, it.req.txn) && it.req.tid !in st.open
    ensures var st' := Admit(cfg, st, it, b, now); StoreHolds(cfg, st', OpenHolds(st'.open) + RoundHolds(kept + [it]))
  {
    var h, e := (it.req.tid, it.req.txn), EntryOf(it.req, b, Cross, Prepared);
    Acquire(cfg, st.locks, st.balances, OpenHolds(st.open) + RoundHolds(kept), h);
    assert RoundHolds(kept + [it]) == RoundHolds(kept);
    OpenPut(st.open, it.req.tid, e);
    assert OpenHolds(st.open) + RoundHolds(kept) + {h} == OpenHolds(st.open) + {h} + RoundHolds(kept + [it]);
  }

  /** What validation leaves behind, as far as transaction ids go. */
  ghost predicate Sifted(st: Store, items: seq<Item>, v: Validation) {
    && DistinctTids(v.kept) && (forall it :: it in v.kept ==> it in items) && IntraNotOpen(v.store.open, v.kept)
    && (forall t :: t in v.store.open ==> t in st.open || exists it :: it in items && it.req.tid == t)
  }

  lemma {:induction false} ValidateSifts(cfg: Config, st: Store, items: seq<Item>, b: Ballot, now: int)
    requires DistinctTids(items) && NoneOpen(st.open, items)
    ensures Sifted(st, items, Validate(cfg, st, items, b, now))
  {
    if items != [] {
      var front, it := items[..|items| - 1], items[|items| - 1];
      ValidateSifts(cfg, st, front, b, now);
      var v := Validate(cfg, st, front, b, now);
      LastIsNew(items);
      assert it in items && forall x :: x in front ==> x in items;
    }
  }

  lemma LastIsNew(items: seq<Item>)
    requires items != [] && DistinctTids(items)
    ensures forall x :: x in items[..|items| - 1] ==> x.req.tid != items[|items| - 1].req.tid
  {
  }

  lemma {:induction false} ValidateHolds(cfg: Config, st: Store, items: seq<Item>, b: Ballot, now: int)
    requires StoreHolds(cfg, st, OpenHolds(st.open))
    requires DistinctTids(items) && NoneOpen(st.open, items) && AllRouted(cfg, items)
    ensures var v := Validate(cfg, st, items, b, now); StoreHolds(cfg, v.store, OpenHolds(v.store.open) + RoundHolds(v.kept))
  {
    if items == [] {
      assert OpenHolds(st.open) + RoundHolds([]) == OpenHolds(st.open);
    } else {
      var front, it := items[..|items| - 1], items[|items| - 1];
      assert it in items && forall x :: x in front ==> x in items;
      ValidateHolds(cfg, st, front, b, now);
      ValidateSifts(cfg, st, front, b, now);
      LastIsNew(items);
      var v := Validate(cfg, st, front, b, now);
      assert it.req.tid !in v.store.open;
      if !Blocked(cfg, v.store, it.req.txn) {
        if it.cross {
          AdmitCross(cfg, v.store, v.kept, it, b, now);
        } else {
          AdmitIntra(cfg, v.store, v.kept, it);
        }
      }
    }
  }

  // ---------------------------------------------------------------- the end of a round

  /** The holds of the items not yet dealt with, once the first of them is. */
  lemma RestHolds(open: map<Tid, LogEntry>, it: Item, rest: seq<Item>)
    requires DistinctTids([it] + rest) && IntraNotOpen(open, [it] + rest)
    ensures it.cross ==> RoundHolds([it] + rest) == RoundHolds(rest)
    ensures !it.cross ==> (it.req.tid, it.req.txn) in RoundHolds([it] + rest)
    ensures !it.cross ==> OpenHolds(open) + RoundHolds([it] + rest) - {(it.req.tid, it.req.txn)} == OpenHolds(open) + RoundHolds(rest)
  {
    var all := [it] + rest;
    assert it in all && forall x :: x in rest ==> x in all;
    forall x | x in rest ensures x.req.tid != it.req.tid {
      var k :| 0 <= k < |rest| && rest[k] == x;
      assert all[0] == it && all[k + 1] == x;
    }
  }

  lemma {:induction false} SettleHolds(cfg: Config, st: Store, done: seq<Item>, rest: seq<Item>, b: Ballot)
    requires StoreHolds(cfg, st, OpenHolds(st.open) + RoundHolds(done + rest))
    requires DistinctTids(done + rest) && IntraNotOpen(st.open, done + rest) && AllRouted(cfg, done + rest)
    ensures var st' := SettleAll(st, done, b); st'.open == st.open && StoreHolds(cfg, st', OpenHolds(st.open) + RoundHolds(rest))
  {
    if done == [] {
      assert done + rest == rest;
    } else {
      var front, it := done[..|done| - 1], done[|done| - 1];
      assert done + rest == front + ([it] + rest);
      SettleHolds(cfg, st, front, [it] + rest, b);
      var st1 := SettleAll(st, front, b);
      assert it in done + rest;
      assert forall k :: 0 <= k < |[it] + rest| ==> ([it] + rest)[k] == (done + rest)[|front| + k];
      RestHolds(st.open, it, rest);
      if !it.cross {
        SettleOne(cfg, st1, it, b, OpenHolds(st.open) + RoundHolds([it] + rest));
      }
    }
  }

  lemma SettleOne(cfg: Config, st: Store, it: Item, b: Ballot, holds: set<Hold>)
    requires StoreHolds(cfg, st, holds) && (it.req.tid, it.req.txn) in holds
    requires !it.cross && Routed(cfg, it.req, it.cross)
    ensures var st' := Settle(st, it, b); st'.open == st.open && StoreHolds(cfg, st', holds - {(it.req.tid, it.req.txn)})
  {
    var h, t := (it.req.tid, it.req.txn), it.req.txn;
    assert InsideAccounts(cfg, t) == {t.sender, t.receiver};
    Release(cfg, st.locks, st.balances, holds, h);
    PayAndRelease(cfg, st.locks, st.balances, holds, h);
  }

  lemma {:induction false} ReleaseHolds(cfg: Config, st: Store, done: seq<Item>, rest: seq<Item>)
    requires StoreHolds(cfg, st, OpenHolds(st.open) + RoundHolds(done + rest))
    requires DistinctTids(done + rest) && IntraNotOpen(st.open, done + rest) && AllRouted(cfg, done + rest)
    ensures Disciplined(cfg, ReleaseIntra(st.locks, done), st.balances, OpenHolds(st.open) + RoundHolds(rest))
  {
    if done == [] {
      assert done + rest == rest;
    } else {
      var front, it := done[..|done| - 1], done[|done| - 1];
      assert done + rest == front + ([it] + rest);
      ReleaseHolds(cfg, st, front, [it] + rest);
      assert it in done + rest;
      assert forall k :: 0 <= k < |[it] + rest| ==> ([it] + rest)[k] == (done + rest)[|front| + k];
      RestHolds(st.open, it, rest);
      if !it.cross {
        assert InsideAccounts(cfg, it.req.txn) == {it.req.txn.sender, it.req.txn.receiver};
        Release(cfg, ReleaseIntra(st.locks, front), st.balances, OpenHolds(st.open) + RoundHolds([it] + rest), (it.req.tid, it.req.txn));
      }
    }
  }

  // ---------------------------------------------------------------- the handlers

  lemma ReissueLeads(s: Server)
    requires LeaderOk(s) && !s.round.awaitAccept && s.round.running
    ensures LeaderOk(ReissuePrepare(s))
  {
    assert HoldsOf(ReissuePrepare(s)) == HoldsOf(s);
  }

  lemma StartLeads(s: Server)
    requires LeaderOk(s)
    ensures LeaderOk(MaybeStartRound(s))
  {
    if !(s.round.running || s.round.inSync || s.round.pending == []) {
      var s1 := s.(round := s.round.(current := s.round.pending, pending := [], running := true));
      assert s1.round.current + s1.round.pending == s.round.current + s.round.pending;
      assert HoldsOf(s1) == HoldsOf(s);
      ReissueLeads(s1);
    }
  }

  lemma QueuePart(cfg: Config, current: seq<Item>, pending: seq<Item>)
    requires DistinctTids(current + pending) && AllRouted(cfg, current + pending)
    ensures DistinctTids(pending) && AllRouted(cfg, pending)
  {
    assert forall k :: 0 <= k < |pending| ==> pending[k] == (current + pending)[|current| + k];
  }

  /** A round ends once only the prepares hold locks. */
  lemma FinishLeads(s: Server)
    requires DistinctTids(s.round.current + s.round.pending) && AllRouted(s.cfg, s.round.current + s.round.pending)
    requires NoneOpen(s.store.open, s.round.pending) && StoreHolds(s.cfg, s.store, OpenHolds(s.store.open))
    ensures LeaderOk(FinishRound(s))
  {
    var s1 := Ended(s);
    QueuePart(s.cfg, s.round.current, s.round.pending);
    assert s1.round.current + s1.round.pending == s.round.pending;
    assert HoldsOf(s1) == OpenHolds(s.store.open);
    StartLeads(s1);
  }

  /** Queued and kept items stay apart after validation. */
  lemma SiftedApart(current: seq<Item>, pending: seq<Item>, kept: seq<Item>, open: map<Tid, LogEntry>, open': map<Tid, LogEntry>)
    requires DistinctTids(current + pending) && NoneOpen(open, pending)
    requires DistinctTids(kept) && forall it :: it in kept ==> it in current
    requires forall t :: t in open' ==> t in open || exists it :: it in current && it.req.tid == t
    ensures DistinctTids(kept + pending) && NoneOpen(open', pending)
  {
    var all := current + pending;
    forall x, y | x in current && y in pending ensures x.req.tid != y.req.tid {
      var i :| 0 <= i < |current| && current[i] == x;
      var j :| 0 <= j < |pending| && pending[j] == y;
      assert all[i] == x && all[|current| + j] == y;
    }
    forall i, j | 0 <= i < j < |kept + pending| ensures (kept + pending)[i].req.tid != (kept + pending)[j].req.tid {
      if i >= |kept| {
        assert all[|current| + i - |kept|] == pending[i - |kept|] && all[|current| + j - |kept|] == pending[j - |kept|];
      } else if j >= |kept| {
        assert kept[i] in kept && pending[j - |kept|] in pending;
      }
    }
  }

  lemma PrepareQuorumLeads(s: Server, now: int)
    requires LeaderOk(s) && s.round.running && !s.round.awaitAccept
    ensures LeaderOk(OnPrepareQuorum(s, now))
  {
    var v := Validate(s.cfg, s.store, s.round.current, s.acc.promisedNum, now);
    var s1 := s.(store := v.store, answers := s.answers + v.answers, round := s.round.(awaitPrepare := false, current := v.kept));
    var all := s.round.current + s.round.pending;
    assert forall k :: 0 <= k < |s.round.current| ==> s.round.current[k] == all[k];
    assert HoldsOf(s) == OpenHolds(s.store.open);
    ValidateSifts(s.cfg, s.store, s.round.current, s.acc.promisedNum, now);
    ValidateHolds(s.cfg, s.store, s.round.current, s.acc.promisedNum, now);
    SiftedApart(s.round.current, s.round.pending, v.kept, s.store.open, v.store.open);
    assert AllRouted(s.cfg, v.kept + s.round.pending);
    ProposedLeads(s1, OnPrepareQuorum(s, now), v.kept);
  }

  lemma ProposedLeads(s1: Server, s': Server, kept: seq<Item>)
    requires s1.round.current == kept && s1.round.running && !s1.round.awaitPrepare
    requires DistinctTids(kept + s1.round.pending) && AllRouted(s1.cfg, kept + s1.round.pending)
    requires NoneOpen(s1.store.open, s1.round.pending) && IntraNotOpen(s1.store.open, kept)
    requires StoreHolds(s1.cfg, s1.store, OpenHolds(s1.store.open) + RoundHolds(kept))
    requires if kept == [] then s' == FinishRound(s1)
             else s'.cfg == s1.cfg && s'.store == s1.store &&
                  exists n, f :: s'.round == s1.round.(awaitAccept := true, acceptSuccesses := n, acceptFailures := f)
    ensures LeaderOk(s')
  {
    if kept == [] {
      assert OpenHolds(s1.store.open) + RoundHolds(kept) == OpenHolds(s1.store.open);
      FinishLeads(s1);
    } else {
      assert HoldsOf(s') == OpenHolds(s1.store.open) + RoundHolds(kept);
    }
  }

  lemma AcceptQuorumLeads(s: Server)
    requires LeaderOk(s) && s.round.awaitAccept
    ensures LeaderOk(OnAcceptQuorum(s))
  {
    var st := SettleAll(s.store, s.round.current, s.acc.acceptNum);
    var s1 := s.(store := st, answers := s.answers + Replies(s.round.current, true),
                 round := s.round.(awaitAccept := false), out := s.out + [CommitMsg(s.acc.acceptNum)]);
    CurrentPart(s);
    assert s.round.current + [] == s.round.current;
    SettleHolds(s.cfg, s.store, s.round.current, [], s.acc.acceptNum);
    assert OpenHolds(s.store.open) + RoundHolds([]) == OpenHolds(s.store.open);
    FinishLeads(s1);
  }

  lemma CurrentPart(s: Server)
    requires LeaderOk(s)
    ensures DistinctTids(s.round.current) && AllRouted(s.cfg, s.round.current)
  {
    var all := s.round.current + s.round.pending;
    assert forall k :: 0 <= k < |s.round.current| ==> s.round.current[k] == all[k];
  }

  lemma AbortLeads(s: Server, preparePhase: bool)
    requires LeaderOk(s) && preparePhase == !s.round.awaitAccept
    ensures LeaderOk(OnRoundAbort(s, preparePhase))
  {
    var locks := if preparePhase then s.store.locks else ReleaseIntra(s.store.locks, s.round.current);
    var s1 := s.(store := s.store.(locks := locks), answers := s.answers + Replies(s.round.current, false));
    if preparePhase {
      assert HoldsOf(s) == OpenHolds(s.store.open);
    } else {
      CurrentPart(s);
      assert s.round.current + [] == s.round.current;
      ReleaseHolds(s.cfg, s.store, s.round.current, []);
      assert OpenHolds(s.store.open) + RoundHolds([]) == OpenHolds(s.store.open);
    }
    FinishLeads(s1);
  }

  lemma PrepareVerdictLeads(s: Server, o: Outcome<PrepareRes>, asked: Ballot, now: int)
    requires LeaderOk(s) && s.round.awaitPrepare
    ensures LeaderOk(PrepareVerdict(s, o, asked, now))
  {
    if o.Replied? && PrepareMatches(s, o, asked) && o.res.latestBallotNum.Some? {
      var s1 := s.(acc := s.acc.(ballotNum := o.res.latestBallotNum.value));
      assert HoldsOf(s1) == HoldsOf(s);
      ReissueLeads(s1);
    } else if o.Replied? && PrepareMatches(s, o, asked) && o.res.paxosIndex.Some? && o.res.paxosIndex.value > s.store.paxosIndex {
      assert HoldsOf(PrepareVerdict(s, o, asked, now)) == HoldsOf(s);
    } else if s.round.prepareSuccesses >= Majority {
      PrepareQuorumLeads(s, now);
    } else if s.round.prepareFailures >= Majority {
      AbortLeads(s, true);
    }
  }

  lemma PrepareReplyLeads(s: Server, o: Outcome<PrepareRes>, asked: Ballot, now: int)
    requires LeaderOk(s)
    ensures LeaderOk(PrepareReply(s, o, asked, now))
  {
    if s.round.awaitPrepare {
      var s1 := CountPrepare(s, o, asked);
      SameLeads(s, s1);
      PrepareVerdictLeads(s1, o, asked, now);
    }
  }

  lemma AcceptReplyLeads(s: Server, o: Outcome<(Ballot, bool)>, asked: Ballot)
    requires LeaderOk(s)
    ensures LeaderOk(AcceptReply(s, o, asked))
  {
    if s.round.awaitAccept {
      var s1 := CountAccept(s, o, asked);
      SameLeads(s, s1);
      if s1.round.acceptSuccesses >= Majority {
        AcceptQuorumLeads(s1);
      } else if s1.round.acceptFailures >= Majority {
        AbortLeads(s1, false);
      }
    }
  }

  /** Counters, ballots, messages and answers do not matter here. */
  lemma SameLeads(s: Server, s': Server)
    requires LeaderOk(s) && Aside(s, s') && s'.cfg == s.cfg
    requires s'.store.open == s.store.open && s'.store.locks == s.store.locks && s'.store.balances == s.store.balances
    ensures LeaderOk(s')
  {
    assert HoldsOf(s') == HoldsOf(s);
  }

  lemma EnqueueLeads(s: Server, call: int, req: TransferReq, cross: bool)
    requires LeaderOk(s) && Routed(s.cfg, req, cross) && req.tid !in s.store.open
    requires forall it :: it in s.round.current + s.round.pending ==> it.req.tid != req.tid
    ensures LeaderOk(Enqueue(s, call, req, cross))
  {
    var it := Item(req, call, cross);
    if s.disconnected {
      assert HoldsOf(Enqueue(s, call, req, cross)) == HoldsOf(s);
    } else {
      var s1 := s.(round := s.round.(pending := s.round.pending + [it]));
      assert s1.round.current + s1.round.pending == s.round.current + s.round.pending + [it];
      assert HoldsOf(s1) == HoldsOf(s);
      StartLeads(s1);
    }
  }

  lemma DecisionLeads(s: Server, tid: Tid, commit: bool)
    requires LeaderOk(s)
    ensures LeaderOk(s.(store := Decide(s.cfg, s.store, tid, commit)))
  {
    var round: set<Hold> := if s.round.awaitAccept then RoundHolds(s.round.current) else {};
    DecideHolds(s.cfg, s.store, tid, commit, round);
  }

  // ---------------------------------------------------------------- syncs

  /** The last entry about the transaction that says what became of it. */
  function Latest(es: seq<LogEntry>, t: Tid): Option<LogEntry> {
    if es == [] then None
    else
      var e := es[|es| - 1];
      if e.tid == t && !e.status.NoStatus? then Some(e) else Latest(es[..|es| - 1], t)
  }

  predicate Touches(es: seq<LogEntry>, t: Tid) {
    Latest(es, t).Some?
  }

  /** The entries leave the transaction prepared. */
  predicate Opens(es: seq<LogEntry>, t: Tid) {
    Latest(es, t).Some? && Latest(es, t).value.status.Prepared?
  }

  function OpenedTxn(es: seq<LogEntry>, t: Tid): Transaction
    requires Opens(es, t)
  {
    Latest(es, t).value.txn
  }

  /** What becomes of each prepare: the latest entry about it decides. A sync takes no lock and gives none back. */
  lemma {:induction false} SyncOpens(cfg: Config, st: Store, es: seq<LogEntry>, t: Tid)
    ensures var st' := SyncEntries(cfg, st, es);
            && st'.locks == st.locks
            && (t in st'.open <==> if Touches(es, t) then Opens(es, t) else t in st.open)
            && (t in st'.open ==> st'.open[t] == if Touches(es, t) then Latest(es, t).value.(kind := Cross) else st.open[t])
            && (Touches(es, t) ==> Latest(es, t).value.tid == t)
  {
    if es != [] {
      SyncOpens(cfg, st, es[..|es| - 1], t);
    }
  }

  /** Who holds what after the sync. */
  lemma SyncHolds(cfg: Config, st: Store, es: seq<LogEntry>, h: Hold)
    ensures h in OpenHolds(SyncEntries(cfg, st, es).open) <==>
            if Touches(es, h.0) then Opens(es, h.0) && OpenedTxn(es, h.0) == h.1 else h in OpenHolds(st.open)
  {
    SyncOpens(cfg, st, es, h.0);
    OpenHold(SyncEntries(cfg, st, es).open, h);
    OpenHold(st.open, h);
  }

  /** What the entries leave prepared is on accounts that are locked. */
  ghost predicate OpensLocked(cfg: Config, locks: set<Account>, es: seq<LogEntry>) {
    forall t :: Opens(es, t) ==> InsideAccounts(cfg, OpenedTxn(es, t)) <= locks
  }

  /** Some prepare that the entries leave holds the account. */
  ghost predicate Reheld(cfg: Config, es: seq<LogEntry>, a: Account) {
    exists t :: Opens(es, t) && a in InsideAccounts(cfg, OpenedTxn(es, t))
  }

  /** The accounts of a prepare that the entries are about go on to be held. */
  ghost predicate KeepsHeld(cfg: Config, open: map<Tid, LogEntry>, es: seq<LogEntry>) {
    forall t, a :: t in open && Touches(es, t) && a in InsideAccounts(cfg, open[t].txn) ==> Reheld(cfg, es, a)
  }

  /**
    After a sync the locks are what the open prepares hold exactly if what the entries leave prepared
    is on locked accounts, and it holds all accounts of the prepares that they are about.
  */
  lemma SyncLocksExact(s: Server, es: seq<LogEntry>)
    requires LeaderOk(s) && !s.round.awaitAccept
    ensures var st := SyncEntries(s.cfg, s.store, es);
            LocksAreHolds(s.cfg, st.locks, OpenHolds(st.open)) <==> OpensLocked(s.cfg, s.store.locks, es) && KeepsHeld(s.cfg, s.store.open, es)
  {
    var st := SyncEntries(s.cfg, s.store, es);
    assert HoldsOf(s) == OpenHolds(s.store.open);
    SyncOpens(s.cfg, s.store, es, 0);
    if LocksAreHolds(s.cfg, st.locks, OpenHolds(st.open)) {
      RightLocksFit(s, es);
    }
    if OpensLocked(s.cfg, s.store.locks, es) && KeepsHeld(s.cfg, s.store.open, es) {
      forall a ensures a in st.locks <==> exists h :: h in OpenHolds(st.open) && a in InsideAccounts(s.cfg, h.1) {
        FittingLock(s, es, a);
      }
    }
  }

  lemma RightLocksFit(s: Server, es: seq<LogEntry>)
    requires LeaderOk(s) && !s.round.awaitAccept && LocksAreHolds(s.cfg, s.store.locks, OpenHolds(SyncEntries(s.cfg, s.store, es).open))
    ensures OpensLocked(s.cfg, s.store.locks, es) && KeepsHeld(s.cfg, s.store.open, es)
  {
    var st := SyncEntries(s.cfg, s.store, es);
    assert HoldsOf(s) == OpenHolds(s.store.open);
    forall t | Opens(es, t) ensures InsideAccounts(s.cfg, OpenedTxn(es, t)) <= s.store.locks {
      SyncHolds(s.cfg, s.store, es, (t, OpenedTxn(es, t)));
    }
    forall t, a | t in s.store.open && Touches(es, t) && a in InsideAccounts(s.cfg, s.store.open[t].txn) ensures Reheld(s.cfg, es, a) {
      var g := (t, s.store.open[t].txn);
      OpenHold(s.store.open, g);
      assert a in s.store.locks;
      var h :| h in OpenHolds(st.open) && a in InsideAccounts(s.cfg, h.1);
      SyncHolds(s.cfg, s.store, es, h);
      assert Opens(es, h.0);
    }
  }

  lemma FittingLock(s: Server, es: seq<LogEntry>, a: Account)
    requires LeaderOk(s) && !s.round.awaitAccept && OpensLocked(s.cfg, s.store.locks, es) && KeepsHeld(s.cfg, s.store.open, es)
    ensures a in s.store.locks <==> exists h :: h in OpenHolds(SyncEntries(s.cfg, s.store, es).open) && a in InsideAccounts(s.cfg, h.1)
  {
    var holds := OpenHolds(SyncEntries(s.cfg, s.store, es).open);
    assert HoldsOf(s) == OpenHolds(s.store.open);
    if a in s.store.locks {
      var g :| g in OpenHolds(s.store.open) && a in InsideAccounts(s.cfg, g.1);
      OpenHold(s.store.open, g);
      if Touches(es, g.0) {
        assert Reheld(s.cfg, es, a);
        var t :| Opens(es, t) && a in InsideAccounts(s.cfg, OpenedTxn(es, t));
        SyncHolds(s.cfg, s.store, es, (t, OpenedTxn(es, t)));
        assert (t, OpenedTxn(es, t)) in holds;
      } else {
        SyncHolds(s.cfg, s.store, es, g);
        assert g in holds;
      }
    }
    if h :| h in holds && a in InsideAccounts(s.cfg, h.1) {
      SyncHolds(s.cfg, s.store, es, h);
    }
  }

  /** The entries leave no new transaction prepared and close none that is prepared here. */
  ghost predicate LeavesOpen(open: map<Tid, LogEntry>, es: seq<LogEntry>) {
    forall t :: Touches(es, t) ==> if Opens(es, t) then t in open && open[t].txn == OpenedTxn(es, t) else t !in open
  }

  /** What the entries leave prepared and was not so before has accounts here, none of them locked. */
  ghost predicate OpensFree(cfg: Config, locks: set<Account>, open: map<Tid, LogEntry>, es: seq<LogEntry>) {
    forall t :: Opens(es, t) && !(t in open && open[t].txn == OpenedTxn(es, t)) ==>
      InsideAccounts(cfg, OpenedTxn(es, t)) != {} && InsideAccounts(cfg, OpenedTxn(es, t)) !! locks
  }

  /** Where new prepares are about free accounts, the locks stay right exactly if there are none and none is closed. */
  lemma SyncLocksUntouched(s: Server, es: seq<LogEntry>)
    requires LeaderOk(s) && !s.round.awaitAccept && OpensFree(s.cfg, s.store.locks, s.store.open, es)
    requires forall t :: t in s.store.open ==> InsideAccounts(s.cfg, s.store.open[t].txn) != {}
    ensures var st := SyncEntries(s.cfg, s.store, es);
            LocksAreHolds(s.cfg, st.locks, OpenHolds(st.open)) <==> LeavesOpen(s.store.open, es)
  {
    SyncLocksExact(s, es);
    if OpensLocked(s.cfg, s.store.locks, es) && KeepsHeld(s.cfg, s.store.open, es) {
      forall t | Touches(es, t) ensures if Opens(es, t) then t in s.store.open && s.store.open[t].txn == OpenedTxn(es, t) else t !in s.store.open {
        if !Opens(es, t) && t in s.store.open {
          ClosedIsReheld(s, es, t);
        }
      }
    }
    if LeavesOpen(s.store.open, es) {
      LeftOpenFits(s, es);
    }
  }

  /** A prepare that is closed gives its accounts to no other. */
  lemma ClosedIsReheld(s: Server, es: seq<LogEntry>, t: Tid)
    requires LeaderOk(s) && !s.round.awaitAccept && OpensLocked(s.cfg, s.store.locks, es) && KeepsHeld(s.cfg, s.store.open, es)
    requires t in s.store.open && Touches(es, t) && !Opens(es, t) && InsideAccounts(s.cfg, s.store.open[t].txn) != {}
    ensures !OpensFree(s.cfg, s.store.locks, s.store.open, es)
  {
    var g := (t, s.store.open[t].txn);
    var a :| a in InsideAccounts(s.cfg, g.1);
    assert Reheld(s.cfg, es, a);
    var u :| Opens(es, u) && a in InsideAccounts(s.cfg, OpenedTxn(es, u));
    assert HoldsOf(s) == OpenHolds(s.store.open);
    OpenHold(s.store.open, g);
    assert a in s.store.locks;
    if u in s.store.open && s.store.open[u].txn == OpenedTxn(es, u) {
      OpenHold(s.store.open, (u, OpenedTxn(es, u)));
      assert false;
    }
  }

  lemma LeftOpenFits(s: Server, es: seq<LogEntry>)
    requires LeaderOk(s) && !s.round.awaitAccept && LeavesOpen(s.store.open, es)
    ensures OpensLocked(s.cfg, s.store.locks, es) && KeepsHeld(s.cfg, s.store.open, es)
  {
    assert HoldsOf(s) == OpenHolds(s.store.open);
    forall t | Opens(es, t) ensures InsideAccounts(s.cfg, OpenedTxn(es, t)) <= s.store.locks {
      OpenHold(s.store.open, (t, OpenedTxn(es, t)));
    }
    forall t, a | t in s.store.open && Touches(es, t) && a in InsideAccounts(s.cfg, s.store.open[t].txn) ensures Reheld(s.cfg, es, a) {
      assert Opens(es, t);
    }
  }

  // ---------------------------------------------------------------- what a sync pays

  ghost function CommittedIn(es: seq<LogEntry>): set<Tid> {
    set e | e in es && e.status.Committed? :: e.tid
  }

  /** What a transfer gives to an account of this cluster. */
  function Share(cfg: Config, t: Transaction, a: Account): int {
    (if t.receiver == a && InCluster(cfg, a) then t.amount else 0) - (if t.sender == a && InCluster(cfg, a) then t.amount else 0)
  }

  /** What the first commits among the entries of transactions not yet applied give to an account. */
  ghost function Net(cfg: Config, applied: set<Tid>, es: seq<LogEntry>, a: Account): int {
    if es == [] then 0
    else
      var front, e := es[..|es| - 1], es[|es| - 1];
      Net(cfg, applied, front, a) + if e.status.Committed? && e.tid !in applied + CommittedIn(front) then Share(cfg, e.txn, a) else 0
  }

  lemma MovesShare(cfg: Config, b: map<Account, int>, t: Transaction, a: Account)
    ensures Balance(MoveInside(cfg, b, t), a) == Balance(b, a) + Share(cfg, t, a)
  {
  }

  lemma CommittedInSnoc(es: seq<LogEntry>, e: LogEntry)
    ensures CommittedIn(es + [e]) == CommittedIn(es) + if e.status.Committed? then {e.tid} else {}
  {
    assert forall x :: x in es + [e] <==> x in es || x == e;
  }

  lemma {:induction false} SyncPays(cfg: Config, st: Store, es: seq<LogEntry>, a: Account)
    ensures var st' := SyncEntries(cfg, st, es);
            st'.applied == st.applied + CommittedIn(es) && Balance(st'.balances, a) == Balance(st.balances, a) + Net(cfg, st.applied, es, a)
  {
    if es == [] {
      assert st.applied + CommittedIn(es) == st.applied;
    } else {
      var front, e := es[..|es| - 1], es[|es| - 1];
      SyncPays(cfg, st, front, a);
      assert es == front + [e];
      CommittedInSnoc(front, e);
      MovesShare(cfg, SyncEntries(cfg, st, front).balances, e.txn, a);
    }
  }

  /** The balance of an account after a sync. */
  ghost function Afterwards(cfg: Config, st: Store, es: seq<LogEntry>, a: Account): int {
    Balance(st.balances, a) + Net(cfg, st.applied, es, a)
  }

  /** The transfer can be paid after the sync. */
  ghost predicate PayableAfter(cfg: Config, st: Store, es: seq<LogEntry>, t: Transaction) {
    t.amount >= 0 && (InCluster(cfg, t.sender) ==> Afterwards(cfg, st, es, t.sender) >= t.amount)
  }

  ghost predicate SyncFunds(cfg: Config, st: Store, es: seq<LogEntry>) {
    && (forall a :: Afterwards(cfg, st, es, a) >= 0)
    && (forall t :: Opens(es, t) ==> PayableAfter(cfg, st, es, OpenedTxn(es, t)))
    && (forall t :: t in st.open && !Touches(es, t) ==> PayableAfter(cfg, st, es, st.open[t].txn))
  }

  lemma SyncFunded(cfg: Config, st: Store, es: seq<LogEntry>)
    ensures var st' := SyncEntries(cfg, st, es);
            Funded(cfg, st'.balances, OpenHolds(st'.open)) <==> SyncFunds(cfg, st, es)
  {
    var st' := SyncEntries(cfg, st, es);
    forall a ensures Balance(st'.balances, a) == Afterwards(cfg, st, es, a) {
      SyncPays(cfg, st, es, a);
    }
    forall h ensures h in OpenHolds(st'.open) <==> if Touches(es, h.0) then Opens(es, h.0) && OpenedTxn(es, h.0) == h.1 else h in OpenHolds(st.open) {
      SyncHolds(cfg, st, es, h);
    }
    forall h ensures h in OpenHolds(st.open) <==> h.0 in st.open && st.open[h.0].txn == h.1 {
      OpenHold(st.open, h);
    }
    forall h: Hold ensures CanPay(cfg, st'.balances, h.1) <==> PayableAfter(cfg, st, es, h.1) {
    }
    if SyncFunds(cfg, st, es) {
      forall a | a in st'.balances ensures st'.balances[a] >= 0 {
        assert Balance(st'.balances, a) == Afterwards(cfg, st, es, a);
      }
    }
    if Funded(cfg, st'.balances, OpenHolds(st'.open)) {
      FundedSync(cfg, st, es);
    }
  }

  lemma FundedSync(cfg: Config, st: Store, es: seq<LogEntry>)
    requires Funded(cfg, SyncEntries(cfg, st, es).balances, OpenHolds(SyncEntries(cfg, st, es).open))
    ensures SyncFunds(cfg, st, es)
  {
    var st' := SyncEntries(cfg, st, es);
    forall a ensures Afterwards(cfg, st, es, a) >= 0 {
      SyncPays(cfg, st, es, a);
    }
    forall t | Opens(es, t) ensures PayableAfter(cfg, st, es, OpenedTxn(es, t)) {
      SyncHolds(cfg, st, es, (t, OpenedTxn(es, t)));
      assert CanPay(cfg, st'.balances, (t, OpenedTxn(es, t)).1);
      SyncPays(cfg, st, es, OpenedTxn(es, t).sender);
    }
    forall t | t in st.open && !Touches(es, t) ensures PayableAfter(cfg, st, es, st.open[t].txn) {
      SyncHolds(cfg, st, es, (t, st.open[t].txn));
      OpenHold(st.open, (t, st.open[t].txn));
      assert CanPay(cfg, st'.balances, (t, st.open[t].txn).1);
      SyncPays(cfg, st, es, st.open[t].txn.sender);
    }
  }

  /** What the entries leave prepared overlaps neither among itself nor with prepares they are not about. */
  ghost predicate OpensApart(cfg: Config, open: map<Tid, LogEntry>, es: seq<LogEntry>) {
    && (forall t, u :: Opens(es, t) && Opens(es, u) && t != u ==> InsideAccounts(cfg, OpenedTxn(es, t)) !! InsideAccounts(cfg, OpenedTxn(es, u)))
    && (forall t, u :: Opens(es, t) && u in open && !Touches(es, u) ==> InsideAccounts(cfg, OpenedTxn(es, t)) !! InsideAccounts(cfg, open[u].txn))
  }

  lemma SyncApart(cfg: Config, st: Store, es: seq<LogEntry>)
    requires HoldsDisjoint(cfg, OpenHolds(st.open))
    ensures HoldsDisjoint(cfg, OpenHolds(SyncEntries(cfg, st, es).open)) <==> OpensApart(cfg, st.open, es)
  {
    var holds := OpenHolds(SyncEntries(cfg, st, es).open);
    forall h ensures h in holds <==> if Touches(es, h.0) then Opens(es, h.0) && OpenedTxn(es, h.0) == h.1 else h in OpenHolds(st.open) {
      SyncHolds(cfg, st, es, h);
    }
    forall h ensures h in OpenHolds(st.open) <==> h.0 in st.open && st.open[h.0].txn == h.1 {
      OpenHold(st.open, h);
    }
    if HoldsDisjoint(cfg, holds) {
      forall t, u | Opens(es, t) && Opens(es, u) && t != u ensures InsideAccounts(cfg, OpenedTxn(es, t)) !! InsideAccounts(cfg, OpenedTxn(es, u)) {
        assert (t, OpenedTxn(es, t)) in holds && (u, OpenedTxn(es, u)) in holds;
      }
      forall t, u | Opens(es, t) && u in st.open && !Touches(es, u) ensures InsideAccounts(cfg, OpenedTxn(es, t)) !! InsideAccounts(cfg, st.open[u].txn) {
        assert (t, OpenedTxn(es, t)) in holds && (u, st.open[u].txn) in holds;
      }
    }
  }

  /** Nothing that waits here is among what the entries leave prepared. */
  ghost predicate OpensNone(es: seq<LogEntry>, items: seq<Item>) {
    forall it :: it in items ==> !Opens(es, it.req.tid)
  }

  lemma SyncOpensNone(cfg: Config, st: Store, es: seq<LogEntry>, items: seq<Item>)
    requires NoneOpen(st.open, items)
    ensures NoneOpen(SyncEntries(cfg, st, es).open, items) <==> OpensNone(es, items)
  {
    forall it | it in items ensures it.req.tid in SyncEntries(cfg, st, es).open <==> Opens(es, it.req.tid) {
      SyncOpens(cfg, st, es, it.req.tid);
    }
  }

  /** The condition on the entries of a sync. */
  ghost predicate SyncFits(s: Server, es: seq<LogEntry>) {
    && OpensLocked(s.cfg, s.store.locks, es) && KeepsHeld(s.cfg, s.store.open, es) && OpensApart(s.cfg, s.store.open, es)
    && SyncFunds(s.cfg, s.store, es) && OpensNone(es, s.round.current) && OpensNone(es, s.round.pending)
  }

  lemma {:induction false} SyncKeepsTids(cfg: Config, st: Store, es: seq<LogEntry>)
    requires forall t :: t in st.open ==> st.open[t].tid == t
    ensures forall t :: t in SyncEntries(cfg, st, es).open ==> SyncEntries(cfg, st, es).open[t].tid == t
  {
    forall t | t in SyncEntries(cfg, st, es).open ensures SyncEntries(cfg, st, es).open[t].tid == t {
      SyncOpens(cfg, st, es, t);
    }
  }

  /** Taking over the entries keeps the discipline exactly if they fit. */
  lemma SyncFitsExact(s: Server, res: SyncRes)
    requires LeaderOk(s) && !s.round.awaitAccept
    ensures LeaderOk(Absorb(s, res)) <==> SyncFits(s, res.logs)
  {
    var es, s' := res.logs, Absorb(s, res);
    assert HoldsOf(s) == OpenHolds(s.store.open) && HoldsOf(s') == OpenHolds(SyncEntries(s.cfg, s.store, es).open);
    SyncKeepsTids(s.cfg, s.store, es);
    SyncLocksExact(s, es);
    SyncApart(s.cfg, s.store, es);
    SyncFunded(s.cfg, s.store, es);
    SyncOpensNone(s.cfg, s.store, es, s.round.current);
    SyncOpensNone(s.cfg, s.store, es, s.round.pending);
  }

  /** A sync that brought nothing: the paused round is retried. */
  lemma ResumeLeads(s: Server)
    requires LeaderOk(s) && !s.round.awaitAccept
    ensures LeaderOk(Resume(s))
  {
    var s1 := s.(round := s.round.(inSync := false));
    assert HoldsOf(s1) == HoldsOf(s);
    if s1.round.current != [] {
      ReissueLeads(s1);
    } else {
      StartLeads(s1);
    }
  }

  /**
    A sync that fails between the proposal of a batch and its outcome: the round asks for a ballot again,
    and the locks stay right exactly if the batch has no transfer inside the cluster.
  */
  lemma SyncMidAccept(s: Server, o: Outcome<SyncRes>)
    requires LeaderOk(s) && s.round.awaitAccept && !(o.Replied? && o.res.ack)
    ensures var s' := SyncReply(s, o);
            LocksAreHolds(s'.cfg, s'.store.locks, HoldsOf(s')) <==> forall it :: it in s.round.current ==> it.cross
  {
    var s' := SyncReply(s, o);
    assert HoldsOf(s') == OpenHolds(s.store.open);
    if forall it :: it in s.round.current ==> it.cross {
      assert RoundHolds(s.round.current) == {};
      assert HoldsOf(s) == OpenHolds(s.store.open);
    } else {
      var it :| it in s.round.current && !it.cross;
      UnheldLock(s, it);
    }
  }

  /** The accounts of a transfer being agreed on are held by nothing else. */
  lemma UnheldLock(s: Server, it: Item)
    requires LeaderOk(s) && s.round.awaitAccept && it in s.round.current && !it.cross
    ensures !LocksAreHolds(s.cfg, s.store.locks, OpenHolds(s.store.open))
  {
    var g, a := (it.req.tid, it.req.txn), it.req.txn.sender;
    assert g in RoundHolds(s.round.current) && g in HoldsOf(s);
    assert it in s.round.current + s.round.pending && Routed(s.cfg, it.req, it.cross);
    assert a in InsideAccounts(s.cfg, g.1) && a in s.store.locks;
    forall h | h in OpenHolds(s.store.open) ensures a !in InsideAccounts(s.cfg, h.1) {
      OpenHold(s.store.open, h);
      assert h in HoldsOf(s) && h != g;
    }
  }

  // ---------------------------------------------------------------- runs

  /**
    The events of a server that acts only as leader: routed client calls whose tid no
    live transaction has, replies to its own messages, decisions, timeouts and
    disconnections in any order, prepare calls of others, and replies to syncs that fit and do
    not come between the proposal of a batch and its outcome.
  */
  ghost predicate LeaderEvent(s: Server, ev: Event) {
    match ev
    case Client(_, req, cross) =>
      && Routed(s.cfg, req, cross) && req.tid !in s.store.open
      && forall it :: it in s.round.current + s.round.pending ==> it.req.tid != req.tid
    case OnAccept(_, _, _) => false
    case OnCommit(_) => false
    case SyncAnswer(o) => !s.round.awaitAccept && (o.Replied? && o.res.ack ==> SyncFits(s, o.res.logs))
    case Crash => false
    case _ => true
  }

  ghost predicate LeaderRun(s: Server, evs: seq<Event>) {
    forall k :: 0 <= k < |evs| ==> LeaderEvent(Exec(s, evs[..k]), evs[k])
  }

  lemma StepKeepsLocks(s: Server, ev: Event)
    requires LeaderOk(s) && LeaderEvent(s, ev)
    ensures LeaderOk(Step(s, ev))
  {
    match ev
    case Client(call, req, cross) => EnqueueLeads(s, call, req, cross);
    case OnPrepare(b, i) => SameLeads(s, Step(s, ev));
    case OnSync(last) => SameLeads(s, Step(s, ev));
    case PrepareAnswer(o, asked, at) => PrepareReplyLeads(s, o, asked, at);
    case AcceptAnswer(o, asked) => AcceptReplyLeads(s, o, asked);
    case SyncAnswer(o) =>
      if o.Replied? && o.res.ack {
        SyncFitsExact(s, o.res);
        ResumeLeads(Absorb(s, o.res));
      } else {
        ResumeLeads(s);
      }
    case Decided(tid, commit) => DecisionLeads(s, tid, commit);
    case Expired(tid) => DecisionLeads(s, tid, false);
    case Disconnect(on) => SameLeads(s, Step(s, ev));
  }

  lemma {:induction false} RunsKeepLocks(cfg: Config, init: map<Account, int>, evs: seq<Event>)
    requires (forall a :: a in init ==> init[a] >= 0) && LeaderRun(Init(cfg, init), evs)
    ensures LeaderOk(Exec(Init(cfg, init), evs)) && Exec(Init(cfg, init), evs).cfg == cfg
  {
    var s0 := Init(cfg, init);
    if evs == [] {
      assert HoldsOf(s0) == {};
    } else {
      var front, ev := evs[..|evs| - 1], evs[|evs| - 1];
      assert forall k :: 0 <= k < |front| ==> evs[..k] == front[..k];
      RunsKeepLocks(cfg, init, front);
      StepKeepsLocks(Exec(s0, front), ev);
      StepKeepsConfig(Exec(s0, front), ev);
    }
  }

  /**
    Main result: over every leader run the locks are the disjoint union of the in-cluster
    accounts of the accept-phase intra-shard items and the undecided prepares, each of
    these can still pay, and nobody is overdrawn.
  */
  lemma LocksAreExactlyHeld(cfg: Config, init: map<Account, int>, evs: seq<Event>)
    requires (forall a :: a in init ==> init[a] >= 0) && LeaderRun(Init(cfg, init), evs)
    ensures var s := Exec(Init(cfg, init), evs);
            && (forall a :: a in s.store.locks <==> exists h :: h in HoldsOf(s) && a in InsideAccounts(cfg, h.1))
            && (forall g, h :: g in HoldsOf(s) && h in HoldsOf(s) && g != h ==> InsideAccounts(cfg, g.1) !! InsideAccounts(cfg, h.1))
            && (forall h :: h in HoldsOf(s) && InCluster(cfg, h.1.sender) ==> Balance(s.store.balances, h.1.sender) >= h.1.amount)
            && (forall a :: a in s.store.balances ==> s.store.balances[a] >= 0)
  {
    RunsKeepLocks(cfg, init, evs);
    var s := Exec(Init(cfg, init), evs);
    assert Disciplined(cfg, s.store.locks, s.store.balances, HoldsOf(s));
  }

  // ---------------------------------------------------------------- a sync that does not fit

  /** A transfer from account 1 of the first of three clusters to account 2000 of the second. */
  const Leaving := Transaction(1, 2000, 5)

  const Here := Config(1, 1, 3)
  const First := Item(TransferReq(7, Leaving), 0, true)
  const Second := Item(TransferReq(8, Transaction(2, 3, 1)), 1, false)
  const Open := map[7 := LogEntry(7, 1, 1, Leaving, Cross, Prepared)]

  /** Some leader run from the start, with 10 in account 1, ends in s. */
  ghost predicate Led(s: Server) {
    exists evs :: LeaderRun(Init(Here, map[1 := 10]), evs) && s == Exec(Init(Here, map[1 := 10]), evs)
  }

  lemma LedOn(s: Server, ev: Event)
    requires Led(s) && LeaderEvent(s, ev)
    ensures Led(Step(s, ev))
  {
    var s0 := Init(Here, map[1 := 10]);
    var evs :| LeaderRun(s0, evs) && s == Exec(s0, evs);
    var evs' := evs + [ev];
    assert evs'[..|evs|] == evs;
    forall k | 0 <= k < |evs'| ensures LeaderEvent(Exec(s0, evs'[..k]), evs'[k]) {
      if k < |evs| {
        assert evs'[..k] == evs[..k];
      }
    }
    assert LeaderRun(s0, evs') && Step(s, ev) == Exec(s0, evs');
  }

  lemma LedIsOk(s: Server)
    requires Led(s)
    ensures LeaderOk(s)
  {
    var init: map<Account, int> := map[1 := 10];
    var evs :| LeaderRun(Init(Here, init), evs) && s == Exec(Init(Here, init), evs);
    RunsKeepLocks(Here, init, evs);
  }

  lemma Sides()
    ensures InCluster(Here, 1) && InCluster(Here, 2) && InCluster(Here, 3) && !InCluster(Here, 2000)
  {
  }

  /** The transfer arrives and its round asks for ballot 1. */
  lemma FirstAsked() returns (s: Server)
    ensures Led(s) && s.cfg == Here && !s.disconnected && s.store == Init(Here, map[1 := 10]).store
    ensures s.acc == Acceptor(1, true, Ballot(1, 1), false, NoBallot, []) && s.round == Round([], [First], true, false, true, false, 1, 0, 0, 0)
  {
    Sides();
    var s0 := Init(Here, map[1 := 10]);
    assert LeaderRun(s0, []) && s0 == Exec(s0, []);
    LedOn(s0, Client(0, First.req, true));
    s := Enqueue(s0, 0, First.req, true);
  }

  lemma FirstAdmitted(st: Store)
    requires st == Init(Here, map[1 := 10]).store
    ensures var v := Validate(Here, st, [First], Ballot(1, 1), 0);
            && v.kept == [First] && v.store.open == Open && v.store.locks == {1} && v.store.paxosIndex == 0
            && v.store.log == [Open[7]] && v.store.balances == st.balances
  {
    Sides();
    assert Validate(Here, st, [First][..0], Ballot(1, 1), 0) == Validation(st, [], []);
  }

  /** The ballot is won, the transfer locked and logged. */
  lemma FirstProposed() returns (s: Server)
    ensures Led(s) && s.cfg == Here && !s.disconnected && s.store.open == Open && s.store.locks == {1} && s.store.paxosIndex == 0
    ensures s.store.log == [Open[7]] && s.store.balances == map[1 := 10]
    ensures s.acc.ballotNum == 1 && s.acc.acceptNum == Ballot(1, 1) && s.round == Round([], [First], true, false, false, true, 2, 0, 1, 0)
  {
    var s1 := FirstAsked();
    FirstAdmitted(s1.store);
    var o := Replied(PrepareRes(true, Ballot(1, 1), None, [], None, None, 0));
    LedOn(s1, PrepareAnswer(o, Ballot(1, 1), 0));
    s := PrepareReply(s1, o, Ballot(1, 1), 0);
  }

  /** The round is over; the transfer stays open. */
  lemma FirstOpen() returns (s: Server)
    ensures Led(s) && s.cfg == Here && !s.disconnected && s.store.open == Open && s.store.locks == {1} && s.store.paxosIndex == 0
    ensures s.store.log == [Open[7]] && s.store.balances == map[1 := 10]
    ensures s.acc.ballotNum == 1 && s.round == Round([], [], false, false, false, false, 2, 0, 2, 0)
  {
    var s1 := FirstProposed();
    var o := Replied((Ballot(1, 1), true));
    LedOn(s1, AcceptAnswer(o, Ballot(1, 1)));
    s := AcceptReply(s1, o, Ballot(1, 1));
    assert SettleAll(s1.store, [First][..0], Ballot(1, 1)) == s1.store;
    assert SettleAll(s1.store, [First], Ballot(1, 1)) == s1.store;
  }

  /** The next round asks for ballot 2. */
  lemma SecondAsked() returns (s: Server)
    ensures Led(s) && s.cfg == Here && s.store.open == Open && s.store.locks == {1} && s.store.paxosIndex == 0
    ensures s.acc.ballotNum == 2 && s.acc.promisedNum == Ballot(2, 1) && s.round.awaitPrepare && !s.round.awaitAccept
  {
    Sides();
    var s1 := FirstOpen();
    LedOn(s1, Client(1, Second.req, false));
    s := Enqueue(s1, 1, Second.req, false);
  }

  /** A leader that has prepared the transfer and whose next round waits for a sync. */
  lemma WaitingLeader() returns (s: Server)
    ensures Led(s) && s.round.inSync && !s.round.awaitAccept && s.cfg == Here && s.store.open == Open && s.store.locks == {1}
  {
    var s1 := SecondAsked();
    var o := Replied(PrepareRes(false, Ballot(2, 1), None, [], None, Some(5), 2));
    LedOn(s1, PrepareAnswer(o, Ballot(2, 1), 0));
    s := PrepareReply(s1, o, Ballot(2, 1), 0);
  }

  /** A peer's commit of that transfer closes it here and leaves its account locked, and no later decision gives it back. */
  lemma SyncLeaksLock() returns (s: Server, res: SyncRes)
    ensures Led(s) && LeaderOk(s) && s.round.inSync && !s.round.awaitAccept && res.ack
    ensures var s' := SyncReply(s, Replied(res));
            && s'.store.open == map[] && 1 in s'.store.locks && !LocksAreHolds(s.cfg, s'.store.locks, OpenHolds(s'.store.open))
            && forall tid, commit :: 1 in Decision(s', tid, commit).store.locks
  {
    s := WaitingLeader();
    LedIsOk(s);
    var e := LogEntry(7, 1, 1, Leaving, Cross, Committed);
    res := SyncRes(true, [e], Ballot(1, 1));
    assert SyncEntries(s.cfg, s.store, [e][..0]) == s.store;
    assert SyncEntries(s.cfg, s.store, [e]) == SyncEntry(s.cfg, s.store, e);
    var s' := SyncReply(s, Replied(res));
    assert s'.store.open == map[] && OpenHolds(s'.store.open) == {};
    assert 1 in s'.store.locks;
  }

  // ---------------------------------------------------------------- a sync at the wrong moment

  /** A transfer from account 1 to account 2, both in the first cluster. */
  const Staying := Item(TransferReq(8, Transaction(1, 2, 5)), 0, false)

  lemma StayingAsked() returns (s: Server)
    ensures Led(s) && s.cfg == Here && !s.disconnected && s.store == Init(Here, map[1 := 10]).store
    ensures s.acc == Acceptor(1, true, Ballot(1, 1), false, NoBallot, []) && s.round == Round([], [Staying], true, false, true, false, 1, 0, 0, 0)
  {
    Sides();
    var s0 := Init(Here, map[1 := 10]);
    assert LeaderRun(s0, []) && s0 == Exec(s0, []);
    LedOn(s0, Client(0, Staying.req, false));
    s := Enqueue(s0, 0, Staying.req, false);
  }

  lemma StayingAdmitted(st: Store)
    requires st == Init(Here, map[1 := 10]).store
    ensures Validate(Here, st, [Staying], Ballot(1, 1), 0) == Validation(st.(locks := {1, 2}), [Staying], [])
  {
    Sides();
    assert Validate(Here, st, [Staying][..0], Ballot(1, 1), 0) == Validation(st, [], []);
  }

  /** A proposal that a peer with a longer log interrupts with a prepare call of its own. */
  lemma Interrupted() returns (s: Server)
    ensures Led(s) && s.cfg == Here && !s.disconnected && s.store == Init(Here, map[1 := 10]).store.(locks := {1, 2})
    ensures s.acc.ballotNum == 1 && s.round == Round([], [Staying], true, true, false, true, 2, 0, 1, 0)
  {
    var s1 := StayingAsked();
    StayingAdmitted(s1.store);
    var o := Replied(PrepareRes(true, Ballot(1, 1), None, [], None, None, 0));
    LedOn(s1, PrepareAnswer(o, Ballot(1, 1), 0));
    var s2 := PrepareReply(s1, o, Ballot(1, 1), 0);
    LedOn(s2, OnPrepare(Ballot(5, 2), 3));
    s := PrepareCall(s2, Ballot(5, 2), 3);
  }

  lemma StayingRefused(st: Store)
    requires 1 in st.locks
    ensures Validate(Here, st, [Staying], Ballot(2, 1), 0) == Validation(st, [], [Answer(0, false, 8)])
  {
    Sides();
    assert Validate(Here, st, [Staying][..0], Ballot(2, 1), 0) == Validation(st, [], []);
  }

  /**
    The sync fails before the proposal is accepted. The round asks for a ballot again, wins it, and is
    refused because of its own locks, which nobody holds any more.
  */
  lemma SyncRefusesOwnBatch() returns (s: Server, o: Outcome<PrepareRes>)
    ensures Led(s) && LeaderOk(s) && s.round.awaitAccept && o.Replied? && o.res.ack
    ensures var s' := PrepareReply(SyncReply(s, Failed), o, Ballot(2, 1), 0);
            && s'.answers == s.answers + [Answer(0, false, 8)] && !s'.round.running
            && s'.store.locks == {1, 2} && HoldsOf(s') == {}
  {
    s := Interrupted();
    LedIsOk(s);
    o := Replied(PrepareRes(true, Ballot(2, 1), None, [], None, None, 0));
    StayingRefused(s.store);
    var s1 := SyncReply(s, Failed);
    assert s1.round.current == [Staying] && s1.acc.promisedNum == Ballot(2, 1) && s1.round.awaitPrepare;
    assert OpenHolds(s.store.open) == {};
  }
}
