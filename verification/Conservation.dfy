/**
  Money is conserved: one server per cluster together hold the initial total, and what they have
  applied at the receiver's side of a transaction more often than at the sender's.
*/
module Conservation {
  import opened Protocol
  import opened ServerSpec
  import opened Ledger
  import opened Sums

  ghost function Total(b: map<Account, int>): int {
    Sum(b.Keys, a => Balance(b, a))
  }

  lemma TotalCredit(b: map<Account, int>, a: Account, x: int)
    ensures Total(Credit(b, a, x)) == Total(b) + x
  {
    var c := Credit(b, a, x);
    var f, g := (i: Account) => Balance(b, i), (i: Account) => Balance(c, i);
    SumWiden(b.Keys, b.Keys + {a}, f);
    SumPick(b.Keys + {a}, f, a);
    SumPick(c.Keys, g, a);
    assert c.Keys == b.Keys + {a};
    SumSame(c.Keys - {a}, f, g);
  }

  /** What applying a transaction adds to the money held in one cluster. */
  function Net(cfg: Config, t: Transaction): int {
    (if InCluster(cfg, t.sender) then -t.amount else 0) + (if InCluster(cfg, t.receiver) then t.amount else 0)
  }

  lemma TotalMove(cfg: Config, b: map<Account, int>, t: Transaction)
    ensures Total(MoveInside(cfg, b, t)) == Total(b) + Net(cfg, t)
  {
    TotalCredit(b, t.sender, -t.amount);
    TotalCredit(b, t.receiver, t.amount);
    TotalCredit(Credit(b, t.sender, -t.amount), t.receiver, t.amount);
  }

  ghost predicate Registered(log: seq<LogEntry>, txns: Tid -> Transaction) {
    forall e :: e in log ==> e.txn == txns(e.tid)
  }

  // ---------------------------------------------------------------- measures of balances

  /** m grows by d(t) whenever transaction t is applied. */
  ghost predicate Additive(cfg: Config, m: map<Account, int> -> int, d: Transaction -> int) {
    forall b, t {:trigger MoveInside(cfg, b, t)} :: m(MoveInside(cfg, b, t)) == m(b) + d(t)
  }

  lemma TotalIsAdditive(cfg: Config)
    ensures Additive(cfg, b => Total(b), t => Net(cfg, t))
  {
    forall b, t ensures Total(MoveInside(cfg, b, t)) == Total(b) + Net(cfg, t) {
      TotalMove(cfg, b, t);
    }
  }

  /** What applying a transaction adds to one account. */
  function Effect(cfg: Config, t: Transaction, a: Account): int {
    if !InCluster(cfg, a) then 0 else (if a == t.sender then -t.amount else 0) + (if a == t.receiver then t.amount else 0)
  }

  lemma BalanceIsAdditive(cfg: Config, a: Account)
    ensures Additive(cfg, b => Balance(b, a), t => Effect(cfg, t, a))
  {
  }

  lemma CommittedSnoc(log: seq<LogEntry>)
    requires log != []
    ensures var e := log[|log| - 1]; CommittedTids(log) == CommittedTids(log[..|log| - 1]) + if e.status.Committed? then {e.tid} else {}
  {
    assert log == log[..|log| - 1] + [log[|log| - 1]];
    CommittedAppend(log[..|log| - 1], log[|log| - 1]);
  }

  lemma {:induction false} MeasureReplay(cfg: Config, init: map<Account, int>, log: seq<LogEntry>, txns: Tid -> Transaction,
                                         m: map<Account, int> -> int, d: Transaction -> int)
    requires Registered(log, txns) && Additive(cfg, m, d)
    ensures m(Replay(cfg, init, log)) == m(init) + Sum(CommittedTids(log), t => d(txns(t)))
  {
    if log != [] {
      var front, e, f := log[..|log| - 1], log[|log| - 1], (t: Tid) => d(txns(t));
      MeasureReplay(cfg, init, front, txns, m, d);
      CommittedSnoc(log);
      assert e in log;
      if e.status.Committed? && e.tid !in CommittedTids(front) {
        SumPick(CommittedTids(log), f, e.tid);
        assert CommittedTids(log) - {e.tid} == CommittedTids(front);
      } else {
        assert CommittedTids(log) == CommittedTids(front);
      }
    }
  }

  // ---------------------------------------------------------------- over all incarnations

  /** In how many incarnations the transaction is committed. */
  ghost function Times(parts: seq<seq<LogEntry>>, t: Tid): nat {
    if parts == [] then 0 else Times(parts[..|parts| - 1], t) + if t in CommittedTids(parts[|parts| - 1]) then 1 else 0
  }

  /** n times x. */
  function Repeated(n: nat, x: int): int {
    if n == 0 then 0 else Repeated(n - 1, x) + x
  }

  lemma {:induction false} RepeatedIs(n: nat, x: int)
    ensures Repeated(n, x) == n * x
  {
    if n > 0 {
      RepeatedIs(n - 1, x);
    }
  }

  /** Taking x away n times and adding it m times. */
  lemma RepeatedCancel(n: nat, m: nat, x: int)
    ensures Repeated(n, -x) + Repeated(m, x) == (m - n) * x
  {
    RepeatedIs(n, -x);
    RepeatedIs(m, x);
  }

  /** The effects of the transactions, each as often as there are incarnations that commit it. */
  ghost function Weighed(parts: seq<seq<LogEntry>>, effect: Tid -> int, ts: set<Tid>): int {
    Sum(ts, t => Repeated(Times(parts, t), effect(t)))
  }

  lemma TimesSnoc(front: seq<seq<LogEntry>>, last: seq<LogEntry>, t: Tid, x: int)
    ensures Repeated(Times(front + [last], t), x) == Repeated(Times(front, t), x) + if t in CommittedTids(last) then x else 0
  {
    assert (front + [last])[..|front|] == front;
  }

  /** What one more incarnation adds. */
  lemma WeighedSnoc(effect: Tid -> int, front: seq<seq<LogEntry>>, last: seq<LogEntry>, ts: set<Tid>)
    requires CommittedTids(last) <= ts
    ensures Weighed(front + [last], effect, ts) == Weighed(front, effect, ts) + Sum(CommittedTids(last), effect)
  {
    var now, parts := CommittedTids(last), front + [last];
    var f, h := (t: Tid) => Repeated(Times(front, t), effect(t)), (t: Tid) => Repeated(Times(parts, t), effect(t));
    var g := (t: Tid) => if t in now then effect(t) else 0;
    SumSame(now, effect, g);
    SumWiden(now, ts, g);
    forall t | t in ts ensures h(t) == f(t) + g(t) {
      TimesSnoc(front, last, t, effect(t));
    }
    SumAdd(ts, f, g, h);
  }

  lemma MeasureOne(cfg: Config, init: map<Account, int>, last: seq<LogEntry>, txns: Tid -> Transaction, effect: Tid -> int,
                   m: map<Account, int> -> int, d: Transaction -> int)
    requires Registered(last, txns) && Additive(cfg, m, d) && forall t :: effect(t) == d(txns(t))
    ensures m(Replay(cfg, init, last)) == m(init) + Sum(CommittedTids(last), effect)
  {
    MeasureReplay(cfg, init, last, txns, m, d);
    SumSame(CommittedTids(last), effect, t => d(txns(t)));
  }

  lemma WeighedNone(effect: Tid -> int, ts: set<Tid>)
    ensures Weighed([], effect, ts) == 0
  {
    SumZero(ts, t => Repeated(Times([], t), effect(t)));
  }

  lemma LastPart(bk: Book, parts: seq<seq<LogEntry>>, ts: set<Tid>)
    requires parts != [] && AllLogged(bk, parts) && CommittedTids(Flat(parts)) <= ts
    ensures var front, last := parts[..|parts| - 1], parts[|parts| - 1];
            && AllLogged(bk, front) && Registered(last, bk.txns) && CommittedTids(Flat(front)) <= ts && CommittedTids(last) <= ts && parts == front + [last]
  {
    CommittedConcat(Flat(parts[..|parts| - 1]), parts[|parts| - 1]);
  }

  lemma {:induction false} MeasureEach(cfg: Config, bk: Book, parts: seq<seq<LogEntry>>, ts: set<Tid>, effect: Tid -> int,
                                       m: map<Account, int> -> int, d: Transaction -> int)
    requires AllLogged(bk, parts) && CommittedTids(Flat(parts)) <= ts && Additive(cfg, m, d) && forall t :: effect(t) == d(bk.txns(t))
    ensures m(ReplayEach(cfg, bk.init, parts)) == m(bk.init) + Weighed(parts, effect, ts)
  {
    if parts == [] {
      WeighedNone(effect, ts);
    } else {
      var front, last := parts[..|parts| - 1], parts[|parts| - 1];
      LastPart(bk, parts, ts);
      MeasureEach(cfg, bk, front, ts, effect, m, d);
      MeasureOne(cfg, ReplayEach(cfg, bk.init, front), last, bk.txns, effect, m, d);
      WeighedSnoc(effect, front, last, ts);
    }
  }

  /**
    Over every run, crashes included, what an account holds is what it held at first and what each
    transaction moves to or from it, times the number of incarnations that commit the transaction.
  */
  lemma BalanceExact(cfg: Config, bk: Book, evs: seq<Event>, a: Account)
    requires forall ev :: ev in evs ==> Legal(cfg, bk, ev)
    ensures var parts := LivesOf(cfg, bk.init, evs).parts;
            Balance(Exec(Init(cfg, bk.init), evs).store.balances, a) ==
            Balance(bk.init, a) + Weighed(parts, t => Effect(cfg, bk.txns(t), a), CommittedTids(Flat(parts)))
  {
    var parts := LivesOf(cfg, bk.init, evs).parts;
    BalancesAreTheLedger(cfg, bk, evs);
    BalanceIsAdditive(cfg, a);
    MeasureEach(cfg, bk, parts, CommittedTids(Flat(parts)), t => Effect(cfg, bk.txns(t), a), b => Balance(b, a), t => Effect(cfg, t, a));
  }

  // ---------------------------------------------------------------- one server per cluster

  /** A server: its balances, and what its incarnations have logged. */
  datatype Rep = Rep(cfg: Config, balances: map<Account, int>, parts: seq<seq<LogEntry>>)

  /** One server per cluster, each with a sound ledger over its cluster's initial balances. */
  ghost predicate Representatives(reps: map<int, Rep>, init: map<int, map<Account, int>>, numClusters: int, txns: Tid -> Transaction) {
    && init.Keys == reps.Keys
    && forall c :: c in reps ==>
         && reps[c].cfg.clusterId == c && reps[c].cfg.numClusters == numClusters
         && AllLogged(Book(init[c], txns, 0), reps[c].parts)
         && reps[c].balances == ReplayEach(reps[c].cfg, init[c], reps[c].parts)
  }

  ghost function AllApplied(reps: map<int, Rep>): set<Tid> {
    set c, t | c in reps && t in CommittedTids(Flat(reps[c].parts)) :: t
  }

  function Payer(txn: Transaction, numClusters: int): int {
    ClusterOf(txn.sender, numClusters)
  }

  function Payee(txn: Transaction, numClusters: int): int {
    ClusterOf(txn.receiver, numClusters)
  }

  /** Both clusters of every applied transaction are represented. */
  ghost predicate Covered(reps: map<int, Rep>, numClusters: int, txns: Tid -> Transaction) {
    forall t :: t in AllApplied(reps) ==> Payer(txns(t), numClusters) in reps && Payee(txns(t), numClusters) in reps
  }

  ghost function Share(reps: map<int, Rep>, txns: Tid -> Transaction, c: int, t: Tid): int {
    if c in reps then Repeated(Times(reps[c].parts, t), Net(reps[c].cfg, txns(t))) else 0
  }

  /** The money that comes of applying a transaction more often at its receiver's side than at its sender's. */
  ghost function Excess(reps: map<int, Rep>, numClusters: int, txns: Tid -> Transaction, t: Tid): int {
    var a, b := Payer(txns(t), numClusters), Payee(txns(t), numClusters);
    if a in reps && b in reps then (Times(reps[b].parts, t) - Times(reps[a].parts, t)) * txns(t).amount else 0
  }

  /** A cluster has no share in a transaction of others. */
  lemma ShareIs(reps: map<int, Rep>, init: map<int, map<Account, int>>, numClusters: int, txns: Tid -> Transaction, c: int, t: Tid)
    requires Representatives(reps, init, numClusters, txns) && c in reps
    ensures var n, x := Times(reps[c].parts, t), txns(t).amount;
            var pays, paid := c == Payer(txns(t), numClusters), c == Payee(txns(t), numClusters);
            Share(reps, txns, c, t) == if pays == paid then 0 else if pays then Repeated(n, -x) else Repeated(n, x)
  {
    RepeatedIs(Times(reps[c].parts, t), 0);
  }

  /** Over all clusters the shares of one transaction cancel, but for its excess. */
  lemma SharesCancel(reps: map<int, Rep>, init: map<int, map<Account, int>>, numClusters: int, txns: Tid -> Transaction, t: Tid)
    requires Representatives(reps, init, numClusters, txns) && Payer(txns(t), numClusters) in reps && Payee(txns(t), numClusters) in reps
    ensures Sum(reps.Keys, c => Share(reps, txns, c, t)) == Excess(reps, numClusters, txns, t)
  {
    var f := (c: int) => Share(reps, txns, c, t);
    var a, b := Payer(txns(t), numClusters), Payee(txns(t), numClusters);
    forall c | c in reps.Keys && c != a && c != b
      ensures f(c) == 0
    {
      ShareIs(reps, init, numClusters, txns, c, t);
    }
    SumTwo(reps.Keys, f, a, b);
    ShareIs(reps, init, numClusters, txns, a, t);
    ShareIs(reps, init, numClusters, txns, b, t);
    RepeatedCancel(Times(reps[a].parts, t), Times(reps[b].parts, t), txns(t).amount);
  }

  ghost function Gain(reps: map<int, Rep>, txns: Tid -> Transaction, c: int): int {
    Sum(AllApplied(reps), t => Share(reps, txns, c, t))
  }

  lemma GainIsDifference(reps: map<int, Rep>, init: map<int, map<Account, int>>, numClusters: int, txns: Tid -> Transaction, c: int)
    requires Representatives(reps, init, numClusters, txns) && c in reps
    ensures Total(reps[c].balances) == Total(init[c]) + Gain(reps, txns, c)
  {
    var cfg, parts, effect := reps[c].cfg, reps[c].parts, (t: Tid) => Net(reps[c].cfg, txns(t));
    TotalIsAdditive(cfg);
    MeasureEach(cfg, Book(init[c], txns, 0), parts, AllApplied(reps), effect, b => Total(b), t => Net(cfg, t));
    SumSame(AllApplied(reps), t => Repeated(Times(parts, t), effect(t)), t => Share(reps, txns, c, t));
  }

  lemma GainsCancel(reps: map<int, Rep>, init: map<int, map<Account, int>>, numClusters: int, txns: Tid -> Transaction)
    requires Representatives(reps, init, numClusters, txns) && Covered(reps, numClusters, txns)
    ensures Sum(reps.Keys, c => Gain(reps, txns, c)) == Sum(AllApplied(reps), t => Excess(reps, numClusters, txns, t))
  {
    var row := (c: int) => ((t: Tid) => Share(reps, txns, c, t));
    var column := (t: Tid) => ((c: int) => Share(reps, txns, c, t));
    var rows := (c: int) => Gain(reps, txns, c);
    var columns := (t: Tid) => Sum(reps.Keys, column(t));
    forall c
      ensures rows(c) == Sum(AllApplied(reps), row(c))
    {
      SumSame(AllApplied(reps), row(c), t => Share(reps, txns, c, t));
    }
    SumSwap(reps.Keys, AllApplied(reps), row, column, rows, columns);
    forall t | t in AllApplied(reps)
      ensures columns(t) == Excess(reps, numClusters, txns, t)
    {
      SharesCancel(reps, init, numClusters, txns, t);
      SumSame(reps.Keys, column(t), c => Share(reps, txns, c, t));
    }
    SumSame(AllApplied(reps), columns, t => Excess(reps, numClusters, txns, t));
    SumSame(reps.Keys, rows, c => Gain(reps, txns, c));
  }

  ghost function Held(reps: map<int, Rep>, c: int): int {
    if c in reps then Total(reps[c].balances) else 0
  }

  ghost function HeldAtFirst(init: map<int, map<Account, int>>, c: int): int {
    if c in init then Total(init[c]) else 0
  }

  /** Main result: the representatives hold the initial total and the excess of every transaction. */
  lemma TotalExact(reps: map<int, Rep>, init: map<int, map<Account, int>>, numClusters: int, txns: Tid -> Transaction)
    requires Representatives(reps, init, numClusters, txns) && Covered(reps, numClusters, txns)
    ensures Sum(reps.Keys, c => Held(reps, c)) ==
            Sum(init.Keys, c => HeldAtFirst(init, c)) + Sum(AllApplied(reps), t => Excess(reps, numClusters, txns, t))
  {
    forall c | c in reps
      ensures Held(reps, c) == HeldAtFirst(init, c) + Gain(reps, txns, c)
    {
      GainIsDifference(reps, init, numClusters, txns, c);
    }
    SumAdd(reps.Keys, c => HeldAtFirst(init, c), c => Gain(reps, txns, c), c => Held(reps, c));
    GainsCancel(reps, init, numClusters, txns);
  }

  /** The two clusters of every applied transaction have applied it equally often. */
  ghost predicate Agree(reps: map<int, Rep>, numClusters: int, txns: Tid -> Transaction) {
    forall t :: t in AllApplied(reps) ==>
      var a, b := Payer(txns(t), numClusters), Payee(txns(t), numClusters); a in reps && b in reps && Times(reps[a].parts, t) == Times(reps[b].parts, t)
  }

  lemma NoExcess(reps: map<int, Rep>, numClusters: int, txns: Tid -> Transaction, t: Tid)
    requires Agree(reps, numClusters, txns) && t in AllApplied(reps)
    ensures Excess(reps, numClusters, txns, t) == 0
  {
    var n := Times(reps[Payer(txns(t), numClusters)].parts, t);
    assert (n - n) * txns(t).amount == 0;
  }

  lemma NoExcesses(reps: map<int, Rep>, numClusters: int, txns: Tid -> Transaction)
    requires Agree(reps, numClusters, txns)
    ensures Sum(AllApplied(reps), t => Excess(reps, numClusters, txns, t)) == 0
  {
    var f := (t: Tid) => Excess(reps, numClusters, txns, t);
    forall t | t in AllApplied(reps) ensures f(t) == 0 {
      NoExcess(reps, numClusters, txns, t);
    }
    SumZero(AllApplied(reps), f);
  }

  /** Where the clusters agree nothing is lost or made. */
  lemma TotalConserved(reps: map<int, Rep>, init: map<int, map<Account, int>>, numClusters: int, txns: Tid -> Transaction)
    requires Representatives(reps, init, numClusters, txns) && Agree(reps, numClusters, txns)
    ensures Sum(reps.Keys, c => Held(reps, c)) == Sum(init.Keys, c => HeldAtFirst(init, c))
  {
    TotalExact(reps, init, numClusters, txns);
    NoExcesses(reps, numClusters, txns);
  }

  /** The state that a run ends in. */
  ghost function RepOf(cfg: Config, init: map<Account, int>, evs: seq<Event>): Rep {
    Rep(cfg, Exec(Init(cfg, init), evs).store.balances, LivesOf(cfg, init, evs).parts)
  }

  /** The same, for the states reached by any legal runs, crashes included, one per cluster. */
  lemma RunsConserveMoney(runs: map<int, seq<Event>>, ids: map<int, int>, init: map<int, map<Account, int>>, numClusters: int,
                          txns: Tid -> Transaction, reps: map<int, Rep>)
    requires runs.Keys == ids.Keys == init.Keys == reps.Keys
    requires forall c :: c in runs ==> reps[c] == RepOf(Config(ids[c], c, numClusters), init[c], runs[c])
    requires forall c, ev :: c in runs && ev in runs[c] ==> Legal(Config(ids[c], c, numClusters), Book(init[c], txns, 0), ev)
    requires Covered(reps, numClusters, txns)
    ensures Sum(reps.Keys, c => Held(reps, c)) ==
            Sum(init.Keys, c => HeldAtFirst(init, c)) + Sum(AllApplied(reps), t => Excess(reps, numClusters, txns, t))
    ensures Agree(reps, numClusters, txns) ==> Sum(reps.Keys, c => Held(reps, c)) == Sum(init.Keys, c => HeldAtFirst(init, c))
  {
    forall c | c in reps
      ensures reps[c].balances == ReplayEach(reps[c].cfg, init[c], reps[c].parts) && AllLogged(Book(init[c], txns, 0), reps[c].parts)
    {
      BalancesAreTheLedger(Config(ids[c], c, numClusters), Book(init[c], txns, 0), runs[c]);
    }
    TotalExact(reps, init, numClusters, txns);
    if Agree(reps, numClusters, txns) {
      TotalConserved(reps, init, numClusters, txns);
    }
  }
}
