/**
  Replica order: the agreed part of a replica's log follows the leader's, however
  decisions and lock timeouts interleave (src/server/server.cc: isPaxosEntry, the
  timeout sweep, processTpcDecision, prepareTransaction, commitTransaction, the peer calls).
*/
module Replicas {
  import opened Protocol
  import opened ServerSpec
  import opened Calls
  import Locks

  // ---------------------------------------------------------------- agreed entries

  /** The entries of a log that were appended by agreement. */
  function Paxos(log: seq<LogEntry>): seq<LogEntry> {
    if log == [] then []
    else Paxos(log[..|log| - 1]) + if IsPaxosEntry(log[|log| - 1]) then [log[|log| - 1]] else []
  }

  /** Exactly one side lives in this cluster. */
  predicate OneSide(cfg: Config, t: Transaction) {
    InCluster(cfg, t.sender) != InCluster(cfg, t.receiver)
  }

  function CrossEntries(cfg: Config, batch: seq<TransferReq>, b: Ballot): seq<LogEntry> {
    if batch == [] then []
    else
      var r := batch[|batch| - 1];
      CrossEntries(cfg, batch[..|batch| - 1], b) + if OneSide(cfg, r.txn) then [EntryOf(r, b, Cross, Prepared)] else []
  }

  function IntraEntries(cfg: Config, batch: seq<TransferReq>, b: Ballot): seq<LogEntry> {
    if batch == [] then []
    else
      var r := batch[|batch| - 1];
      IntraEntries(cfg, batch[..|batch| - 1], b) + if BothInside(cfg, r.txn) then [EntryOf(r, b, Intra, Committed)] else []
  }

  // ---------------------------------------------------------------- a leader's messages

  predicate IsRoundMsg(m: Message) {
    m.PrepareMsg? || m.AcceptMsg? || m.CommitMsg?
  }

  /** The round messages among everything a server sent, in order. */
  function Rounds(out: seq<Message>): seq<Message> {
    if out == [] then []
    else Rounds(out[..|out| - 1]) + if IsRoundMsg(out[|out| - 1]) then [out[|out| - 1]] else []
  }

  function LastBatch(ms: seq<Message>): seq<TransferReq> {
    if ms != [] && ms[|ms| - 1].AcceptMsg? then ms[|ms| - 1].batch else []
  }

  /** The agreed order that a list of round messages stands for. */
  function Agreed(cfg: Config, ms: seq<Message>): seq<LogEntry> {
    if ms == [] then []
    else
      var front, m := ms[..|ms| - 1], ms[|ms| - 1];
      Agreed(cfg, front) +
      match m
      case AcceptMsg(b, batch) => CrossEntries(cfg, batch, b)
      case CommitMsg(b) => IntraEntries(cfg, LastBatch(front), b)
      case _ => []
  }

  function TidsOf(batch: seq<TransferReq>): set<Tid> {
    set r | r in batch :: r.tid
  }

  function AllTids(ms: seq<Message>): set<Tid> {
    if ms == [] then {}
    else AllTids(ms[..|ms| - 1]) + if ms[|ms| - 1].AcceptMsg? then TidsOf(ms[|ms| - 1].batch) else {}
  }

  function CrossTids(cfg: Config, batch: seq<TransferReq>): set<Tid> {
    set r | r in batch && OneSide(cfg, r.txn) :: r.tid
  }

  function IntraTids(cfg: Config, batch: seq<TransferReq>): set<Tid> {
    set r | r in batch && BothInside(cfg, r.txn) :: r.tid
  }

  /** The transactions that these messages may have led a server to prepare or commit. */
  function Spent(cfg: Config, ms: seq<Message>): set<Tid> {
    if ms == [] then {}
    else
      var front, m := ms[..|ms| - 1], ms[|ms| - 1];
      Spent(cfg, front) +
      match m
      case AcceptMsg(_, batch) => CrossTids(cfg, batch)
      case CommitMsg(_) => IntraTids(cfg, LastBatch(front))
      case _ => {}
  }

  /** The cross-shard transactions that these messages propose. */
  function Crossed(cfg: Config, ms: seq<Message>): set<Tid> {
    if ms == [] then {}
    else Crossed(cfg, ms[..|ms| - 1]) + if ms[|ms| - 1].AcceptMsg? then CrossTids(cfg, ms[|ms| - 1].batch) else {}
  }

  function TidsIn(order: seq<LogEntry>): set<Tid> {
    set e | e in order :: e.tid
  }

  predicate DistinctReqs(batch: seq<TransferReq>) {
    forall i, j :: 0 <= i < j < |batch| ==> batch[i].tid != batch[j].tid
  }

  predicate NumsBelow(ms: seq<Message>, n: int) {
    forall m :: m in ms ==> IsRoundMsg(m) && m.ballot.num < n
  }

  /** Prepares with increasing numbers and the current length of the order, each followed by at most one accept and one commit. */
  predicate WellFormed(cfg: Config, ms: seq<Message>) {
    ms == [] ||
    var front, m := ms[..|ms| - 1], ms[|ms| - 1];
    WellFormed(cfg, front) &&
    match m
    case PrepareMsg(b, index) => b.num > 0 && NumsBelow(front, b.num) && index + 1 == |Agreed(cfg, front)|
    case AcceptMsg(b, batch) =>
      && front != [] && front[|front| - 1].PrepareMsg? && front[|front| - 1].ballot == b
      && DistinctReqs(batch) && TidsOf(batch) !! AllTids(front)
    case CommitMsg(b) => front != [] && front[|front| - 1].AcceptMsg? && front[|front| - 1].ballot == b
    case _ => false
  }

  lemma {:induction false} SpentIsKnown(cfg: Config, ms: seq<Message>)
    requires WellFormed(cfg, ms)
    ensures Spent(cfg, ms) <= AllTids(ms)
  {
    if ms != [] {
      var front := ms[..|ms| - 1];
      SpentIsKnown(cfg, front);
      if ms[|ms| - 1].CommitMsg? {
        assert TidsOf(LastBatch(front)) <= AllTids(front);
      }
    }
  }

  /** The intra-shard requests of a batch that is not yet committed are new to everyone. */
  lemma IntraUnspent(cfg: Config, ms: seq<Message>, r: TransferReq)
    requires WellFormed(cfg, ms) && r in LastBatch(ms) && BothInside(cfg, r.txn)
    ensures r.tid !in Spent(cfg, ms)
  {
    var front, batch := ms[..|ms| - 1], LastBatch(ms);
    SpentIsKnown(cfg, front);
    assert r.tid in TidsOf(batch);
    var j :| 0 <= j < |batch| && batch[j] == r;
    forall i | 0 <= i < |batch| && i != j ensures batch[i].tid != r.tid {
      assert batch[j].tid == r.tid;
    }
  }

  /** The entries of a batch are of its requests. */
  lemma {:induction false} EntryOfBatch(cfg: Config, batch: seq<TransferReq>, b: Ballot, e: LogEntry)
    ensures e in CrossEntries(cfg, batch, b) <==> exists r :: r in batch && OneSide(cfg, r.txn) && e == EntryOf(r, b, Cross, Prepared)
    ensures e in IntraEntries(cfg, batch, b) <==> exists r :: r in batch && BothInside(cfg, r.txn) && e == EntryOf(r, b, Intra, Committed)
  {
    if batch != [] {
      var front, r := batch[..|batch| - 1], batch[|batch| - 1];
      EntryOfBatch(cfg, front, b, e);
      assert batch == front + [r] && forall x :: x in batch <==> x in front || x == r;
    }
  }

  lemma EntryTids(cfg: Config, batch: seq<TransferReq>, b: Ballot)
    ensures TidsIn(CrossEntries(cfg, batch, b)) <= CrossTids(cfg, batch)
    ensures TidsIn(IntraEntries(cfg, batch, b)) <= IntraTids(cfg, batch)
  {
    forall e | e in CrossEntries(cfg, batch, b) ensures e.tid in CrossTids(cfg, batch) {
      EntryOfBatch(cfg, batch, b, e);
    }
    forall e | e in IntraEntries(cfg, batch, b) ensures e.tid in IntraTids(cfg, batch) {
      EntryOfBatch(cfg, batch, b, e);
    }
  }

  /** What is agreed or proposed across shards has been used. */
  lemma {:induction false} SpentCovers(cfg: Config, ms: seq<Message>)
    ensures TidsIn(Agreed(cfg, ms)) + Crossed(cfg, ms) <= Spent(cfg, ms)
  {
    if ms != [] {
      var front, m := ms[..|ms| - 1], ms[|ms| - 1];
      SpentCovers(cfg, front);
      if m.AcceptMsg? {
        EntryTids(cfg, m.batch, m.ballot);
      } else if m.CommitMsg? {
        EntryTids(cfg, LastBatch(front), m.ballot);
      }
    }
  }

  lemma RoundsAppend(out: seq<Message>, m: Message)
    ensures Rounds(out + [m]) == if IsRoundMsg(m) then Rounds(out) + [m] else Rounds(out)
  {
    assert (out + [m])[..|out|] == out;
  }

  lemma PaxosAppend(log: seq<LogEntry>, e: LogEntry)
    ensures Paxos(log + [e]) == Paxos(log) + if IsPaxosEntry(e) then [e] else []
  {
    assert (log + [e])[..|log|] == log;
  }

  lemma MsgAppend(cfg: Config, ms: seq<Message>, m: Message)
    ensures (ms + [m])[..|ms|] == ms && (ms + [m])[|ms|] == m
    ensures Agreed(cfg, ms) <= Agreed(cfg, ms + [m])
    ensures Crossed(cfg, ms) <= Crossed(cfg, ms + [m])
  {
    assert (ms + [m])[..|ms|] == ms;
  }

  // ---------------------------------------------------------------- the stored state

  /** Intra-shard commits, and cross-shard prepares and outcomes of proposed transactions. */
  ghost predicate KindsOk(log: seq<LogEntry>, crossed: set<Tid>) {
    forall e :: e in log ==> Readable(e) && (e.kind.Cross? ==> e.tid in crossed)
  }

  /** Tracks the order reached, the transactions applied, and the open prepares, all of them proposed. */
  ghost predicate Tracks(st: Store, order: seq<LogEntry>, crossed: set<Tid>) {
    && Paxos(st.log) == order && st.paxosIndex + 1 == |order| && KindsOk(st.log, crossed)
    && st.applied <= TidsIn(order) + crossed && (forall e :: e in order && e.kind.Intra? ==> e.tid in st.applied)
    && forall t :: t in st.open ==> t in crossed && st.open[t].tid == t && st.open[t].kind.Cross?
  }

  lemma TracksMore(st: Store, order: seq<LogEntry>, crossed: set<Tid>, crossed': set<Tid>)
    requires Tracks(st, order, crossed) && crossed <= crossed'
    ensures Tracks(st, order, crossed')
  {
  }

  lemma TidsInSnoc(order: seq<LogEntry>, e: LogEntry)
    ensures TidsIn(order + [e]) == TidsIn(order) + {e.tid}
  {
    assert forall x :: x in order + [e] <==> x in order || x == e;
  }

  lemma LogPrepareTracks(st: Store, order: seq<LogEntry>, crossed: set<Tid>, r: TransferReq, b: Ballot, now: int)
    requires Tracks(st, order, crossed)
    ensures Tracks(LogPrepare(st, r, b, now), order + [EntryOf(r, b, Cross, Prepared)], crossed + {r.tid})
  {
    PaxosAppend(st.log, EntryOf(r, b, Cross, Prepared));
    TidsInSnoc(order, EntryOf(r, b, Cross, Prepared));
  }

  lemma LogCommitTracks(st: Store, order: seq<LogEntry>, crossed: set<Tid>, r: TransferReq, b: Ballot)
    requires Tracks(st, order, crossed) && r.tid !in TidsIn(order) + crossed
    ensures Tracks(LogCommit(st, r, b), order + [EntryOf(r, b, Intra, Committed)], crossed)
  {
    PaxosAppend(st.log, EntryOf(r, b, Intra, Committed));
    TidsInSnoc(order, EntryOf(r, b, Intra, Committed));
  }

  /** A decision or a timeout adds no agreed entry. */
  lemma DecideTracks(cfg: Config, st: Store, order: seq<LogEntry>, crossed: set<Tid>, tid: Tid, commit: bool)
    requires Tracks(st, order, crossed)
    ensures Tracks(Decide(cfg, st, tid, commit), order, crossed)
  {
    if tid in st.open {
      PaxosAppend(st.log, st.open[tid].(status := if commit then Committed else Aborted));
    }
  }

  lemma TidsSnoc(cfg: Config, front: seq<TransferReq>, r: TransferReq)
    ensures TidsOf(front + [r]) == TidsOf(front) + {r.tid}
    ensures CrossTids(cfg, front + [r]) == CrossTids(cfg, front) + if OneSide(cfg, r.txn) then {r.tid} else {}
  {
    assert forall x :: x in front + [r] <==> x in front || x == r;
  }

  lemma AcceptTracksOne(cfg: Config, st: Store, order: seq<LogEntry>, crossed: set<Tid>, front: seq<TransferReq>, r: TransferReq, b: Ballot, now: int)
    requires Tracks(st, order + CrossEntries(cfg, front, b), crossed + CrossTids(cfg, front))
    ensures Tracks(AcceptOne(cfg, st, r, b, now), order + CrossEntries(cfg, front + [r], b), crossed + CrossTids(cfg, front + [r]))
  {
    TidsSnoc(cfg, front, r);
    EntriesSnoc(cfg, front, r, b);
    var order1, crossed1 := order + CrossEntries(cfg, front, b), crossed + CrossTids(cfg, front);
    if OneSide(cfg, r.txn) {
      LogPrepareTracks(st.(locks := st.locks + InsideAccounts(cfg, r.txn)), order1, crossed1, r, b, now);
      assert order + CrossEntries(cfg, front + [r], b) == order1 + [EntryOf(r, b, Cross, Prepared)];
      assert crossed + CrossTids(cfg, front + [r]) == crossed1 + {r.tid};
    } else {
      assert order + CrossEntries(cfg, front + [r], b) == order1;
      assert crossed + CrossTids(cfg, front + [r]) == crossed1;
    }
  }

  lemma {:induction false} AcceptTracks(cfg: Config, st: Store, order: seq<LogEntry>, crossed: set<Tid>, batch: seq<TransferReq>, b: Ballot, now: int)
    requires Tracks(st, order, crossed)
    ensures Tracks(AcceptAll(cfg, st, batch, b, now), order + CrossEntries(cfg, batch, b), crossed + CrossTids(cfg, batch))
  {
    if batch == [] {
      assert order + [] == order && crossed + CrossTids(cfg, batch) == crossed;
    } else {
      var front, r := batch[..|batch| - 1], batch[|batch| - 1];
      AcceptTracks(cfg, st, order, crossed, front, b, now);
      assert batch == front + [r];
      AcceptTracksOne(cfg, AcceptAll(cfg, st, front, b, now), order, crossed, front, r, b, now);
    }
  }

  /** No request to be committed has been used before. */
  predicate Unspent(cfg: Config, batch: seq<TransferReq>, spent: set<Tid>) {
    DistinctReqs(batch) && forall r :: r in batch && BothInside(cfg, r.txn) ==> r.tid !in spent
  }

  /** One more commit of a batch whose first requests are committed. */
  lemma IntraTracksOne(cfg: Config, st: Store, order: seq<LogEntry>, crossed: set<Tid>, front: seq<TransferReq>, r: TransferReq, b: Ballot)
    requires Tracks(st, order + IntraEntries(cfg, front, b), crossed) && TidsIn(order + IntraEntries(cfg, front, b)) == TidsIn(order) + IntraTids(cfg, front)
    requires DistinctReqs(front + [r]) && BothInside(cfg, r.txn) && r.tid !in TidsIn(order) + crossed
    ensures Tracks(LogCommit(st, r, b), order + IntraEntries(cfg, front + [r], b), crossed)
    ensures TidsIn(order + IntraEntries(cfg, front + [r], b)) == TidsIn(order) + IntraTids(cfg, front + [r])
  {
    var order1, e := order + IntraEntries(cfg, front, b), EntryOf(r, b, Intra, Committed);
    IntraSnoc(cfg, front, r);
    LogCommitTracks(st, order1, crossed, r, b);
    TidsInSnoc(order1, e);
    assert (front + [r])[..|front|] == front;
    assert order + IntraEntries(cfg, front + [r], b) == order1 + [e];
  }

  lemma IntraTracksNone(cfg: Config, order: seq<LogEntry>, front: seq<TransferReq>, r: TransferReq, b: Ballot)
    requires DistinctReqs(front + [r]) && !BothInside(cfg, r.txn)
    ensures order + IntraEntries(cfg, front + [r], b) == order + IntraEntries(cfg, front, b) && IntraTids(cfg, front + [r]) == IntraTids(cfg, front)
  {
    IntraSnoc(cfg, front, r);
    assert (front + [r])[..|front|] == front;
  }

  lemma {:induction false} CommitTracks(cfg: Config, st: Store, order: seq<LogEntry>, crossed: set<Tid>, batch: seq<TransferReq>, b: Ballot)
    requires Tracks(st, order, crossed) && Unspent(cfg, batch, TidsIn(order) + crossed)
    ensures Tracks(CommitAll(cfg, st, batch, b), order + IntraEntries(cfg, batch, b), crossed)
    ensures TidsIn(order + IntraEntries(cfg, batch, b)) == TidsIn(order) + IntraTids(cfg, batch)
  {
    if batch == [] {
      assert order + [] == order;
    } else {
      var front, r := batch[..|batch| - 1], batch[|batch| - 1];
      assert batch == front + [r] && r in batch;
      CommitTracks(cfg, st, order, crossed, front, b);
      var st1 := CommitAll(cfg, st, front, b);
      var st2 := st1.(locks := st1.locks - InsideAccounts(cfg, r.txn));
      assert Tracks(st2, order + IntraEntries(cfg, front, b), crossed);
      if BothInside(cfg, r.txn) {
        IntraTracksOne(cfg, st2, order, crossed, front, r, b);
      } else {
        IntraTracksNone(cfg, order, front, r, b);
      }
    }
  }

  /** A batch that is committed already changes nothing of this. */
  lemma {:induction false} CommitRepeats(cfg: Config, st: Store, order: seq<LogEntry>, crossed: set<Tid>, batch: seq<TransferReq>, b: Ballot)
    requires Tracks(st, order, crossed) && forall r :: r in batch && BothInside(cfg, r.txn) ==> r.tid in st.applied
    ensures Tracks(CommitAll(cfg, st, batch, b), order, crossed) && CommitAll(cfg, st, batch, b).applied == st.applied
  {
    if batch != [] {
      var front, r := batch[..|batch| - 1], batch[|batch| - 1];
      assert r in batch && forall x :: x in front ==> x in batch;
      CommitRepeats(cfg, st, order, crossed, front, b);
    }
  }

  lemma IntraSnoc(cfg: Config, front: seq<TransferReq>, r: TransferReq)
    requires DistinctReqs(front + [r])
    ensures IntraTids(cfg, front + [r]) == IntraTids(cfg, front) + (if BothInside(cfg, r.txn) then {r.tid} else {})
    ensures r.tid !in IntraTids(cfg, front)
  {
    assert forall x :: x in front + [r] <==> x in front || x == r;
    forall x | x in front ensures x.tid != r.tid {
      var i :| 0 <= i < |front| && front[i] == x;
      assert (front + [r])[i] == x && (front + [r])[|front|] == r;
    }
  }

  // ---------------------------------------------------------------- parts of the order

  lemma {:induction false} PrefixOrder(cfg: Config, ms: seq<Message>, k: nat)
    requires k <= |ms|
    ensures Agreed(cfg, ms[..k]) <= Agreed(cfg, ms) && Crossed(cfg, ms[..k]) <= Crossed(cfg, ms)
    ensures WellFormed(cfg, ms) ==> WellFormed(cfg, ms[..k])
  {
    if k < |ms| {
      var front := ms[..|ms| - 1];
      PrefixOrder(cfg, front, k);
      assert front[..k] == ms[..k];
    } else {
      assert ms[..k] == ms;
    }
  }

  /** The messages up to one, and what it adds. */
  lemma PrefixNext(cfg: Config, ms: seq<Message>, k: nat)
    requires k < |ms| && WellFormed(cfg, ms)
    ensures var front, m := ms[..k], ms[k];
            && ms[..k + 1] == front + [m] && (front + [m])[..k] == front && WellFormed(cfg, front) && WellFormed(cfg, front + [m])
            && Agreed(cfg, front) <= Agreed(cfg, front + [m]) <= Agreed(cfg, ms) && Crossed(cfg, front + [m]) <= Crossed(cfg, ms)
  {
    assert ms[..k + 1] == ms[..k] + [ms[k]];
    PrefixOrder(cfg, ms, k);
    PrefixOrder(cfg, ms, k + 1);
    MsgAppend(cfg, ms[..k], ms[k]);
  }

  lemma PrefixesOrdered(cfg: Config, ms: seq<Message>, j: nat, k: nat)
    requires j <= k <= |ms|
    ensures Agreed(cfg, ms[..j]) <= Agreed(cfg, ms[..k])
  {
    PrefixOrder(cfg, ms[..k], j);
    assert ms[..k][..j] == ms[..j];
  }

  /** A request proposed inside a shard is never proposed across shards. */
  lemma {:induction false} IntraNotCrossed(cfg: Config, ms: seq<Message>, k: nat, r: TransferReq)
    requires k <= |ms| && WellFormed(cfg, ms) && r in LastBatch(ms[..k]) && BothInside(cfg, r.txn)
    ensures r.tid !in Crossed(cfg, ms) && r.tid in AllTids(ms)
  {
    if k == |ms| {
      assert ms[..k] == ms;
      SpentCovers(cfg, ms);
      IntraUnspent(cfg, ms, r);
      assert r.tid in TidsOf(LastBatch(ms));
    } else {
      var front, m := ms[..|ms| - 1], ms[|ms| - 1];
      assert front[..k] == ms[..k];
      IntraNotCrossed(cfg, front, k, r);
      if m.AcceptMsg? {
        assert CrossTids(cfg, m.batch) <= TidsOf(m.batch);
      }
    }
  }

  /** Before its commit no request of a batch is in the order, nor has it been proposed across shards. */
  lemma BatchStillUnspent(cfg: Config, ms: seq<Message>, k: nat)
    requires 0 < k <= |ms| && WellFormed(cfg, ms) && ms[k - 1].AcceptMsg?
    ensures Unspent(cfg, LastBatch(ms[..k]), TidsIn(Agreed(cfg, ms[..k])) + Crossed(cfg, ms))
  {
    PrefixOrder(cfg, ms, k);
    BatchUnspent(cfg, ms[..k]);
    forall r | r in LastBatch(ms[..k]) && BothInside(cfg, r.txn) ensures r.tid !in TidsIn(Agreed(cfg, ms[..k])) + Crossed(cfg, ms) {
      IntraNotCrossed(cfg, ms, k, r);
    }
  }

  // ---------------------------------------------------------------- a replica

  /** A number that occurs among the messages handled, or none at all. */
  ghost predicate NumSeen(ms: seq<Message>, n: int) {
    n == 0 || exists m :: m in ms && IsRoundMsg(m) && m.ballot.num == n
  }

  ghost predicate AcceptSeen(ms: seq<Message>, n: int) {
    n == 0 || exists m :: m in ms && m.AcceptMsg? && m.ballot.num == n
  }

  /** The replica stands exactly where the first k messages lead. */
  ghost predicate UpToDate(s: Server, ms: seq<Message>, k: nat)
    requires k <= |ms|
  {
    Paxos(s.store.log) == Agreed(s.cfg, ms[..k])
  }

  /** The replica stands where the first k messages lead, or some more of them. */
  ghost predicate Reached(s: Server, ms: seq<Message>, k: nat) {
    exists j :: k <= j <= |ms| && UpToDate(s, ms, j)
  }

  /** Only the leader proposes: the replica has no round of its own. */
  predicate Passive(s: Server) {
    s.round.pending == [] && s.round.current == [] && !s.round.running && !s.round.awaitPrepare && !s.round.awaitAccept
  }

  /**
    A replica of a leader that has sent the messages ms, and that has been handed the first k,
    some of them while disconnected: it holds a prefix of their order, by messages or by syncs,
    and exactly the right part of it whenever it is about to go on.
  */
  ghost predicate Follows(s: Server, ms: seq<Message>, k: nat) {
    Holding(s, ms) && Numbered(s, ms, k) && (k > 0 ==> AtLast(s, ms, k))
  }

  ghost predicate Holding(s: Server, ms: seq<Message>) {
    && Passive(s) && WellFormed(s.cfg, ms) && Paxos(s.store.log) <= Agreed(s.cfg, ms)
    && Tracks(s.store, Paxos(s.store.log), Crossed(s.cfg, ms))
  }

  ghost predicate Numbered(s: Server, ms: seq<Message>, k: nat) {
    k <= |ms| && NumSeen(ms[..k], s.acc.promisedNum.num) && AcceptSeen(ms[..k], s.acc.acceptNum.num)
  }

  ghost predicate AtLast(s: Server, ms: seq<Message>, k: nat)
    requires 0 < k <= |ms|
  {
    match ms[k - 1]
    case PrepareMsg(b, _) => s.acc.promisedNum.num == b.num ==> UpToDate(s, ms, k)
    case AcceptMsg(b, batch) =>
      s.acc.acceptNum.num == b.num ==> s.acc.acceptNum == b && s.acc.acceptBatch == batch && s.acc.accepted && Reached(s, ms, k)
    case CommitMsg(b) => s.acc.acceptNum.num == b.num && !s.acc.accepted ==> Agreed(s.cfg, ms[..k]) <= Paxos(s.store.log)
    case _ => true
  }

  /** The next round message of the leader. */
  function Handle(s: Server, m: Message, now: int): Server {
    match m
    case PrepareMsg(b, index) => PrepareCall(s, b, index)
    case AcceptMsg(b, batch) => AcceptCall(s, b, batch, now)
    case CommitMsg(b) => CommitCall(s, b)
    case _ => s
  }

  lemma SeenMore(ms: seq<Message>, k: nat, n: int)
    requires k < |ms|
    ensures NumSeen(ms[..k], n) ==> NumSeen(ms[..k + 1], n)
    ensures AcceptSeen(ms[..k], n) ==> AcceptSeen(ms[..k + 1], n)
    ensures IsRoundMsg(ms[k]) ==> NumSeen(ms[..k + 1], ms[k].ballot.num)
    ensures ms[k].AcceptMsg? ==> AcceptSeen(ms[..k + 1], ms[k].ballot.num)
  {
    assert ms[..k + 1] == ms[..k] + [ms[k]];
    assert ms[k] in ms[..k + 1];
    assert forall m :: m in ms[..k] ==> m in ms[..k + 1];
  }

  lemma HandlePrepare(s: Server, ms: seq<Message>, k: nat, b: Ballot, index: int)
    requires Follows(s, ms, k) && k < |ms| && ms[k] == PrepareMsg(b, index)
    ensures Follows(PrepareCall(s, b, index), ms, k + 1)
  {
    var s' := PrepareCall(s, b, index);
    SeenMore(ms, k, s.acc.promisedNum.num);
    SeenMore(ms, k, s.acc.acceptNum.num);
    PrepareIsNext(s, ms, k, b, index);
    assert s'.store == s.store && Holding(s', ms) && Numbered(s', ms, k + 1);
    assert s'.acc.promisedNum.num == b.num ==> index == s.store.paxosIndex;
  }

  /** A prepare has a new number, and the position that all messages before it lead to. */
  lemma PrepareIsNext(s: Server, ms: seq<Message>, k: nat, b: Ballot, index: int)
    requires Follows(s, ms, k) && k < |ms| && ms[k] == PrepareMsg(b, index)
    ensures s.acc.promisedNum.num != b.num
    ensures index == s.store.paxosIndex ==> UpToDate(s, ms, k + 1)
  {
    PrefixNext(s.cfg, ms, k);
    assert NumsBelow(ms[..k], b.num) && index + 1 == |Agreed(s.cfg, ms[..k])| && b.num > 0;
    assert Agreed(s.cfg, ms[..k + 1]) == Agreed(s.cfg, ms[..k]) + [];
    if index == s.store.paxosIndex {
      assert Paxos(s.store.log) == Agreed(s.cfg, ms)[..index + 1] == Agreed(s.cfg, ms[..k]);
    }
  }

  lemma HandleAccept(s: Server, ms: seq<Message>, k: nat, b: Ballot, batch: seq<TransferReq>, now: int)
    requires Follows(s, ms, k) && k < |ms| && ms[k] == AcceptMsg(b, batch)
    ensures Follows(AcceptCall(s, b, batch, now), ms, k + 1)
  {
    PrefixNext(s.cfg, ms, k);
    assert k > 0 && ms[..k][k - 1] == ms[k - 1] && ms[k - 1].PrepareMsg? && ms[k - 1].ballot == b;
    if !s.disconnected && s.acc.promised && b.num == s.acc.promisedNum.num {
      AcceptHolds(s, ms, k, b, batch, now);
    } else {
      AcceptRefused(s, ms, k, b, AcceptCall(s, b, batch, now));
    }
  }

  lemma AcceptRefused(s: Server, ms: seq<Message>, k: nat, b: Ballot, s': Server)
    requires Follows(s, ms, k) && 0 < k < |ms| && ms[k].AcceptMsg? && ms[k].ballot == b && ms[k - 1].PrepareMsg? && ms[k - 1].ballot == b
    requires s'.cfg == s.cfg && s'.acc == s.acc && s'.store == s.store && s'.round == s.round
    ensures Follows(s', ms, k + 1)
  {
    PrefixOrder(s.cfg, ms, k);
    assert ms[..k][k - 1] == ms[k - 1];
    AcceptIsNew(s.cfg, ms[..k], b);
    SeenMore(ms, k, s.acc.promisedNum.num);
    SeenMore(ms, k, s.acc.acceptNum.num);
  }

  lemma AcceptHolds(s: Server, ms: seq<Message>, k: nat, b: Ballot, batch: seq<TransferReq>, now: int)
    requires Follows(s, ms, k) && k < |ms| && ms[k] == AcceptMsg(b, batch) && UpToDate(s, ms, k)
    requires !s.disconnected && s.acc.promised && b.num == s.acc.promisedNum.num
    ensures Follows(AcceptCall(s, b, batch, now), ms, k + 1) && UpToDate(AcceptCall(s, b, batch, now), ms, k + 1)
  {
    SeenMore(ms, k, s.acc.promisedNum.num);
    SeenMore(ms, k, s.acc.acceptNum.num);
    var order, crossed := Paxos(s.store.log), Crossed(s.cfg, ms);
    PrefixNext(s.cfg, ms, k);
    AcceptTracks(s.cfg, s.store, order, crossed, batch, b, now);
    assert Agreed(s.cfg, ms[..k + 1]) == order + CrossEntries(s.cfg, batch, b);
    assert crossed + CrossTids(s.cfg, batch) == crossed;
    assert UpToDate(AcceptCall(s, b, batch, now), ms, k + 1);
  }

  /** The ballot just prepared has no accept yet. */
  lemma AcceptIsNew(cfg: Config, ms: seq<Message>, b: Ballot)
    requires WellFormed(cfg, ms) && ms != [] && ms[|ms| - 1].PrepareMsg? && ms[|ms| - 1].ballot == b
    ensures b.num > 0 && forall m :: m in ms && m.AcceptMsg? ==> m.ballot.num != b.num
  {
    var front := ms[..|ms| - 1];
    assert NumsBelow(front, b.num);
    assert forall m :: m in ms ==> m in front || m == ms[|ms| - 1];
  }

  /** A replica that a sync has taken past the commit has applied its batch. */
  lemma AheadIsApplied(s: Server, ms: seq<Message>, k: nat, j: nat, b: Ballot, batch: seq<TransferReq>)
    requires Follows(s, ms, k) && 0 < k < j <= |ms| && ms[k] == CommitMsg(b) && ms[k - 1] == AcceptMsg(b, batch) && UpToDate(s, ms, j)
    ensures forall r :: r in batch && BothInside(s.cfg, r.txn) ==> r.tid in s.store.applied
    ensures Agreed(s.cfg, ms[..k + 1]) <= Paxos(s.store.log)
  {
    PrefixNext(s.cfg, ms, k);
    PrefixesOrdered(s.cfg, ms, k + 1, j);
    assert LastBatch(ms[..k]) == batch;
    forall r | r in batch && BothInside(s.cfg, r.txn) ensures r.tid in s.store.applied {
      var e := EntryOf(r, b, Intra, Committed);
      EntryOfBatch(s.cfg, batch, b, e);
      assert e in Agreed(s.cfg, ms[..k + 1]);
      InPrefix(Agreed(s.cfg, ms[..k + 1]), Paxos(s.store.log), e);
    }
  }

  lemma InPrefix<T>(a: seq<T>, b: seq<T>, x: T)
    requires a <= b && x in a
    ensures x in b
  {
    var i :| 0 <= i < |a| && a[i] == x;
    assert b[i] == x;
  }

  lemma HandleCommit(s: Server, ms: seq<Message>, k: nat, b: Ballot)
    requires Follows(s, ms, k) && k < |ms| && ms[k] == CommitMsg(b)
    ensures Follows(CommitCall(s, b), ms, k + 1)
  {
    PrefixNext(s.cfg, ms, k);
    SeenMore(ms, k, s.acc.promisedNum.num);
    SeenMore(ms, k, s.acc.acceptNum.num);
    assert k > 0 && ms[..k][k - 1] == ms[k - 1] && ms[k - 1].AcceptMsg? && ms[k - 1].ballot == b;
    if !s.disconnected && s.acc.promisedNum.num == b.num && s.acc.acceptNum.num == b.num {
      CommitFollows(s, ms, k, b, ms[k - 1].batch);
    }
  }

  lemma CommitFollows(s: Server, ms: seq<Message>, k: nat, b: Ballot, batch: seq<TransferReq>)
    requires Follows(s, ms, k) && 0 < k < |ms| && ms[k] == CommitMsg(b) && ms[k - 1] == AcceptMsg(b, batch)
    requires !s.disconnected && s.acc.promisedNum.num == b.num && s.acc.acceptNum.num == b.num
    ensures Follows(CommitCall(s, b), ms, k + 1)
  {
    var s', order, crossed := CommitCall(s, b), Paxos(s.store.log), Crossed(s.cfg, ms);
    PrefixNext(s.cfg, ms, k);
    SeenMore(ms, k, s.acc.promisedNum.num);
    SeenMore(ms, k, s.acc.acceptNum.num);
    var j :| k <= j <= |ms| && UpToDate(s, ms, j);
    if j == k {
      BatchStillUnspent(s.cfg, ms, k);
      CommitTracks(s.cfg, s.store, order, crossed, batch, b);
      assert LastBatch(ms[..k]) == batch;
      assert Paxos(s'.store.log) == Agreed(s.cfg, ms[..k + 1]);
    } else {
      AheadIsApplied(s, ms, k, j, b, batch);
      CommitRepeats(s.cfg, s.store, order, crossed, batch, b);
    }
  }

  lemma HandleFollows(s: Server, ms: seq<Message>, k: nat, now: int)
    requires Follows(s, ms, k) && k < |ms|
    ensures Follows(Handle(s, ms[k], now), ms, k + 1)
  {
    PrefixNext(s.cfg, ms, k);
    match ms[k]
    case PrepareMsg(b, index) => HandlePrepare(s, ms, k, b, index);
    case AcceptMsg(b, batch) => HandleAccept(s, ms, k, b, batch, now);
    case CommitMsg(b) => HandleCommit(s, ms, k, b);
  }

  /** The leader's further messages change nothing for the replica. */
  lemma FollowsMore(s: Server, ms: seq<Message>, ms': seq<Message>, k: nat)
    requires Follows(s, ms, k) && ms <= ms' && WellFormed(s.cfg, ms')
    ensures Follows(s, ms', k)
  {
    PrefixOrder(s.cfg, ms', |ms|);
    assert ms'[..|ms|] == ms && ms'[..k] == ms[..k];
    TracksMore(s.store, Paxos(s.store.log), Crossed(s.cfg, ms), Crossed(s.cfg, ms'));
    if k > 0 && Reached(s, ms, k) {
      var j :| k <= j <= |ms| && UpToDate(s, ms, j);
      assert ms'[..j] == ms[..j];
      assert UpToDate(s, ms', j);
    }
  }

  /** What may happen at a replica between two messages of the leader, besides syncs that bring something. */
  predicate Between(ev: Event) {
    || ev.Decided? || ev.Expired? || ev.Disconnect? || ev.OnSync?
    || (ev.SyncAnswer? && !(ev.sout.Replied? && ev.sout.res.ack))
  }

  lemma SameFollows(s: Server, s': Server, ms: seq<Message>, k: nat)
    requires Follows(s, ms, k) && Passive(s') && s'.cfg == s.cfg && s'.acc.(ballotNum := s.acc.ballotNum) == s.acc
    requires Paxos(s'.store.log) == Paxos(s.store.log) && Tracks(s'.store, Paxos(s.store.log), Crossed(s.cfg, ms))
    ensures Follows(s', ms, k)
  {
    if k > 0 && Reached(s, ms, k) {
      var j :| k <= j <= |ms| && UpToDate(s, ms, j);
      assert UpToDate(s', ms, j);
    }
  }

  lemma DecisionFollows(s: Server, ms: seq<Message>, k: nat, tid: Tid, commit: bool)
    requires Follows(s, ms, k)
    ensures var s' := s.(store := Decide(s.cfg, s.store, tid, commit)); Follows(s', ms, k) && Paxos(s'.store.log) == Paxos(s.store.log)
  {
    DecideTracks(s.cfg, s.store, Paxos(s.store.log), Crossed(s.cfg, ms), tid, commit);
    SameFollows(s, s.(store := Decide(s.cfg, s.store, tid, commit)), ms, k);
  }

  lemma BetweenFollows(s: Server, ms: seq<Message>, k: nat, ev: Event)
    requires Follows(s, ms, k) && Between(ev)
    ensures Follows(Step(s, ev), ms, k) && Paxos(Step(s, ev).store.log) == Paxos(s.store.log)
  {
    match ev
    case Decided(tid, commit) => DecisionFollows(s, ms, k, tid, commit);
    case Expired(tid) => DecisionFollows(s, ms, k, tid, false);
    case Disconnect(on) => SameFollows(s, Step(s, ev), ms, k);
    case OnSync(last) => SameFollows(s, Step(s, ev), ms, k);
    case SyncAnswer(o) => SameFollows(s, Step(s, ev), ms, k);
  }

  // ---------------------------------------------------------------- syncs

  lemma {:induction false} PaxosConcat(a: seq<LogEntry>, b: seq<LogEntry>)
    ensures Paxos(a + b) == Paxos(a) + Paxos(b)
  {
    if b == [] {
      assert a + b == a;
    } else {
      var n := |b| - 1;
      PaxosConcat(a, b[..n]);
      assert a + b == (a + b[..n]) + [b[n]] && b == b[..n] + [b[n]];
      PaxosAppend(a + b[..n], b[n]);
    }
  }

  lemma {:induction false} PaxosCounts(log: seq<LogEntry>)
    ensures PaxosCount(log) == |Paxos(log)|
  {
    if log != [] {
      PaxosCounts(log[..|log| - 1]);
    }
  }

  lemma SyncAgreed(cfg: Config, st: Store, order: seq<LogEntry>, crossed: set<Tid>, e: LogEntry)
    requires Tracks(st, order, crossed) && IsPaxosEntry(e) && (e.kind.Cross? ==> e.tid in crossed)
    ensures Tracks(SyncEntry(cfg, st, e), order + [e], crossed)
  {
    PaxosAppend(st.log, e);
    TidsInSnoc(order, e);
  }

  lemma SyncOutcome(cfg: Config, st: Store, order: seq<LogEntry>, crossed: set<Tid>, e: LogEntry)
    requires Tracks(st, order, crossed) && Readable(e) && !IsPaxosEntry(e) && e.tid in crossed
    ensures Tracks(SyncEntry(cfg, st, e), order, crossed)
  {
    PaxosAppend(st.log, e);
  }

  lemma SyncTracksOne(cfg: Config, st: Store, order: seq<LogEntry>, crossed: set<Tid>, e: LogEntry)
    requires Tracks(st, order, crossed) && Readable(e) && (e.kind.Cross? ==> e.tid in crossed)
    ensures Tracks(SyncEntry(cfg, st, e), order + Paxos([e]), crossed)
  {
    assert Paxos([e]) == if IsPaxosEntry(e) then [e] else [];
    if IsPaxosEntry(e) {
      SyncAgreed(cfg, st, order, crossed, e);
    } else {
      SyncOutcome(cfg, st, order, crossed, e);
      assert order + [] == order;
    }
  }

  lemma {:induction false} SyncTracks(cfg: Config, st: Store, order: seq<LogEntry>, crossed: set<Tid>, es: seq<LogEntry>)
    requires Tracks(st, order, crossed) && KindsOk(es, crossed)
    ensures Tracks(SyncEntries(cfg, st, es), order + Paxos(es), crossed)
  {
    if es == [] {
      assert order + [] == order;
    } else {
      var front, e := es[..|es| - 1], es[|es| - 1];
      assert e in es && forall x :: x in front ==> x in es;
      SyncTracks(cfg, st, order, crossed, front);
      SyncTracksOne(cfg, SyncEntries(cfg, st, front), order + Paxos(front), crossed, e);
      assert es == front + [e];
      PaxosConcat(front, [e]);
      assert order + Paxos(front) + Paxos([e]) == order + Paxos(es);
    }
  }

  /** A replica between its promise and the accept of the round. */
  predicate AwaitsAccept(s: Server, ms: seq<Message>, k: nat) {
    0 < k <= |ms| && ms[k - 1].PrepareMsg? && s.acc.promisedNum.num == ms[k - 1].ballot.num
  }

  /** A sync that takes a replica on to where the first j messages lead. */
  lemma SyncFollows(s: Server, ms: seq<Message>, k: nat, res: SyncRes, j: nat)
    requires Follows(s, ms, k) && KindsOk(res.logs, Crossed(s.cfg, ms)) && res.ack
    requires Paxos(res.logs) != [] ==> !AwaitsAccept(s, ms, k) && j <= |ms| && Paxos(s.store.log) + Paxos(res.logs) == Agreed(s.cfg, ms[..j])
    ensures Follows(SyncReply(s, Replied(res)), ms, k)
    ensures Paxos(SyncReply(s, Replied(res)).store.log) == Paxos(s.store.log) + Paxos(res.logs)
  {
    var s', order := SyncReply(s, Replied(res)), Paxos(s.store.log);
    SyncTracks(s.cfg, s.store, order, Crossed(s.cfg, ms), res.logs);
    if Paxos(res.logs) == [] {
      assert order + Paxos(res.logs) == order;
      SameFollows(s, s', ms, k);
    } else {
      PrefixOrder(s.cfg, ms, j);
      assert UpToDate(s', ms, j);
      if j < k {
        PrefixesOrdered(s.cfg, ms, j, k);
      }
      if k > 0 && Reached(s, ms, k) {
        var i :| k <= i <= |ms| && UpToDate(s, ms, i);
        if j <= i {
          PrefixesOrdered(s.cfg, ms, j, i);
        }
        assert Reached(s', ms, k);
      }
    }
  }

  // ---------------------------------------------------------------- no entry twice

  predicate DistinctEntries(order: seq<LogEntry>) {
    forall i, j :: 0 <= i < j < |order| ==> order[i].tid != order[j].tid
  }

  lemma DistinctConcat(a: seq<LogEntry>, b: seq<LogEntry>)
    requires DistinctEntries(a) && DistinctEntries(b) && TidsIn(a) !! TidsIn(b)
    ensures DistinctEntries(a + b)
  {
    forall i, j | 0 <= i < |a| && 0 <= j < |b| ensures a[i].tid != b[j].tid {
      assert a[i].tid in TidsIn(a) && b[j].tid in TidsIn(b);
    }
  }

  lemma {:induction false} BatchDistinct(cfg: Config, batch: seq<TransferReq>, b: Ballot)
    requires DistinctReqs(batch)
    ensures DistinctEntries(CrossEntries(cfg, batch, b)) && DistinctEntries(IntraEntries(cfg, batch, b))
  {
    if batch != [] {
      var front, r := batch[..|batch| - 1], batch[|batch| - 1];
      BatchDistinct(cfg, front, b);
      EntryTids(cfg, front, b);
      forall x | x in front ensures x.tid != r.tid {
        var i :| 0 <= i < |front| && front[i] == x;
      }
      DistinctConcat(CrossEntries(cfg, front, b), if OneSide(cfg, r.txn) then [EntryOf(r, b, Cross, Prepared)] else []);
      DistinctConcat(IntraEntries(cfg, front, b), if BothInside(cfg, r.txn) then [EntryOf(r, b, Intra, Committed)] else []);
    }
  }

  /** No transaction occurs twice in the agreed order. */
  lemma {:induction false} AgreedDistinct(cfg: Config, ms: seq<Message>)
    requires WellFormed(cfg, ms)
    ensures DistinctEntries(Agreed(cfg, ms))
  {
    if ms != [] {
      var front, m := ms[..|ms| - 1], ms[|ms| - 1];
      AgreedDistinct(cfg, front);
      SpentCovers(cfg, front);
      SpentIsKnown(cfg, front);
      match m
      case AcceptMsg(b, batch) =>
        BatchDistinct(cfg, batch, b);
        EntryTids(cfg, batch, b);
        assert CrossTids(cfg, batch) <= TidsOf(batch);
        DistinctConcat(Agreed(cfg, front), CrossEntries(cfg, batch, b));
      case CommitMsg(b) =>
        BatchUnspent(cfg, front);
        BatchDistinct(cfg, LastBatch(front), b);
        EntryTids(cfg, LastBatch(front), b);
        DistinctConcat(Agreed(cfg, front), IntraEntries(cfg, LastBatch(front), b));
      case PrepareMsg(b, index) =>
        assert Agreed(cfg, ms) == Agreed(cfg, front) + [];
    }
  }

  // ---------------------------------------------------------------- the leader

  /** No item is about a transaction that has been proposed. */
  predicate FreshItems(ms: seq<Message>, items: seq<Item>) {
    forall it :: it in items ==> it.req.tid !in AllTids(ms)
  }

  /** What holds of a leader whatever its round is doing. */
  ghost predicate Sequenced(s: Server) {
    var ms := Rounds(s.out);
    && WellFormed(s.cfg, ms) && Tracks(s.store, Agreed(s.cfg, ms), Crossed(s.cfg, ms))
    && s.acc.ballotNum >= 0 && NumsBelow(ms, s.acc.ballotNum + 1) && FreshItems(ms, s.round.pending)
  }

  /** What holds while its round waits. */
  ghost predicate RoundSequenced(s: Server) {
    var ms := Rounds(s.out);
    && (!s.round.awaitAccept ==> FreshItems(ms, s.round.current))
    && (s.round.awaitPrepare ==>
          && ms != [] && ms[|ms| - 1].PrepareMsg? && ms[|ms| - 1].ballot == s.acc.promisedNum
          && s.acc.ballotNum == s.acc.promisedNum.num)
    && (s.round.awaitAccept ==> ms != [] && ms[|ms| - 1] == AcceptMsg(s.acc.acceptNum, Requests(s.round.current)))
  }

  ghost predicate Leads(s: Server) {
    Locks.LeaderOk(s) && Sequenced(s) && RoundSequenced(s)
  }

  lemma {:induction false} SettleTracks(cfg: Config, st: Store, order: seq<LogEntry>, crossed: set<Tid>, items: seq<Item>, b: Ballot)
    requires Tracks(st, order, crossed) && Unspent(cfg, Requests(items), TidsIn(order) + crossed) && Locks.AllRouted(cfg, items)
    ensures Tracks(SettleAll(st, items, b), order + IntraEntries(cfg, Requests(items), b), crossed)
    ensures TidsIn(order + IntraEntries(cfg, Requests(items), b)) == TidsIn(order) + IntraTids(cfg, Requests(items))
  {
    if items == [] {
      assert order + [] == order;
    } else {
      var front, it := items[..|items| - 1], items[|items| - 1];
      var fore, r := Requests(front), it.req;
      assert Requests(items) == fore + [r];
      assert it in items && forall x :: x in front ==> x in items;
      UnspentFront(cfg, fore, r, TidsIn(order) + crossed);
      SettleTracks(cfg, st, order, crossed, front, b);
      var st1 := SettleAll(st, front, b);
      if it.cross {
        IntraTracksNone(cfg, order, fore, r, b);
      } else {
        var st2 := st1.(locks := st1.locks - {r.txn.sender, r.txn.receiver});
        assert Tracks(st2, order + IntraEntries(cfg, fore, b), crossed);
        IntraTracksOne(cfg, st2, order, crossed, fore, r, b);
      }
    }
  }

  lemma UnspentFront(cfg: Config, front: seq<TransferReq>, r: TransferReq, spent: set<Tid>)
    requires Unspent(cfg, front + [r], spent)
    ensures Unspent(cfg, front, spent) && (BothInside(cfg, r.txn) ==> r.tid !in spent)
  {
    assert forall i :: 0 <= i < |front| ==> front[i] == (front + [r])[i];
    assert r in front + [r];
  }

  lemma {:induction false} ValidateTracks(cfg: Config, st: Store, order: seq<LogEntry>, spent: set<Tid>, items: seq<Item>, b: Ballot, now: int)
    requires Tracks(st, order, spent) && Locks.AllRouted(cfg, items)
    ensures var v := Validate(cfg, st, items, b, now);
            Tracks(v.store, order + CrossEntries(cfg, Requests(v.kept), b), spent + CrossTids(cfg, Requests(v.kept)))
  {
    if items == [] {
      assert order + [] == order;
    } else {
      var front, it := items[..|items| - 1], items[|items| - 1];
      assert it in items && forall x :: x in front ==> x in items;
      ValidateTracks(cfg, st, order, spent, front, b, now);
      var v, r := Validate(cfg, st, front, b, now), it.req;
      if !Blocked(cfg, v.store, r.txn) {
        AdmitTracks(cfg, v.store, order, spent, v.kept, it, b, now);
      }
    }
  }

  lemma EntriesSnoc(cfg: Config, batch: seq<TransferReq>, r: TransferReq, b: Ballot)
    ensures CrossEntries(cfg, batch + [r], b) ==
            CrossEntries(cfg, batch, b) + if OneSide(cfg, r.txn) then [EntryOf(r, b, Cross, Prepared)] else []
  {
    assert (batch + [r])[..|batch|] == batch;
  }

  lemma AdmitTracks(cfg: Config, st: Store, order: seq<LogEntry>, spent: set<Tid>, kept: seq<Item>, it: Item, b: Ballot, now: int)
    requires Tracks(st, order + CrossEntries(cfg, Requests(kept), b), spent + CrossTids(cfg, Requests(kept)))
    requires Locks.Routed(cfg, it.req, it.cross)
    ensures Tracks(Admit(cfg, st, it, b, now), order + CrossEntries(cfg, Requests(kept + [it]), b), spent + CrossTids(cfg, Requests(kept + [it])))
  {
    var r, batch := it.req, Requests(kept);
    assert Requests(kept + [it]) == batch + [r];
    EntriesSnoc(cfg, batch, r, b);
    TidsSnoc(cfg, batch, r);
    if it.cross {
      LogPrepareTracks(st.(locks := st.locks + InsideAccounts(cfg, r.txn)), order + CrossEntries(cfg, batch, b), spent + CrossTids(cfg, batch), r, b, now);
      assert order + CrossEntries(cfg, batch + [r], b) == order + CrossEntries(cfg, batch, b) + [EntryOf(r, b, Cross, Prepared)];
      assert spent + CrossTids(cfg, batch + [r]) == spent + CrossTids(cfg, batch) + {r.tid};
    }
  }

  // ---------------------------------------------------------------- the leader's handlers

  /** A further prepare changes neither the order nor the transactions used. */
  lemma NextPrepare(cfg: Config, ms: seq<Message>, b: Ballot, index: int)
    requires WellFormed(cfg, ms) && b.num > 0 && NumsBelow(ms, b.num) && index + 1 == |Agreed(cfg, ms)|
    ensures var ms' := ms + [PrepareMsg(b, index)];
            && WellFormed(cfg, ms') && NumsBelow(ms', b.num + 1)
            && Agreed(cfg, ms') == Agreed(cfg, ms) && Crossed(cfg, ms') == Crossed(cfg, ms) && AllTids(ms') == AllTids(ms)
  {
    assert (ms + [PrepareMsg(b, index)])[..|ms|] == ms;
  }

  lemma ReissueSequenced(s: Server)
    requires Sequenced(s) && FreshItems(Rounds(s.out), s.round.current)
    ensures Sequenced(ReissuePrepare(s)) && RoundSequenced(ReissuePrepare(s))
  {
    var b := Ballot(s.acc.ballotNum + 1, s.cfg.serverId);
    NextPrepare(s.cfg, Rounds(s.out), b, s.store.paxosIndex);
    RoundsAppend(s.out, PrepareMsg(b, s.store.paxosIndex));
    var ms' := Rounds(s.out) + [PrepareMsg(b, s.store.paxosIndex)];
    assert Rounds(ReissuePrepare(s).out) == ms' && ms'[|ms'| - 1].ballot == b;
  }

  lemma StartSequenced(s: Server)
    requires Sequenced(s) && RoundSequenced(s)
    ensures Sequenced(MaybeStartRound(s)) && RoundSequenced(MaybeStartRound(s))
  {
    if !(s.round.running || s.round.inSync || s.round.pending == []) {
      ReissueSequenced(s.(round := s.round.(current := s.round.pending, pending := [], running := true)));
    }
  }

  lemma FinishSequenced(s: Server)
    requires Sequenced(s)
    ensures Sequenced(FinishRound(s)) && RoundSequenced(FinishRound(s))
  {
    StartSequenced(Ended(s));
  }

  /** The batch proposed is new. */
  lemma KeptIsNew(kept: seq<Item>, current: seq<Item>, ms: seq<Message>)
    requires Locks.DistinctTids(kept) && (forall it :: it in kept ==> it in current) && FreshItems(ms, current)
    ensures DistinctReqs(Requests(kept)) && TidsOf(Requests(kept)) !! AllTids(ms)
  {
    forall r | r in Requests(kept) ensures r.tid !in AllTids(ms) {
      var k :| 0 <= k < |kept| && Requests(kept)[k] == r;
      assert kept[k] in kept;
    }
  }

  /** Queued transactions stay unproposed when others are. */
  lemma QueueStaysFresh(s: Server, kept: seq<Item>, ms: seq<Message>, b: Ballot)
    requires Locks.DistinctTids(s.round.current + s.round.pending) && FreshItems(ms, s.round.pending)
    requires forall it :: it in kept ==> it in s.round.current
    ensures FreshItems(ms + [AcceptMsg(b, Requests(kept))], s.round.pending)
  {
    var m, all := AcceptMsg(b, Requests(kept)), s.round.current + s.round.pending;
    assert (ms + [m])[..|ms|] == ms;
    forall it | it in s.round.pending ensures it.req.tid !in TidsOf(Requests(kept)) {
      var j :| 0 <= j < |s.round.pending| && s.round.pending[j] == it;
      assert all[|s.round.current| + j] == it;
      forall k | 0 <= k < |kept| ensures kept[k].req.tid != it.req.tid {
        assert kept[k] in kept;
        var i :| 0 <= i < |s.round.current| && s.round.current[i] == kept[k];
        assert all[i] == kept[k];
      }
    }
  }

  lemma PrepareQuorumSequenced(s: Server, now: int)
    requires Leads(s) && s.round.awaitPrepare
    ensures Sequenced(OnPrepareQuorum(s, now)) && RoundSequenced(OnPrepareQuorum(s, now))
  {
    var p, ms := s.acc.promisedNum, Rounds(s.out);
    var v := Validate(s.cfg, s.store, s.round.current, p, now);
    Locks.CurrentPart(s);
    Locks.ValidateSifts(s.cfg, s.store, s.round.current, p, now);
    ValidateTracks(s.cfg, s.store, Agreed(s.cfg, ms), Crossed(s.cfg, ms), s.round.current, p, now);
    var s1 := s.(store := v.store, answers := s.answers + v.answers, round := s.round.(awaitPrepare := false, current := v.kept));
    if v.kept == [] {
      assert Agreed(s.cfg, ms) + CrossEntries(s.cfg, Requests(v.kept), p) == Agreed(s.cfg, ms);
      assert Crossed(s.cfg, ms) + CrossTids(s.cfg, Requests(v.kept)) == Crossed(s.cfg, ms);
      FinishSequenced(s1);
    } else {
      KeptIsNew(v.kept, s.round.current, ms);
      QueueStaysFresh(s, v.kept, ms, p);
      ProposalSequenced(s, s1, OnPrepareQuorum(s, now), v.kept);
    }
  }

  lemma ProposalSequenced(s: Server, s1: Server, s': Server, kept: seq<Item>)
    requires s1.cfg == s.cfg && s'.cfg == s.cfg && s'.store == s1.store && s'.acc.ballotNum == s.acc.ballotNum
    requires s'.out == s.out + [AcceptMsg(s.acc.promisedNum, Requests(kept))] && s'.acc.acceptNum == s.acc.promisedNum
    requires s'.round.pending == s.round.pending && s'.round.current == kept && !s'.round.awaitPrepare && s'.round.awaitAccept
    requires Sequenced(s) && RoundSequenced(s) && s.round.awaitPrepare
    requires DistinctReqs(Requests(kept)) && TidsOf(Requests(kept)) !! AllTids(Rounds(s.out))
    requires FreshItems(Rounds(s.out) + [AcceptMsg(s.acc.promisedNum, Requests(kept))], s.round.pending)
    requires Tracks(s1.store, Agreed(s.cfg, Rounds(s.out)) + CrossEntries(s.cfg, Requests(kept), s.acc.promisedNum),
                    Crossed(s.cfg, Rounds(s.out)) + CrossTids(s.cfg, Requests(kept)))
    ensures Sequenced(s') && RoundSequenced(s')
  {
    var ms, m := Rounds(s.out), AcceptMsg(s.acc.promisedNum, Requests(kept));
    RoundsAppend(s.out, m);
    MsgAppend(s.cfg, ms, m);
  }

  lemma BatchUnspent(cfg: Config, ms: seq<Message>)
    requires WellFormed(cfg, ms) && ms != [] && ms[|ms| - 1].AcceptMsg?
    ensures Unspent(cfg, LastBatch(ms), TidsIn(Agreed(cfg, ms)) + Crossed(cfg, ms))
  {
    SpentCovers(cfg, ms);
    forall r | r in LastBatch(ms) && BothInside(cfg, r.txn) ensures r.tid !in TidsIn(Agreed(cfg, ms)) + Crossed(cfg, ms) {
      IntraUnspent(cfg, ms, r);
    }
  }

  /** The commit of the batch just accepted. */
  lemma NextCommit(cfg: Config, ms: seq<Message>, b: Ballot, batch: seq<TransferReq>, n: int)
    requires WellFormed(cfg, ms) && ms != [] && ms[|ms| - 1] == AcceptMsg(b, batch) && NumsBelow(ms, n)
    ensures var ms' := ms + [CommitMsg(b)];
            && WellFormed(cfg, ms') && NumsBelow(ms', n) && AllTids(ms') == AllTids(ms)
            && Agreed(cfg, ms') == Agreed(cfg, ms) + IntraEntries(cfg, batch, b)
            && Crossed(cfg, ms') == Crossed(cfg, ms)
  {
    assert (ms + [CommitMsg(b)])[..|ms|] == ms;
    assert ms[|ms| - 1] in ms;
  }

  lemma AcceptQuorumSequenced(s: Server)
    requires Leads(s) && s.round.awaitAccept
    ensures Sequenced(OnAcceptQuorum(s)) && RoundSequenced(OnAcceptQuorum(s))
  {
    var b, ms, m := s.acc.acceptNum, Rounds(s.out), CommitMsg(s.acc.acceptNum);
    var s1 := s.(store := SettleAll(s.store, s.round.current, b), answers := s.answers + Replies(s.round.current, true),
                 round := s.round.(awaitAccept := false), out := s.out + [m]);
    Locks.CurrentPart(s);
    BatchUnspent(s.cfg, ms);
    SettleTracks(s.cfg, s.store, Agreed(s.cfg, ms), Crossed(s.cfg, ms), s.round.current, b);
    RoundsAppend(s.out, m);
    NextCommit(s.cfg, ms, b, Requests(s.round.current), s.acc.ballotNum + 1);
    FinishSequenced(s1);
  }

  lemma AbortSequenced(s: Server, preparePhase: bool)
    requires Sequenced(s)
    ensures Sequenced(OnRoundAbort(s, preparePhase)) && RoundSequenced(OnRoundAbort(s, preparePhase))
  {
    var locks := if preparePhase then s.store.locks else ReleaseIntra(s.store.locks, s.round.current);
    FinishSequenced(s.(store := s.store.(locks := locks), answers := s.answers + Replies(s.round.current, false)));
  }

  lemma PrepareVerdictSequenced(s: Server, o: Outcome<PrepareRes>, asked: Ballot, now: int)
    requires Leads(s) && s.round.awaitPrepare
    requires o.Replied? && o.res.latestBallotNum.Some? ==> o.res.latestBallotNum.value >= o.res.ballot.num
    ensures var s' := PrepareVerdict(s, o, asked, now); Sequenced(s') && RoundSequenced(s')
  {
    if o.Replied? && PrepareMatches(s, o, asked) && o.res.latestBallotNum.Some? {
      var s1 := s.(acc := s.acc.(ballotNum := o.res.latestBallotNum.value));
      assert NumsBelow(Rounds(s.out), s1.acc.ballotNum + 1);
      ReissueSequenced(s1);
    } else if o.Replied? && PrepareMatches(s, o, asked) && o.res.paxosIndex.Some? && o.res.paxosIndex.value > s.store.paxosIndex {
      RoundsAppend(s.out, SyncMsg(o.res.serverId, s.store.lastInserted));
    } else if s.round.prepareSuccesses >= Majority {
      PrepareQuorumSequenced(s, now);
    } else if s.round.prepareFailures >= Majority {
      AbortSequenced(s, true);
    }
  }

  /**
    The events of the only leader: nobody has what it lacks, so no sync brings it anything and no prepare
    call of another finds it behind, and a refusal names a ballot number no lower than the one refused.
  */
  ghost predicate SaneEvent(s: Server, ev: Event) {
    && Locks.LeaderEvent(s, ev) && !(ev.SyncAnswer? && ev.sout.Replied? && ev.sout.res.ack)
    && (ev.OnPrepare? ==> s.disconnected || ev.ballot.num <= s.acc.ballotNum || ev.index < s.store.paxosIndex)
    && (ev.Client? ==> ev.req.tid !in AllTids(Rounds(s.out)))
    && (ev.PrepareAnswer? && ev.pout.Replied? && ev.pout.res.latestBallotNum.Some? ==>
          ev.pout.res.latestBallotNum.value >= ev.pout.res.ballot.num)
  }

  /** The acceptor, the rounds and the sent round messages as they were. */
  lemma SameSequenced(s: Server, s': Server)
    requires Sequenced(s) && RoundSequenced(s)
    requires s'.cfg == s.cfg && s'.acc == s.acc && Rounds(s'.out) == Rounds(s.out)
    requires s'.round.current == s.round.current && s'.round.awaitPrepare == s.round.awaitPrepare && s'.round.awaitAccept == s.round.awaitAccept
    requires s'.round.pending == s.round.pending
    requires Tracks(s'.store, Agreed(s.cfg, Rounds(s.out)), Crossed(s.cfg, Rounds(s.out)))
    ensures Sequenced(s') && RoundSequenced(s')
  {
  }

  lemma PrepareReplySequenced(s: Server, o: Outcome<PrepareRes>, asked: Ballot, now: int)
    requires Leads(s)
    requires o.Replied? && o.res.latestBallotNum.Some? ==> o.res.latestBallotNum.value >= o.res.ballot.num
    ensures var s' := PrepareReply(s, o, asked, now); Sequenced(s') && RoundSequenced(s')
  {
    if s.round.awaitPrepare {
      var s1 := CountPrepare(s, o, asked);
      CountPrepareOnly(s, o, asked);
      SameSequenced(s, s1);
      Locks.SameLeads(s, s1);
      PrepareVerdictSequenced(s1, o, asked, now);
    }
  }

  lemma AcceptReplySequenced(s: Server, o: Outcome<(Ballot, bool)>, asked: Ballot)
    requires Leads(s)
    ensures Sequenced(AcceptReply(s, o, asked)) && RoundSequenced(AcceptReply(s, o, asked))
  {
    if s.round.awaitAccept {
      var s1 := CountAccept(s, o, asked);
      CountAcceptOnly(s, o, asked);
      SameSequenced(s, s1);
      Locks.SameLeads(s, s1);
      AcceptVerdictSequenced(s1);
    }
  }

  lemma AcceptVerdictSequenced(s: Server)
    requires Leads(s) && s.round.awaitAccept
    ensures Sequenced(AcceptVerdict(s)) && RoundSequenced(AcceptVerdict(s))
  {
    if s.round.acceptSuccesses >= Majority {
      AcceptQuorumSequenced(s);
    } else if s.round.acceptFailures >= Majority {
      AbortSequenced(s, false);
    }
  }

  lemma EnqueueSequenced(s: Server, call: int, req: TransferReq, cross: bool)
    requires Leads(s) && req.tid !in AllTids(Rounds(s.out))
    ensures Sequenced(Enqueue(s, call, req, cross)) && RoundSequenced(Enqueue(s, call, req, cross))
  {
    if !s.disconnected {
      StartSequenced(s.(round := s.round.(pending := s.round.pending + [Item(req, call, cross)])));
    }
  }

  lemma ResumeSequenced(s: Server)
    requires Leads(s) && !s.round.awaitAccept
    ensures Sequenced(Resume(s)) && RoundSequenced(Resume(s))
  {
    var s1 := s.(round := s.round.(inSync := false));
    SameSequenced(s, s1);
    ReissueSequenced(s1);
    StartSequenced(s1);
  }

  lemma DecisionSequenced(s: Server, tid: Tid, commit: bool)
    requires Leads(s)
    ensures var s' := s.(store := Decide(s.cfg, s.store, tid, commit)); Sequenced(s') && RoundSequenced(s')
  {
    DecideTracks(s.cfg, s.store, Agreed(s.cfg, Rounds(s.out)), Crossed(s.cfg, Rounds(s.out)), tid, commit);
    SameSequenced(s, s.(store := Decide(s.cfg, s.store, tid, commit)));
  }

  lemma PeerCallSequenced(s: Server, ev: Event)
    requires Leads(s) && (ev.OnSync? || ev.Disconnect? || (ev.OnPrepare? && (s.disconnected || ev.ballot.num <= s.acc.ballotNum || ev.index < s.store.paxosIndex)))
    ensures Sequenced(Step(s, ev)) && RoundSequenced(Step(s, ev))
  {
    var s' := Step(s, ev);
    if !ev.Disconnect? {
      assert s'.out == s.out + [s'.out[|s.out|]] && !IsRoundMsg(s'.out[|s.out|]);
      RoundsAppend(s.out, s'.out[|s.out|]);
    }
    SameSequenced(s, s');
  }

  lemma StepLeads(s: Server, ev: Event)
    requires Leads(s) && SaneEvent(s, ev)
    ensures Leads(Step(s, ev))
  {
    Locks.StepKeepsLocks(s, ev);
    match ev
    case Client(call, req, cross) => EnqueueSequenced(s, call, req, cross);
    case PrepareAnswer(o, asked, at) => PrepareReplySequenced(s, o, asked, at);
    case AcceptAnswer(o, asked) => AcceptReplySequenced(s, o, asked);
    case SyncAnswer(o) => ResumeSequenced(s);
    case Decided(tid, commit) => DecisionSequenced(s, tid, commit);
    case Expired(tid) => DecisionSequenced(s, tid, false);
    case _ => PeerCallSequenced(s, ev);
  }

  // ---------------------------------------------------------------- a replica that missed nothing

  ghost predicate InStep(s: Server, ms: seq<Message>, k: nat) {
    && Follows(s, ms, k) && UpToDate(s, ms, k) && !s.disconnected && (forall m :: m in s.out ==> !m.SyncMsg?)
    && (if k == 0 then s.acc.ballotNum == 0
        else
          var last := ms[k - 1];
          && IsRoundMsg(last) && s.acc.ballotNum == last.ballot.num
          && (!last.CommitMsg? ==> s.acc.promised && s.acc.promisedNum.num == last.ballot.num)
          && (last.AcceptMsg? ==> s.acc.acceptNum.num == last.ballot.num))
  }

  /** While connected, a replica takes part in every round of the leader and keeps its exact order. */
  lemma HandleInStep(s: Server, ms: seq<Message>, k: nat, now: int)
    requires InStep(s, ms, k) && k < |ms|
    ensures InStep(Handle(s, ms[k], now), ms, k + 1)
  {
    HandleFollows(s, ms, k, now);
    PrefixNext(s.cfg, ms, k);
    assert k > 0 ==> ms[k - 1] in ms[..k] && ms[..k][k - 1] == ms[k - 1];
    match ms[k]
    case PrepareMsg(b, index) => PrepareInStep(s, ms, k, b, index);
    case AcceptMsg(b, batch) => AcceptInStep(s, ms, k, b, batch, now);
    case CommitMsg(b) => CommitInStep(s, ms, k, b, ms[k - 1].batch);
  }

  lemma AcceptInStep(s: Server, ms: seq<Message>, k: nat, b: Ballot, batch: seq<TransferReq>, now: int)
    requires InStep(s, ms, k) && 0 < k < |ms| && ms[k] == AcceptMsg(b, batch) && ms[k - 1].PrepareMsg? && ms[k - 1].ballot == b
    ensures InStep(AcceptCall(s, b, batch, now), ms, k + 1)
  {
    AcceptHolds(s, ms, k, b, batch, now);
  }

  lemma PrepareInStep(s: Server, ms: seq<Message>, k: nat, b: Ballot, index: int)
    requires InStep(s, ms, k) && k < |ms| && ms[k] == PrepareMsg(b, index) && Follows(PrepareCall(s, b, index), ms, k + 1)
    ensures InStep(PrepareCall(s, b, index), ms, k + 1)
  {
    PrefixNext(s.cfg, ms, k);
    assert NumsBelow(ms[..k], b.num) && index + 1 == |Agreed(s.cfg, ms[..k])|;
    assert k > 0 ==> ms[k - 1] in ms[..k];
    assert index == s.store.paxosIndex && b.num > s.acc.ballotNum;
  }

  lemma CommitInStep(s: Server, ms: seq<Message>, k: nat, b: Ballot, batch: seq<TransferReq>)
    requires InStep(s, ms, k) && 0 < k < |ms| && ms[k] == CommitMsg(b) && ms[k - 1] == AcceptMsg(b, batch) && Follows(CommitCall(s, b), ms, k + 1)
    ensures InStep(CommitCall(s, b), ms, k + 1)
  {
    PrefixNext(s.cfg, ms, k);
    BatchStillUnspent(s.cfg, ms, k);
    assert LastBatch(ms[..k]) == batch;
    CommitTracks(s.cfg, s.store, Paxos(s.store.log), Crossed(s.cfg, ms), batch, b);
  }

  lemma BetweenInStep(s: Server, ms: seq<Message>, k: nat, ev: Event)
    requires InStep(s, ms, k) && Between(ev) && !Step(s, ev).disconnected
    ensures InStep(Step(s, ev), ms, k)
  {
    BetweenFollows(s, ms, k, ev);
  }

  lemma InStepMore(s: Server, ms: seq<Message>, ms': seq<Message>, k: nat)
    requires InStep(s, ms, k) && ms <= ms' && WellFormed(s.cfg, ms')
    ensures InStep(s, ms', k)
  {
    FollowsMore(s, ms, ms', k);
    assert ms'[..k] == ms[..k];
  }

  // ---------------------------------------------------------------- leader and replica together

  /** A leader, one replica, and how many of the leader's round messages the replica has handled. */
  datatype Pair = Pair(leader: Server, replica: Server, handled: nat)

  /** Catchup: a reply to a sync call with the entries behind number last, when the leader's log had upto entries. */
  datatype Move = AtLeader(ev: Event) | AtReplica(ev: Event) | Deliver(now: int) | Catchup(last: int, upto: nat, ballot: Ballot)

  /** Upto entries of the leader's log are what it held after some of its messages. */
  ghost predicate AtBoundary(leader: Server, upto: nat) {
    upto <= |leader.store.log| &&
    exists j :: 0 <= j <= |Rounds(leader.out)| && Paxos(leader.store.log[..upto]) == Agreed(leader.cfg, Rounds(leader.out)[..j])
  }

  /** The entries of the leader's log behind number last, up to some length of it. */
  function Slice(p: Pair, last: int, upto: nat): seq<LogEntry> {
    if 0 <= last + 1 <= upto <= |p.leader.store.log| then p.leader.store.log[last + 1..upto] else []
  }

  /** The entry numbers of both logs mean the same place in the agreed order. */
  predicate Aligned(p: Pair, last: int) {
    0 <= last + 1 <= |p.leader.store.log| && PaxosCount(p.leader.store.log[..last + 1]) == p.replica.store.paxosIndex + 1
  }

  /** A sync brings no agreed entry, or it is aligned and the replica is not waiting for an accept. */
  predicate Benign(p: Pair, last: int, upto: nat) {
    Paxos(Slice(p, last, upto)) == [] || (Aligned(p, last) && !AwaitsAccept(p.replica, Rounds(p.leader.out), p.handled))
  }

  ghost predicate Possible(p: Pair, v: Move) {
    match v
    case AtLeader(ev) => SaneEvent(p.leader, ev)
    case AtReplica(ev) => Between(ev)
    case Deliver(_) => p.handled < |Rounds(p.leader.out)|
    case Catchup(last, upto, _) =>
      && (exists to :: SyncMsg(to, last) in p.replica.out) && 0 <= last + 1 <= upto
      && AtBoundary(p.leader, upto) && Benign(p, last, upto)
  }

  function Next(p: Pair, v: Move): Pair {
    match v
    case AtLeader(ev) => p.(leader := Step(p.leader, ev))
    case AtReplica(ev) => p.(replica := Step(p.replica, ev))
    case Deliver(now) =>
      if p.handled < |Rounds(p.leader.out)|
      then p.(replica := Handle(p.replica, Rounds(p.leader.out)[p.handled], now), handled := p.handled + 1)
      else p
    case Catchup(last, upto, ballot) => p.(replica := SyncReply(p.replica, Replied(SyncRes(true, Slice(p, last, upto), ballot))))
  }

  ghost predicate Initial(p: Pair) {
    && p.handled == 0 && p.leader.cfg.clusterId == p.replica.cfg.clusterId && p.leader.cfg.numClusters == p.replica.cfg.numClusters
    && (exists init :: p.leader == Init(p.leader.cfg, init) && forall a :: a in init ==> init[a] >= 0)
    && (exists init :: p.replica == Init(p.replica.cfg, init))
  }

  ghost predicate IsRun(ps: seq<Pair>, vs: seq<Move>) {
    && |ps| == |vs| + 1 && Initial(ps[0])
    && forall k :: 0 <= k < |vs| ==> Possible(ps[k], vs[k]) && ps[k + 1] == Next(ps[k], vs[k])
  }

  ghost predicate PairOk(p: Pair) {
    && p.leader.cfg.clusterId == p.replica.cfg.clusterId && p.leader.cfg.numClusters == p.replica.cfg.numClusters
    && Leads(p.leader) && Follows(p.replica, Rounds(p.leader.out), p.handled)
  }

  /** Servers of one cluster read the same order out of the same messages. */
  lemma {:induction false} SameEntries(c: Config, d: Config, batch: seq<TransferReq>, b: Ballot)
    requires c.clusterId == d.clusterId && c.numClusters == d.numClusters
    ensures CrossEntries(c, batch, b) == CrossEntries(d, batch, b) && IntraEntries(c, batch, b) == IntraEntries(d, batch, b)
  {
    if batch != [] {
      SameEntries(c, d, batch[..|batch| - 1], b);
    }
  }

  lemma {:induction false} SameOrder(c: Config, d: Config, ms: seq<Message>)
    requires c.clusterId == d.clusterId && c.numClusters == d.numClusters
    ensures Agreed(c, ms) == Agreed(d, ms) && WellFormed(c, ms) == WellFormed(d, ms) && Crossed(c, ms) == Crossed(d, ms)
  {
    if ms != [] {
      var front, m := ms[..|ms| - 1], ms[|ms| - 1];
      SameOrder(c, d, front);
      if IsRoundMsg(m) {
        SameEntries(c, d, if m.AcceptMsg? then m.batch else LastBatch(front), m.ballot);
      }
    }
  }

  lemma {:induction false} RoundsPrefix(out: seq<Message>, out': seq<Message>)
    requires out <= out'
    ensures Rounds(out) <= Rounds(out')
  {
    if |out| < |out'| {
      RoundsPrefix(out, out'[..|out'| - 1]);
    } else {
      assert out == out';
    }
  }

  lemma HandleKeepsConfig(s: Server, m: Message, now: int)
    ensures Handle(s, m, now).cfg == s.cfg
  {
  }

  lemma VerdictsGrow(s: Server, o: Outcome<PrepareRes>, asked: Ballot, now: int)
    ensures s.out <= PrepareVerdict(s, o, asked, now).out && s.out <= AcceptVerdict(s).out
  {
  }

  /** Nothing a server sent is taken back. */
  lemma OutGrows(s: Server, ev: Event)
    ensures s.out <= Step(s, ev).out
  {
    match ev
    case PrepareAnswer(o, asked, at) => VerdictsGrow(CountPrepare(s, o, asked), o, asked, at);
    case AcceptAnswer(o, asked) => VerdictsGrow(CountAccept(s, o, asked), Failed, asked, 0);
    case _ =>
  }

  lemma LeaderOkStep(p: Pair, ev: Event)
    requires PairOk(p) && SaneEvent(p.leader, ev)
    ensures PairOk(Next(p, AtLeader(ev))) && Rounds(p.leader.out) <= Rounds(Step(p.leader, ev).out)
    ensures WellFormed(p.replica.cfg, Rounds(Step(p.leader, ev).out))
  {
    var s' := Step(p.leader, ev);
    StepLeads(p.leader, ev);
    StepKeepsConfig(p.leader, ev);
    OutGrows(p.leader, ev);
    RoundsPrefix(p.leader.out, s'.out);
    SameOrder(p.leader.cfg, p.replica.cfg, Rounds(s'.out));
    FollowsMore(p.replica, Rounds(p.leader.out), Rounds(s'.out), p.handled);
  }

  // ---------------------------------------------------------------- syncs of the pair

  lemma SliceParts(p: Pair, last: int, upto: nat)
    requires 0 <= last + 1 <= upto <= |p.leader.store.log|
    ensures var log := p.leader.store.log;
            && Paxos(log[..upto]) == Paxos(log[..last + 1]) + Paxos(Slice(p, last, upto))
            && Paxos(log) == Paxos(log[..upto]) + Paxos(log[upto..])
            && PaxosCount(log[..last + 1]) == |Paxos(log[..last + 1])|
  {
    var log := p.leader.store.log;
    assert log[..upto] == log[..last + 1] + Slice(p, last, upto) && log == log[..upto] + log[upto..];
    PaxosConcat(log[..last + 1], Slice(p, last, upto));
    PaxosConcat(log[..upto], log[upto..]);
    PaxosCounts(log[..last + 1]);
  }

  lemma SliceKinds(p: Pair, last: int, upto: nat)
    requires PairOk(p)
    ensures KindsOk(Slice(p, last, upto), Crossed(p.replica.cfg, Rounds(p.leader.out)))
  {
    SameOrder(p.leader.cfg, p.replica.cfg, Rounds(p.leader.out));
    forall e | e in Slice(p, last, upto) ensures e in p.leader.store.log {
    }
  }

  /** What a sync adds to the agreed part of the replica's log. */
  lemma CatchupAdds(p: Pair, last: int, upto: nat, ballot: Ballot)
    requires PairOk(p)
    ensures Paxos(Next(p, Catchup(last, upto, ballot)).replica.store.log) == Paxos(p.replica.store.log) + Paxos(Slice(p, last, upto))
  {
    SliceKinds(p, last, upto);
    SyncTracks(p.replica.cfg, p.replica.store, Paxos(p.replica.store.log), Crossed(p.replica.cfg, Rounds(p.leader.out)), Slice(p, last, upto));
  }

  lemma CatchupOk(p: Pair, last: int, upto: nat, ballot: Ballot)
    requires PairOk(p) && Possible(p, Catchup(last, upto, ballot))
    ensures PairOk(Next(p, Catchup(last, upto, ballot)))
  {
    var j :| 0 <= j <= |Rounds(p.leader.out)| && Paxos(p.leader.store.log[..upto]) == Agreed(p.leader.cfg, Rounds(p.leader.out)[..j]);
    CatchupFollows(p, last, upto, ballot, j);
  }

  lemma CatchupFollows(p: Pair, last: int, upto: nat, ballot: Ballot, j: nat)
    requires PairOk(p) && 0 <= last + 1 <= upto <= |p.leader.store.log| && Benign(p, last, upto) && j <= |Rounds(p.leader.out)|
    requires Paxos(p.leader.store.log[..upto]) == Agreed(p.leader.cfg, Rounds(p.leader.out)[..j])
    ensures var s' := SyncReply(p.replica, Replied(SyncRes(true, Slice(p, last, upto), ballot)));
            Follows(s', Rounds(p.leader.out), p.handled) && s'.cfg == p.replica.cfg
  {
    SliceKinds(p, last, upto);
    if Paxos(Slice(p, last, upto)) != [] {
      CatchupReaches(p, last, upto, j);
    }
    SyncFollows(p.replica, Rounds(p.leader.out), p.handled, SyncRes(true, Slice(p, last, upto), ballot), j);
  }

  /** An aligned sync takes the replica on to where the leader was. */
  lemma CatchupReaches(p: Pair, last: int, upto: nat, j: nat)
    requires PairOk(p) && Aligned(p, last) && last + 1 <= upto <= |p.leader.store.log| && j <= |Rounds(p.leader.out)|
    requires Paxos(p.leader.store.log[..upto]) == Agreed(p.leader.cfg, Rounds(p.leader.out)[..j])
    ensures Paxos(p.replica.store.log) + Paxos(Slice(p, last, upto)) == Agreed(p.replica.cfg, Rounds(p.leader.out)[..j])
  {
    SliceParts(p, last, upto);
    PairIsPrefix(p);
    SameOrder(p.leader.cfg, p.replica.cfg, Rounds(p.leader.out)[..j]);
    SamePlace(Paxos(p.replica.store.log), Paxos(p.leader.store.log[..last + 1]), Paxos(p.leader.store.log));
  }

  lemma SamePlace<T>(a: seq<T>, b: seq<T>, all: seq<T>)
    requires a <= all && b <= all && |a| == |b|
    ensures a == b
  {
  }

  /**
    Exactly when a sync keeps the replica's agreed part a prefix of the leader's: it brings no
    agreed entry, or the entry number it was asked from is the same place in both logs.
  */
  lemma SyncPrefixExact(p: Pair, last: int, upto: nat, ballot: Ballot)
    requires PairOk(p) && 0 <= last + 1 <= upto <= |p.leader.store.log|
    ensures Paxos(Next(p, Catchup(last, upto, ballot)).replica.store.log) <= Paxos(p.leader.store.log)
            <==> Paxos(Slice(p, last, upto)) == [] || Aligned(p, last)
  {
    CatchupAdds(p, last, upto, ballot);
    SliceParts(p, last, upto);
    PairIsPrefix(p);
    AgreedDistinct(p.leader.cfg, Rounds(p.leader.out));
    PlaceExact(Paxos(p.replica.store.log), Paxos(Slice(p, last, upto)), Paxos(p.leader.store.log), |Paxos(p.leader.store.log[..last + 1])|);
  }

  /** In an order without repetitions, a part of it continues a prefix exactly if it starts where the prefix ends. */
  lemma PlaceExact(order: seq<LogEntry>, more: seq<LogEntry>, all: seq<LogEntry>, a: nat)
    requires order <= all && DistinctEntries(all) && a + |more| <= |all| && all[a..a + |more|] == more
    ensures order + more <= all <==> more == [] || a == |order|
  {
    if more == [] {
      assert order + more == order;
    } else if a == |order| {
      assert order + more == all[..a + |more|];
    } else {
      PlaceClashes(order, more, all, a);
    }
  }

  lemma PlaceClashes(order: seq<LogEntry>, more: seq<LogEntry>, all: seq<LogEntry>, a: nat)
    requires DistinctEntries(all) && a + |more| <= |all| && all[a..a + |more|] == more && more != [] && a != |order|
    ensures !(order + more <= all)
  {
    assert (order + more)[|order|] == more[0] == all[a];
  }

  lemma NextOk(p: Pair, v: Move)
    requires PairOk(p) && Possible(p, v)
    ensures PairOk(Next(p, v))
  {
    match v
    case AtLeader(ev) => LeaderOkStep(p, ev);
    case AtReplica(ev) =>
      BetweenFollows(p.replica, Rounds(p.leader.out), p.handled, ev);
      StepKeepsConfig(p.replica, ev);
    case Deliver(now) =>
      HandleFollows(p.replica, Rounds(p.leader.out), p.handled, now);
      HandleKeepsConfig(p.replica, Rounds(p.leader.out)[p.handled], now);
    case Catchup(last, upto, ballot) => CatchupOk(p, last, upto, ballot);
  }

  lemma InitialOk(p: Pair)
    requires Initial(p)
    ensures PairOk(p) && PairInStep(p)
  {
    var init :| p.leader == Init(p.leader.cfg, init) && forall a :: a in init ==> init[a] >= 0;
    var init' :| p.replica == Init(p.replica.cfg, init');
    assert Locks.HoldsOf(p.leader) == {};
  }

  lemma {:induction false} RunsStayOk(ps: seq<Pair>, vs: seq<Move>, n: nat)
    requires IsRun(ps, vs) && n < |ps|
    ensures PairOk(ps[n])
  {
    if n == 0 {
      InitialOk(ps[0]);
    } else {
      RunsStayOk(ps, vs, n - 1);
      assert Possible(ps[n - 1], vs[n - 1]) && ps[n] == Next(ps[n - 1], vs[n - 1]);
      NextOk(ps[n - 1], vs[n - 1]);
    }
  }

  /**
    Main result: at any time, whatever messages the replica missed while disconnected, by
    whatever benign syncs it caught up, and however decisions and timeouts interleave on both
    sides, the agreed part of its log is a prefix of the leader's; the two are equal once it has
    handled the commit of the leader's last round.
  */
  lemma ReplicaIsPrefix(ps: seq<Pair>, vs: seq<Move>, n: nat)
    requires IsRun(ps, vs) && n < |ps|
    ensures Paxos(ps[n].replica.store.log) <= Paxos(ps[n].leader.store.log)
    ensures var ms, acc := Rounds(ps[n].leader.out), ps[n].replica.acc;
            ps[n].handled == |ms| > 0 && ms[|ms| - 1].CommitMsg? && acc.acceptNum.num == ms[|ms| - 1].ballot.num && !acc.accepted ==>
              Paxos(ps[n].replica.store.log) == Paxos(ps[n].leader.store.log)
  {
    RunsStayOk(ps, vs, n);
    PairIsPrefix(ps[n]);
  }

  lemma PairIsPrefix(p: Pair)
    requires PairOk(p)
    ensures Paxos(p.replica.store.log) <= Paxos(p.leader.store.log) == Agreed(p.replica.cfg, Rounds(p.leader.out))
    ensures Rounds(p.leader.out)[..|Rounds(p.leader.out)|] == Rounds(p.leader.out)
  {
    SameOrder(p.leader.cfg, p.replica.cfg, Rounds(p.leader.out));
  }

  ghost predicate PairInStep(p: Pair) {
    InStep(p.replica, Rounds(p.leader.out), p.handled)
  }

  /** A replica that has not been disconnected holds exactly the order of the messages it has handled. */
  lemma {:induction false} ConnectedReplicaIsExact(ps: seq<Pair>, vs: seq<Move>, n: nat)
    requires IsRun(ps, vs) && n < |ps| && forall k :: 0 <= k <= n ==> !ps[k].replica.disconnected
    ensures PairInStep(ps[n])
  {
    if n == 0 {
      InitialOk(ps[0]);
    } else {
      ConnectedReplicaIsExact(ps, vs, n - 1);
      ExactStep(ps, vs, n - 1);
    }
  }

  lemma ExactStep(ps: seq<Pair>, vs: seq<Move>, k: nat)
    requires IsRun(ps, vs) && k < |vs| && !ps[k + 1].replica.disconnected && PairInStep(ps[k])
    ensures PairInStep(ps[k + 1])
  {
    RunsStayOk(ps, vs, k);
    RunStep(ps, vs, k);
    StaysInStep(ps[k], vs[k]);
  }

  lemma RunStep(ps: seq<Pair>, vs: seq<Move>, k: nat)
    requires IsRun(ps, vs) && k < |vs|
    ensures Possible(ps[k], vs[k]) && ps[k + 1] == Next(ps[k], vs[k])
  {
  }

  /** Hence, once it has handled them all, it holds exactly the leader's. */
  lemma ConnectedReplicaCatchesUp(ps: seq<Pair>, vs: seq<Move>, n: nat)
    requires IsRun(ps, vs) && n < |ps| && forall k :: 0 <= k <= n ==> !ps[k].replica.disconnected
    requires ps[n].handled == |Rounds(ps[n].leader.out)|
    ensures Paxos(ps[n].replica.store.log) == Paxos(ps[n].leader.store.log)
  {
    ConnectedReplicaIsExact(ps, vs, n);
    RunsStayOk(ps, vs, n);
    PairIsPrefix(ps[n]);
  }

  lemma LeaderInStep(p: Pair, ev: Event)
    requires PairOk(p) && SaneEvent(p.leader, ev) && PairInStep(p)
    ensures PairInStep(Next(p, AtLeader(ev)))
  {
    LeaderOkStep(p, ev);
    InStepMore(p.replica, Rounds(p.leader.out), Rounds(Step(p.leader, ev).out), p.handled);
  }

  lemma ReplicaInStep(p: Pair, ev: Event)
    requires PairInStep(p) && Between(ev) && !Step(p.replica, ev).disconnected
    ensures PairInStep(Next(p, AtReplica(ev)))
  {
    BetweenInStep(p.replica, Rounds(p.leader.out), p.handled, ev);
  }

  lemma DeliverInStep(p: Pair, now: int)
    requires PairInStep(p) && p.handled < |Rounds(p.leader.out)|
    ensures PairInStep(Next(p, Deliver(now)))
  {
    HandleInStep(p.replica, Rounds(p.leader.out), p.handled, now);
  }

  /** Such a replica never asks for a sync. */
  lemma NeverAsks(p: Pair, last: int)
    requires PairInStep(p)
    ensures !exists to :: SyncMsg(to, last) in p.replica.out
  {
  }

  lemma StaysInStep(p: Pair, v: Move)
    requires PairOk(p) && Possible(p, v) && PairInStep(p) && !Next(p, v).replica.disconnected
    ensures PairInStep(Next(p, v))
  {
    match v
    case AtLeader(ev) => LeaderInStep(p, ev);
    case AtReplica(ev) => ReplicaInStep(p, ev);
    case Deliver(now) => DeliverInStep(p, now);
    case Catchup(last, upto, ballot) => NeverAsks(p, last);
  }
}
