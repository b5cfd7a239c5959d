/**
  The vocabulary of the transaction server: transactions, ballots, log entries and
  messages (src/types/types.h, src/proto, src/utils/utils.cc).
*/
module Protocol {
  type Tid = int
  type Account = int

  datatype Ballot = Ballot(num: int, serverId: int)

  datatype Transaction = Transaction(sender: Account, receiver: Account, amount: int)

  datatype TransferReq = TransferReq(tid: Tid, txn: Transaction)

  datatype TxnType = Intra | Cross

  datatype TxnStatus = NoStatus | Prepared | Committed | Aborted

  datatype LogEntry = LogEntry(tid: Tid, ballotNum: int, ballotServerId: int, txn: Transaction, kind: TxnType, status: TxnStatus)

  datatype Option<+T> = None | Some(value: T)

  datatype PrepareRes = PrepareRes(ack: bool, ballot: Ballot, acceptNum: Option<Ballot>, acceptVal: seq<TransferReq>,
                                   latestBallotNum: Option<int>, paxosIndex: Option<int>, serverId: int)

  datatype SyncRes = SyncRes(ack: bool, logs: seq<LogEntry>, lastBallot: Ballot)

  datatype Message =
    | PrepareMsg(ballot: Ballot, paxosIndex: int)
    | PrepareReplyMsg(from: int, pres: PrepareRes)
    | AcceptMsg(ballot: Ballot, batch: seq<TransferReq>)
    | AcceptReplyMsg(from: int, ballot: Ballot, ack: bool)
    | CommitMsg(ballot: Ballot)
    | SyncMsg(to: int, lastInserted: int)
    | SyncReplyMsg(sres: SyncRes)

  /** A reply to a client call (InCall::completeTransfer). */
  datatype Answer = Answer(call: int, ack: bool, tid: Tid)

  /** BatchEntry: a client request parked with the call that carries it. */
  datatype Item = Item(req: TransferReq, call: int, cross: bool)

  const TotalClients: int := 3000

  /** utils::getClusterIdFromClientId: the ceiling of client * clusters / total clients. */
  function ClusterOf(client: Account, numClusters: int): int {
    -((-(client * numClusters)) / TotalClients)
  }

  datatype Config = Config(serverId: int, clusterId: int, numClusters: int)

  /** ServerImpl::isClientInCluster */
  predicate InCluster(cfg: Config, client: Account) {
    ClusterOf(client, cfg.numClusters) == cfg.clusterId
  }

  predicate BothInside(cfg: Config, t: Transaction) {
    InCluster(cfg, t.sender) && InCluster(cfg, t.receiver)
  }

  /** isPaxosEntry: an entry appended by agreement, not by a two-phase-commit decision. */
  predicate IsPaxosEntry(e: LogEntry) {
    (e.kind.Intra? && e.status.Committed?) || (e.kind.Cross? && e.status.Prepared?)
  }

  function EntryOf(r: TransferReq, b: Ballot, kind: TxnType, status: TxnStatus): LogEntry {
    LogEntry(r.tid, b.num, b.serverId, r.txn, kind, status)
  }
}
