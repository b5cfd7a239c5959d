# A sharded transaction store and its storage engine: a verified model

The repository is a replicated bank. Three-server clusters each own a range of accounts; a
server runs batched prepare/accept/commit rounds inside its cluster, and the client drives a
two-phase commit for transfers between clusters (`src/server`, `src/client`). Balances are
kept in a vendored copy of LevelDB (`leveldb/`). This project models the parts where the
correctness of the whole is decided, in the form the source has: handlers, iterators, writers
and caches are classes that update their fields, loops are loops with invariants, and each is
proved against a function or a relation that does not mention its body. What the source
promises is then proved of those, for every input, every run or every reachable state.

## The transaction server

* `Protocol`, `ServerSpec`, `ServerImpl`: messages; every handler as a step on the state of
  one server; the class whose methods carry out exactly these steps.
* `Ledger`, `Conservation` (with `Sums`): in every run, crashes included, balances are the initial
  ones with the first committed entry of each transaction applied once in each incarnation that
  commits it; what the clusters hold together is the initial total, to the amount.
* `Calls`: no client call is lost or answered twice; `Answers`: a reply says what was logged.
* `Ballots`: one winner and one batch per ballot number in a cluster with delayed,
  duplicated and lost messages and with crashes; `Lowering`: a run that shows why syncs need a hypothesis;
  `Accepts`: in the same runs nothing is committed or confirmed that two of the three do not hold.
* `Positions`, `Progress`: where a server stands and what it has counted, in every run; how a refused
  round goes on.
* `Locks`: locks are exactly the accounts of the transactions in progress; no overdraft.
  `FollowerLocks`: what a follower has locked, in every run; `Restarts`: what a restart forgets.
* `Evidence`: coordinator, all servers of all clusters and syncs; a commit has a prepare in both clusters behind it.
* `Replicas`: the agreed part of a replica's log follows the leader's, by messages and by
  syncs; `Catchup`, `Skipping`: which syncs break this, and that they do.
* `WalText`, `Wal`, `WalImpl`: the text of the write-ahead log, its byte-offset index, and
  recovery from a file cut anywhere; `Durable`: in every run, crashes included, a restart of the
  modelled server is a recovery from that text; `Kinds`: what a cluster needs for it to find the index.

## The storage engine

* `DbFormat`, `Versions`: internal keys, levels, point lookups. `DbFormat.Reads` says what a
  read means: the newest version at or below the snapshot.
* `Selection`, `Compactions`, `Merger`, `Background`: choosing the inputs of a compaction,
  merging and dropping, installing; end to end in `Background.Compact`.
* `DbIter`: the snapshot cursor in both directions, over the merging iterator; `Scans`: whole scans
  of memtables and levels.
* `Coding`, `RecordLog`, `LogReader`: the fragmenting record log, read back after a cut at any byte.
* `BlockFormat`, `BlockBuilder`, `BlockIter`: prefix-compressed blocks.
* `SkipList`: insertion link by link, with readers in between.
* `HandleTable`, `LruCache`: the cache.
* `WriteBatch`, `GroupCommit`: batches as bytes, the writer queue, recovery of the memtable;
  `CrashRecovery`: the same through the log file, cut at any byte.

## How things are represented

* User keys are touched by the engine through their comparator only. They stand here as their
  rank in the comparator's order, a `real`: every total order on countably many keys embeds in
  the reals. Blocks keep their keys as bytes and take the rank as a parameter.
* Integers are unbounded. Where a width matters it is written out: 32-bit lengths, offsets and
  checksums, varints of at most five bytes, 64-bit sequence numbers, signed counts.
* The network of `Ballots` never forgets a message, so any message may be used late, often or
  never. A step of `GroupCommit.DB` is one stretch of one thread between two points where
  another may run; every order of calls is an interleaving. In `SkipList` the writer's trace
  holds every state between two single link updates.
* Clocks, random heights, sizes that decide where an output file ends, the checksum and the
  outcome of calls to other servers are parameters.

## Assumptions

* File and database writes succeed, and the write position after opening a file for appending
  is its end. The exception is `GroupCommit`, where appending to the log and syncing may fail.
* Transaction ids are unique and amounts are not negative; a transfer inside a cluster carries
  two accounts of it and a cross-shard prepare exactly one (client routing,
  `src/client/client.cc:59-100`).
* The results on calls, locks and replicas are for one incarnation of a server: calls end with
  the process, and the locks are not rebuilt on a restart (`src/server/server.cc:113-120`). All
  other results include restarts.
* `handleSyncReply` takes over the ballot number of the peer (`src/server/server.cc:664`). The
  results on ballots are for runs in which no sync takes a server below a vote it has given
  (`Ballots.Covers`, where a number reported by a peer is also taken not to be negative).
  `Ballots.RevotesIffBelowVote` shows that this is exactly what a single vote per number needs,
  and `Lowering.LoweringSplitsBallot` is a run without it in which one number has two proposals.
* The results on locks are for a server that acts only as leader: it accepts and commits nothing
  of others. A sync reply may reach it whenever it is not between the proposal of a batch and its
  outcome, if its entries fit (`Locks.SyncFits`); `Locks.SyncFitsExact` and `Locks.SyncMidAccept`
  show that both are needed.
* The results on replicas are for one leader, which no sync brings anything new, which no prepare
  call of another finds behind and which is refused only with a number not below the one refused,
  and for a replica that leads no rounds.
  The replica may sync, with an answer the leader gave at any time, if that brings no agreed entry,
  or if the entry number it asked from is the same place in both logs and it is not between a
  promise and the accept of the round (`Replicas.Benign`).
* `Durable` takes the entries of a sync to be of kinds that recovery knows (`Durable.Sane`).
  `Durable.ClusterRecorded` shows that in a cluster they are.
* A database writes fewer than 2^31 updates in one group and no more sequence numbers than its
  56 bits hold; a block stays below 2^32 bytes.

## Where the code differs from what one would expect

* A line of the write-ahead log that was cut is said to be ignored
  (`src/server/wal.cc:40`). It is, exactly if the cut leaves no digit of the amount
  (`Wal.ParseCut`); otherwise the transaction comes back with a smaller amount
  (`Wal.CutAmountChanges`).
* Recovery finds the index of open prepares that the running server had exactly if no sync
  brought an intra-shard commit of a transaction after its latest prepare and the last recovery
  (`WalImpl.RecoveryRestoresIndex`): `insertEntry` erases for such an entry, `recover` does not.
  It takes an id that is used for both kinds of transaction (`WalImpl.ReusedIdReopens`,
  `Durable.ReusedIdReturns`); where clients use each id for one kind the index survives every
  restart (`Kinds.IndexSurvives`).
* Recovery leaves a line that was cut as it is, and the next record is appended to it. That record
  is found again exactly if the cut left nothing of the line (`WalImpl.AppendAfterCutIsLost`).
* Recovery restores every appended entry exactly if all are of the kinds it knows
  (`WalImpl.RebuildsLog`): an entry of another kind taken over in a sync is written but not read back.
* Accept and commit calls are matched by ballot number alone (`src/server/server.cc:447, 489`);
  the proof of `Ballots` shows why the server id is not needed. Replies are matched by number and id.
* A sync asks by entry number, but decisions and timeouts add entries to each log on their own.
  Where the numbers differ, entries are skipped or repeated (`Skipping.SyncSkipsEntry`), exactly
  under the condition of `Replicas.SyncPrefixExact`. A replica that has promised a ballot and
  learns its entries from a sync logs them again (`Catchup.AwaitingSyncRepeats`).
* A sync takes no lock and gives none back. A leader that takes over a peer's commit of its own
  open prepare keeps the account locked, and no decision gives it back (`Locks.SyncLeaksLock`);
  `Locks.SyncLocksExact` says by the entries when the locks stay right.
* A prepare call of a peer with a longer log makes a leader sync even while a batch of its own is
  being accepted. When the sync ends, the round asks for a ballot again, and the batch is refused
  because of its own locks, which then belong to nobody (`Locks.SyncRefusesOwnBatch`), exactly if it
  has a transfer inside the cluster (`Locks.SyncMidAccept`).
* A restart forgets the locks and which transactions were applied. The locks are right after it
  exactly if no open prepare has an account in the cluster (`Restarts.RestartLocksExact`);
  otherwise the account can be spent before the prepare is decided (`Restarts.RestartOverdraws`).
  A transaction is applied as often as there are incarnations that commit it
  (`Conservation.BalanceExact`), so a transfer sent again after a crash counts twice
  (`Restarts.RestartAppliesTwice`).
* A follower locks the accounts of a batch it takes over and unlocks them with its commit, also
  those of cross-shard prepares that stay open (`src/server/server.cc:494-502`,
  `FollowerLocks.CommitUnlocksPrepared`). If it leads later, the account can be overdrawn
  (`FollowerLocks.FailoverOverdraws`). Where the leader gives a round up behind its accept nothing
  tells the follower, and the accounts stay locked (`FollowerLocks.GivenUpStaysLocked`);
  `FollowerLocks.LockedIffHeld` says exactly when an account is locked.
* A failed append to the database log still uses up the sequence numbers of its group
  (`GroupCommit.FailureSkipsNumber`). What is visible is numbered without a gap exactly if no
  group with updates failed before one that succeeded (`GroupCommit.NumbersConsecutive`).

## Model

| member | source | states |
|---|---|---|
| `Ballots.OneQuorum` | src/server/server.cc:581-616 | two ballots of one number that both have the votes of their issuer and of another of the three servers are the same ballot |
| `Ballots.PrepareQuorumOk` | src/server/server.cc:296-344 | a proposal is made only under a ballot with a quorum, and only one per ballot |
| `Ballots.AcceptQuorumOk` | src/server/server.cc:349-369 | what an accept quorum commits is part of the batch proposed under its ballot |
| `Ballots.PrepareCallOk` | src/server/server.cc:396-436 | a promise is a vote for a number above all earlier votes of the server, and no vote is given otherwise |
| `Ballots.AcceptCallOk` | src/server/server.cc:438-480 | a batch taken over from any server with an acceptable number was proposed with a quorum, even where the number is that of the server's own waiting ballot |
| `Ballots.CommitCallOk` | src/server/server.cc:482-513 | what a commit message logs is part of the batch proposed under its number |
| `Ballots.PrepareReplyOkStep` | src/server/server.cc:581-616 | counted replies are votes for the ballot being prepared; when the count wins there is a quorum |
| `Ballots.AcceptReplyOkStep` | src/server/server.cc:618-631 | counted accept replies are about the server's own proposal |
| `Ballots.SyncReplyOkStep` | src/server/server.cc:633-679 | entries taken over in a sync are backed by proposals like one's own |
| `Ballots.RestartOk` | src/server/server.cc:113-120 | a crash and restart from the log and the stored number forgets no vote |
| `Ballots.NextOk` | src/server/server.cc:396-695 | every step of every server keeps the invariant of the whole cluster and its network |
| `Ballots.RunsStayOk` | src/server/server.cc:268-369 | the invariant holds after every step of every run |
| `Ballots.OneProposal` | src/server/server.cc:296-344 | under one ballot number at most one batch is ever proposed, by at most one server |
| `Ballots.OneValuePerBallot` | src/server/server.cc:268-513 | every agreed entry of any log at any time was proposed under the ballot it carries and lies in every batch ever proposed under that number |
| `Ballots.OneWinner` | src/server/server.cc:268-344 | at most one server ever reaches the prepare quorum for a number, whenever it does |
| `Ballots.WinsIsQuorum` | src/server/server.cc:581-616 | the winning reply is exactly the one that takes the handler into the prepare quorum; every other one retries, syncs, gives up or waits |
| `Ballots.RevotesIffBelowVote` | src/server/server.cc:633-679 | after the whole handler of a sync reply of a connected server, some prepare call makes it vote for two ballots of one number if and only if the number the reply brings, one higher if a round or calls wait, is below a vote it has given or meets another's |
| `Lowering.LoweringSplitsBallot` | src/server/server.cc:396-436 | a run of three servers from the start in which one such sync leads to two different proposals under one number |
| `Accepts.StepConfirms` | src/server/server.cc:349-631 | every step of a server sends a commit, logs an intra-shard commit or replies positively only for a ballot that another server has accepted |
| `Accepts.RunsStayConfirmed` | src/server/server.cc:618-631 | so it is after every step of every run of a cluster, with late, repeated and lost messages, crashes and syncs |
| `Accepts.AcceptanceIsTakeover` | src/server/server.cc:438-480 | an acceptance on the network means that a server has taken over the batch under that ballot in an earlier step |
| `Accepts.CommitNeedsQuorum` | src/server/server.cc:349-369 | a commit message is on the network only if its ballot was proposed and a server other than the proposer has taken over the batch: two of three hold it |
| `Accepts.LoggedNeedsQuorum` | src/server/server.cc:482-513 | the same for every intra-shard commit in any log at any time, own, taken over or synced |
| `Accepts.AnswerNeedsQuorum` | src/server/server.cc:618-631 | a positive reply to a client is about a transaction of a batch that the server proposed, another took over and a commit message was sent for |
| `Answers.StepHonest` | src/server/server.cc:296-393 | every step replies only to calls that came, and positively only with the prepare or a commit of the transaction in the log |
| `Answers.AnsweredIsLogged` | src/server/in_call.cc:59-138 | over every run, crashes included: a reply is to a call that came, and if it is positive the log holds the prepare of a cross-shard call, or a commit of the transaction of a plain one |
| `Answers.TransferIsCommitted` | src/server/server.cc:349-369 | where each id is used for one kind of transaction, a plain transfer that was confirmed has its own intra-shard commit in the log |
| `Answers.NegativeCommitsNothing` | src/server/server.cc:373-382 | a step that replies negatively to a call commits nothing |
| `Positions.LastEntryIs` | src/server/server.cc:190-241 | over every run the entry number by which a server asks for a sync is the end of its log less the outcomes behind the last agreed entry, and the ballot it reports is that entry's or what a peer reported since |
| `Positions.StampsAreOpenSince` | src/server/server.cc:161-182 | over every run the time from which a timeout counts is when the transaction was prepared here, until it is decided or times out |
| `Positions.FailuresAreCounted` | src/server/server.cc:581-631 | over every run the failures counted are the refusals of the ballot asked for last, or the rejections of the proposal made last |
| `Positions.GivesUpOnSecondRefusal` | src/server/server.cc:581-616 | in every reachable state a round is given up exactly on the second refusal of its ballot that asks for neither a higher number nor a sync, and goes on exactly on the first promise |
| `Positions.GivesUpOnSecondRejection` | src/server/server.cc:618-631 | a proposal is given up exactly on the second rejection and committed exactly on the first acceptance |
| `Progress.RetrySucceeds` | src/server/server.cc:268-290 | a round refused for its number, at a server in the same place, asks again with a number that this server promises, which gives it its quorum |
| `Progress.LeaderCatchesUp` | src/server/server.cc:581-679 | a leader whose log is a part of the refuser's asks it for the rest, ends with the same log, and asks again where the refuser promises, at once or after one more refusal for its number |
| `Progress.FollowerCatchesUp` | src/server/server.cc:396-436 | a follower that is asked from further on asks for the rest, ends with the leader's log, and promises the next ballot asked for there |
| `Progress.PromiseReports` | src/server/server.cc:396-513 | a promise reports the batch that was taken over and not yet committed, and none after its commit |
| `Progress.LateAcceptRefused` | src/server/server.cc:438-513 | a batch that was committed is not taken over again |
| `Progress.ProposerReports` | src/server/server.cc:296-393 | a leader reports its own proposal while it waits for the outcome, and nothing afterwards |
| `Progress.DisconnectedIsDeaf` | src/server/server.cc:396-480 | while disconnected, calls and decisions change nothing a server keeps, however many come, and get only negative replies |
| `Ledger.StepKeepsLedger` | src/server/server.cc:190-241 | each handler keeps balances, applied transactions and the count of agreed entries equal to what the log since the start says |
| `Ledger.RestartKeepsLedger` | src/server/server.cc:113-120 | a restart begins anew with the balances it finds |
| `Ledger.BalancesAreTheLedger` | src/server/server.cc:190-679 | after every run, crashes included, the balances are the initial ones with the first committed entry of each transaction in each incarnation applied once to its sides in the cluster, the applied set is the set of transactions committed since the last start, and the position counts the agreed entries |
| `Ledger.OnceIsReplay` | src/server/server.cc:229-241 | if no transaction is committed in two incarnations, the balances are those of the first commits of all incarnations together |
| `Ledger.PositionCountsAgreed` | src/server/server.cc:113-120 | after every handler and every recovery, in any run, the position counts the agreed entries of the log |
| `Conservation.BalanceExact` | src/server/server.cc:190-241 | after every run, crashes included, an account holds what it held at first and what each transaction moves to or from it, as often as there are incarnations that commit the transaction |
| `Conservation.SharesCancel` | src/utils/utils.cc:7-17 | the shares of one transaction over all clusters add up to its amount, as often as the receiver's side has applied it more than the sender's |
| `Conservation.TotalExact` | src/server/server.cc:190-241 | one server per cluster together hold the initial total and these amounts |
| `Conservation.TotalConserved` | src/server/server.cc:190-241 | the initial total, if both sides have applied every transaction equally often |
| `Conservation.RunsConserveMoney` | src/server/server.cc:190-679 | both for the states reached by any runs, crashes included, one per cluster |
| `Calls.ValidateBag` | src/server/server.cc:296-344 | checking the batch answers or keeps every call, none twice |
| `Calls.StepKeepsCalls` | src/server/server.cc:243-393 | each step keeps every call, adds exactly the one that arrives, and keeps the order |
| `Calls.CallsNeitherLostNorRepeated` | src/server/in_call.cc:59-138 | over every run the calls that arrived are, as a multiset, those queued, those in the round and those answered; a round runs exactly if it has calls; positive replies followed by what waits are in arrival order |
| `Locks.Pay` | src/server/server.cc:229-241 | paying out one transaction leaves all others funded and nobody overdrawn |
| `Locks.ValidateHolds` | src/server/server.cc:296-344 | what passes the checks of a prepare quorum holds disjoint accounts that can pay |
| `Locks.DecideHolds` | src/server/server.cc:190-217 | a decision or timeout gives back exactly the accounts of its transaction |
| `Locks.SyncOpens` | src/server/wal.cc:226-254 | after a sync a transaction is open exactly if the latest entry about it is a prepare, or if there is none and it was open |
| `Locks.SyncPays` | src/server/server.cc:646-660 | what a sync adds to a balance is what the first commits among its entries of transactions not yet applied give |
| `Locks.SyncLocksExact` | src/server/server.cc:633-668 | after a sync the locks are what the open prepares hold exactly if the prepares that the entries leave open are on locked accounts only, and hold all accounts of the prepares here that the entries are about |
| `Locks.SyncLocksUntouched` | src/server/server.cc:633-668 | where new prepares among the entries are about free accounts, exactly if there are none and none held here is closed |
| `Locks.SyncFitsExact` | src/server/server.cc:633-668 | taking over entries keeps the whole discipline exactly if they fit: locks as above, no overlap, every prepare payable and no balance negative by the entries' commits, nothing queued already open |
| `Locks.SyncMidAccept` | src/server/server.cc:671-678 | a failed sync that ends between a proposal and its outcome leaves the locks right exactly if the batch has no transfer inside the cluster |
| `Locks.SyncRefusesOwnBatch` | src/server/server.cc:413-421 | a leader, reached from the start by a leader run, whose batch is refused after such a sync because of its own locks, which nobody holds any more |
| `Locks.SyncLeaksLock` | src/server/server.cc:633-668 | a leader, reached from the start by a leader run, whose sync closes its own open prepare and leaves the account locked; no decision gives it back |
| `Locks.StepKeepsLocks` | src/server/server.cc:161-393 | every step of a leader, prepare calls of others and fitting syncs included, keeps the locks equal to what is held |
| `Locks.RunsKeepLocks` | src/server/server.cc:161-393 | so does every run, from balances that are not negative |
| `Locks.LocksAreExactlyHeld` | src/server/server.cc:161-393 | over every leader run, with prepare calls, decisions, timeouts and fitting syncs in any order, the locks are the disjoint union of the accounts of accept-phase transfers and undecided prepares, each of them can still be paid, and no balance is negative |
| `FollowerLocks.AcceptLocks` | src/server/server.cc:438-480 | taking over a batch locks exactly its accounts in the cluster besides those locked before |
| `FollowerLocks.CommitLocks` | src/server/server.cc:482-513 | committing it gives back exactly its accounts |
| `FollowerLocks.LockedIffHeld` | src/server/server.cc:438-513 | over every run of a replica that stays connected an account is locked exactly if a batch about it was taken over since one about it was committed or an open prepare about it decided |
| `FollowerLocks.LocksOfRound` | src/server/server.cc:438-513 | as long as no round is given up behind its accept, the locks are accounts of the batch between its accept and its commit, and none otherwise |
| `FollowerLocks.GivenUpStaysLocked` | src/server/server.cc:373-382 | a leader and a replica, reached from the start, where the round is over, all messages are handled and the replica's accounts stay locked |
| `FollowerLocks.CommitUnlocksPrepared` | src/server/server.cc:494-502 | after the commit of a batch its prepares are open at the follower and their accounts are not locked |
| `FollowerLocks.FailoverOverdraws` | src/server/server.cc:494-502 | a follower, reached from the start, that leads a round of its own and overdraws the account of an open prepare when it is decided |
| `Restarts.RestartLocksExact` | src/server/server.cc:113-120 | after a restart the locks are what is held exactly if no open prepare has an account in this cluster |
| `Restarts.RestartOverdraws` | src/server/server.cc:113-120 | a leader, reached from the start by a leader run, that crashes with a prepare open, spends its account and is overdrawn by the decision |
| `Restarts.RestartAppliesTwice` | src/server/server.cc:229-241 | a transfer that was committed before a crash and is sent again is applied twice, and without the crash once |
| `Evidence.ValidateExtends` | src/server/server.cc:296-344 | every cross-shard item that survives the checks has been logged as prepared |
| `Evidence.CountDecides` | src/client/client.cc:305-341 | a decision falls exactly when the second of the two calls is answered, and is a commit exactly if both were positive |
| `Evidence.ServeOk` | src/server/server.cc:190-679 | a step of a server keeps the invariant of coordinator and servers |
| `Evidence.RestartBacks` | src/server/server.cc:113-120 | a restart loses no logged prepare and no answer that rests on one |
| `Evidence.ConsumeOk` | src/client/client.cc:305-341 | so does a reply taken up by the coordinator |
| `Evidence.RunsStayOk` | src/client/client.cc:59-100 | it holds after every step of every run |
| `Evidence.OneDecision` | src/client/client.cc:305-341 | no transaction is decided twice |
| `Evidence.CommitsHaveEvidence` | src/server/server.cc:190-227 | a cross-shard commit in any log at any time has a prepare of the same transaction in the log of a server of each of the two clusters |
| `Replicas.DecideTracks` | src/server/server.cc:190-217 | a decision or timeout adds nothing to the agreed part of a log |
| `Replicas.HandleAccept` | src/server/server.cc:438-480 | an accepted batch puts its cross-shard prepares in the leader's order |
| `Replicas.HandleCommit` | src/server/server.cc:482-513 | a commit puts its intra-shard entries in the leader's order |
| `Replicas.StepLeads` | src/server/server.cc:268-393 | the agreed part of the leader's own log is what its round messages say |
| `Replicas.AgreedDistinct` | src/server/server.cc:296-369 | no transaction occurs twice in the agreed order |
| `Replicas.SyncFollows` | src/server/server.cc:633-668 | a benign sync takes the replica on to where the leader was, and it follows from there |
| `Replicas.SyncPrefixExact` | src/server/server.cc:515-529 | a sync keeps the agreed part a prefix of the leader's exactly if it brings no agreed entry or the entry number asked from is the same place in both logs |
| `Replicas.ReplicaIsPrefix` | src/server/server.cc:438-513 | whatever a replica missed while disconnected, by whatever benign syncs it caught up and however decisions and timeouts interleave, the agreed part of its log is a prefix of the leader's, and all of it once it has handled the commit of a batch it accepted |
| `Replicas.ConnectedReplicaIsExact` | src/server/server.cc:396-513 | a replica that stays connected holds exactly the order of the messages it handled |
| `Replicas.ConnectedReplicaCatchesUp` | src/server/server.cc:396-513 | and exactly the leader's, once it has handled all |
| `Catchup.RepliesAreSlices` | src/server/server.cc:515-529 | whatever the leader answered to a sync call at any earlier time is a part of its log now, up to where it stood then |
| `Skipping.SyncSkipsEntry` | src/server/server.cc:413-421 | a leader and a replica, reached from the start, where an outcome has moved the replica's entry numbers and the leader's reply skips an agreed entry |
| `Catchup.AwaitingSyncRepeats` | src/server/server.cc:438-480 | a replica between promise and accept that syncs the round's entries stays a prefix exactly if the accept brings no cross-shard entry |
| `ServerImpl.ServerImpl.ProcessTpcDecision` | src/server/server.cc:190-217 | carries out the decision step |
| `ServerImpl.ServerImpl.PrepareTransaction` | src/server/server.cc:219-227 | logs and indexes a prepare |
| `ServerImpl.ServerImpl.CommitTransaction` | src/server/server.cc:229-241 | logs a commit and moves the money once |
| `ServerImpl.ServerImpl.EnqueueClientTxn` | src/server/server.cc:243-250 | carries out the step of a client call |
| `ServerImpl.ServerImpl.MaybeStart` | src/server/server.cc:252-264 | starts a round exactly if none runs and calls wait |
| `ServerImpl.ServerImpl.ReissuePrepareForCurrent` | src/server/server.cc:268-290 | asks for the next ballot |
| `ServerImpl.ServerImpl.OnPrepareQuorum` | src/server/server.cc:296-344 | checks the batch item by item as the specification does from the front, and proposes what is left |
| `ServerImpl.ServerImpl.OnAcceptQuorum` | src/server/server.cc:349-369 | commits the batch and answers its calls |
| `ServerImpl.ServerImpl.OnRoundAbort` | src/server/server.cc:373-382 | answers all calls of the round negatively, gives back what it locked and starts the next; `Answers` says what the replies mean |
| `ServerImpl.ServerImpl.Finish` | src/server/server.cc:384-393 | ends a round and starts the next |
| `ServerImpl.ServerImpl.ProcessPrepareCall` | src/server/server.cc:396-436 | carries out the step of a prepare call |
| `ServerImpl.ServerImpl.ProcessAcceptCall` | src/server/server.cc:438-480 | carries out the step of an accept call |
| `ServerImpl.ServerImpl.ProcessCommitCall` | src/server/server.cc:482-513 | carries out the step of a commit call; `FollowerLocks` and `Accepts` say what it leaves locked and that two of three hold what it logs |
| `ServerImpl.ServerImpl.ProcessSyncCall` | src/server/server.cc:515-529 | carries out the step of a sync call |
| `ServerImpl.ServerImpl.HandlePrepareReply` | src/server/server.cc:581-616 | carries out the step of a prepare reply, a deadline or a failure |
| `ServerImpl.ServerImpl.HandleAcceptReply` | src/server/server.cc:618-631 | carries out the step of an accept reply, a deadline or a failure; `Accepts.CommitNeedsQuorum` says that it commits with a quorum only |
| `ServerImpl.ServerImpl.HandleSyncReply` | src/server/server.cc:633-679 | carries out the step of a sync reply, entry by entry |
| `ServerImpl.ServerImpl.SweepTimeouts` | src/server/server.cc:161-182 | aborts exactly the prepares that are open for too long, in key order |
| `WalText.ReadFields` | src/server/wal.cc:38-42 | every list of numbers reads back as it was written |
| `WalText.CutFields` | src/server/wal.cc:38-42 | a list of numbers cut short, with nothing or something else behind it, is readable exactly if the cut leaves a digit of the last one |
| `Wal.ParseLine` | src/server/wal.cc:29-42 | every record reads back from its line |
| `Wal.ParseCut` | src/server/wal.cc:38-42 | for every record and every cut: unreadable exactly if no digit of the amount is left, otherwise the record with the digits left |
| `Wal.CutAmountChanges` | src/server/wal.cc:38-42 | a cut record that is taken for another amount |
| `Wal.CutWhole` | src/server/wal.cc:38-42 | a line that lacks only its break is the record |
| `Wal.ParseGlued` | src/server/wal.cc:38-42 | a line cut within its first word, with another line behind it, reads as one word and the numbers of the other |
| `Wal.CrossLiveMeaning` | src/server/wal.cc:53-76 | the index recovery builds holds exactly the transactions whose latest cross-shard record is a prepare, and leads to that record |
| `Wal.LiveMeaning` | src/server/wal.cc:226-251 | what the index of the running server holds |
| `Wal.IndexAgrees` | src/server/wal.cc:226-251 | the two agree on a transaction exactly if no sync brought an intra-shard commit of it after its latest prepare and the last recovery |
| `WalImpl.RebuildsLog` | src/server/wal.cc:53-76 | the log is rebuilt exactly if every record is of a kind recovery knows |
| `WalImpl.RebuildsBallot` | src/server/wal.cc:44 | the ballot number is the greatest of the starting one and all records |
| `WalImpl.RecoveryUnderTruncation` | src/server/wal.cc:8-79 | for every file of complete lines and a last one cut anywhere: the outcome, with the cut line skipped exactly if no digit of its amount is there |
| `WalImpl.RecoveryOfWhole` | src/server/wal.cc:8-79 | a file that was not cut is rebuilt record by record |
| `WalImpl.RecoveryAfterAppend` | src/server/wal.cc:114-142 | cut anywhere, recovered, appended to and recovered again: the outcome |
| `WalImpl.AppendAfterCutIsLost` | src/server/wal.cc:114-142 | the record appended first after a cut is in the recovered log exactly if the cut left nothing of its line; otherwise the log is as if it had not been written |
| `WalImpl.RecoveryRestoresLog` | src/server/wal.cc:8-79 | a restart finds the entries that were appended, in their order |
| `WalImpl.RecoveryRestoresIndex` | src/server/wal.cc:8-79 | a restart finds the very index, with its byte offsets, exactly if no transaction was touched by such a sync |
| `WalImpl.ReusedIdReopens` | src/server/wal.cc:239-246 | an id used again by a sync for an intra-shard commit is closed in the running index and open in the recovered one |
| `WalImpl.Lookup` | src/server/wal.cc:81-112 | the line at an indexed offset spells the open prepare of its transaction |
| `WalImpl.WAL.PrepareTransaction` | src/server/wal.cc:114-142 | appends the line and indexes it at the old end of the file |
| `WalImpl.WAL.CommitTransaction` | src/server/wal.cc:144-169 | appends an intra-shard commit and leaves the index alone |
| `WalImpl.WAL.GetTransactionFromFile` | src/server/wal.cc:81-112 | reads back from the file the prepare that is open |
| `WalImpl.WAL.CloseTransaction` | src/server/wal.cc:171-224 | closes exactly an open prepare, with its own ballot and transaction; otherwise nothing happens |
| `WalImpl.WAL.InsertEntry` | src/server/wal.cc:226-254 | appends any entry of a peer, and what becomes of the open prepares |
| `WalImpl.WAL.Recover` | src/server/wal.cc:8-79 | on any file, reads what the line-by-line definition says; on its own file, the log and index go on to be kept as before |
| `Durable.StepMirrors` | src/server/server.cc:113-695 | every step of a server, a restart included, only appends records to the file and keeps log and open prepares those of the records |
| `Durable.RunsMirror` | src/server/server.cc:161-241 | over every run, crashes included, log and open prepares are those of the records appended to the file |
| `Durable.RestartIsRecovery` | src/server/server.cc:113-120 | what a server restarts with is what recovery reads from the file: the log, the ballot number, and at every indexed offset the prepare of its transaction |
| `Durable.RestartKeepsOpen` | src/server/wal.cc:226-254 | the open prepares survive a restart exactly if no sync brought an intra-shard commit of one since its latest prepare and the last recovery |
| `Durable.ReusedIdReturns` | src/server/server.cc:633-668 | a run of one sync after which a restart opens a prepare that was closed |
| `Durable.ClusterRecorded` | src/server/server.cc:633-668 | in every run of a cluster, crashes included, every server can be restarted so, and no sync carries an entry that recovery would not read |
| `Kinds.StepKinds` | src/server/server.cc:190-679 | every step of a server, a restart included, keeps log entries, open prepares and batches to the kinds of their ids |
| `Kinds.RestartKeepsIndex` | src/server/server.cc:113-120 | then a restart finds the log and the open prepares as they were |
| `Kinds.IndexSurvives` | src/server/wal.cc:8-79 | in every run of a cluster, crashes and syncs included, in which clients use each id for one kind of transaction, every server that restarts finds its log and its open prepares as they were |
| `DbFormat.ReadsUnique` | leveldb/db/dbformat.cc:47-64 | a read of distinct entries has one answer |
| `Versions.FindFile` | leveldb/db/version_set.cc:87-105 | the first file whose largest key is at or past the key |
| `Versions.NewestFileWins` | leveldb/db/version_set.cc:281-322 | a hit in the newest level-0 file that has one outranks all other level-0 files |
| `Versions.ShallowWins` | leveldb/db/version_set.cc:281-322 | a hit in one level outranks everything deeper |
| `Versions.LevelGet` | leveldb/db/version_set.cc:302-322 | one sorted level: only the file found can hold the key |
| `Versions.ZeroGet` | leveldb/db/version_set.cc:281-300 | level 0, newest file first |
| `Versions.Get` | leveldb/db/version_set.cc:324-400 | returns what the newest stored version at or below the snapshot means |
| `Selection.GetOverlappingInputs` | leveldb/db/version_set.cc:498-538 | at level 0 the files of the least range closed under overlap, above it exactly those that touch the range; the restarts terminate |
| `Selection.FindLargestKey` | leveldb/db/version_set.cc:1308-1322 | the largest of the largest keys |
| `Selection.FindSmallestBoundaryFile` | leveldb/db/version_set.cc:1326-1344 | the first file that begins with an older version of the user key; none if there is none |
| `Selection.AddBoundaryInputs` | leveldb/db/version_set.cc:1360-1383 | terminates on every list of files and leaves no boundary file behind |
| `Selection.SetupOtherInputs` | leveldb/db/version_set.cc:1385-1446 | whichever branch is taken, the inputs contain the picks, leave no older version behind and no interleaved file in the level below |
| `Selection.PickCompaction` | leveldb/db/version_set.cc:1252-1304 | the same from any chosen file |
| `Selection.CompactRange` | leveldb/db/version_set.cc:1448-1479 | the same for a range, cut to a prefix or not; nothing is picked only if nothing overlaps |
| `Compactions.Compaction.IsBaseLevelForKey` | leveldb/db/version_set.cc:1517-1536 | the moving cursors answer like a full scan of the deeper levels, for keys that do not decrease |
| `Compactions.DoCompactionWork` | leveldb/db/db_impl.cc:926-1019 | the outputs together are the input without the droppable entries, wherever output files are closed |
| `Compactions.SaveTo` | leveldb/db/version_set.cc:672-714 | the merged level is the old one without the deleted files and with the added ones, in order |
| `Compactions.KeptExact` | leveldb/db/db_impl.cc:959-984 | an entry of the input is kept exactly if no newer version of its key there is visible to every live snapshot and it is no visible deletion with nothing behind it |
| `Compactions.KeptIsSafe` | leveldb/db/db_impl.cc:959-984 | what is dropped is shadowed for every live snapshot, or a deletion with nothing behind it |
| `Compactions.TrivialMoveIsSafe` | leveldb/db/version_set.cc:1499-1507 | moving the only input is safe too |
| `Compactions.CompactionKeepsValid` | leveldb/db/version_set.cc:1385-1446 | newer versions stay shallower and levels stay sorted and disjoint |
| `Compactions.CompactionPreservesReads` | leveldb/db/db_impl.cc:926-1019 | every read at a live snapshot gives the same value or absence before and after |
| `Merger.MergeExists` | leveldb/table/merger.cc:17-30 | every family of sorted children with distinct keys has a sorted merge |
| `Merger.MergingIterator.ShowsMerge` | leveldb/table/merger.cc:110-118 | at place g the iterator shows entry g of the merge |
| `Merger.MergingIterator.FindSmallest` | leveldb/table/merger.cc:148-161 | with all children ahead of place g, moves to it |
| `Merger.MergingIterator.FindLargest` | leveldb/table/merger.cc:163-176 | with all children behind place g, moves before it |
| `Merger.MergingIterator.SeekToFirst` | leveldb/table/merger.cc:31-37 | to the first entry of the merge |
| `Merger.MergingIterator.SeekToLast` | leveldb/table/merger.cc:39-45 | to the last |
| `Merger.MergingIterator.Seek` | leveldb/table/merger.cc:47-53 | to the first at or past the target |
| `Merger.MergingIterator.Next` | leveldb/table/merger.cc:55-79 | to the following entry, whichever direction came before |
| `Merger.MergingIterator.Prev` | leveldb/table/merger.cc:81-108 | to the preceding entry, whichever direction came before |
| `Background.MergedInput` | leveldb/db/version_set.cc:1219-1250 | walking the input iterator lists the sorted entries of all inputs |
| `Background.Install` | leveldb/db/db_impl.cc:879-895 | the new version has the inputs replaced by the outputs |
| `Background.Compact` | leveldb/db/db_impl.cc:707-787 | compacting any level from any file, with output files closed anywhere, replaces closed inputs with that file among them by the file itself a level down or by files of exactly the entries not to be dropped, and leaves a well-formed version and every read at a live snapshot unchanged |
| `DbIter.UserMapIncreases` | leveldb/db/db_iter.cc:141-308 | the user map visible at a snapshot is sorted |
| `DbIter.UserMapIsReads` | leveldb/db/db_iter.cc:141-308 | it holds a pair exactly if a read of the key at the snapshot returns the value |
| `DbIter.Cursor.ShowsUserMap` | leveldb/db/db_iter.cc:60-72 | at position n the iterator shows pair n of the user map, in either direction |
| `DbIter.Cursor.FindNextUserEntry` | leveldb/db/db_iter.cc:177-207 | stops at the pair sought and skips what is hidden |
| `DbIter.Cursor.FindPrevUserEntry` | leveldb/db/db_iter.cc:236-276 | finds the pair before, with its newest visible value |
| `DbIter.Cursor.Next` | leveldb/db/db_iter.cc:141-175 | from pair n to pair n + 1, also after a step back |
| `DbIter.Cursor.Prev` | leveldb/db/db_iter.cc:209-234 | from pair n to pair n - 1, also after a step forward |
| `DbIter.Cursor.Seek` | leveldb/db/db_iter.cc:278-290 | to the first pair at or past the target |
| `DbIter.Cursor.SeekToFirst` | leveldb/db/db_iter.cc:292-301 | to the first pair |
| `DbIter.Cursor.SeekToLast` | leveldb/db/db_iter.cc:303-308 | to the last pair |
| `Scans.AddIterators` | leveldb/db/version_set.cc:229-245 | the children are the memtables, the files of level 0 and the runs of the other levels that have files |
| `Scans.ChildrenMergeable` | leveldb/db/version_set.cc:229-245 | no two of them hold a version of one key under one sequence number |
| `Scans.MergeHolds` | leveldb/db/db_impl.cc:1082-1107 | their merge holds exactly the entries of memtables and version |
| `Scans.NewIterator` | leveldb/db/db_impl.cc:1167-1177 | a cursor over that merge at a sequence number |
| `Scans.Scan` | leveldb/db/db_iter.cc:141-207 | walking it from the first pair on lists in key order exactly the pairs that reads at the snapshot return |
| `Scans.ScanBack` | leveldb/db/db_iter.cc:209-276 | walking it from the last pair back lists the same |
| `Scans.ScanAcrossCompaction` | leveldb/db/db_impl.cc:707-787 | a scan forward before and a scan backward after a compaction, at a live snapshot, give the same list |
| `Coding.FixedRoundTrip` | leveldb/util/coding.h:54-94 | four bytes read back |
| `Coding.VarintAt` | leveldb/util/coding.cc:21-48 | every 32-bit number reads back from its varint, which has at most five bytes |
| `RecordLog.UnmaskMask` | leveldb/util/crc32c.h:29-39 | unmasking undoes masking |
| `RecordLog.Writer.constructor` | leveldb/db/log_writer.cc:23-30 | a writer on an empty file, or at the end of a log |
| `RecordLog.Writer.EmitPhysicalRecord` | leveldb/db/log_writer.cc:82-108 | one more chunk, at its place |
| `RecordLog.Writer.AddRecord` | leveldb/db/log_writer.cc:34-80 | the record's fragments, first to last, go behind the old chunks, none across a block |
| `LogReader.ChunkChecks` | leveldb/db/log_reader.cc:243-260 | the checksum of a chunk that was written matches |
| `LogReader.Reader.ReadPhysicalRecord` | leveldb/db/log_reader.cc:189-271 | the next chunk if the file holds all of it, otherwise the end of the file without complaint |
| `LogReader.Reader.ReadRecord` | leveldb/db/log_reader.cc:56-174 | the next record if the file holds all of it, otherwise nothing, without complaint |
| `LogReader.Reader.ReadAll` | leveldb/db/log_reader.cc:56-174 | every record that lies wholly before the cut and nothing else |
| `LogReader.WriteCutRead` | leveldb/db/log_writer.cc:34-108 | for all records and every cut of the file that holds them: reading returns exactly the records that end before the cut, and reports no corruption |
| `BlockFormat.EntryDecodes` | leveldb/table/block.cc:55-75 | an entry decodes to its lengths, by the fast path or the slow one |
| `BlockBuilder.BlockBuilder.SharedPrefix` | leveldb/table/block_builder.cc:80-84 | the longest prefix shared with the last key |
| `BlockBuilder.BlockBuilder.Add` | leveldb/table/block_builder.cc:71-105 | one more pair, at a restart point after every interval |
| `BlockBuilder.BlockBuilder.Finish` | leveldb/table/block_builder.cc:61-69 | the bytes hold the entries, the restart offsets and their count |
| `BlockBuilder.BlockBounded` | leveldb/table/block_builder.cc:54-69 | a bound on the size of a block by its pairs |
| `BlockIter.Iter.ShowsPair` | leveldb/table/block.cc:127-137 | at entry i the iterator shows pair i |
| `BlockIter.Iter.ParseNextKey` | leveldb/table/block.cc:250-277 | what is parsed from any bytes, or that they are corrupt |
| `BlockIter.Iter.Next` | leveldb/table/block.cc:138-141 | forward by one entry |
| `BlockIter.Iter.Prev` | leveldb/table/block.cc:143-162 | back by exactly one entry |
| `BlockIter.Iter.Seek` | leveldb/table/block.cc:164-227 | from any position to the first key at or past the target, with the shortcut that starts from the current entry |
| `BlockIter.Iter.SeekToFirst` | leveldb/table/block.cc:229-232 | to the first entry |
| `BlockIter.Iter.SeekToLast` | leveldb/table/block.cc:234-239 | to the last entry |
| `BlockIter.BuildAndRead` | leveldb/table/block_builder.cc:61-105 | for all increasing keys and every restart interval the block gives back the very pairs, unless they outgrow 32-bit offsets |
| `SkipList.PublishOk` | leveldb/db/skiplist.h:355-366 | after each single link update every level is sorted and within the level below |
| `SkipList.SkipList.FindGreaterOrEqual` | leveldb/db/skiplist.h:258-279 | the first node at or past the key, and on every level the node before its place |
| `SkipList.SkipList.FindLessThan` | leveldb/db/skiplist.h:281-300 | the last node below the key |
| `SkipList.SkipList.FindLast` | leveldb/db/skiplist.h:302-320 | the last node |
| `SkipList.SkipList.Contains` | leveldb/db/skiplist.h:368-376 | whether the key is there |
| `SkipList.SkipList.Insert` | leveldb/db/skiplist.h:334-366 | adds the key, one store after the other; every state on the way is sound and holds the old keys or those with the new one |
| `SkipList.StepReads` | leveldb/db/skiplist.h:258-279 | one read of a link in any such state moves a search soundly |
| `SkipList.SearchAmongInsertions` | leveldb/db/skiplist.h:258-300 | a search that reads link by link while insertions go on returns the first node at or past its target, or the last one below it, in the state of its last read |
| `SkipList.LastAmongInsertions` | leveldb/db/skiplist.h:302-320 | a walk to the end while insertions go on returns the last node in the state of its last read |
| `HandleTable.KeysUnique` | leveldb/util/cache.cc:79-93 | no two handles of the table have the same key |
| `HandleTable.HandleTable.Lookup` | leveldb/util/cache.cc:75-77 | the handle of the key, or that there is none |
| `HandleTable.HandleTable.Insert` | leveldb/util/cache.cc:79-93 | the handle is in the table, and the one it replaces is returned |
| `HandleTable.HandleTable.Remove` | leveldb/util/cache.cc:95-103 | exactly the handle of the key leaves |
| `HandleTable.HandleTable.FindPointer` | leveldb/util/cache.cc:115-121 | the place of the key in its chain, or the chain's end |
| `HandleTable.HandleTable.Resize` | leveldb/util/cache.cc:123-147 | spreads the same handles over more chains |
| `LruCache.RefOk` | leveldb/util/cache.cc:218-224 | one more client keeps lists, counts and usage right |
| `LruCache.UnrefOk` | leveldb/util/cache.cc:226-238 | so does one fewer; the deleter runs exactly when the last reference goes |
| `LruCache.EraseOk` | leveldb/util/cache.cc:308-317 | so does leaving the cache |
| `LruCache.LRUCache.Lookup` | leveldb/util/cache.cc:253-260 | the cached entry of the key gets a client; nothing is found only if none is cached |
| `LruCache.LRUCache.Release` | leveldb/util/cache.cc:226-265 | one client fewer; the deleter runs exactly for the last reference; the unused entries stay in the order of their last release |
| `LruCache.LRUCache.Insert` | leveldb/util/cache.cc:267-304 | ends within capacity or with nothing to evict; every entry evicted for room was released before every unused entry that stays, no more are evicted than necessary and nothing in use; the replaced entry goes |
| `LruCache.LRUCache.Erase` | leveldb/util/cache.cc:319-322 | exactly the entry of the key leaves, and is deleted exactly if no client holds it |
| `LruCache.LRUCache.Prune` | leveldb/util/cache.cc:324-334 | what stays cached is exactly what clients hold |
| `WriteBatch.ContentsRead` | leveldb/db/write_batch.cc:42-100 | sequence number, count and updates of every batch read back in order |
| `WriteBatch.WriteBatch.Update` | leveldb/db/write_batch.cc:98-109 | the bytes are those of the batch with one more update |
| `WriteBatch.WriteBatch.SetSequence` | leveldb/db/write_batch.cc:94-96 | the bytes are those of the batch with the new number |
| `WriteBatch.WriteBatch.Append` | leveldb/db/write_batch.cc:143-147 | the bytes are those of both batches' updates |
| `WriteBatch.InsertInto` | leveldb/db/write_batch.cc:42-80 | whatever the bytes, the entries before the first fault, numbered in turn; sound exactly if there is no fault and the count is right |
| `GroupCommit.BuildBatchGroup` | leveldb/db/db_impl.cc:1280-1326 | the longest group that takes no sync writer under a non-sync leader and stays within its size |
| `GroupCommit.EnqueueOk` | leveldb/db/db_impl.cc:1205-1214 | a writer may join the queue at any moment |
| `GroupCommit.AddRecordOk` | leveldb/db/db_impl.cc:1230-1235 | logging the group keeps the invariant |
| `GroupCommit.SyncOk` | leveldb/db/db_impl.cc:1236-1252 | so does a sync that succeeds or fails |
| `GroupCommit.InsertOk` | leveldb/db/db_impl.cc:1243-1245 | so does every single entry put into the memtable |
| `GroupCommit.FinishOk` | leveldb/db/db_impl.cc:1254-1275 | so does the end of a group |
| `GroupCommit.RunsStayOk` | leveldb/db/db_impl.cc:1205-1275 | the invariant holds after every interleaving of any threads, with appends and syncs that fail |
| `GroupCommit.VisibleIsCommitted` | leveldb/db/db_impl.cc:1205-1275 | at any moment the entries up to the last sequence number are, in order, exactly the updates of the writers that were told all is well |
| `GroupCommit.VisibleNumber` | leveldb/db/db_impl.cc:1222-1256 | update i of those is numbered i + 1, and further by the updates of the groups that failed before its own |
| `GroupCommit.NumbersConsecutive` | leveldb/db/db_impl.cc:1222-1256 | they are numbered without a gap exactly if no group with updates failed before one with updates that succeeded |
| `GroupCommit.FailureSkipsNumber` | leveldb/db/db_impl.cc:1222-1256 | a run from the start in which the only update that succeeds is numbered 2 |
| `GroupCommit.SyncedBeforeTold` | leveldb/db/db_impl.cc:1236-1252 | after every interleaving, the batch of a writer that asked for a sync and was told all is well is part of a log record that a successful sync has covered |
| `GroupCommit.LogCoversMem` | leveldb/db/db_impl.cc:1230-1245 | at any moment the log holds all that is in the memtable, in whole batches |
| `GroupCommit.RecoverLogFile` | leveldb/db/db_impl.cc:426-467 | on any records, what is replayed, where it stops, and the greatest sequence number; a record too small or unsound is passed over, or ends it with an error under paranoid checks |
| `GroupCommit.ReplayEncoded` | leveldb/db/db_impl.cc:426-467 | replaying the records of batches gives the entries of the batches |
| `GroupCommit.DB.Enqueue` | leveldb/db/db_impl.cc:1205-1214 | carries out the step |
| `GroupCommit.DB.BackgroundError` | leveldb/db/db_impl.cc:659-665 | an error reported by another thread; from then on no group finds room |
| `GroupCommit.DB.Begin` | leveldb/db/db_impl.cc:1216-1228 | the longest group from the front of the queue, numbered behind all that is visible, or nothing if there is no room |
| `GroupCommit.DB.AddRecord` | leveldb/db/db_impl.cc:1230-1235 | carries out the step, with or without success; the record holds the group |
| `GroupCommit.DB.Sync` | leveldb/db/db_impl.cc:1236-1252 | carries out the step: with success all records so far are on disk, after an error nothing more is written |
| `GroupCommit.DB.Insert` | leveldb/db/db_impl.cc:1243-1245 | carries out the step |
| `GroupCommit.DB.Finish` | leveldb/db/db_impl.cc:1254-1275 | every writer of the group completes once, in queue order, with the leader's status |
| `GroupCommit.DB.constructor` | leveldb/db/db_impl.cc:126-150 | an empty database from which every run starts |
| `GroupCommit.DB.Recover` | leveldb/db/db_impl.cc:385-503 | at any moment, recovery finds all that was in the memtable and only whole batches; in a quiet database exactly the memtable, with no number above the last |
| `CrashRecovery.CrashAndRecover` | leveldb/db/db_impl.cc:385-503 | the log of a database at any moment, as a file, cut at any byte: recovery finds exactly the batches that lie wholly before the cut, all that was in the memtable if none is cut, and every batch that a sync writer was told of if the cut spares what was synced |

## Left out

- Agreement across ballots: the proposer never reads the accepted values in a promise, so the code does not establish it.
- Atomic commit across clusters under lock timeouts, and that rounds end: not established by the code; `Progress` is about single exchanges between two servers.
- gRPC, completion queues and deadlines: calls are steps that may be delivered, lost or timed out.
- `ServerImpl` has the fields of the original grouped into records, and takes the clock once for each batch instead of once for each prepare.
- WalImpl.WAL.Recover: a file that cannot be opened leaves everything as it was; files are strings here and can always be opened.
- GroupCommit.DB.Begin: the switch to a new memtable and log file in MakeRoomForWrite is not modelled; `mem` and `log` stand for all of them together, and the width of counts and sequence numbers is a precondition.
- GroupCommit.DB.AddRecord: a failed append leaves no readable record.
- LogReader.Reader.ReadRecord: for reading from the start of a file; skipping to an initial offset and resynchronising behind it are not modelled, nor are files damaged in other ways than by a cut.
- BlockIter.Iter.Seek: the reference is a block that a builder made; a block of other bytes is only shown to be read without going past its end.
- LruCache.LRUCache.Insert: the two circular lists are sequences, so relinking of list nodes is not modelled; sharding by hash bits is left out.
- HandleTable.HandleTable.Insert: chains are sequences, handles are numbers.
- SkipList.SkipList.Insert: nodes and links are numbers in sequences, and memory is sequentially consistent; the height is a parameter.
- Versions.Get: the memtables in front of the levels, seek statistics, table caches, filters and index blocks are left out.
- Scans.NewIterator: memtables are sorted lists, and the iterator over the files of a level is the list of their entries; read sampling is left out.
- WalImpl.AppendAfterCutIsLost: says nothing of records appended after that one.
- Compactions.DoCompactionWork: entries whose key does not parse and errors in reading or writing are left out.
- The checksum is any function with the law of extension; its tables are left out.
- Compression, environments, file names, memory mapping, command parsing, statistics, printing, benchmarks, bindings and repair tools: easy members or operating-system code.
