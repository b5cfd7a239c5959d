/**
  Syncs of a replica (src/server/server.cc: processSyncCall, handleSyncReply): every reply the
  leader ever sends is a benign one or one of two kinds that break the order, and each kind
  does break it.
*/
module Catchup {
  import opened Protocol
  import opened ServerSpec
  import opened Calls
  import opened Replicas

  // ---------------------------------------------------------------- replies that come late

  /** The number of the last entry inserted is below the length of the log. */
  predicate Short(st: Store) {
    st.lastInserted < |st.log|
  }

  lemma {:induction false} ValidateGrows(cfg: Config, st: Store, items: seq<Item>, b: Ballot, now: int)
    ensures var st' := Validate(cfg, st, items, b, now).store; st.log <= st'.log && (Short(st) ==> Short(st'))
  {
    if items != [] {
      ValidateGrows(cfg, st, items[..|items| - 1], b, now);
    }
  }

  lemma {:induction false} SettleGrows(st: Store, items: seq<Item>, b: Ballot)
    ensures st.log <= SettleAll(st, items, b).log && (Short(st) ==> Short(SettleAll(st, items, b)))
  {
    if items != [] {
      SettleGrows(st, items[..|items| - 1], b);
    }
  }

  lemma PrepareReplyGrows(s: Server, o: Outcome<PrepareRes>, asked: Ballot, now: int)
    ensures var st := PrepareReply(s, o, asked, now).store; s.store.log <= st.log && (Short(s.store) ==> Short(st))
  {
    PrepareVerdictStores(CountPrepare(s, o, asked), o, asked, now);
    ValidateGrows(s.cfg, s.store, s.round.current, s.acc.promisedNum, now);
  }

  lemma AcceptReplyGrows(s: Server, o: Outcome<(Ballot, bool)>, asked: Ballot)
    ensures var st := AcceptReply(s, o, asked).store; s.store.log <= st.log && (Short(s.store) ==> Short(st))
  {
    AcceptVerdictStores(CountAccept(s, o, asked));
    SettleGrows(s.store, s.round.current, s.acc.acceptNum);
  }

  lemma StoreGrows(s: Server, ev: Event)
    requires SaneEvent(s, ev)
    ensures s.store.log <= Step(s, ev).store.log && (Short(s.store) ==> Short(Step(s, ev).store))
  {
    match ev
    case PrepareAnswer(o, asked, at) => PrepareReplyGrows(s, o, asked, at);
    case AcceptAnswer(o, asked) => AcceptReplyGrows(s, o, asked);
    case _ =>
  }

  /** The later server has all that the earlier one had. */
  ghost predicate Grown(s: Server, s': Server) {
    s.store.log <= s'.store.log && Rounds(s.out) <= Rounds(s'.out) && s'.cfg == s.cfg && (Short(s.store) ==> Short(s'.store))
  }

  lemma LeaderStep(p: Pair, v: Move)
    requires Possible(p, v)
    ensures Grown(p.leader, Next(p, v).leader)
  {
    if v.AtLeader? {
      StoreGrows(p.leader, v.ev);
      OutGrows(p.leader, v.ev);
      RoundsPrefix(p.leader.out, Step(p.leader, v.ev).out);
      StepKeepsConfig(p.leader, v.ev);
    }
  }

  lemma GrownTrans(a: Server, b: Server, c: Server)
    requires Grown(a, b) && Grown(b, c)
    ensures Grown(a, c)
  {
  }

  lemma LeaderGrowsOne(ps: seq<Pair>, vs: seq<Move>, k: nat)
    requires IsRun(ps, vs) && k < |vs|
    ensures Grown(ps[k].leader, ps[k + 1].leader)
  {
    RunStep(ps, vs, k);
    LeaderStep(ps[k], vs[k]);
  }

  lemma {:induction false} ChainGrown(ls: seq<Server>, i: nat, n: nat)
    requires i <= n < |ls| && forall k :: i <= k < n ==> Grown(ls[k], ls[k + 1])
    ensures Grown(ls[i], ls[n])
  {
    if i < n {
      ChainGrown(ls, i, n - 1);
      GrownTrans(ls[i], ls[n - 1], ls[n]);
    }
  }

  /** The leader's log and messages only grow. */
  lemma LeaderGrows(ps: seq<Pair>, vs: seq<Move>, i: nat, n: nat)
    requires IsRun(ps, vs) && i <= n < |ps|
    ensures Grown(ps[i].leader, ps[n].leader)
  {
    var ls := seq(|ps|, k requires 0 <= k < |ps| => ps[k].leader);
    forall k | i <= k < n ensures Grown(ls[k], ls[k + 1]) {
      LeaderGrowsOne(ps, vs, k);
    }
    ChainGrown(ls, i, n);
  }

  /** Whatever the leader answered to a sync call at any earlier time is a part of its log now, up to where it stood then. */
  lemma RepliesAreSlices(ps: seq<Pair>, vs: seq<Move>, i: nat, n: nat, last: int, res: SyncRes)
    requires IsRun(ps, vs) && i <= n < |ps| && last >= -1
    requires SyncCall(ps[i].leader, last).out == ps[i].leader.out + [SyncReplyMsg(res)] && res.ack
    ensures var upto := |ps[i].leader.store.log|;
            0 <= last + 1 <= upto && AtBoundary(ps[n].leader, upto) && res.logs == Slice(ps[n], last, upto)
  {
    var log, ms := ps[i].leader.store.log, Rounds(ps[i].leader.out);
    LeaderGrows(ps, vs, 0, i);
    LeaderGrows(ps, vs, i, n);
    RunsStayOk(ps, vs, i);
    assert (ps[i].leader.out + [SyncReplyMsg(res)])[|ps[i].leader.out|] == SyncReplyMsg(res);
    assert ps[n].leader.store.log[..|log|] == log && Rounds(ps[n].leader.out)[..|ms|] == ms;
    assert res.logs == log[last + 1..] == ps[n].leader.store.log[last + 1..|log|];
  }

  // ---------------------------------------------------------------- replies that do not fit

  /**
    The other condition of a benign sync is needed, too: a replica that has promised a ballot
    and then learns its entries from a sync logs them once more when the accept arrives.
  */
  lemma AwaitingSyncRepeats(p: Pair, last: int, upto: nat, ballot: Ballot, j: nat, b: Ballot, batch: seq<TransferReq>, now: int)
    requires PairOk(p) && Aligned(p, last) && last + 1 <= upto <= |p.leader.store.log| && Paxos(Slice(p, last, upto)) != []
    requires j <= |Rounds(p.leader.out)| && Paxos(p.leader.store.log[..upto]) == Agreed(p.leader.cfg, Rounds(p.leader.out)[..j])
    requires p.handled < |Rounds(p.leader.out)| && Rounds(p.leader.out)[p.handled] == AcceptMsg(b, batch)
    requires AwaitsAccept(p.replica, Rounds(p.leader.out), p.handled) && p.replica.acc.promised && !p.replica.disconnected
    ensures var s := AcceptCall(SyncReply(p.replica, Replied(SyncRes(true, Slice(p, last, upto), ballot))), b, batch, now);
            Paxos(s.store.log) <= Paxos(p.leader.store.log) <==> CrossEntries(p.replica.cfg, batch, b) == []
  {
    var cfg, ms, k := p.replica.cfg, Rounds(p.leader.out), p.handled;
    var s1 := SyncReply(p.replica, Replied(SyncRes(true, Slice(p, last, upto), ballot)));
    AwaitingSyncs(p, last, upto, ballot, j);
    AcceptFollowsPrepare(cfg, ms, k, b);
    AcceptAdds(s1, Agreed(cfg, ms[..j]), Crossed(cfg, ms), b, batch, now);
    RepeatedPlace(cfg, ms, k, j, b, batch);
    PairIsPrefix(p);
  }

  lemma AcceptFollowsPrepare(cfg: Config, ms: seq<Message>, k: nat, b: Ballot)
    requires WellFormed(cfg, ms) && 0 < k < |ms| && ms[k].AcceptMsg? && ms[k].ballot == b
    ensures ms[k - 1].PrepareMsg? && ms[k - 1].ballot == b
  {
    PrefixNext(cfg, ms, k);
    assert ms[..k][k - 1] == ms[k - 1];
  }

  lemma AcceptAdds(s: Server, order: seq<LogEntry>, crossed: set<Tid>, b: Ballot, batch: seq<TransferReq>, now: int)
    requires Tracks(s.store, order, crossed) && !s.disconnected && s.acc.promised && s.acc.promisedNum.num == b.num
    ensures Paxos(AcceptCall(s, b, batch, now).store.log) == order + CrossEntries(s.cfg, batch, b)
  {
    AcceptTracks(s.cfg, s.store, order, crossed, batch, b, now);
  }

  /** What the sync leaves of a replica that had promised. */
  lemma AwaitingSyncs(p: Pair, last: int, upto: nat, ballot: Ballot, j: nat)
    requires PairOk(p) && Aligned(p, last) && last + 1 <= upto <= |p.leader.store.log| && Paxos(Slice(p, last, upto)) != []
    requires j <= |Rounds(p.leader.out)| && Paxos(p.leader.store.log[..upto]) == Agreed(p.leader.cfg, Rounds(p.leader.out)[..j])
    requires AwaitsAccept(p.replica, Rounds(p.leader.out), p.handled)
    ensures var s, s', ms := p.replica, SyncReply(p.replica, Replied(SyncRes(true, Slice(p, last, upto), ballot))), Rounds(p.leader.out);
            && s'.cfg == s.cfg && s'.disconnected == s.disconnected && s'.acc == s.acc.(ballotNum := ballot.num)
            && Tracks(s'.store, Agreed(s.cfg, ms[..j]), Crossed(s.cfg, ms)) && |Agreed(s.cfg, ms[..j])| > |Agreed(s.cfg, ms[..p.handled])|
  {
    SliceKinds(p, last, upto);
    CatchupReaches(p, last, upto, j);
    PassiveSync(p.replica, SyncRes(true, Slice(p, last, upto), ballot), Paxos(p.replica.store.log), Crossed(p.replica.cfg, Rounds(p.leader.out)));
  }

  lemma PassiveSync(s: Server, res: SyncRes, order: seq<LogEntry>, crossed: set<Tid>)
    requires Passive(s) && res.ack && Tracks(s.store, order, crossed) && KindsOk(res.logs, crossed)
    ensures var s' := SyncReply(s, Replied(res));
            && s'.cfg == s.cfg && s'.disconnected == s.disconnected && s'.acc == s.acc.(ballotNum := res.lastBallot.num)
            && Tracks(s'.store, order + Paxos(res.logs), crossed)
  {
    SyncTracks(s.cfg, s.store, order, crossed, res.logs);
  }

  lemma AcceptPart(cfg: Config, ms: seq<Message>, k: nat, b: Ballot, batch: seq<TransferReq>)
    requires WellFormed(cfg, ms) && k < |ms| && ms[k] == AcceptMsg(b, batch)
    ensures Agreed(cfg, ms[..k]) + CrossEntries(cfg, batch, b) <= Agreed(cfg, ms)
  {
    PrefixNext(cfg, ms, k);
  }

  /** The entries of an accept, logged where a later message leads. */
  lemma RepeatedPlace(cfg: Config, ms: seq<Message>, k: nat, j: nat, b: Ballot, batch: seq<TransferReq>)
    requires WellFormed(cfg, ms) && k < |ms| && ms[k] == AcceptMsg(b, batch) && j <= |ms|
    requires |Agreed(cfg, ms[..j])| > |Agreed(cfg, ms[..k])|
    ensures Agreed(cfg, ms[..j]) + CrossEntries(cfg, batch, b) <= Agreed(cfg, ms) <==> CrossEntries(cfg, batch, b) == []
  {
    AcceptPart(cfg, ms, k, b, batch);
    PrefixOrder(cfg, ms, j);
    AgreedDistinct(cfg, ms);
    RepeatedPart(Agreed(cfg, ms[..j]), Agreed(cfg, ms[..k]), CrossEntries(cfg, batch, b), Agreed(cfg, ms));
  }

  lemma RepeatedPart(order: seq<LogEntry>, before: seq<LogEntry>, more: seq<LogEntry>, all: seq<LogEntry>)
    requires order <= all && before + more <= all && DistinctEntries(all) && |order| > |before|
    ensures order + more <= all <==> more == []
  {
    PartAt(before, more, all);
    PlaceExact(order, more, all, |before|);
  }

  lemma PartAt<T>(a: seq<T>, b: seq<T>, all: seq<T>)
    requires a + b <= all
    ensures |a| + |b| <= |all| && all[|a|..|a| + |b|] == b
  {
    assert all[..|a| + |b|] == a + b;
  }
}
