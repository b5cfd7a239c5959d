/**
  Client calls are neither lost nor answered twice, and positive replies follow
  arrival order (src/server/server.cc: enqueueClientTxn to finishRound;
  src/server/in_call.cc: a call is parked until completeTransfer).
*/
module Calls {
  import opened Protocol
  import opened ServerSpec

  function CallsOf(items: seq<Item>): seq<int> {
    seq(|items|, i requires 0 <= i < |items| => items[i].call)
  }

  function AnsweredCalls(answers: seq<Answer>): seq<int> {
    seq(|answers|, i requires 0 <= i < |answers| => answers[i].call)
  }

  /** The calls answered positively, in the order of the answers. */
  function PositiveCalls(answers: seq<Answer>): seq<int> {
    if answers == [] then []
    else
      PositiveCalls(answers[..|answers| - 1]) + (if answers[|answers| - 1].ack then [answers[|answers| - 1].call] else [])
  }

  /** The calls that reached the server, in arrival order. */
  function Arrivals(evs: seq<Event>): seq<int> {
    if evs == [] then []
    else Arrivals(evs[..|evs| - 1]) + (if evs[|evs| - 1].Client? then [evs[|evs| - 1].call] else [])
  }

  // ---------------------------------------------------------------- subsequences

  /** The places f, in increasing order, pick a out of b. */
  ghost predicate Picks(f: seq<nat>, a: seq<int>, b: seq<int>) {
    && |f| == |a|
    && (forall i :: 0 <= i < |f| ==> f[i] < |b| && b[f[i]] == a[i])
    && (forall i, j :: 0 <= i < j < |f| ==> f[i] < f[j])
  }

  /** a is a subsequence of b. */
  ghost predicate IsSub(a: seq<int>, b: seq<int>) {
    exists f :: Picks(f, a, b)
  }

  lemma SubSelf(a: seq<int>)
    ensures IsSub(a, a)
  {
    assert Picks(seq(|a|, i => i), a, a);
  }

  lemma SubTrans(a: seq<int>, b: seq<int>, c: seq<int>)
    requires IsSub(a, b) && IsSub(b, c)
    ensures IsSub(a, c)
  {
    var f :| Picks(f, a, b);
    var g :| Picks(g, b, c);
    assert Picks(seq(|f|, i requires 0 <= i < |f| => g[f[i]]), a, c);
  }

  lemma SubConcat(a: seq<int>, b: seq<int>, c: seq<int>, d: seq<int>)
    requires IsSub(a, c) && IsSub(b, d)
    ensures IsSub(a + b, c + d)
  {
    var f :| Picks(f, a, c);
    var g :| Picks(g, b, d);
    assert Picks(f + seq(|g|, i requires 0 <= i < |g| => |c| + g[i]), a + b, c + d);
  }

  lemma SubSnoc(a: seq<int>, b: seq<int>, x: int)
    requires IsSub(a, b)
    ensures IsSub(a, b + [x]) && IsSub(a + [x], b + [x])
  {
    assert Picks([], [], [x]);
    SubConcat(a, [], b, [x]);
    assert a + [] == a;
    SubSelf([x]);
    SubConcat(a, [x], b, [x]);
  }

  /** Thinning out a middle part. */
  lemma SubMiddle(a: seq<int>, b: seq<int>, b': seq<int>, c: seq<int>)
    requires IsSub(b', b)
    ensures IsSub(a + b' + c, a + b + c)
  {
    SubSelf(a);
    SubSelf(c);
    SubConcat(a, b', a, b);
    SubConcat(a + b', c, a + b, c);
  }

  // ---------------------------------------------------------------- where the calls are

  /** The calls queued, in the running round, answered, and answered positively. */
  datatype Whereabouts = Whereabouts(pending: seq<int>, current: seq<int>, answered: seq<int>, positive: seq<int>)

  function Where(s: Server): Whereabouts {
    Whereabouts(CallsOf(s.round.pending), CallsOf(s.round.current), AnsweredCalls(s.answers), PositiveCalls(s.answers))
  }

  function Bag(w: Whereabouts): multiset<int> {
    multiset(w.pending) + multiset(w.current) + multiset(w.answered)
  }

  /** Positive replies so far, then the running round, then the queue. */
  function Order(w: Whereabouts): seq<int> {
    w.positive + w.current + w.pending
  }

  /** A step kept every call, answered none twice, and kept the order. */
  ghost predicate Moved(w: Whereabouts, w': Whereabouts) {
    Bag(w') == Bag(w) && IsSub(Order(w'), Order(w))
  }

  lemma MovedSelf(w: Whereabouts)
    ensures Moved(w, w)
  {
    SubSelf(Order(w));
  }

  lemma MovedTrans(u: Whereabouts, v: Whereabouts, w: Whereabouts)
    requires Moved(u, v) && Moved(v, w)
    ensures Moved(u, w)
  {
    SubTrans(Order(w), Order(v), Order(u));
  }

  lemma MovedStart(w: Whereabouts)
    requires w.current == []
    ensures Moved(w, w.(current := w.pending, pending := []))
  {
    var w' := w.(current := w.pending, pending := []);
    assert Bag(w') == Bag(w);
    assert Order(w') == Order(w);
    SubSelf(Order(w));
  }

  /** The whole round answered, positively or negatively. */
  function Answered(w: Whereabouts, ack: bool): Whereabouts {
    Whereabouts(w.pending, [], w.answered + w.current, if ack then w.positive + w.current else w.positive)
  }

  lemma AnsweredOrder(w: Whereabouts, ack: bool)
    ensures IsSub(Order(Answered(w, ack)), Order(w))
  {
    var a, b, c := w.positive, w.current, w.pending;
    if ack {
      assert a + b + [] + c == a + b + c;
      SubSelf(a + b + c);
    } else {
      assert Picks([], [], b);
      SubMiddle(a, b, [], c);
    }
  }

  lemma MovedAnswered(w: Whereabouts, ack: bool)
    ensures Moved(w, Answered(w, ack))
  {
    assert Bag(Answered(w, ack)) == Bag(w);
    AnsweredOrder(w, ack);
  }

  /** Some of the round answered negatively. */
  lemma MovedThinned(w: Whereabouts, kept: seq<int>, dropped: seq<int>)
    requires multiset(kept) + multiset(dropped) == multiset(w.current) && IsSub(kept, w.current)
    ensures Moved(w, w.(current := kept, answered := w.answered + dropped))
  {
    SubMiddle(w.positive, w.current, kept, w.pending);
  }

  // ---------------------------------------------------------------- lists of calls

  lemma {:induction false} PositiveAppend(a: seq<Answer>, b: seq<Answer>)
    ensures PositiveCalls(a + b) == PositiveCalls(a) + PositiveCalls(b)
  {
    if b == [] {
      assert a + b == a;
    } else {
      PositiveAppend(a, b[..|b| - 1]);
      assert (a + b)[..|a + b| - 1] == a + b[..|b| - 1];
    }
  }

  lemma {:induction false} PositiveReplies(items: seq<Item>, ack: bool)
    ensures PositiveCalls(Replies(items, ack)) == if ack then CallsOf(items) else []
  {
    if items != [] {
      PositiveReplies(items[..|items| - 1], ack);
      assert Replies(items, ack)[..|items| - 1] == Replies(items[..|items| - 1], ack);
    }
  }

  lemma RepliesAnswer(answers: seq<Answer>, items: seq<Item>, ack: bool)
    ensures AnsweredCalls(answers + Replies(items, ack)) == AnsweredCalls(answers) + CallsOf(items)
  {
  }

  lemma PositiveSnoc(answers: seq<Answer>, x: Answer)
    requires !x.ack
    ensures PositiveCalls(answers + [x]) == PositiveCalls(answers)
  {
    assert (answers + [x])[..|answers|] == answers;
  }

  lemma CallsSnoc(items: seq<Item>, it: Item)
    ensures CallsOf(items + [it]) == CallsOf(items) + [it.call]
  {
  }

  lemma AnswersSnoc(answers: seq<Answer>, x: Answer)
    ensures AnsweredCalls(answers + [x]) == AnsweredCalls(answers) + [x.call]
  {
  }

  /** One more item, either kept or answered. */
  lemma BagSnoc(kept: seq<int>, answered: seq<int>, all: seq<int>, call: int)
    requires multiset(kept) + multiset(answered) == multiset(all)
    ensures multiset(kept + [call]) + multiset(answered) == multiset(all + [call])
    ensures multiset(kept) + multiset(answered + [call]) == multiset(all + [call])
  {
  }

  /** Validation drops no call it does not answer. */
  lemma {:induction false} ValidateBag(cfg: Config, st: Store, items: seq<Item>, b: Ballot, now: int)
    ensures var v := Validate(cfg, st, items, b, now);
            multiset(CallsOf(v.kept)) + multiset(AnsweredCalls(v.answers)) == multiset(CallsOf(items))
  {
    if items != [] {
      var front, it := items[..|items| - 1], items[|items| - 1];
      ValidateBag(cfg, st, front, b, now);
      var v := Validate(cfg, st, front, b, now);
      var x := Answer(it.call, false, it.req.tid);
      BagSnoc(CallsOf(v.kept), AnsweredCalls(v.answers), CallsOf(front), it.call);
      assert items == front + [it];
      CallsSnoc(front, it);
      CallsSnoc(v.kept, it);
      AnswersSnoc(v.answers, x);
    }
  }

  /** Validation answers nobody positively. */
  lemma {:induction false} ValidateNegative(cfg: Config, st: Store, items: seq<Item>, b: Ballot, now: int)
    ensures PositiveCalls(Validate(cfg, st, items, b, now).answers) == []
  {
    if items != [] {
      var front, it := items[..|items| - 1], items[|items| - 1];
      ValidateNegative(cfg, st, front, b, now);
      PositiveSnoc(Validate(cfg, st, front, b, now).answers, Answer(it.call, false, it.req.tid));
    }
  }

  /** Validation keeps the order of the calls it does not abort. */
  lemma {:induction false} ValidateOrder(cfg: Config, st: Store, items: seq<Item>, b: Ballot, now: int)
    ensures IsSub(CallsOf(Validate(cfg, st, items, b, now).kept), CallsOf(items))
  {
    if items == [] {
      SubSelf([]);
    } else {
      var front, it := items[..|items| - 1], items[|items| - 1];
      ValidateOrder(cfg, st, front, b, now);
      var kept := Validate(cfg, st, front, b, now).kept;
      SubSnoc(CallsOf(kept), CallsOf(front), it.call);
      assert items == front + [it];
      CallsSnoc(front, it);
      CallsSnoc(kept, it);
    }
  }

  // ---------------------------------------------------------------- the handlers

  /** A round is running exactly when it has items, so starting one never discards an item. */
  predicate RoundOk(s: Server) {
    && (s.round.running <==> s.round.current != [])
    && (s.round.awaitPrepare ==> s.round.running)
    && (s.round.awaitAccept ==> s.round.running)
  }

  ghost predicate Kept(s: Server, s': Server) {
    RoundOk(s') && Moved(Where(s), Where(s'))
  }

  lemma StartKeeps(s: Server)
    requires RoundOk(s)
    ensures Kept(s, MaybeStartRound(s))
  {
    var w := Where(s);
    if s.round.running || s.round.inSync || s.round.pending == [] {
      MovedSelf(w);
    } else {
      MovedStart(w);
      assert Where(MaybeStartRound(s)) == w.(current := w.pending, pending := []);
    }
  }

  /** The state in which a round is over and the next one may start. */
  function Ended(s: Server): Server {
    s.(acc := s.acc.(promised := false, accepted := false, acceptBatch := []),
       round := s.round.(running := false, awaitPrepare := false, awaitAccept := false, current := []))
  }

  /** Ending a round whose calls the step has accounted for. */
  lemma FinishKeeps(s: Server, s1: Server)
    requires Moved(Where(s), Where(s1).(current := []))
    ensures Kept(s, FinishRound(s1))
  {
    assert Where(Ended(s1)) == Where(s1).(current := []);
    StartKeeps(Ended(s1));
    MovedTrans(Where(s), Where(Ended(s1)), Where(FinishRound(s1)));
  }

  /** A round that ends with the same reply to everyone. */
  lemma AnswerAll(s: Server, ack: bool, s1: Server)
    requires s1.round.pending == s.round.pending && s1.answers == s.answers + Replies(s.round.current, ack)
    ensures Kept(s, FinishRound(s1))
  {
    var w := Where(s);
    PositiveAppend(s.answers, Replies(s.round.current, ack));
    PositiveReplies(s.round.current, ack);
    MovedAnswered(w, ack);
    RepliesAnswer(s.answers, s.round.current, ack);
    assert Where(s1).(current := []) == Answered(w, ack);
    FinishKeeps(s, s1);
  }

  lemma PrepareQuorumKeeps(s: Server, now: int)
    requires RoundOk(s) && s.round.running
    ensures Kept(s, OnPrepareQuorum(s, now))
  {
    var v := Validate(s.cfg, s.store, s.round.current, s.acc.promisedNum, now);
    var s1 := s.(store := v.store, answers := s.answers + v.answers, round := s.round.(awaitPrepare := false, current := v.kept));
    ValidateBag(s.cfg, s.store, s.round.current, s.acc.promisedNum, now);
    ValidateOrder(s.cfg, s.store, s.round.current, s.acc.promisedNum, now);
    ValidateNegative(s.cfg, s.store, s.round.current, s.acc.promisedNum, now);
    ThinnedKeeps(s, s1, v.kept, v.answers);
    if v.kept == [] {
      FinishKeeps(s, s1);
    } else {
      assert Where(OnPrepareQuorum(s, now)) == Where(s1);
    }
  }

  lemma ThinnedKeeps(s: Server, s1: Server, kept: seq<Item>, answers: seq<Answer>)
    requires s1.round.pending == s.round.pending && s1.round.current == kept && s1.answers == s.answers + answers
    requires multiset(CallsOf(kept)) + multiset(AnsweredCalls(answers)) == multiset(CallsOf(s.round.current))
    requires PositiveCalls(answers) == [] && IsSub(CallsOf(kept), CallsOf(s.round.current))
    ensures Moved(Where(s), Where(s1))
  {
    var w := Where(s);
    MovedThinned(w, CallsOf(kept), AnsweredCalls(answers));
    PositiveAppend(s.answers, answers);
    assert AnsweredCalls(s1.answers) == w.answered + AnsweredCalls(answers);
    assert Where(s1) == w.(current := CallsOf(kept), answered := w.answered + AnsweredCalls(answers));
  }

  lemma AcceptQuorumKeeps(s: Server)
    ensures Kept(s, OnAcceptQuorum(s))
  {
    AnswerAll(s, true, s.(store := SettleAll(s.store, s.round.current, s.acc.acceptNum),
                          answers := s.answers + Replies(s.round.current, true),
                          round := s.round.(awaitAccept := false),
                          out := s.out + [CommitMsg(s.acc.acceptNum)]));
  }

  lemma AbortKeeps(s: Server, preparePhase: bool)
    ensures Kept(s, OnRoundAbort(s, preparePhase))
  {
    var locks := if preparePhase then s.store.locks else ReleaseIntra(s.store.locks, s.round.current);
    AnswerAll(s, false, s.(store := s.store.(locks := locks), answers := s.answers + Replies(s.round.current, false)));
  }

  lemma PrepareVerdictKeeps(s: Server, o: Outcome<PrepareRes>, asked: Ballot, now: int)
    requires RoundOk(s) && s.round.running
    ensures Kept(s, PrepareVerdict(s, o, asked, now))
  {
    MovedSelf(Where(s));
    if PrepareVerdict(s, o, asked, now) == OnPrepareQuorum(s, now) {
      PrepareQuorumKeeps(s, now);
    } else if PrepareVerdict(s, o, asked, now) == OnRoundAbort(s, true) {
      AbortKeeps(s, true);
    } else {
      assert Where(PrepareVerdict(s, o, asked, now)) == Where(s);
    }
  }

  lemma AcceptVerdictKeeps(s: Server)
    requires RoundOk(s)
    ensures Kept(s, AcceptVerdict(s))
  {
    MovedSelf(Where(s));
    if s.round.acceptSuccesses >= Majority {
      AcceptQuorumKeeps(s);
    } else {
      AbortKeeps(s, false);
    }
  }

  lemma ResumeKeeps(s: Server)
    requires RoundOk(s)
    ensures Kept(s, Resume(s))
  {
    var s1 := s.(round := s.round.(inSync := false));
    MovedSelf(Where(s));
    StartKeeps(s1);
  }

  /** A call arrived: it is queued or answered, once, behind every earlier one. */
  ghost predicate Joined(w: Whereabouts, w': Whereabouts, call: int) {
    Bag(w') == Bag(w) + multiset{call} && IsSub(Order(w'), Order(w) + [call])
  }

  lemma JoinedThenMoved(u: Whereabouts, v: Whereabouts, w: Whereabouts, call: int)
    requires Joined(u, v, call) && Moved(v, w)
    ensures Joined(u, w, call)
  {
    SubTrans(Order(w), Order(v), Order(u) + [call]);
  }

  lemma JoinQueue(w: Whereabouts, call: int)
    ensures Joined(w, w.(pending := w.pending + [call]), call)
  {
    assert Order(w.(pending := w.pending + [call])) == Order(w) + [call];
    SubSelf(Order(w) + [call]);
  }

  lemma JoinRefused(w: Whereabouts, call: int)
    ensures Joined(w, w.(answered := w.answered + [call]), call)
  {
    SubSelf(Order(w));
    SubSnoc(Order(w), Order(w), call);
  }

  lemma RefusalKeeps(s: Server, call: int, tid: Tid)
    ensures var x := Answer(call, false, tid); Joined(Where(s), Where(s.(answers := s.answers + [x])), call)
  {
    var x := Answer(call, false, tid);
    JoinRefused(Where(s), call);
    PositiveSnoc(s.answers, x);
    AnswersSnoc(s.answers, x);
  }

  lemma QueueKeeps(s: Server, it: Item)
    requires RoundOk(s)
    ensures var s' := MaybeStartRound(s.(round := s.round.(pending := s.round.pending + [it])));
            RoundOk(s') && Joined(Where(s), Where(s'), it.call)
  {
    var s1 := s.(round := s.round.(pending := s.round.pending + [it]));
    JoinQueue(Where(s), it.call);
    CallsSnoc(s.round.pending, it);
    assert Where(s1) == Where(s).(pending := Where(s).pending + [it.call]);
    StartKeeps(s1);
    JoinedThenMoved(Where(s), Where(s1), Where(MaybeStartRound(s1)), it.call);
  }

  // ---------------------------------------------------------------- runs

  /** A step that touches neither the round, nor the queue, nor the answers. */
  predicate Aside(s: Server, s': Server) {
    && s'.round.pending == s.round.pending && s'.round.current == s.round.current && s'.answers == s.answers
    && s'.round.running == s.round.running
    && s'.round.awaitPrepare == s.round.awaitPrepare && s'.round.awaitAccept == s.round.awaitAccept
  }

  lemma AsideKeeps(s: Server, s': Server)
    requires RoundOk(s) && Aside(s, s')
    ensures RoundOk(s') && Where(s') == Where(s) && Kept(s, s')
  {
    MovedSelf(Where(s));
  }

  /** Counting a reply changes a counter only. */
  predicate OnlyCounted(s: Server, s': Server) {
    && s'.cfg == s.cfg && s'.store == s.store && s'.acc == s.acc && s'.out == s.out
    && s'.round.inSync == s.round.inSync && Aside(s, s')
  }

  lemma CountPrepareOnly(s: Server, o: Outcome<PrepareRes>, asked: Ballot)
    ensures OnlyCounted(s, CountPrepare(s, o, asked))
  {
  }

  lemma CountAcceptOnly(s: Server, o: Outcome<(Ballot, bool)>, asked: Ballot)
    ensures OnlyCounted(s, CountAccept(s, o, asked))
  {
  }

  lemma PeerCallKeeps(s: Server, ev: Event)
    requires RoundOk(s)
    requires ev.OnPrepare? || ev.OnAccept? || ev.OnCommit? || ev.OnSync? || ev.Decided? || ev.Expired? || ev.Disconnect?
    ensures Kept(s, Step(s, ev))
  {
    assert Aside(s, Step(s, ev));
    AsideKeeps(s, Step(s, ev));
  }

  lemma PrepareReplyKeeps(s: Server, o: Outcome<PrepareRes>, asked: Ballot, now: int)
    requires RoundOk(s)
    ensures Kept(s, PrepareReply(s, o, asked, now))
  {
    AsideKeeps(s, s);
    if s.round.awaitPrepare {
      CountPrepareOnly(s, o, asked);
      AsideKeeps(s, CountPrepare(s, o, asked));
      PrepareVerdictKeeps(CountPrepare(s, o, asked), o, asked, now);
    }
  }

  lemma AcceptReplyKeeps(s: Server, o: Outcome<(Ballot, bool)>, asked: Ballot)
    requires RoundOk(s)
    ensures Kept(s, AcceptReply(s, o, asked))
  {
    AsideKeeps(s, s);
    if s.round.awaitAccept {
      CountAcceptOnly(s, o, asked);
      AsideKeeps(s, CountAccept(s, o, asked));
      AcceptVerdictKeeps(CountAccept(s, o, asked));
    }
  }

  lemma SyncReplyKeeps(s: Server, o: Outcome<SyncRes>)
    requires RoundOk(s)
    ensures Kept(s, SyncReply(s, o))
  {
    var s1 := if o.Replied? && o.res.ack then Absorb(s, o.res) else s;
    AsideKeeps(s, s1);
    ResumeKeeps(s1);
  }

  /** Every step but a crash keeps every call, adds exactly the arriving one, and keeps the order. */
  lemma StepKeepsCalls(s: Server, ev: Event)
    requires RoundOk(s) && !ev.Crash?
    ensures RoundOk(Step(s, ev))
    ensures if ev.Client? then Joined(Where(s), Where(Step(s, ev)), ev.call) else Moved(Where(s), Where(Step(s, ev)))
  {
    match ev
    case Client(call, req, cross) =>
      if s.disconnected {
        RefusalKeeps(s, call, req.tid);
      } else {
        QueueKeeps(s, Item(req, call, cross));
      }
    case PrepareAnswer(o, asked, at) => PrepareReplyKeeps(s, o, asked, at);
    case AcceptAnswer(o, asked) => AcceptReplyKeeps(s, o, asked);
    case SyncAnswer(o) => SyncReplyKeeps(s, o);
    case _ => PeerCallKeeps(s, ev);
  }

  lemma RepliesKeepConfig(s: Server, o: Outcome<PrepareRes>, a: Outcome<(Ballot, bool)>, asked: Ballot, now: int)
    ensures PrepareVerdict(s, o, asked, now).cfg == s.cfg && AcceptVerdict(s).cfg == s.cfg
  {
  }

  lemma StepKeepsConfig(s: Server, ev: Event)
    ensures Step(s, ev).cfg == s.cfg
  {
    match ev
    case PrepareAnswer(o, asked, at) => RepliesKeepConfig(CountPrepare(s, o, asked), o, Failed, asked, at);
    case AcceptAnswer(o, asked) => RepliesKeepConfig(CountAccept(s, o, asked), Failed, o, asked, 0);
    case _ =>
  }

  lemma ArrivalsStep(w: Whereabouts, w': Whereabouts, front: seq<int>, call: int, joined: bool)
    requires Bag(w) == multiset(front) && IsSub(Order(w), front)
    requires if joined then Joined(w, w', call) else Moved(w, w')
    ensures var all := front + if joined then [call] else []; Bag(w') == multiset(all) && IsSub(Order(w'), all)
  {
    if joined {
      SubSnoc(Order(w), front, call);
      SubTrans(Order(w'), Order(w) + [call], front + [call]);
    } else {
      SubTrans(Order(w'), Order(w), front);
      assert front + [] == front;
    }
  }

  /**
    Main result, over every run of one incarnation: the calls that arrived are exactly
    those queued, in the running round or answered, each once; and the positive
    replies, then the round, then the queue follow the order of arrival.
  */
  lemma {:induction false} CallsNeitherLostNorRepeated(cfg: Config, init: map<Account, int>, evs: seq<Event>)
    requires forall ev :: ev in evs ==> !ev.Crash?
    ensures var s := Exec(Init(cfg, init), evs);
            RoundOk(s) && Bag(Where(s)) == multiset(Arrivals(evs)) && IsSub(Order(Where(s)), Arrivals(evs))
  {
    if evs == [] {
      assert Order(Where(Init(cfg, init))) == [];
      SubSelf([]);
    } else {
      var front, ev := evs[..|evs| - 1], evs[|evs| - 1];
      CallsNeitherLostNorRepeated(cfg, init, front);
      var s := Exec(Init(cfg, init), front);
      StepKeepsCalls(s, ev);
      ArrivalsStep(Where(s), Where(Step(s, ev)), Arrivals(front), if ev.Client? then ev.call else 0, ev.Client?);
    }
  }
}
