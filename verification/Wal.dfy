/**
  The write-ahead log: appended records, the index of open prepares by byte offset, and
  recovery (src/server/wal.cc).
*/
module Wal {
  import opened Protocol
  import opened WalText

  /** IN_ and IS_ records are intra-shard, written by a commit and by a sync; CS_ records are cross-shard. */
  datatype Op = InCommit | IsPrepare | IsCommit | IsAbort | IsBlank | CsPrepare | CsCommit | CsAbort | CsBlank

  datatype Rec = Rec(op: Op, tid: Tid, ballotNum: int, ballotServerId: int, txn: Transaction)

  function OpName(op: Op): string {
    match op
    case InCommit => "IN_COMMIT"
    case IsPrepare => "IS_PREPARE"
    case IsCommit => "IS_COMMIT"
    case IsAbort => "IS_ABORT"
    case IsBlank => "IS_"
    case CsPrepare => "CS_PREPARE"
    case CsCommit => "CS_COMMIT"
    case CsAbort => "CS_ABORT"
    case CsBlank => "CS_"
  }

  function Nums(r: Rec): seq<int> {
    [r.tid, r.ballotNum, r.ballotServerId, r.txn.sender, r.txn.receiver, r.txn.amount]
  }

  function Line(r: Rec): string {
    OpName(r.op) + Fields(Nums(r))
  }

  /** A line as recovery and lookup read it: a word and six numbers. */
  function Parse(line: string): (p: Option<(string, seq<int>)>)
    ensures p.Some? ==> |p.value.1| == 6
  {
    match ReadWord(line)
    case None => None
    case Some(w) =>
      ReadIntsLength(w.1, 6);
      (match ReadInts(w.1, 6)
       case None => None
       case Some(ns) => Some((w.0, ns)))
  }

  function EntryIn(r: Rec, kind: TxnType, status: TxnStatus): LogEntry {
    LogEntry(r.tid, r.ballotNum, r.ballotServerId, r.txn, kind, status)
  }

  // ---------------------------------------------------------------- lines

  predicate NoSpace(w: string) {
    forall i :: 0 <= i < |w| ==> w[i] != ' '
  }

  lemma {:induction false} WordRunOf(w: string, rest: string)
    requires NoSpace(w) && (rest == [] || rest[0] == ' ')
    ensures WordRun(w + rest) == |w|
  {
    if w == [] {
      assert w + rest == rest;
    } else {
      assert (w + rest)[1..] == w[1..] + rest;
      WordRunOf(w[1..], rest);
    }
  }

  lemma ReadOp(w: string, rest: string)
    requires w != [] && NoSpace(w) && (rest == [] || rest[0] == ' ')
    ensures ReadWord(w + rest) == Some((w, rest))
  {
    WordRunOf(w, rest);
    assert (w + rest)[..|w|] == w && (w + rest)[|w|..] == rest;
  }

  lemma OpNameOk(op: Op)
    ensures OpName(op) != [] && NoSpace(OpName(op))
  {
  }

  /** Every record reads back as it was written. */
  lemma ParseLine(r: Rec)
    ensures Parse(Line(r)) == Some((OpName(r.op), Nums(r)))
  {
    OpNameOk(r.op);
    ReadOp(OpName(r.op), Fields(Nums(r)));
    ReadFields(Nums(r));
  }

  /** Where the digits of the amount begin. */
  function AmountDigits(r: Rec): nat {
    |OpName(r.op)| + LastDigits(Nums(r))
  }

  /** The record that an interrupted line spells once a digit of the amount is there. */
  function CutRec(r: Rec, k: nat): Rec {
    if k <= AmountDigits(r) then r else r.(txn := r.txn.(amount := Shortened(r.txn.amount, k - AmountDigits(r))))
  }

  /**
    An interrupted line is unreadable exactly if it stops before the first digit of its
    amount; otherwise it reads as the record with the digits that are there.
  */
  lemma ParseCut(r: Rec, k: nat)
    requires k <= |Line(r)|
    ensures Parse(Line(r)[..k]) == if k <= AmountDigits(r) then None else Some((OpName(r.op), Nums(CutRec(r, k))))
  {
    assert Line(r)[..k] + "" == Line(r)[..k];
    if k <= |OpName(r.op)| {
      CutInOp(r, k);
    } else {
      ParseCutBefore(r, k, "");
    }
  }

  /** The same where something that is no number follows, once the first word is whole. */
  lemma ParseCutBefore(r: Rec, k: nat, rest: string)
    requires |OpName(r.op)| < k <= |Line(r)| && Foreign(rest)
    ensures Parse(Line(r)[..k] + rest) == if k <= AmountDigits(r) then None else Some((OpName(r.op), Nums(CutRec(r, k))))
  {
    var w, ns := OpName(r.op), Nums(r);
    var k' := k - |w|;
    OpNameOk(r.op);
    assert Line(r)[..k] + rest == w + (Fields(ns)[..k'] + rest);
    assert Fields(ns)[0] == ' ';
    ReadOp(w, Fields(ns)[..k'] + rest);
    CutFields(ns, k', rest);
    CutNums(r, k);
  }

  lemma CutInOp(r: Rec, k: nat)
    requires k <= |OpName(r.op)|
    ensures Parse(Line(r)[..k]) == None
  {
    var w := OpName(r.op);
    OpNameOk(r.op);
    assert Line(r)[..k] == w[..k] + "";
    if k > 0 {
      ReadOp(w[..k], "");
      ReadForeign("", 6);
    }
  }

  /** A line that is cut within its first word, with another line behind it: one word, and the numbers of the other line. */
  lemma ParseGlued(cut: Rec, k: nat, r: Rec)
    requires k <= |OpName(cut.op)|
    ensures Parse(Line(cut)[..k] + Line(r)) == Some((OpName(cut.op)[..k] + OpName(r.op), Nums(r)))
  {
    var w := OpName(cut.op)[..k] + OpName(r.op);
    OpNameOk(cut.op);
    OpNameOk(r.op);
    assert Line(cut)[..k] + Line(r) == w + Fields(Nums(r));
    ReadOp(w, Fields(Nums(r)));
    ReadFields(Nums(r));
  }

  lemma LineIsForeign(r: Rec)
    ensures Foreign(Line(r))
  {
    assert Line(r)[0] == OpName(r.op)[0];
  }

  lemma CutNums(r: Rec, k: nat)
    ensures k > AmountDigits(r) ==> WithLast(Nums(r), Shortened(r.txn.amount, k - AmountDigits(r))) == Nums(CutRec(r, k))
  {
  }

  /** A line that lacks only its break reads as the record. */
  lemma CutWhole(r: Rec)
    ensures CutRec(r, |Line(r)|) == r
  {
    var d := Digits(Magnitude(r.txn.amount));
    LengthOfFields(Nums(r), r.txn.amount);
    ValueOfDigits(Magnitude(r.txn.amount));
    assert d[..|d|] == d;
  }

  /** A record whose amount was cut after its first digit comes back with another amount. */
  lemma CutAmountChanges()
    ensures var r := Rec(CsPrepare, 1, 1, 1, Transaction(2, 3, 45));
            exists k :: 0 <= k < |Line(r)| && Parse(Line(r)[..k]) == Some(("CS_PREPARE", [1, 1, 1, 2, 3, 4]))
  {
    var r := Rec(CsPrepare, 1, 1, 1, Transaction(2, 3, 45));
    assert Digits(45) == Digits(4) + "5" && Digits(4) == "4";
    LengthOfFields(Nums(r), 45);
    var k := AmountDigits(r) + 1;
    ParseCut(r, k);
    ValueOfDigits(45);
    assert Digits(45)[..1] == "4";
    ValueOfDigits(4);
    assert Shortened(45, 1) == 4;
  }

  /** The line goes on for as many digits as the last number has. */
  lemma {:induction false} LengthOfFields(ns: seq<int>, last: int)
    requires ns != [] && ns[|ns| - 1] == last
    ensures |Fields(ns)| == LastDigits(ns) + |Digits(Magnitude(last))|
  {
    if |ns| == 1 {
      assert ns[1..] == [];
    } else {
      LengthOfFields(ns[1..], last);
    }
  }

  // ---------------------------------------------------------------- no line holds a line break

  predicate NoBreak(s: string) {
    forall i :: 0 <= i < |s| ==> s[i] != '\n'
  }

  lemma DigitsNoBreak(n: int)
    ensures NoBreak(Field(n))
  {
    ValueOfDigits(Magnitude(n));
  }

  lemma {:induction false} FieldsNoBreak(ns: seq<int>)
    ensures NoBreak(Fields(ns))
  {
    if ns != [] {
      DigitsNoBreak(ns[0]);
      FieldsNoBreak(ns[1..]);
    }
  }

  lemma LineNoBreak(r: Rec)
    ensures NoBreak(Line(r)) && Line(r) != []
  {
    FieldsNoBreak(Nums(r));
    OpNameOk(r.op);
    assert NoBreak(OpName(r.op));
  }

  // ---------------------------------------------------------------- the index

  /** Records by number, as recovery rebuilds the index: only cross-shard records count. */
  function CrossLive(recs: seq<Rec>): map<Tid, nat> {
    if recs == [] then map[]
    else
      var front, r := recs[..|recs| - 1], recs[|recs| - 1];
      if r.op == CsPrepare then CrossLive(front)[r.tid := |front|] else if IsOutcome(r.op) then CrossLive(front) - {r.tid} else CrossLive(front)
  }

  /**
    The same as appends keep it since recovery last read base records: prepares enter,
    outcomes leave, an intra-shard commit from a sync included.
  */
  function Live(recs: seq<Rec>, base: nat): map<Tid, nat> {
    if |recs| <= base then CrossLive(recs)
    else
      var front, r := recs[..|recs| - 1], recs[|recs| - 1];
      if Enters(r.op) then Live(front, base)[r.tid := |front|] else if Leaves(r.op) then Live(front, base) - {r.tid} else Live(front, base)
  }

  /** The open prepares that the rebuilt index leads to. */
  function CrossOpen(recs: seq<Rec>): map<Tid, LogEntry> {
    if recs == [] then map[]
    else
      var front, r := recs[..|recs| - 1], recs[|recs| - 1];
      if r.op == CsPrepare then CrossOpen(front)[r.tid := EntryIn(r, Cross, Prepared)]
      else if IsOutcome(r.op) then CrossOpen(front) - {r.tid} else CrossOpen(front)
  }

  /** The open prepares themselves. */
  function OpenOf(recs: seq<Rec>, base: nat): map<Tid, LogEntry> {
    if |recs| <= base then CrossOpen(recs)
    else
      var front, r := recs[..|recs| - 1], recs[|recs| - 1];
      if Enters(r.op) then OpenOf(front, base)[r.tid := EntryIn(r, Cross, Prepared)]
      else if Leaves(r.op) then OpenOf(front, base) - {r.tid} else OpenOf(front, base)
  }

  predicate Enters(op: Op) {
    op == CsPrepare || op == IsPrepare
  }

  predicate Leaves(op: Op) {
    op == CsCommit || op == CsAbort || op == IsCommit || op == IsAbort
  }

  predicate IsOutcome(op: Op) {
    op == CsCommit || op == CsAbort
  }

  lemma IndexSnoc(recs: seq<Rec>, base: nat, r: Rec)
    requires base <= |recs|
    ensures Live(recs + [r], base) ==
            if Enters(r.op) then Live(recs, base)[r.tid := |recs|] else if Leaves(r.op) then Live(recs, base) - {r.tid} else Live(recs, base)
    ensures OpenOf(recs + [r], base) ==
            if Enters(r.op) then OpenOf(recs, base)[r.tid := EntryIn(r, Cross, Prepared)]
            else if Leaves(r.op) then OpenOf(recs, base) - {r.tid} else OpenOf(recs, base)
  {
    assert (recs + [r])[..|recs|] == recs;
  }

  /** Record i is the latest cross-shard record of transaction t, and a prepare. */
  predicate LatestIsPrepare(recs: seq<Rec>, t: Tid, i: nat) {
    && i < |recs| && recs[i].tid == t && recs[i].op == CsPrepare
    && forall j :: i < j < |recs| && recs[j].tid == t ==> recs[j].op != CsPrepare && !IsOutcome(recs[j].op)
  }

  /** What the logs ever hold: intra-shard commits, and cross-shard prepares and outcomes. */
  predicate Regular(recs: seq<Rec>) {
    forall i :: 0 <= i < |recs| ==>
      recs[i].op == InCommit || recs[i].op == IsCommit || recs[i].op == CsPrepare || IsOutcome(recs[i].op)
  }

  lemma LatestSnoc(front: seq<Rec>, r: Rec, t: Tid, i: nat)
    ensures LatestIsPrepare(front + [r], t, i) <==>
            if i == |front| then r.tid == t && r.op == CsPrepare
            else LatestIsPrepare(front, t, i) && !(r.tid == t && (r.op == CsPrepare || IsOutcome(r.op)))
  {
    assert forall j :: 0 <= j < |front| ==> (front + [r])[j] == front[j];
    assert (front + [r])[|front|] == r;
  }

  /** The rebuilt index holds exactly the transactions whose latest cross-shard record is a prepare, and leads to it. */
  lemma {:induction false} CrossLiveMeaning(recs: seq<Rec>, t: Tid)
    ensures t in CrossLive(recs) <==> exists i :: LatestIsPrepare(recs, t, i)
    ensures forall i :: LatestIsPrepare(recs, t, i) ==> t in CrossLive(recs) && CrossLive(recs)[t] == i
  {
    if recs != [] {
      var front, r, n := recs[..|recs| - 1], recs[|recs| - 1], |recs| - 1;
      assert recs == front + [r];
      CrossLiveMeaning(front, t);
      forall i ensures LatestIsPrepare(recs, t, i) <==>
                       if i == n then r.tid == t && r.op == CsPrepare
                       else LatestIsPrepare(front, t, i) && !(r.tid == t && (r.op == CsPrepare || IsOutcome(r.op)))
      {
        LatestSnoc(front, r, t, i);
      }
      assert LatestIsPrepare(recs, t, n) <==> r.tid == t && r.op == CsPrepare;
    }
  }

  /** No sync has brought an intra-shard commit of t since record i and the last recovery. */
  predicate Untouched(recs: seq<Rec>, base: nat, t: Tid, i: nat) {
    forall j :: i < j < |recs| && base <= j && recs[j].tid == t ==> recs[j].op != IsCommit
  }

  /** The live index drops, besides, what a later intra-shard commit from a sync touches. */
  lemma {:induction false} LiveMeaning(recs: seq<Rec>, base: nat, t: Tid)
    requires Regular(recs)
    ensures t in Live(recs, base) <==> exists i :: LatestIsPrepare(recs, t, i) && Untouched(recs, base, t, i)
    ensures forall i :: LatestIsPrepare(recs, t, i) && Untouched(recs, base, t, i) ==> t in Live(recs, base) && Live(recs, base)[t] == i
  {
    if |recs| <= base {
      CrossLiveMeaning(recs, t);
      forall i | LatestIsPrepare(recs, t, i) ensures Untouched(recs, base, t, i) {
      }
    } else {
      var front, r, n := recs[..|recs| - 1], recs[|recs| - 1], |recs| - 1;
      assert recs == front + [r];
      LiveMeaning(front, base, t);
      forall i ensures LatestIsPrepare(recs, t, i) && Untouched(recs, base, t, i) <==>
                       if i == n then r.tid == t && r.op == CsPrepare
                       else LatestIsPrepare(front, t, i) && Untouched(front, base, t, i) && !(r.tid == t && r.op != InCommit)
      {
        LatestSnoc(front, r, t, i);
        UntouchedSnoc(front, base, r, t, i);
      }
      assert LatestIsPrepare(recs, t, n) && Untouched(recs, base, t, n) <==> r.tid == t && r.op == CsPrepare;
    }
  }

  lemma UntouchedSnoc(front: seq<Rec>, base: nat, r: Rec, t: Tid, i: nat)
    requires base <= |front|
    ensures Untouched(front + [r], base, t, i) <==> Untouched(front, base, t, i) && !(i < |front| && r.tid == t && r.op == IsCommit)
  {
    assert forall j :: 0 <= j < |front| ==> (front + [r])[j] == front[j];
    assert (front + [r])[|front|] == r;
  }

  /**
    The live index of a transaction agrees with the rebuilt one exactly if no sync has
    brought an intra-shard commit of it after its latest prepare and the last recovery.
  */
  lemma IndexAgrees(recs: seq<Rec>, base: nat, t: Tid)
    requires Regular(recs)
    ensures (t in Live(recs, base) <==> t in CrossLive(recs)) <==> forall i :: LatestIsPrepare(recs, t, i) ==> Untouched(recs, base, t, i)
    ensures t in Live(recs, base) ==> t in CrossLive(recs) && Live(recs, base)[t] == CrossLive(recs)[t]
  {
    CrossLiveMeaning(recs, t);
    LiveMeaning(recs, base, t);
    forall i, j | LatestIsPrepare(recs, t, i) && LatestIsPrepare(recs, t, j) ensures i == j {
    }
  }

  lemma {:induction false} CrossLiveLeads(recs: seq<Rec>, t: Tid)
    ensures t in CrossLive(recs) <==> t in CrossOpen(recs)
    ensures t in CrossLive(recs) ==>
              CrossLive(recs)[t] < |recs| && recs[CrossLive(recs)[t]].tid == t && CrossOpen(recs)[t] == EntryIn(recs[CrossLive(recs)[t]], Cross, Prepared)
  {
    if recs != [] {
      CrossLiveLeads(recs[..|recs| - 1], t);
    }
  }

  /** The index leads to the open prepares. */
  lemma {:induction false} LiveLeads(recs: seq<Rec>, base: nat, t: Tid)
    ensures t in Live(recs, base) <==> t in OpenOf(recs, base)
    ensures t in Live(recs, base) ==>
              var i := Live(recs, base)[t]; i < |recs| && recs[i].tid == t && OpenOf(recs, base)[t] == EntryIn(recs[i], Cross, Prepared)
  {
    if |recs| <= base {
      CrossLiveLeads(recs, t);
    } else {
      LiveLeads(recs[..|recs| - 1], base, t);
    }
  }
}
