/**
  The write-ahead log as a class over a file and an index (src/server/wal.cc, class WAL).
*/
module WalImpl {
  import opened Protocol
  import opened Wal

  // ---------------------------------------------------------------- reading lines

  /** The end of the line that starts at a position: the next line break, or the end of the file. */
  function LineEnd(file: string, pos: nat): (e: nat)
    requires pos <= |file|
    ensures pos <= e <= |file|
    decreases |file| - pos
  {
    if pos == |file| || file[pos] == '\n' then pos else LineEnd(file, pos + 1)
  }

  lemma {:induction false} LineEndIs(file: string, pos: nat, e: nat)
    requires pos <= e <= |file| && (forall j :: pos <= j < e ==> file[j] != '\n') && (e == |file| || file[e] == '\n')
    ensures LineEnd(file, pos) == e
    decreases e - pos
  {
    if pos < e {
      LineEndIs(file, pos + 1, e);
    }
  }

  /** Text l stands at position pos. */
  predicate StandsAt(file: string, pos: nat, l: string) {
    pos + |l| <= |file| && forall j :: pos <= j < pos + |l| ==> file[j] == l[j - pos]
  }

  lemma LineOf(file: string, pos: nat, l: string)
    requires StandsAt(file, pos, l) && NoBreak(l) && (pos + |l| == |file| || file[pos + |l|] == '\n')
    ensures LineEnd(file, pos) == pos + |l| && file[pos..pos + |l|] == l
  {
    forall j | pos <= j < pos + |l| ensures file[j] != '\n' {
      assert file[j] == l[j - pos];
    }
    LineEndIs(file, pos, pos + |l|);
  }

  /** std::getline: the line without its break, and where the next one starts. */
  method GetLine(file: string, pos: nat) returns (line: string, next: nat)
    requires pos < |file|
    ensures var e := LineEnd(file, pos); line == file[pos..e] && next == (if e < |file| then e + 1 else e)
  {
    var e := pos;
    while e < |file| && file[e] != '\n'
      invariant pos <= e <= |file| && LineEnd(file, e) == LineEnd(file, pos)
    {
      e := e + 1;
    }
    return file[pos..e], if e < |file| then e + 1 else e;
  }

  // ---------------------------------------------------------------- the file

  /** The file that holds these lines. */
  function Join(lines: seq<string>): string {
    if lines == [] then "" else Join(lines[..|lines| - 1]) + lines[|lines| - 1] + "\n"
  }

  /** Where line i starts. */
  function Offset(lines: seq<string>, i: nat): nat {
    if i <= |lines| then |Join(lines[..i])| else 0
  }

  lemma JoinSnoc(lines: seq<string>, l: string)
    ensures Join(lines + [l]) == Join(lines) + l + "\n"
    ensures forall i :: 0 <= i <= |lines| ==> Offset(lines + [l], i) == Offset(lines, i)
  {
    assert (lines + [l])[..|lines|] == lines;
    assert forall i :: 0 <= i <= |lines| ==> (lines + [l])[..i] == lines[..i];
  }

  lemma {:induction false} JoinAt(lines: seq<string>, i: nat)
    requires i < |lines|
    ensures var o, l := Offset(lines, i), lines[i]; StandsAt(Join(lines), o, l) && o + |l| < |Join(lines)| && Join(lines)[o + |l|] == '\n'
  {
    var front, last := lines[..|lines| - 1], lines[|lines| - 1];
    if i == |lines| - 1 {
      assert lines[..i] == front;
    } else {
      JoinAt(front, i);
      assert front[..i] == lines[..i];
      assert Join(front) <= Join(lines);
    }
  }

  /** A line is found at its offset, whatever follows the file. */
  lemma LineAt(lines: seq<string>, i: nat, tail: string)
    requires i < |lines| && NoBreak(lines[i])
    ensures var file, o := Join(lines) + tail, Offset(lines, i);
            && o < |file| && LineEnd(file, o) == o + |lines[i]| < |file| && file[o..o + |lines[i]|] == lines[i]
            && Offset(lines, i + 1) == o + |lines[i]| + 1
  {
    JoinAt(lines, i);
    LineOf(Join(lines) + tail, Offset(lines, i), lines[i]);
    OffsetNext(lines, i);
  }

  lemma OffsetNext(lines: seq<string>, i: nat)
    requires i < |lines|
    ensures Offset(lines, i + 1) == Offset(lines, i) + |lines[i]| + 1
  {
    assert lines[..i + 1][..i] == lines[..i];
  }

  /** The lines of these records. */
  ghost predicate AreLines(lines: seq<string>, recs: seq<Rec>) {
    |lines| == |recs| && forall i :: 0 <= i < |lines| ==> IsLine(lines[i], recs[i])
  }

  predicate IsLine(l: string, r: Rec) {
    l == Line(r)
  }

  lemma LineFacts(l: string, r: Rec)
    requires IsLine(l, r)
    ensures NoBreak(l) && l != [] && Parse(l).Some? && Parse(l).value.1 == Nums(r)
  {
    LineNoBreak(r);
    ParseLine(r);
  }

  /** An index by record number, as an index by offset. */
  function Placed(lines: seq<string>, index: map<Tid, nat>): map<Tid, nat> {
    map t | t in index :: Offset(lines, index[t])
  }

  // ---------------------------------------------------------------- recovery

  datatype Rebuilt = Rebuilt(log: seq<LogEntry>, index: map<Tid, nat>, ballotNum: int)

  function Max(a: int, b: int): int {
    if a < b then b else a
  }

  /** What one line contributes. */
  function Take(b: Rebuilt, position: nat, p: Option<(string, seq<int>)>): Rebuilt
    requires p.Some? ==> |p.value.1| == 6
  {
    if p.None? then b
    else
      var op, n := p.value.0, p.value.1;
      var r := Rec(InCommit, n[0], n[1], n[2], Transaction(n[3], n[4], n[5]));
      var b1 := b.(ballotNum := Max(b.ballotNum, n[1]));
      if op == "IN_COMMIT" || op == "IS_COMMIT" then b1.(log := b.log + [EntryIn(r, Intra, Committed)])
      else if op == "CS_PREPARE" then b1.(log := b.log + [EntryIn(r, Cross, Prepared)], index := b.index[n[0] := position])
      else if op == "CS_COMMIT" then b1.(log := b.log + [EntryIn(r, Cross, Committed)], index := b.index - {n[0]})
      else if op == "CS_ABORT" then b1.(log := b.log + [EntryIn(r, Cross, Aborted)], index := b.index - {n[0]})
      else b1
  }

  /** The entry the server appended with this record. */
  function Appended(r: Rec): LogEntry {
    match r.op
    case InCommit => EntryIn(r, Intra, Committed)
    case IsPrepare => EntryIn(r, Intra, Prepared)
    case IsCommit => EntryIn(r, Intra, Committed)
    case IsAbort => EntryIn(r, Intra, Aborted)
    case IsBlank => EntryIn(r, Intra, NoStatus)
    case CsPrepare => EntryIn(r, Cross, Prepared)
    case CsCommit => EntryIn(r, Cross, Committed)
    case CsAbort => EntryIn(r, Cross, Aborted)
    case CsBlank => EntryIn(r, Cross, NoStatus)
  }

  /** The record of an entry taken over from a peer. */
  function RecOf(e: LogEntry): Rec {
    var op :=
      match e.status
      case Prepared => if e.kind.Intra? then IsPrepare else CsPrepare
      case Committed => if e.kind.Intra? then IsCommit else CsCommit
      case Aborted => if e.kind.Intra? then IsAbort else CsAbort
      case NoStatus => if e.kind.Intra? then IsBlank else CsBlank;
    Rec(op, e.tid, e.ballotNum, e.ballotServerId, e.txn)
  }

  lemma RecOfKinds(e: LogEntry)
    ensures Appended(RecOf(e)) == e && RecOf(e).tid == e.tid
    ensures Enters(RecOf(e).op) <==> e.status.Prepared?
    ensures Leaves(RecOf(e).op) <==> e.status.Committed? || e.status.Aborted?
    ensures e.status.Prepared? ==> EntryIn(RecOf(e), Cross, Prepared) == e.(kind := Cross)
  {
  }

  predicate IsRegular(r: Rec) {
    r.op == InCommit || r.op == IsCommit || r.op == CsPrepare || IsOutcome(r.op)
  }

  /** What recovery should find: the appended entries it knows, the cross-shard index, the highest ballot number. */
  function Rebuild(b0: int, recs: seq<Rec>): Rebuilt {
    if recs == [] then Rebuilt([], map[], b0)
    else
      var front, r := recs[..|recs| - 1], recs[|recs| - 1];
      var b := Rebuild(b0, front);
      Rebuilt(b.log + (if IsRegular(r) then [Appended(r)] else []), CrossLive(recs), Max(b.ballotNum, r.ballotNum))
  }

  /** The same with offsets for record numbers. */
  function RebuildFrom(b0: int, lines: seq<string>, recs: seq<Rec>): Rebuilt {
    var b := Rebuild(b0, recs);
    b.(index := Placed(lines, b.index))
  }

  lemma CrossLiveBound(recs: seq<Rec>, t: Tid)
    ensures t in CrossLive(recs) ==> CrossLive(recs)[t] < |recs|
  {
    CrossLiveMeaning(recs, t);
  }

  lemma RebuildSnoc(b0: int, recs: seq<Rec>, r: Rec)
    ensures var b := Rebuild(b0, recs);
            Rebuild(b0, recs + [r]) ==
            Rebuilt(b.log + (if IsRegular(r) then [Appended(r)] else []),
                    if r.op == CsPrepare then b.index[r.tid := |recs|] else if IsOutcome(r.op) then b.index - {r.tid} else b.index,
                    Max(b.ballotNum, r.ballotNum))
  {
    assert (recs + [r])[..|recs|] == recs;
    assert Rebuild(b0, recs).index == CrossLive(recs);
  }

  lemma TakeOp(b: Rebuilt, position: nat, r: Rec)
    ensures Take(b, position, Some((OpName(r.op), Nums(r)))) ==
            Rebuilt(b.log + (if IsRegular(r) then [Appended(r)] else []),
                    if r.op == CsPrepare then b.index[r.tid := position] else if IsOutcome(r.op) then b.index - {r.tid} else b.index,
                    Max(b.ballotNum, r.ballotNum))
  {
    assert r.txn == Transaction(Nums(r)[3], Nums(r)[4], Nums(r)[5]);
  }

  /** Offsets of earlier lines stay when a line is added; its own is the end of the file. */
  lemma PlacedSnoc(lines: seq<string>, l: string, recs: seq<Rec>, t: Tid)
    requires |lines| == |recs|
    ensures Placed(lines + [l], CrossLive(recs)) == Placed(lines, CrossLive(recs))
    ensures Placed(lines + [l], CrossLive(recs)[t := |recs|]) == Placed(lines, CrossLive(recs))[t := |Join(lines)|]
    ensures Placed(lines + [l], CrossLive(recs) - {t}) == Placed(lines, CrossLive(recs)) - {t}
  {
    JoinSnoc(lines, l);
    assert lines[..|lines|] == lines;
    forall u | u in CrossLive(recs) ensures Offset(lines + [l], CrossLive(recs)[u]) == Offset(lines, CrossLive(recs)[u]) {
      CrossLiveBound(recs, u);
    }
  }

  /** One line read is one record rebuilt. */
  lemma TakeLine(b0: int, lines: seq<string>, recs: seq<Rec>, l: string, r: Rec)
    requires |lines| == |recs|
    ensures Take(RebuildFrom(b0, lines, recs), |Join(lines)|, Some((OpName(r.op), Nums(r)))) == RebuildFrom(b0, lines + [l], recs + [r])
  {
    RebuildSnoc(b0, recs, r);
    TakeOp(RebuildFrom(b0, lines, recs), |Join(lines)|, r);
    PlacedSnoc(lines, l, recs, r.tid);
    RebuildIndex(b0, recs);
  }

  lemma RebuildIndex(b0: int, recs: seq<Rec>)
    ensures Rebuild(b0, recs).index == CrossLive(recs)
  {
  }

  /** Recovery rebuilds the whole appended log exactly if every record is of a kind it knows. */
  lemma {:induction false} RebuildsLog(b0: int, recs: seq<Rec>)
    ensures |Rebuild(b0, recs).log| <= |recs|
    ensures Rebuild(b0, recs).log == seq(|recs|, i requires 0 <= i < |recs| => Appended(recs[i])) <==> Regular(recs)
  {
    if recs != [] {
      var front, r, n := recs[..|recs| - 1], recs[|recs| - 1], |recs| - 1;
      RebuildsLog(b0, front);
      var all, most := seq(|recs|, i requires 0 <= i < |recs| => Appended(recs[i])), seq(n, i requires 0 <= i < n => Appended(front[i]));
      assert all == most + [Appended(r)];
      assert Regular(recs) <==> Regular(front) && IsRegular(r) by {
        assert recs == front + [r];
      }
      if IsRegular(r) {
        var log := Rebuild(b0, front).log;
        assert log + [Appended(r)] == most + [Appended(r)] ==> log == (most + [Appended(r)])[..n];
      }
    }
  }

  /** The ballot number is the highest of the starting one and all records. */
  lemma {:induction false} RebuildsBallot(b0: int, recs: seq<Rec>)
    ensures var b := Rebuild(b0, recs).ballotNum;
            && b >= b0 && (forall r :: r in recs ==> b >= r.ballotNum)
            && (b == b0 || exists r :: r in recs && b == r.ballotNum)
  {
    if recs != [] {
      RebuildsBallot(b0, recs[..|recs| - 1]);
      assert recs == recs[..|recs| - 1] + [recs[|recs| - 1]];
    }
  }

  /** What recovery makes of complete lines followed by one that was cut after k characters. */
  function Outcome(b0: int, lines: seq<string>, recs: seq<Rec>, cut: Rec, k: nat): Rebuilt
    requires k <= |Line(cut)|
  {
    if k <= AmountDigits(cut) then RebuildFrom(b0, lines, recs)
    else RebuildFrom(b0, lines + [Line(cut)[..k]], recs + [CutRec(cut, k)])
  }

  lemma LineParses(l: string, r: Rec)
    requires IsLine(l, r)
    ensures Parse(l) == Some((OpName(r.op), Nums(r)))
  {
    ParseLine(r);
  }

  lemma SliceSnoc<T>(s: seq<T>, i: nat)
    requires i < |s|
    ensures s[..i + 1] == s[..i] + [s[i]]
  {
  }

  /** The next complete line, rebuilt. */
  lemma TakeWhole(b0: int, lines: seq<string>, recs: seq<Rec>, i: nat)
    requires AreLines(lines, recs) && i < |recs|
    ensures Take(RebuildFrom(b0, lines[..i], recs[..i]), Offset(lines, i), Parse(lines[i])) == RebuildFrom(b0, lines[..i + 1], recs[..i + 1])
  {
    LineParses(lines[i], recs[i]);
    SliceSnoc(lines, i);
    SliceSnoc(recs, i);
    TakeLine(b0, lines[..i], recs[..i], lines[i], recs[i]);
  }

  /** The next complete line, found. */
  lemma FindWhole(lines: seq<string>, recs: seq<Rec>, i: nat, tail: string)
    requires AreLines(lines, recs) && i < |recs|
    ensures var file, o := Join(lines) + tail, Offset(lines, i);
            && o < |file| && LineEnd(file, o) < |file| && LineEnd(file, o) + 1 == Offset(lines, i + 1)
            && file[o..LineEnd(file, o)] == lines[i] != ""
  {
    LineFacts(lines[i], recs[i]);
    LineAt(lines, i, tail);
  }

  /** The line that was cut. */
  lemma TakeCut(b0: int, lines: seq<string>, recs: seq<Rec>, cut: Rec, k: nat)
    requires |lines| == |recs| && k <= |Line(cut)|
    ensures Take(RebuildFrom(b0, lines, recs), |Join(lines)|, Parse(Line(cut)[..k])) == Outcome(b0, lines, recs, cut, k)
  {
    ParseCut(cut, k);
    if k > AmountDigits(cut) {
      TakeLine(b0, lines, recs, Line(cut)[..k], CutRec(cut, k));
    }
  }

  lemma LastLine(file: string, l: string)
    requires NoBreak(l)
    ensures LineEnd(file + l, |file|) == |file + l| && (file + l)[|file|..] == l
  {
    LineOf(file + l, |file|, l);
  }

  /** Reading on from a position, line by line, to the end of the file. */
  function Scan(file: string, pos: nat, b: Rebuilt, step: (Rebuilt, nat, string) -> Rebuilt): Rebuilt
    requires pos <= |file|
    decreases |file| - pos
  {
    if pos == |file| then b
    else
      var e := LineEnd(file, pos);
      var b1 := if e == pos then b else step(b, pos, file[pos..e]);
      if e < |file| then Scan(file, e + 1, b1, step) else b1
  }

  /** What one line contributes to what has been rebuilt. */
  function TakeText(b: Rebuilt, pos: nat, line: string): Rebuilt {
    Take(b, pos, Parse(line))
  }

  /** States that follow each other line by line. */
  ghost predicate Chain(lines: seq<string>, bs: seq<Rebuilt>, step: (Rebuilt, nat, string) -> Rebuilt) {
    && |bs| == |lines| + 1
    && forall i :: 0 <= i < |lines| ==> NoBreak(lines[i]) && lines[i] != "" && step(bs[i], Offset(lines, i), lines[i]) == bs[i + 1]
  }

  lemma ScanNext(lines: seq<string>, bs: seq<Rebuilt>, step: (Rebuilt, nat, string) -> Rebuilt, i: nat, tail: string)
    requires Chain(lines, bs, step) && i < |lines|
    ensures Offset(lines, i) < Offset(lines, i + 1) <= |Join(lines) + tail|
    ensures Scan(Join(lines) + tail, Offset(lines, i), bs[i], step) == Scan(Join(lines) + tail, Offset(lines, i + 1), bs[i + 1], step)
  {
    LineAt(lines, i, tail);
    assert step(bs[i], Offset(lines, i), lines[i]) == bs[i + 1];
  }

  lemma ScanLast(file: string, l: string, b: Rebuilt, step: (Rebuilt, nat, string) -> Rebuilt)
    requires NoBreak(l)
    ensures Scan(file + l, |file|, b, step) == if l == "" then b else step(b, |file|, l)
  {
    LastLine(file, l);
    assert (file + l)[|file|..|file + l|] == l;
  }

  /** Scanning complete lines and a last incomplete one. */
  lemma {:induction false} ScanAll(lines: seq<string>, bs: seq<Rebuilt>, step: (Rebuilt, nat, string) -> Rebuilt, tail: string, i: nat)
    requires Chain(lines, bs, step) && NoBreak(tail) && i <= |lines|
    ensures Offset(lines, i) <= |Join(lines) + tail|
    ensures Scan(Join(lines) + tail, Offset(lines, i), bs[i], step) ==
            if tail == "" then bs[|lines|] else step(bs[|lines|], |Join(lines)|, tail)
    decreases |lines| - i
  {
    if i < |lines| {
      ScanNext(lines, bs, step, i, tail);
      ScanAll(lines, bs, step, tail, i + 1);
    } else {
      assert lines[..i] == lines;
      ScanLast(Join(lines), tail, bs[i], step);
    }
  }

  function States(b0: int, lines: seq<string>, recs: seq<Rec>): seq<Rebuilt>
    requires |lines| == |recs|
  {
    seq(|recs| + 1, i requires 0 <= i <= |recs| => RebuildFrom(b0, lines[..i], recs[..i]))
  }

  lemma StatesChain(b0: int, lines: seq<string>, recs: seq<Rec>)
    requires AreLines(lines, recs)
    ensures Chain(lines, States(b0, lines, recs), TakeText)
  {
    forall i | 0 <= i < |lines|
      ensures NoBreak(lines[i]) && lines[i] != "" && TakeText(States(b0, lines, recs)[i], Offset(lines, i), lines[i]) == States(b0, lines, recs)[i + 1]
    {
      LineFacts(lines[i], recs[i]);
      TakeWhole(b0, lines, recs, i);
    }
  }

  lemma StatesEnds(b0: int, lines: seq<string>, recs: seq<Rec>)
    requires |lines| == |recs|
    ensures States(b0, lines, recs)[0] == Rebuilt([], map[], b0)
    ensures States(b0, lines, recs)[|recs|] == RebuildFrom(b0, lines, recs)
  {
    assert lines[..0] == [] && recs[..0] == [] && lines[..|recs|] == lines && recs[..|recs|] == recs;
    assert Placed([], map[]) == map[];
  }

  lemma CutNoBreak(cut: Rec, k: nat)
    requires k <= |Line(cut)|
    ensures NoBreak(Line(cut)[..k])
  {
    LineNoBreak(cut);
  }

  /** The state of the log, the index and the ballot number that startup reads out of a file. */
  function Recovered(b0: int, file: string): Rebuilt {
    Scan(file, 0, Rebuilt([], map[], b0), TakeText)
  }

  /**
    Recovery of complete lines followed by one that was cut: the complete ones are all
    found, and the cut one is skipped exactly if no digit of its amount is there.
  */
  lemma RecoveryUnderTruncation(b0: int, lines: seq<string>, recs: seq<Rec>, cut: Rec, k: nat)
    requires AreLines(lines, recs) && k <= |Line(cut)|
    ensures Recovered(b0, Join(lines) + Line(cut)[..k]) == Outcome(b0, lines, recs, cut, k)
  {
    StatesChain(b0, lines, recs);
    StatesEnds(b0, lines, recs);
    CutNoBreak(cut, k);
    ScanAll(lines, States(b0, lines, recs), TakeText, Line(cut)[..k], 0);
    TakeCut(b0, lines, recs, cut, k);
    assert lines[..0] == [];
  }

  // ---------------------------------------------------------------- appending to a file that was cut

  /** The operations that recovery knows. */
  predicate IsKnown(op: string) {
    op == "IN_COMMIT" || op == "IS_COMMIT" || op == "CS_PREPARE" || op == "CS_COMMIT" || op == "CS_ABORT"
  }

  /** Part of an operation with another behind it is none that recovery knows. */
  lemma GluedIsUnknown(cut: Op, k: nat, op: Op)
    requires 0 < k <= |OpName(cut)|
    ensures !IsKnown(OpName(cut)[..k] + OpName(op))
  {
    var w := OpName(cut)[..k] + OpName(op);
    assert w[k + 2] == OpName(op)[2] == '_';
  }

  /** What recovery makes of complete lines, part of a line, and a line that was appended to it. */
  function GluedOutcome(b0: int, lines: seq<string>, recs: seq<Rec>, cut: Rec, k: nat, r: Rec): Rebuilt
    requires k <= |Line(cut)|
  {
    if k == 0 then RebuildFrom(b0, lines + [Line(r)], recs + [r])
    else if k <= |OpName(cut.op)| then var b := RebuildFrom(b0, lines, recs); b.(ballotNum := Max(b.ballotNum, r.ballotNum))
    else Outcome(b0, lines, recs, cut, k)
  }

  lemma TakeGlued(b0: int, lines: seq<string>, recs: seq<Rec>, cut: Rec, k: nat, r: Rec)
    requires |lines| == |recs| && k <= |Line(cut)|
    ensures Take(RebuildFrom(b0, lines, recs), |Join(lines)|, Parse(Line(cut)[..k] + Line(r))) == GluedOutcome(b0, lines, recs, cut, k, r)
  {
    if k == 0 {
      assert Line(cut)[..k] + Line(r) == Line(r);
      ParseLine(r);
      TakeLine(b0, lines, recs, Line(r), r);
    } else if k <= |OpName(cut.op)| {
      ParseGlued(cut, k, r);
      GluedIsUnknown(cut.op, k, r.op);
    } else {
      LineIsForeign(r);
      ParseCutBefore(cut, k, Line(r));
      ParseCut(cut, k);
      TakeCut(b0, lines, recs, cut, k);
    }
  }

  lemma ChainSnoc(lines: seq<string>, bs: seq<Rebuilt>, step: (Rebuilt, nat, string) -> Rebuilt, l: string)
    requires Chain(lines, bs, step) && NoBreak(l) && l != ""
    ensures Chain(lines + [l], bs + [step(bs[|lines|], |Join(lines)|, l)], step)
  {
    var lines', bs' := lines + [l], bs + [step(bs[|lines|], |Join(lines)|, l)];
    JoinSnoc(lines, l);
    assert lines[..|lines|] == lines;
    forall i | 0 <= i < |lines'| ensures NoBreak(lines'[i]) && lines'[i] != "" && step(bs'[i], Offset(lines', i), lines'[i]) == bs'[i + 1] {
      if i < |lines| {
        assert step(bs[i], Offset(lines, i), lines[i]) == bs[i + 1];
      }
    }
  }

  /** A file of complete lines and one line more, whatever it is. */
  lemma RecoveryOfMore(b0: int, lines: seq<string>, recs: seq<Rec>, l: string)
    requires AreLines(lines, recs) && NoBreak(l) && l != ""
    ensures Recovered(b0, Join(lines) + l + "\n") == TakeText(RebuildFrom(b0, lines, recs), |Join(lines)|, l)
  {
    var bs := States(b0, lines, recs);
    StatesChain(b0, lines, recs);
    StatesEnds(b0, lines, recs);
    ChainSnoc(lines, bs, TakeText, l);
    JoinSnoc(lines, l);
    ScanAll(lines + [l], bs + [TakeText(bs[|lines|], |Join(lines)|, l)], TakeText, "", 0);
    assert Join(lines + [l]) + "" == Join(lines + [l]) && (lines + [l])[..0] == [];
  }

  lemma GluedNoBreak(cut: Rec, k: nat, r: Rec)
    requires k <= |Line(cut)|
    ensures NoBreak(Line(cut)[..k] + Line(r)) && Line(cut)[..k] + Line(r) != ""
  {
    LineNoBreak(cut);
    LineNoBreak(r);
  }

  /** The first record appended after a cut is written behind what is left of the last line, and what a further recovery makes of it. */
  lemma RecoveryAfterAppend(b0: int, lines: seq<string>, recs: seq<Rec>, cut: Rec, k: nat, r: Rec)
    requires AreLines(lines, recs) && k <= |Line(cut)|
    ensures Recovered(b0, Join(lines) + Line(cut)[..k] + Line(r) + "\n") == GluedOutcome(b0, lines, recs, cut, k, r)
  {
    var l := Line(cut)[..k] + Line(r);
    GluedNoBreak(cut, k, r);
    RecoveryOfMore(b0, lines, recs, l);
    TakeGlued(b0, lines, recs, cut, k, r);
    assert Join(lines) + Line(cut)[..k] + Line(r) + "\n" == Join(lines) + l + "\n";
  }

  /** That record is recovered exactly if the cut left nothing of its line; otherwise it is lost. */
  lemma AppendAfterCutIsLost(b0: int, lines: seq<string>, recs: seq<Rec>, cut: Rec, k: nat, r: Rec)
    requires AreLines(lines, recs) && k <= |Line(cut)| && IsRegular(r)
    ensures var before, after := Recovered(b0, Join(lines) + Line(cut)[..k]).log, Recovered(b0, Join(lines) + Line(cut)[..k] + Line(r) + "\n").log;
            after == if k == 0 then before + [Appended(r)] else before
  {
    RecoveryUnderTruncation(b0, lines, recs, cut, k);
    RecoveryAfterAppend(b0, lines, recs, cut, k, r);
    RebuildSnoc(b0, recs, r);
  }

  lemma RecoveryOfWhole(b0: int, lines: seq<string>, recs: seq<Rec>)
    requires AreLines(lines, recs)
    ensures Recovered(b0, Join(lines)) == RebuildFrom(b0, lines, recs)
  {
    StatesChain(b0, lines, recs);
    StatesEnds(b0, lines, recs);
    ScanAll(lines, States(b0, lines, recs), TakeText, "", 0);
    assert lines[..0] == [] && Join(lines) + "" == Join(lines);
  }

  /** A restart finds the very log that was appended. */
  lemma RecoveryRestoresLog(b0: int, lines: seq<string>, recs: seq<Rec>)
    requires AreLines(lines, recs) && Regular(recs)
    ensures Recovered(b0, Join(lines)).log == seq(|recs|, i requires 0 <= i < |recs| => Appended(recs[i]))
  {
    RecoveryOfWhole(b0, lines, recs);
    RebuildsLog(b0, recs);
  }

  /** No transaction has an intra-shard commit from a sync after its latest prepare and the last recovery. */
  ghost predicate NoneTouched(recs: seq<Rec>, base: nat) {
    forall t, i :: LatestIsPrepare(recs, t, i) ==> Untouched(recs, base, t, i)
  }

  /** A restart finds the very index exactly if no sync touched a transaction after its latest prepare. */
  lemma RecoveryRestoresIndex(b0: int, lines: seq<string>, recs: seq<Rec>, base: nat)
    requires AreLines(lines, recs) && Regular(recs)
    ensures Recovered(b0, Join(lines)).index == Placed(lines, Live(recs, base)) <==> NoneTouched(recs, base)
  {
    RecoveryOfWhole(b0, lines, recs);
    RebuildIndex(b0, recs);
    forall t ensures t in Live(recs, base) ==> t in CrossLive(recs) && Live(recs, base)[t] == CrossLive(recs)[t] {
      IndexAgrees(recs, base, t);
    }
    SamePlaces(lines, CrossLive(recs), Live(recs, base));
    SameLive(recs, base);
  }

  /** A transaction id that a sync uses again for an intra-shard commit: closed in the running server, open again after a recovery. */
  lemma ReusedIdReopens(b0: int, p: Rec, c: Rec, lines: seq<string>)
    requires p.op == CsPrepare && c.op == IsCommit && c.tid == p.tid && AreLines(lines, [p, c])
    ensures Placed(lines, Live([p, c], 0)) == map[] && Recovered(b0, Join(lines)).index == map[p.tid := 0]
  {
    assert [p, c][..1] == [p] && [p][..0] == [];
    IndexSnoc([], 0, p);
    assert [] + [p] == [p] && Live([], 0) == map[];
    assert CrossLive([p]) == map[p.tid := 0] && Live([p], 0) == map[p.tid := 0];
    assert CrossLive([p, c]) == map[p.tid := 0] && Live([p, c], 0) == map[];
    RecoveryOfWhole(b0, lines, [p, c]);
    RebuildIndex(b0, [p, c]);
    assert lines[..0] == [];
  }

  lemma SameLive(recs: seq<Rec>, base: nat)
    requires Regular(recs)
    ensures Live(recs, base).Keys == CrossLive(recs).Keys <==> NoneTouched(recs, base)
  {
    if Live(recs, base).Keys == CrossLive(recs).Keys {
      forall t, i | LatestIsPrepare(recs, t, i) ensures Untouched(recs, base, t, i) {
        IndexAgrees(recs, base, t);
        assert t in Live(recs, base).Keys <==> t in CrossLive(recs).Keys;
      }
    }
    if NoneTouched(recs, base) {
      forall t ensures t in Live(recs, base).Keys <==> t in CrossLive(recs).Keys {
        IndexAgrees(recs, base, t);
      }
    }
  }

  lemma SamePlaces(lines: seq<string>, a: map<Tid, nat>, b: map<Tid, nat>)
    requires forall t :: t in b.Keys ==> t in a.Keys && b[t] == a[t]
    ensures Placed(lines, a) == Placed(lines, b) <==> a.Keys == b.Keys
  {
    assert Placed(lines, a).Keys == a.Keys && Placed(lines, b).Keys == b.Keys;
    if a.Keys == b.Keys {
      forall t | t in a.Keys ensures Placed(lines, a)[t] == Placed(lines, b)[t] {
        assert t in b.Keys;
      }
    }
  }

  /** A looked-up line is taken for a prepare. */
  function PreparedFrom(p: Option<(string, seq<int>)>): LogEntry
    requires p.Some? ==> |p.value.1| == 6
  {
    if p.None? then LogEntry(-1, -1, -1, Transaction(-1, -1, -1), Cross, Prepared)
    else
      var n := p.value.1;
      LogEntry(n[0], n[1], n[2], Transaction(n[3], n[4], n[5]), Cross, Prepared)
  }

  lemma PreparedFromLine(l: string, r: Rec)
    requires IsLine(l, r)
    ensures PreparedFrom(Parse(l)) == EntryIn(r, Cross, Prepared)
  {
    ParseLine(r);
  }

  /** The line at an indexed offset spells the open prepare of its transaction. */
  lemma Lookup(lines: seq<string>, recs: seq<Rec>, base: nat, tid: Tid)
    requires AreLines(lines, recs) && tid in Live(recs, base)
    ensures var file, o := Join(lines), Placed(lines, Live(recs, base))[tid];
            o < |file| && tid in OpenOf(recs, base) && OpenOf(recs, base)[tid].tid == tid
            && PreparedFrom(Parse(file[o..LineEnd(file, o)])) == OpenOf(recs, base)[tid]
  {
    LiveLeads(recs, base, tid);
    var i := Live(recs, base)[tid];
    FindWhole(lines, recs, i, "");
    assert Join(lines) + "" == Join(lines);
    PreparedFromLine(lines[i], recs[i]);
  }

  /** What an appended record does to the index by offset. */
  lemma IndexAppend(lines: seq<string>, l: string, recs: seq<Rec>, base: nat, r: Rec)
    requires |lines| == |recs| && base <= |recs|
    ensures Placed(lines + [l], Live(recs + [r], base)) ==
            if Enters(r.op) then Placed(lines, Live(recs, base))[r.tid := |Join(lines)|]
            else if Leaves(r.op) then Placed(lines, Live(recs, base)) - {r.tid} else Placed(lines, Live(recs, base))
  {
    IndexSnoc(recs, base, r);
    JoinSnoc(lines, l);
    assert lines[..|lines|] == lines;
    forall t | t in Live(recs, base) ensures Offset(lines + [l], Live(recs, base)[t]) == Offset(lines, Live(recs, base)[t]) {
      LiveLeads(recs, base, t);
    }
  }

  // ---------------------------------------------------------------- the class

  class WAL {
    var walFile: string
    var transferIndex: map<Tid, nat>
    ghost var lines: seq<string>
    ghost var recs: seq<Rec>
    ghost var base: nat        // the records there were at the last recovery

    /** The file holds the records, and the index leads to the open prepares among them. */
    ghost predicate Valid()
      reads this
    {
      AreLines(lines, recs) && base <= |recs| && walFile == Join(lines) && transferIndex == Placed(lines, Live(recs, base))
    }

    /** The open prepares that the index leads to. */
    ghost function Open(): map<Tid, LogEntry>
      reads this
    {
      OpenOf(recs, base)
    }

    constructor ()
      ensures Valid() && recs == [] && base == 0 && Open() == map[]
    {
      walFile, transferIndex, lines, recs, base := "", map[], [], [], 0;
    }

    /** One more line, and what it does to the index. */
    method Append(r: Rec)
      requires Valid()
      modifies this
      ensures Valid() && base == old(base) && recs == old(recs) + [r]
      ensures transferIndex == if Enters(r.op) then old(transferIndex)[r.tid := |old(walFile)|]
                               else if Leaves(r.op) then old(transferIndex) - {r.tid} else old(transferIndex)
    {
      var l := Line(r);
      IndexAppend(lines, l, recs, base, r);
      JoinSnoc(lines, l);
      if Enters(r.op) {
        transferIndex := transferIndex[r.tid := |walFile|];
      } else if Leaves(r.op) {
        transferIndex := transferIndex - {r.tid};
      }
      walFile := walFile + l + "\n";
      lines, recs := lines + [l], recs + [r];
      assert IsLine(l, r);
    }

    method PrepareTransaction(req: TransferReq, b: Ballot) returns (e: LogEntry)
      requires Valid()
      modifies this
      ensures Valid() && base == old(base) && recs == old(recs) + [Rec(CsPrepare, req.tid, b.num, b.serverId, req.txn)]
      ensures e == EntryOf(req, b, Cross, Prepared) && Open() == old(Open())[req.tid := e]
      ensures transferIndex == old(transferIndex)[req.tid := |old(walFile)|]
    {
      var r := Rec(CsPrepare, req.tid, b.num, b.serverId, req.txn);
      IndexSnoc(recs, base, r);
      Append(r);
      e := EntryOf(req, b, Cross, Prepared);
    }

    method CommitTransaction(req: TransferReq, b: Ballot) returns (e: LogEntry)
      requires Valid()
      modifies this
      ensures Valid() && base == old(base) && recs == old(recs) + [Rec(InCommit, req.tid, b.num, b.serverId, req.txn)]
      ensures e == EntryOf(req, b, Intra, Committed) && Open() == old(Open()) && transferIndex == old(transferIndex)
    {
      var r := Rec(InCommit, req.tid, b.num, b.serverId, req.txn);
      IndexSnoc(recs, base, r);
      Append(r);
      e := EntryOf(req, b, Intra, Committed);
    }

    /** getTransactionFromFile: the prepare at an indexed offset, read back from the file. */
    method GetTransactionFromFile(tid: Tid) returns (e: LogEntry)
      requires Valid() && tid in transferIndex
      ensures tid in Open() && e == Open()[tid] && e.tid == tid
    {
      Lookup(lines, recs, base, tid);
      var line, _ := GetLine(walFile, transferIndex[tid]);
      e := PreparedFrom(Parse(line));
    }

    /** commitTransaction and abortTransaction on a transaction id. */
    method CloseTransaction(tid: Tid, commit: bool) returns (e: Option<LogEntry>)
      requires Valid()
      modifies this
      ensures Valid() && base == old(base)
      ensures tid !in old(Open()) ==> e == None && recs == old(recs)
      ensures tid in old(Open()) ==>
                var x := old(Open())[tid].(status := if commit then Committed else Aborted);
                && e == Some(x) && Open() == old(Open()) - {tid}
                && recs == old(recs) + [Rec(if commit then CsCommit else CsAbort, tid, x.ballotNum, x.ballotServerId, x.txn)]
    {
      LiveLeads(recs, base, tid);
      if tid !in transferIndex {
        return None;
      }
      var x := GetTransactionFromFile(tid);
      var r := Rec(if commit then CsCommit else CsAbort, tid, x.ballotNum, x.ballotServerId, x.txn);
      IndexSnoc(recs, base, r);
      Append(r);
      e := Some(x.(status := if commit then Committed else Aborted));
    }

    /** An entry taken over from a peer. */
    method InsertEntry(e: LogEntry)
      requires Valid()
      modifies this
      ensures Valid() && base == old(base) && recs == old(recs) + [RecOf(e)]
      ensures Open() == match e.status
                        case Prepared => old(Open())[e.tid := e.(kind := Cross)]
                        case Committed => old(Open()) - {e.tid}
                        case Aborted => old(Open()) - {e.tid}
                        case NoStatus => old(Open())
    {
      RecOfKinds(e);
      IndexSnoc(recs, base, RecOf(e));
      Append(RecOf(e));
    }

    /** Startup: read the file line by line, rebuilding the log, the index and the ballot number. */
    method Recover(ballotNum: int) returns (log: seq<LogEntry>, highest: int)
      modifies this`transferIndex, this`base
      ensures Rebuilt(log, transferIndex, highest) == Recovered(ballotNum, walFile) && base == |recs|
      ensures old(Valid()) ==> Valid() && Open() == CrossOpen(recs) && log == Rebuild(ballotNum, recs).log && highest == Rebuild(ballotNum, recs).ballotNum
    {
      log, highest, transferIndex := [], ballotNum, map[];
      var pos := 0;
      while pos < |walFile|
        invariant pos <= |walFile|
        invariant Scan(walFile, pos, Rebuilt(log, transferIndex, highest), TakeText) == Recovered(ballotNum, walFile)
        decreases |walFile| - pos
      {
        var line, next := GetLine(walFile, pos);
        if line != "" {
          var p := Parse(line);
          if p.Some? {
            log, highest := ReadRecord(p.value.0, p.value.1, pos, log, highest);
          }
        }
        pos := next;
      }
      base := |recs|;
      if old(Valid()) {
        RecoveryOfWhole(ballotNum, lines, recs);
        RebuildIndex(ballotNum, recs);
      }
    }

    /** One readable line: what it adds to the log and the index. */
    method ReadRecord(op: string, n: seq<int>, position: nat, log: seq<LogEntry>, highest: int)
      returns (log': seq<LogEntry>, highest': int)
      requires |n| == 6
      modifies this`transferIndex
      ensures Rebuilt(log', transferIndex, highest') == Take(Rebuilt(log, old(transferIndex), highest), position, Some((op, n)))
    {
      highest' := if highest < n[1] then n[1] else highest;
      log' := log;
      var t := Transaction(n[3], n[4], n[5]);
      if op == "IN_COMMIT" || op == "IS_COMMIT" {
        log' := log + [LogEntry(n[0], n[1], n[2], t, Intra, Committed)];
      } else if op == "CS_PREPARE" {
        transferIndex := transferIndex[n[0] := position];
        log' := log + [LogEntry(n[0], n[1], n[2], t, Cross, Prepared)];
      } else if op == "CS_COMMIT" {
        transferIndex := transferIndex - {n[0]};
        log' := log + [LogEntry(n[0], n[1], n[2], t, Cross, Committed)];
      } else if op == "CS_ABORT" {
        transferIndex := transferIndex - {n[0]};
        log' := log + [LogEntry(n[0], n[1], n[2], t, Cross, Aborted)];
      }
    }
  }
}
