/**
  Reading a log file that may have been cut at any byte (leveldb/db/log_reader.cc).
*/
module LogReader {
  import opened Coding
  import opened RecordLog

  // ---------------------------------------------------------------- parsing a chunk

  function Length(header: seq<byte>): nat
    requires |header| >= HeaderSize
  {
    var a: int, b: int := header[4], header[5];
    a + 256 * b
  }

  /** The checksum test: the stored checksum against that of type and payload. */
  predicate ChecksumOk(c: Crc, b: seq<byte>)
    requires |b| >= HeaderSize
  {
    Unmask(DecodeFixed32(b)) == c.value(b[6..])
  }

  lemma HeaderLength(c: Crc, p: Phys, b: seq<byte>)
    requires |p.payload| < 65536 && |b| >= HeaderSize && b[..HeaderSize] == Header(c, p)
    ensures Length(b) == |p.payload| && b[6] == Code(p.kind)
  {
    var h := Header(c, p);
    assert b[4] == b[..HeaderSize][4] && b[5] == b[..HeaderSize][5] && b[6] == b[..HeaderSize][6];
    assert |p.payload| == |p.payload| % 256 + 256 * (|p.payload| / 256);
  }

  lemma ChunkChecks(c: Crc, p: Phys, b: seq<byte>)
    requires IsChunk(c, b, p)
    ensures ChecksumOk(c, b) && b[HeaderSize..] == p.payload
  {
    var sum := c.value([Code(p.kind)] + p.payload);
    UnmaskMask(sum);
    FixedRoundTrip(Mask(sum));
    var f := EncodeFixed32(Mask(sum));
    assert b[0] == f[0] && b[1] == f[1] && b[2] == f[2] && b[3] == f[3];
    assert DecodeFixed32(b) == DecodeFixed32(f);
    assert b[6..] == [Code(p.kind)] + p.payload;
  }

  // ---------------------------------------------------------------- assembling fragments

  datatype Assembly = Assembly(done: bool, ok: bool, record: seq<byte>, scratch: seq<byte>, inFragmented: bool, corruptions: nat)

  /** What ReadRecord makes of one physical record. */
  function Assemble(code: int, fragment: seq<byte>, scratch: seq<byte>, inFragmented: bool): Assembly {
    var dropped := if inFragmented && scratch != [] then 1 else 0;
    if code == Code(Full) then Assembly(true, true, fragment, [], inFragmented, dropped)
    else if code == Code(First) then Assembly(false, false, [], fragment, true, dropped)
    else if code == Code(Middle) then
      if inFragmented then Assembly(false, false, [], scratch + fragment, true, 0) else Assembly(false, false, [], scratch, false, 1)
    else if code == Code(Last) then
      if inFragmented then Assembly(true, true, scratch + fragment, scratch + fragment, true, 0) else Assembly(false, false, [], scratch, false, 1)
    else if code == EofCode then Assembly(true, false, [], [], inFragmented, 0)
    else if code == BadCode then Assembly(false, false, [], [], false, if inFragmented then 1 else 0)
    else Assembly(false, false, [], [], false, 1)
  }

  /** Taking fragment i of a record. */
  lemma AssembleNext(fs: seq<Phys>, record: seq<byte>, i: nat)
    requires IsFragmentation(fs, record) && i < |fs|
    ensures var a := Assemble(Code(fs[i].kind), fs[i].payload, Joined(fs[..i]), i > 0);
            && a.corruptions == 0
            && (i + 1 < |fs| ==> !a.done && a.inFragmented && a.scratch == Joined(fs[..i + 1]))
            && (i + 1 == |fs| ==> a.done && a.ok && a.record == record)
  {
    KindAt(fs, record, i);
    assert fs[..i + 1] == fs[..i] + [fs[i]];
    JoinedSnoc(fs[..i], fs[i]);
    assert fs[..|fs|] == fs;
    assert i == 0 ==> fs[..i] == [] && [] + fs[i].payload == fs[i].payload;
  }

  lemma KindAt(fs: seq<Phys>, record: seq<byte>, i: nat)
    requires IsFragmentation(fs, record) && i < |fs|
    ensures fs[i].kind == FragmentKind(i == 0, i + 1 == |fs|)
  {
    assert i + 1 < |fs| ==> fs[..|fs| - 1][i] == fs[i];
  }

  /** Record k: its fragments are ps[cuts[k]..cuts[k + 1]]. */
  ghost predicate RecordAt(ps: seq<Phys>, rs: seq<seq<byte>>, cuts: seq<nat>, k: nat) {
    k < |rs| && k + 1 < |cuts| && cuts[k] < cuts[k + 1] <= |ps| && IsFragmentation(ps[cuts[k]..cuts[k + 1]], rs[k])
  }

  /** The physical records ps are the fragments of the records rs, in order. */
  ghost predicate Records(ps: seq<Phys>, rs: seq<seq<byte>>, cuts: seq<nat>) {
    && |cuts| == |rs| + 1 && cuts[0] == 0 && cuts[|rs|] == |ps|
    && forall k :: 0 <= k < |rs| ==> RecordAt(ps, rs, cuts, k)
  }

  // ---------------------------------------------------------------- layouts

  /** Chunk i stands at its place in the whole file, within one block. */
  ghost predicate ChunkOk(c: Crc, whole: seq<byte>, cs: seq<seq<byte>>, ps: seq<Phys>, ends: seq<Pos>, i: nat) {
    && i < |cs| == |ps| && |ends| == |cs| + 1
    && ends[i + 1] == Advance(ends[i], |cs[i]|) && ends[i + 1].off <= BlockSize
    && StandsAt(whole, Addr(Place(ends[i])), cs[i]) && IsChunk(c, cs[i], ps[i])
  }

  /** The whole file as a list of positions. */
  ghost predicate Layout(c: Crc, whole: seq<byte>, cs: seq<seq<byte>>, ps: seq<Phys>, ends: seq<Pos>) {
    && |cs| == |ps| && |ends| == |cs| + 1 && ends[0] == Pos(0, 0) && |whole| == Addr(ends[|cs|])
    && forall i :: 0 <= i < |cs| ==> ChunkOk(c, whole, cs, ps, ends, i)
  }

  function Ends(cs: seq<seq<byte>>): seq<Pos> {
    seq(|cs| + 1, i requires 0 <= i <= |cs| => End(cs[..i]))
  }

  lemma LayoutOf(c: Crc, cs: seq<seq<byte>>, ps: seq<Phys>)
    requires Fits(cs) && AreChunks(c, cs, ps)
    ensures Layout(c, Lay(cs), cs, ps, Ends(cs))
  {
    assert cs[..0] == [] && cs[..|cs|] == cs;
    LayLength(cs);
    forall i | 0 <= i < |cs| ensures ChunkOk(c, Lay(cs), cs, ps, Ends(cs), i) {
      PrefixFits(cs, i);
      PrefixFits(cs, i + 1);
      ChunkAt(cs, i);
      assert IsChunk(c, cs[i], ps[i]);
    }
  }

  lemma {:induction false} EndsIncrease(c: Crc, whole: seq<byte>, cs: seq<seq<byte>>, ps: seq<Phys>, ends: seq<Pos>, i: nat, j: nat)
    requires Layout(c, whole, cs, ps, ends) && i <= j <= |cs|
    ensures Addr(ends[i]) <= Addr(ends[j]) && ends[i].off <= BlockSize
    decreases j
  {
    if i > 0 {
      assert ChunkOk(c, whole, cs, ps, ends, i - 1);
    }
    if i < j {
      EndsIncrease(c, whole, cs, ps, ends, i, j - 1);
      EndsIncrease(c, whole, cs, ps, ends, j - 1, j - 1);
      assert ChunkOk(c, whole, cs, ps, ends, j - 1);
    }
  }

  // ---------------------------------------------------------------- the reader

  class Reader {
    const file: seq<byte>
    const checksum: bool
    const crc: Crc
    var filePos: nat
    var buffer: seq<byte>
    var eof: bool
    var reports: nat                // corruptions reported
    ghost const whole: seq<byte>    // the file before the cut
    ghost const cs: seq<seq<byte>>
    ghost const ps: seq<Phys>
    ghost const ends: seq<Pos>
    ghost var blocks: nat           // blocks read so far

    /** The file is what writers wrote, cut at some byte. */
    ghost predicate CutFile()
    {
      Layout(crc, whole, cs, ps, ends) && file <= whole
    }

    /** Where physical record i - 1 ends. */
    ghost function E(i: nat): Pos {
      if i < |ends| then ends[i] else Pos(0, 0)
    }

    /** The reader stands at position q, with the rest of its block in the buffer. */
    ghost predicate Stands(q: Pos)
      reads this`filePos, this`buffer, this`eof, this`blocks
    {
      && Addr(q) + |buffer| == filePos <= |file| && buffer == file[Addr(q)..filePos]
      && if blocks == 0 then q == Pos(0, 0) && filePos == 0 && !eof
         else
           && q.block + 1 == blocks && q.off <= BlockSize
           && filePos == (if |file| < BlockSize * blocks then |file| else BlockSize * blocks) && eof == (|file| < BlockSize * blocks)
    }

    /** Physical records up to i have been read. */
    ghost predicate At(i: nat)
      reads this`filePos, this`buffer, this`eof, this`blocks
    {
      CutFile() && i <= |cs| && (Stands(E(i)) || Stands(Place(E(i))))
    }

    constructor (file: seq<byte>, checksum: bool, crc: Crc, ghost cs: seq<seq<byte>>, ghost ps: seq<Phys>)
      requires Fits(cs) && AreChunks(crc, cs, ps) && file <= Lay(cs)
      ensures At(0) && reports == 0 && this.file == file && this.cs == cs && this.ps == ps && this.ends == Ends(cs)
    {
      this.file, this.checksum, this.crc, this.whole, this.cs, this.ps, this.ends := file, checksum, crc, Lay(cs), cs, ps, Ends(cs);
      filePos, buffer, eof, reports, blocks := 0, [], false, 0, 0;
      LayoutOf(crc, cs, ps);
    }

    /** The next block of the file, or what there is of it. */
    method ReadBlock(ghost q: Pos)
      requires Stands(q) && !eof && |buffer| < HeaderSize
      modifies this`filePos, this`buffer, this`eof, this`blocks
      ensures Stands(Place(q))
      ensures !eof ==> |buffer| == BlockSize
    {
      var n := if |file| - filePos < BlockSize then |file| - filePos else BlockSize;
      buffer := file[filePos..filePos + n];
      filePos := filePos + n;
      if |buffer| < BlockSize {
        eof := true;
      }
      blocks := blocks + 1;
    }

    /** Physical record i is wholly in the file. */
    ghost predicate Whole(i: nat) {
      i < |cs| && Addr(E(i + 1)) <= |file|
    }

    /** Too little is left for a header, and the file is read to its end: no further record is whole. */
    lemma NoneLeft(i: nat, q: Pos)
      requires CutFile() && i <= |cs| && Stands(q) && (q == E(i) || q == Place(E(i))) && eof && |buffer| < HeaderSize
      ensures !Whole(i)
    {
      if i < |cs| {
        assert ChunkOk(crc, whole, cs, ps, ends, i);
      }
    }

    /** With a header in the buffer, the reader stands at the place of the next record, and that record exists. */
    lemma HeaderThere(i: nat, q: Pos)
      requires CutFile() && i <= |cs| && Stands(q) && (q == E(i) || q == Place(E(i))) && |buffer| >= HeaderSize
      ensures i < |cs| && q == Place(E(i))
    {
      EndsIncrease(crc, whole, cs, ps, ends, i, |cs|);
    }

    /** What the buffer holds of the next record. */
    lemma BufferHolds(i: nat)
      requires CutFile() && i < |cs| && Stands(Place(E(i))) && |buffer| >= HeaderSize
      ensures buffer[..HeaderSize] == Header(crc, ps[i]) && |cs[i]| == HeaderSize + |ps[i].payload| && |ps[i].payload| < 65536
      ensures |cs[i]| <= |buffer| ==> IsChunk(crc, buffer[..|cs[i]|], ps[i])
      ensures |cs[i]| > |buffer| ==> eof && !Whole(i)
      ensures |cs[i]| <= |buffer| ==> Whole(i)
    {
      assert ChunkOk(crc, whole, cs, ps, ends, i);
      InBuffer(i, HeaderSize);
      assert cs[i][..HeaderSize] == Header(crc, ps[i]);
      if |cs[i]| <= |buffer| {
        InBuffer(i, |cs[i]|);
        assert cs[i][..|cs[i]|] == cs[i];
      }
    }

    lemma InBuffer(i: nat, n: nat)
      requires CutFile() && i < |cs| && Stands(Place(E(i))) && n <= |buffer| && n <= |cs[i]|
      ensures buffer[..n] == cs[i][..n]
    {
      assert ChunkOk(crc, whole, cs, ps, ends, i);
      var p := Addr(Place(E(i)));
      forall k | 0 <= k < n ensures buffer[k] == cs[i][k] {
        assert file[p + k] == whole[p + k];
      }
    }

    /** Make sure a header is in the buffer, or find the end of the file. */
    method FillBuffer(ghost i: nat) returns (more: bool)
      requires At(i)
      modifies this`filePos, this`buffer, this`eof, this`blocks
      ensures more ==> i < |cs| && Stands(Place(E(i))) && |buffer| >= HeaderSize
      ensures !more ==> !Whole(i)
    {
      ghost var q := if Stands(E(i)) then E(i) else Place(E(i));
      while |buffer| < HeaderSize
        invariant (q == E(i) || q == Place(E(i))) && Stands(q)
        decreases !eof, |buffer| < HeaderSize
      {
        if !eof {
          ReadBlock(q);
          q := Place(E(i));
        } else {
          NoneLeft(i, q);
          buffer := [];
          return false;
        }
      }
      HeaderThere(i, q);
      return true;
    }

    /** Take the record at the front of the buffer, whatever the buffer holds. */
    method ParseRecord() returns (code: int, fragment: seq<byte>)
      requires |buffer| >= HeaderSize
      modifies this`buffer, this`reports
      ensures var n := HeaderSize + Length(old(buffer));
              if n > |old(buffer)| then
                code == (if eof then EofCode else BadCode) && reports == old(reports) + (if eof then 0 else 1) && buffer == [] && fragment == []
              else if old(buffer)[6] == 0 && n == HeaderSize then
                code == BadCode && reports == old(reports) && buffer == [] && fragment == []
              else if checksum && !ChecksumOk(crc, old(buffer)[..n]) then
                code == BadCode && reports == old(reports) + 1 && buffer == [] && fragment == []
              else
                code == old(buffer)[6] && reports == old(reports) && buffer == old(buffer)[n..] && fragment == old(buffer)[HeaderSize..n]
    {
      var length, kind := Length(buffer), buffer[6];
      if HeaderSize + length > |buffer| {
        buffer := [];
        if !eof {
          reports := reports + 1;
          return BadCode, [];
        }
        return EofCode, [];
      }
      if kind == 0 && length == 0 {
        buffer := [];
        return BadCode, [];
      }
      if checksum && !ChecksumOk(crc, buffer[..HeaderSize + length]) {
        buffer := [];
        reports := reports + 1;
        return BadCode, [];
      }
      fragment := buffer[HeaderSize..HeaderSize + length];
      buffer := buffer[HeaderSize + length..];
      code := kind;
    }

    /** The next physical record, if the file holds all of it; otherwise the end of the file, without complaint. */
    method ReadPhysicalRecord(ghost i: nat) returns (code: int, fragment: seq<byte>)
      requires At(i)
      modifies this`filePos, this`buffer, this`eof, this`blocks, this`reports
      ensures reports == old(reports)
      ensures Whole(i) ==> code == Code(ps[i].kind) && fragment == ps[i].payload && At(i + 1)
      ensures !Whole(i) ==> code == EofCode && fragment == []
    {
      var more := FillBuffer(i);
      if !more {
        return EofCode, [];
      }
      BufferHolds(i);
      HeaderLength(crc, ps[i], buffer);
      ghost var before, n := buffer, |cs[i]|;
      if n <= |buffer| {
        ChunkChecks(crc, ps[i], buffer[..n]);
        assert buffer[..n][HeaderSize..] == buffer[HeaderSize..n];
      }
      code, fragment := ParseRecord();
      if n <= |before| {
        Consumed(i, before);
      }
    }

    /** Dropping a record from the buffer leaves the reader behind it. */
    lemma Consumed(i: nat, before: seq<byte>)
      requires CutFile() && i < |cs| && |cs[i]| <= |before|
      requires Addr(Place(E(i))) + |before| == filePos <= |file| && before == file[Addr(Place(E(i)))..filePos]
      requires Place(E(i)).block + 1 == blocks && buffer == before[|cs[i]|..]
      requires filePos == (if |file| < BlockSize * blocks then |file| else BlockSize * blocks) && eof == (|file| < BlockSize * blocks)
      ensures At(i + 1)
    {
      assert ChunkOk(crc, whole, cs, ps, ends, i);
      assert Stands(E(i + 1));
    }

    lemma WholeDown(i: nat, j: nat)
      requires CutFile() && i <= j && Whole(j)
      ensures Whole(i)
    {
      EndsIncrease(crc, whole, cs, ps, ends, i + 1, j + 1);
    }

    /** Record k lies wholly before the cut. */
    ghost predicate WholeRecord(cuts: seq<nat>, k: nat) {
      k + 1 < |cuts| && cuts[k + 1] > 0 && Whole(cuts[k + 1] - 1)
    }

    /** What the reader expects next: the fragments of one more record, or the end. */
    ghost predicate Expects(lo: nat, fs: seq<Phys>, record: seq<byte>) {
      lo + |fs| <= |ps| && ps[lo..lo + |fs|] == fs && if fs == [] then lo == |ps| else IsFragmentation(fs, record)
    }

    /** One turn of that loop. */
    method TakeFragment(ghost lo: nat, ghost fs: seq<Phys>, ghost expected: seq<byte>, ghost i: nat, scratch: seq<byte>, inFragmented: bool)
      returns (a: Assembly)
      requires i <= |fs| && (fs != [] ==> i < |fs|) && At(lo + i) && Expects(lo, fs, expected)
      requires inFragmented == (i > 0) && scratch == Joined(fs[..i])
      modifies this`filePos, this`buffer, this`eof, this`blocks, this`reports
      ensures reports == old(reports)
      ensures a.done ==> (a.ok <==> fs != [] && Whole(lo + |fs| - 1)) && (a.ok ==> a.record == expected && At(lo + |fs|))
      ensures !a.done ==> i + 1 < |fs| && At(lo + i + 1) && a.inFragmented && a.scratch == Joined(fs[..i + 1])
    {
      var code, fragment := ReadPhysicalRecord(lo + i);
      FragmentTaken(lo, fs, expected, i, code, fragment);
      a := Assemble(code, fragment, scratch, inFragmented);
      reports := reports + a.corruptions;
    }

    /** The loop of ReadRecord over the fragments of one record. */
    method ReadFragments(ghost lo: nat, ghost fs: seq<Phys>, ghost expected: seq<byte>) returns (ok: bool, record: seq<byte>)
      requires At(lo) && Expects(lo, fs, expected)
      modifies this`filePos, this`buffer, this`eof, this`blocks, this`reports
      ensures reports == old(reports) && (ok <==> fs != [] && Whole(lo + |fs| - 1))
      ensures ok ==> record == expected && At(lo + |fs|)
    {
      var scratch, inFragmented := [], false;
      ghost var i := 0;
      assert fs[..0] == [];
      while true
        invariant i <= |fs| && (fs != [] ==> i < |fs|) && At(lo + i) && reports == old(reports)
        invariant inFragmented == (i > 0) && scratch == Joined(fs[..i])
        decreases |fs| - i
      {
        var a := TakeFragment(lo, fs, expected, i, scratch, inFragmented);
        if a.done {
          return a.ok, a.record;
        }
        scratch, inFragmented := a.scratch, a.inFragmented;
        i := i + 1;
      }
    }

    /** What reading it, or the end of the file, makes of the record. */
    lemma FragmentTaken(lo: nat, fs: seq<Phys>, expected: seq<byte>, i: nat, code: int, fragment: seq<byte>)
      requires CutFile() && Expects(lo, fs, expected) && i <= |fs| && (fs != [] ==> i < |fs|)
      requires if Whole(lo + i) then code == Code(ps[lo + i].kind) && fragment == ps[lo + i].payload else code == EofCode && fragment == []
      ensures var a := Assemble(code, fragment, Joined(fs[..i]), i > 0);
              && a.corruptions == 0
              && (a.done ==> (a.ok <==> fs != [] && Whole(lo + |fs| - 1)) && (a.ok ==> a.record == expected && i + 1 == |fs| && Whole(lo + i)))
              && (!a.done ==> i + 1 < |fs| && Whole(lo + i) && a.inFragmented && a.scratch == Joined(fs[..i + 1]))
    {
      NextFragment(lo, fs, expected, i);
    }

    /** What the next physical record means for the record being read. */
    lemma NextFragment(lo: nat, fs: seq<Phys>, expected: seq<byte>, i: nat)
      requires CutFile() && Expects(lo, fs, expected) && i <= |fs| && (fs != [] ==> i < |fs|)
      ensures !Whole(lo + i) ==> fs == [] || !Whole(lo + |fs| - 1)
      ensures fs == [] ==> !Whole(lo + i)
      ensures fs != [] ==> ps[lo + i] == fs[i]
      ensures fs != [] ==>
                var a := Assemble(Code(fs[i].kind), fs[i].payload, Joined(fs[..i]), i > 0);
                && a.corruptions == 0
                && (i + 1 < |fs| ==> !a.done && a.inFragmented && a.scratch == Joined(fs[..i + 1]))
                && (i + 1 == |fs| ==> a.done && a.ok && a.record == expected)
    {
      if fs != [] {
        AssembleNext(fs, expected, i);
        assert ps[lo..lo + |fs|][i] == ps[lo + i];
        if Whole(lo + |fs| - 1) {
          WholeDown(lo + i, lo + |fs| - 1);
        }
      }
    }

    /** The next record, if the file holds all of it; otherwise nothing, without complaint. */
    method ReadRecord(ghost rs: seq<seq<byte>>, ghost cuts: seq<nat>, ghost k: nat) returns (ok: bool, record: seq<byte>)
      requires Records(ps, rs, cuts) && k <= |rs| && At(cuts[k])
      modifies this`filePos, this`buffer, this`eof, this`blocks, this`reports
      ensures reports == old(reports) && (ok <==> WholeRecord(cuts, k))
      ensures ok ==> k < |rs| && record == rs[k] && At(cuts[k + 1])
    {
      assert k < |rs| ==> RecordAt(ps, rs, cuts, k);
      ghost var fs, expected := [], [];
      if k < |rs| {
        fs, expected := ps[cuts[k]..cuts[k + 1]], rs[k];
      }
      ok, record := ReadFragments(cuts[k], fs, expected);
    }

    /** Every record that lies wholly before the cut, and nothing else. */
    method ReadAll(ghost rs: seq<seq<byte>>, ghost cuts: seq<nat>) returns (records: seq<seq<byte>>)
      requires Records(ps, rs, cuts) && At(0) && reports == 0
      modifies this`filePos, this`buffer, this`eof, this`blocks, this`reports
      ensures records <= rs && reports == 0
      ensures forall k :: 0 <= k < |rs| ==> (k < |records| <==> WholeRecord(cuts, k))
    {
      records := [];
      ghost var k := 0;
      while true
        invariant k <= |rs| && records == rs[..k] && At(cuts[k]) && reports == 0
        invariant forall l :: 0 <= l < k ==> WholeRecord(cuts, l)
        decreases |rs| - k
      {
        var ok, record := ReadRecord(rs, cuts, k);
        if !ok {
          NoLaterRecord(rs, cuts, k);
          return;
        }
        assert rs[..k + 1] == rs[..k] + [rs[k]];
        records := records + [record];
        k := k + 1;
      }
    }

    lemma NoLaterRecord(rs: seq<seq<byte>>, cuts: seq<nat>, k: nat)
      requires CutFile() && Records(ps, rs, cuts) && k <= |rs| && !WholeRecord(cuts, k)
      ensures forall l :: k <= l < |rs| ==> !WholeRecord(cuts, l)
    {
      forall l | k <= l < |rs| ensures !WholeRecord(cuts, l) {
        LaterRecord(rs, cuts, k, l);
      }
    }

    lemma LaterRecord(rs: seq<seq<byte>>, cuts: seq<nat>, k: nat, l: nat)
      requires CutFile() && Records(ps, rs, cuts) && k <= l < |rs|
      ensures WholeRecord(cuts, l) ==> WholeRecord(cuts, k)
    {
      CutsIncrease(rs, cuts, k, l);
      assert RecordAt(ps, rs, cuts, k);
      if WholeRecord(cuts, l) {
        WholeDown(cuts[k + 1] - 1, cuts[l + 1] - 1);
      }
    }

    lemma {:induction false} CutsIncrease(rs: seq<seq<byte>>, cuts: seq<nat>, k: nat, l: nat)
      requires Records(ps, rs, cuts) && k <= l < |rs|
      ensures cuts[k + 1] <= cuts[l + 1]
    {
      if k < l {
        CutsIncrease(rs, cuts, k, l - 1);
        assert RecordAt(ps, rs, cuts, l);
      }
    }
  }

  // ---------------------------------------------------------------- written, cut, read

  /** Writing one more record. */
  lemma RecordsSnoc(ps: seq<Phys>, rs: seq<seq<byte>>, cuts: seq<nat>, fs: seq<Phys>, r: seq<byte>)
    requires Records(ps, rs, cuts) && IsFragmentation(fs, r)
    ensures Records(ps + fs, rs + [r], cuts + [|ps| + |fs|])
  {
    var ps', rs', cuts' := ps + fs, rs + [r], cuts + [|ps| + |fs|];
    forall k | 0 <= k < |rs'| ensures RecordAt(ps', rs', cuts', k) {
      if k < |rs| {
        assert RecordAt(ps, rs, cuts, k);
        assert ps'[cuts[k]..cuts[k + 1]] == ps[cuts[k]..cuts[k + 1]];
      } else {
        assert ps'[|ps|..|ps| + |fs|] == fs;
      }
    }
  }

  /** The file is this long after each record. */
  ghost predicate Lengths(cs: seq<seq<byte>>, cuts: seq<nat>, ends: seq<nat>) {
    |cuts| == |ends| + 1 && forall k :: 0 <= k < |ends| ==> EndsAt(cs, cuts, ends, k)
  }

  ghost predicate EndsAt(cs: seq<seq<byte>>, cuts: seq<nat>, ends: seq<nat>, k: nat) {
    k < |ends| && k + 1 < |cuts| && cuts[k + 1] <= |cs| && ends[k] == Addr(End(cs[..cuts[k + 1]]))
  }

  /** These records were written, ending at these lengths of the file. */
  ghost predicate Written(ps: seq<Phys>, cs: seq<seq<byte>>, rs: seq<seq<byte>>, cuts: seq<nat>, ends: seq<nat>) {
    |cs| == |ps| && Records(ps, rs, cuts) && Lengths(cs, cuts, ends)
  }

  /** The file is a log: the chunks of these records, block by block, ending at these lengths. */
  ghost predicate IsLog(c: Crc, file: seq<byte>, cs: seq<seq<byte>>, ps: seq<Phys>, rs: seq<seq<byte>>, cuts: seq<nat>, ends: seq<nat>) {
    Fits(cs) && AreChunks(c, cs, ps) && file == Lay(cs) && Written(ps, cs, rs, cuts, ends)
  }

  lemma WrittenSnoc(ps: seq<Phys>, cs: seq<seq<byte>>, rs: seq<seq<byte>>, cuts: seq<nat>, ends: seq<nat>, ps': seq<Phys>, cs': seq<seq<byte>>, r: seq<byte>)
    requires Written(ps, cs, rs, cuts, ends) && cs <= cs' && ps <= ps' && |cs'| == |ps'| && IsFragmentation(ps'[|ps|..], r)
    ensures Written(ps', cs', rs + [r], cuts + [|cs'|], ends + [Addr(End(cs'))])
  {
    assert ps + ps'[|ps|..] == ps';
    RecordsSnoc(ps, rs, cuts, ps'[|ps|..], r);
    var cuts', ends' := cuts + [|cs'|], ends + [Addr(End(cs'))];
    forall k | 0 <= k < |ends'| ensures EndsAt(cs', cuts', ends', k) {
      if k < |ends| {
        assert EndsAt(cs, cuts, ends, k);
        assert cs'[..cuts[k + 1]] == cs[..cuts[k + 1]];
      } else {
        assert cs'[..|cs'|] == cs';
      }
    }
  }

  /** One more record, with the length of the file after it. */
  method WriteOne(w: Writer, r: seq<byte>, ghost rs: seq<seq<byte>>, ghost cuts: seq<nat>, ends: seq<nat>)
    returns (ends': seq<nat>, ghost cuts': seq<nat>)
    requires CrcOk(w.crc) && w.Valid() && Written(w.ps, w.cs, rs, cuts, ends)
    modifies w
    ensures w.Valid() && Written(w.ps, w.cs, rs + [r], cuts', ends')
  {
    ghost var ps, cs := w.ps, w.cs;
    w.AddRecord(r);
    LayLength(w.cs);
    WrittenSnoc(ps, cs, rs, cuts, ends, w.ps, w.cs, r);
    ends', cuts' := ends + [|w.dest|], cuts + [|w.cs|];
  }

  /** A file written record by record, and its length after each. */
  method WriteAll(crc: Crc, records: seq<seq<byte>>) returns (w: Writer, ends: seq<nat>, ghost cuts: seq<nat>)
    requires CrcOk(crc)
    ensures fresh(w) && w.Valid() && w.crc == crc && IsLog(crc, w.dest, w.cs, w.ps, records, cuts, ends)
  {
    w := new Writer(crc, [], [], []);
    ends, cuts := [], [0];
    var k := 0;
    while k < |records|
      invariant 0 <= k <= |records| && w.Valid() && w.crc == crc && fresh(w) && Written(w.ps, w.cs, records[..k], cuts, ends)
    {
      ends, cuts := WriteOne(w, records[k], records[..k], cuts, ends);
      assert records[..k + 1] == records[..k] + [records[k]];
      k := k + 1;
    }
    assert records[..k] == records;
  }

  /**
    Main result: whatever was written, and wherever the file is cut, reading returns
    exactly the records whose last byte lies before the cut, and reports no corruption.
  */
  method WriteCutRead(crc: Crc, records: seq<seq<byte>>, cut: nat, checksum: bool)
    returns (file: seq<byte>, ends: seq<nat>, read: seq<seq<byte>>, reports: nat, ghost cs: seq<seq<byte>>, ghost ps: seq<Phys>, ghost cuts: seq<nat>)
    requires CrcOk(crc)
    ensures IsLog(crc, file, cs, ps, records, cuts, ends) && |ends| == |records|
    ensures read <= records && reports == 0 && (cut >= |file| ==> read == records)
    ensures forall k :: 0 <= k < |records| ==> (k < |read| <==> ends[k] <= cut)
  {
    var w: Writer;
    w, ends, cuts := WriteAll(crc, records);
    file, cs, ps := w.dest, w.cs, w.ps;
    EndsBelow(crc, file, cs, ps, records, cuts, ends);
    var remains := if cut < |file| then file[..cut] else file;
    read, reports := ReadCut(remains, crc, checksum, file, cs, ps, records, cuts, ends);
    AllBefore(read, records, ends, cut, |file|);
  }

  lemma AllBefore<T>(read: seq<T>, records: seq<T>, ends: seq<nat>, cut: nat, length: nat)
    requires read <= records && |ends| == |records| && forall k :: 0 <= k < |ends| ==> ends[k] <= length
    requires forall k :: 0 <= k < |ends| ==> (k < |read| <==> ends[k] <= if cut < length then cut else length)
    ensures cut >= length ==> read == records
    ensures forall k :: 0 <= k < |ends| ==> (k < |read| <==> ends[k] <= cut)
  {
    if cut >= length && records != [] {
      assert ends[|ends| - 1] <= length;
    }
  }

  lemma EndsBelow(c: Crc, file: seq<byte>, cs: seq<seq<byte>>, ps: seq<Phys>, rs: seq<seq<byte>>, cuts: seq<nat>, ends: seq<nat>)
    requires IsLog(c, file, cs, ps, rs, cuts, ends)
    ensures |ends| == |rs| && forall k :: 0 <= k < |ends| ==> ends[k] <= |file|
  {
    LayLength(cs);
    forall k | 0 <= k < |ends| ensures ends[k] <= |file| {
      assert EndsAt(cs, cuts, ends, k);
      PrefixFits(cs, cuts[k + 1]);
    }
  }

  /** Reading what is left of a log. */
  method ReadCut(file: seq<byte>, crc: Crc, checksum: bool, ghost log: seq<byte>, ghost cs: seq<seq<byte>>, ghost ps: seq<Phys>,
                 ghost rs: seq<seq<byte>>, ghost cuts: seq<nat>, ghost ends: seq<nat>)
    returns (read: seq<seq<byte>>, reports: nat)
    requires IsLog(crc, log, cs, ps, rs, cuts, ends) && file <= log && |ends| == |rs|
    ensures read <= rs && reports == 0
    ensures forall k :: 0 <= k < |rs| ==> (k < |read| <==> ends[k] <= |file|)
  {
    var r := new Reader(file, checksum, crc, cs, ps);
    read := r.ReadAll(rs, cuts);
    reports := r.reports;
    forall k | 0 <= k < |rs| ensures r.WholeRecord(cuts, k) <==> ends[k] <= |file| {
      assert EndsAt(cs, cuts, ends, k) && RecordAt(ps, rs, cuts, k);
    }
  }
}
