/**
  The log file format: records are fragmented over fixed-size blocks, each fragment
  behind a header of checksum, length and type (leveldb/db/log_format.h, log_writer.cc,
  log_reader.cc; leveldb/util/coding.h, crc32c.h).
*/
module RecordLog {
  import opened Coding

  const BlockSize: int := 32768
  const HeaderSize: int := 7

  /** The checksum, with its defining law: extending the checksum of a prefix gives that of the whole. */
  datatype Crc = Crc(value: seq<byte> -> uint32, extend: (uint32, seq<byte>) -> uint32)

  ghost predicate CrcOk(c: Crc) {
    forall a: seq<byte>, b: seq<byte> :: c.extend(c.value(a), b) == c.value(a + b)
  }

  // ---------------------------------------------------------------- stored checksums

  const MaskDelta: int := 0xa282ead8

  /** Rotate right by 15 bits and add a constant, modulo 2^32. */
  function Mask(crc: uint32): uint32 {
    (crc / 0x8000 + (crc % 0x8000) * 0x2_0000 + MaskDelta) % 0x1_0000_0000
  }

  function Unmask(m: uint32): uint32 {
    var rot := (m - MaskDelta) % 0x1_0000_0000;
    rot / 0x2_0000 + (rot % 0x2_0000) * 0x8000
  }

  lemma UnmaskMask(crc: uint32)
    ensures Unmask(Mask(crc)) == crc
  {
    var rot := crc / 0x8000 + (crc % 0x8000) * 0x2_0000;
    assert 0 <= rot < 0x1_0000_0000;
    assert (Mask(crc) - MaskDelta) % 0x1_0000_0000 == rot;
    assert rot / 0x2_0000 == crc % 0x8000;
    assert rot % 0x2_0000 == crc / 0x8000;
  }

  // ---------------------------------------------------------------- physical records

  datatype Kind = Full | First | Middle | Last

  function Code(k: Kind): byte {
    match k
    case Full => 1
    case First => 2
    case Middle => 3
    case Last => 4
  }

  const EofCode: int := 5
  const BadCode: int := 6

  datatype Phys = Phys(kind: Kind, payload: seq<byte>)

  function Header(c: Crc, p: Phys): (h: seq<byte>)
    ensures |h| == HeaderSize
  {
    EncodeFixed32(Mask(c.value([Code(p.kind)] + p.payload))) + [|p.payload| % 256, |p.payload| / 256 % 256, Code(p.kind)]
  }

  function PhysBytes(c: Crc, p: Phys): (s: seq<byte>)
    ensures |s| == HeaderSize + |p.payload|
  {
    Header(c, p) + p.payload
  }

  predicate IsChunk(c: Crc, b: seq<byte>, p: Phys) {
    b == PhysBytes(c, p)
  }

  /** The stored form of these physical records. */
  ghost predicate AreChunks(c: Crc, cs: seq<seq<byte>>, ps: seq<Phys>) {
    |cs| == |ps| && forall i :: 0 <= i < |cs| ==> IsChunk(c, cs[i], ps[i])
  }

  // ---------------------------------------------------------------- layout

  function Zeros(n: nat): (z: seq<byte>)
    ensures |z| == n
  {
    seq(n, i => 0)
  }

  /** A position in the file: a block and an offset in it, up to the block's end. */
  datatype Pos = Pos(block: nat, off: nat)

  function Addr(p: Pos): nat {
    BlockSize * p.block + p.off
  }

  /** Where the next physical record goes: never into a space too small for a header. */
  function Place(p: Pos): Pos {
    if BlockSize - p.off < HeaderSize then Pos(p.block + 1, 0) else p
  }

  function Advance(p: Pos, n: nat): Pos {
    Pos(Place(p).block, Place(p).off + n)
  }

  /** The end of a file holding these chunks. */
  function End(cs: seq<seq<byte>>): Pos {
    if cs == [] then Pos(0, 0) else Advance(End(cs[..|cs| - 1]), |cs[|cs| - 1]|)
  }

  /** Every chunk lies within one block. */
  predicate Fits(cs: seq<seq<byte>>) {
    cs == [] || (Fits(cs[..|cs| - 1]) && End(cs).off <= BlockSize)
  }

  /** The zeros before the next physical record. */
  function Pad(p: Pos): seq<byte> {
    Zeros(if 0 <= BlockSize - p.off < HeaderSize then BlockSize - p.off else 0)
  }

  /** The file: chunks, and zeros where a block is filled up. */
  function Lay(cs: seq<seq<byte>>): seq<byte> {
    if cs == [] then [] else Lay(cs[..|cs| - 1]) + Pad(End(cs[..|cs| - 1])) + cs[|cs| - 1]
  }

  lemma LaySnoc(cs: seq<seq<byte>>, b: seq<byte>)
    ensures Lay(cs + [b]) == Lay(cs) + Pad(End(cs)) + b
    ensures End(cs + [b]) == Advance(End(cs), |b|)
    ensures Fits(cs + [b]) <==> Fits(cs) && Advance(End(cs), |b|).off <= BlockSize
  {
    assert (cs + [b])[..|cs|] == cs;
  }

  lemma {:induction false} LayLength(cs: seq<seq<byte>>)
    requires Fits(cs)
    ensures |Lay(cs)| == Addr(End(cs)) && End(cs).off <= BlockSize && |Lay(cs) + Pad(End(cs))| == Addr(Place(End(cs)))
  {
    if cs != [] {
      LayLength(cs[..|cs| - 1]);
    }
  }

  /** Every chunk stands at its place. */
  lemma {:induction false} ChunkAt(cs: seq<seq<byte>>, i: nat)
    requires Fits(cs) && i < |cs|
    ensures StandsAt(Lay(cs), Addr(Place(End(cs[..i]))), cs[i])
  {
    var front, last := cs[..|cs| - 1], cs[|cs| - 1];
    if i == |cs| - 1 {
      assert cs[..i] == front;
      LayLength(front);
      StandsLast(Lay(front), Pad(End(front)), last);
    } else {
      ChunkAt(front, i);
      assert front[..i] == cs[..i] && front[i] == cs[i];
      StandsBefore(Lay(front), Pad(End(front)), Addr(Place(End(cs[..i]))), cs[i]);
      StandsBefore(Lay(front) + Pad(End(front)), last, Addr(Place(End(cs[..i]))), cs[i]);
    }
  }

  /** Prefixes of a layout that fits. */
  lemma {:induction false} PrefixFits(cs: seq<seq<byte>>, i: nat)
    requires Fits(cs) && i <= |cs|
    ensures Fits(cs[..i]) && End(cs[..i]).off <= BlockSize && Addr(End(cs[..i])) <= Addr(End(cs))
    ensures i < |cs| ==> End(cs[..i + 1]) == Advance(End(cs[..i]), |cs[i]|) && Addr(End(cs[..i + 1])) <= Addr(End(cs))
  {
    if i == |cs| {
      assert cs[..i] == cs;
      LayLength(cs);
    } else {
      var front := cs[..|cs| - 1];
      assert front[..i] == cs[..i] && cs[..i + 1][..i] == cs[..i];
      if i == |front| {
        LayLength(front);
        assert cs[..i + 1] == cs;
      } else {
        PrefixFits(front, i);
        assert front[..i + 1] == cs[..i + 1];
      }
    }
  }

  // ---------------------------------------------------------------- fragments

  function Joined(fs: seq<Phys>): seq<byte> {
    if fs == [] then [] else Joined(fs[..|fs| - 1]) + fs[|fs| - 1].payload
  }

  /** The start of a fragmented record. */
  predicate IsPartial(fs: seq<Phys>) {
    forall i :: 0 <= i < |fs| ==> fs[i].kind == if i == 0 then First else Middle
  }

  /** The fragments of one record: a single full one, or a first, middles and a last. */
  predicate IsFragmentation(fs: seq<Phys>, record: seq<byte>) {
    && fs != [] && Joined(fs) == record && IsPartial(fs[..|fs| - 1])
    && fs[|fs| - 1].kind == if |fs| == 1 then Full else Last
  }

  lemma JoinedSnoc(fs: seq<Phys>, p: Phys)
    ensures Joined(fs + [p]) == Joined(fs) + p.payload
  {
    assert (fs + [p])[..|fs|] == fs;
  }

  // ---------------------------------------------------------------- the writer

  class Writer {
    const crc: Crc
    var dest: seq<byte>
    var blockOffset: nat
    ghost var cs: seq<seq<byte>>
    ghost var ps: seq<Phys>

    ghost predicate Holds()
      reads this
    {
      Fits(cs) && AreChunks(crc, cs, ps)
    }

    ghost predicate Valid()
      reads this
    {
      Holds() && dest == Lay(cs) && SameOffset(blockOffset, End(cs).off)
    }

    /** Valid, with the rest of a block too short for a header filled up. */
    ghost predicate Padded()
      reads this
    {
      Holds() && dest == Lay(cs) + Pad(End(cs)) && blockOffset == Place(End(cs)).off
    }

    /** A writer on an empty file, or on one that earlier writers left behind. */
    constructor (crc: Crc, existing: seq<byte>, ghost cs: seq<seq<byte>>, ghost ps: seq<Phys>)
      requires Fits(cs) && AreChunks(crc, cs, ps) && existing == Lay(cs)
      ensures Valid() && this.crc == crc && this.ps == ps && this.cs == cs && dest == existing
    {
      this.crc := crc;
      this.ps := ps;
      this.cs := cs;
      dest := existing;
      blockOffset := |existing| % BlockSize;
      LayLength(cs);
      OffsetOfLength(End(cs));
    }

    method SwitchBlock()
      requires Valid()
      modifies this`dest, this`blockOffset
      ensures Padded()
    {
      LayLength(cs);
      var leftover := BlockSize - blockOffset;
      if leftover < HeaderSize {
        dest := dest + Zeros(leftover);
        blockOffset := 0;
      } else {
        assert dest + Zeros(0) == dest;
      }
    }

    method FormatHeader(t: Kind, payload: seq<byte>) returns (header: seq<byte>)
      requires CrcOk(crc) && |payload| < 65536
      ensures header == Header(crc, Phys(t, payload))
    {
      var checksum := crc.extend(crc.value([Code(t)]), payload);
      header := EncodeFixed32(Mask(checksum)) + [|payload| % 256, |payload| / 256, Code(t)];
    }

    method EmitPhysicalRecord(t: Kind, payload: seq<byte>)
      requires CrcOk(crc) && Padded() && blockOffset + HeaderSize + |payload| <= BlockSize
      modifies this
      ensures Valid() && ps == old(ps) + [Phys(t, payload)] && old(cs) <= cs && End(cs) == Advance(old(End(cs)), HeaderSize + |payload|)
    {
      var header := FormatHeader(t, payload);
      Concat(dest, header, payload);
      LaySnoc(cs, header + payload);
      ChunksSnoc(crc, cs, ps, header + payload, Phys(t, payload));
      dest := dest + header;
      dest := dest + payload;
      blockOffset := blockOffset + HeaderSize + |payload|;
      cs, ps := cs + [header + payload], ps + [Phys(t, payload)];
    }

    /** The next fragment of a record: as much as fits into the block, perhaps nothing. */
    method EmitFragment(slice: seq<byte>, i: nat, begin: bool) returns (n: nat)
      requires CrcOk(crc) && Valid() && i <= |slice|
      modifies this
      ensures Valid() && i + n <= |slice| && ps == old(ps) + [Phys(FragmentKind(begin, |slice| - i == n), slice[i..i + n])]
      ensures old(cs) <= cs && (n == 0 && i < |slice| ==> old(Tight(End(cs))) && !Tight(End(cs)))
    {
      LayLength(cs);
      SwitchBlock();
      var left, avail := |slice| - i, BlockSize - blockOffset - HeaderSize;
      n := if left < avail then left else avail;
      var end := left == n;
      EmitPhysicalRecord(FragmentKind(begin, end), slice[i..i + n]);
    }

    method AddRecord(slice: seq<byte>)
      requires CrcOk(crc) && Valid()
      modifies this
      ensures Valid() && old(cs) <= cs && old(ps) <= ps && IsFragmentation(ps[|old(ps)|..], slice)
    {
      var i := 0;
      var begin := true;
      ghost var fs: seq<Phys> := [];
      while begin || i < |slice|
        invariant 0 <= i <= |slice| && Valid() && old(cs) <= cs && ps == old(ps) + fs && Fragmenting(fs, slice, i, begin)
        decreases begin, |slice| - i, Tight(End(cs))
      {
        ghost var before := cs;
        var n := EmitFragment(slice, i, begin);
        PrefixTrans(old(cs), before, cs);
        ghost var p := Phys(FragmentKind(begin, |slice| - i == n), slice[i..i + n]);
        FragmentNext(fs, slice, i, begin, n);
        Concat(old(ps), fs, [p]);
        fs := fs + [p];
        i := i + n;
        begin := false;
      }
      Suffix(old(ps), fs);
    }
  }

  function FragmentKind(begin: bool, end: bool): Kind {
    if begin && end then Full else if begin then First else if end then Last else Middle
  }

  /** A header fits into the block, and nothing more. */
  predicate Tight(p: Pos) {
    Place(p).off == BlockSize - HeaderSize
  }

  /** How far the fragmentation of a record has come. */
  ghost predicate Fragmenting(fs: seq<Phys>, slice: seq<byte>, i: nat, begin: bool) {
    && i <= |slice| && Joined(fs) == slice[..i] && (begin <==> fs == [])
    && if begin || i < |slice| then IsPartial(fs) else IsFragmentation(fs, slice)
  }

  lemma FragmentNext(fs: seq<Phys>, slice: seq<byte>, i: nat, begin: bool, n: nat)
    requires Fragmenting(fs, slice, i, begin) && (begin || i < |slice|) && i + n <= |slice|
    ensures Fragmenting(fs + [Phys(FragmentKind(begin, |slice| - i == n), slice[i..i + n])], slice, i + n, false)
  {
    var p := Phys(FragmentKind(begin, |slice| - i == n), slice[i..i + n]);
    JoinedSnoc(fs, p);
    assert slice[..i + n] == slice[..i] + slice[i..i + n];
    assert (fs + [p])[..|fs|] == fs && slice[..|slice|] == slice;
  }

  lemma Concat<T>(a: seq<T>, b: seq<T>, c: seq<T>)
    ensures a + b + c == a + (b + c)
  {
  }

  lemma PrefixTrans<T>(a: seq<T>, b: seq<T>, c: seq<T>)
    requires a <= b && b <= c
    ensures a <= c
  {
  }

  lemma Suffix<T>(a: seq<T>, b: seq<T>)
    ensures (a + b)[|a|..] == b && a <= a + b
  {
  }

  lemma ChunksSnoc(c: Crc, cs: seq<seq<byte>>, ps: seq<Phys>, b: seq<byte>, p: Phys)
    requires AreChunks(c, cs, ps) && b == Header(c, p) + p.payload
    ensures AreChunks(c, cs + [b], ps + [p])
  {
    assert IsChunk(c, b, p);
  }

  /** The writer's count of bytes in the block; a reopened file starts a full block afresh. */
  predicate SameOffset(blockOffset: nat, off: nat) {
    off <= BlockSize && (blockOffset == off || (off == BlockSize && blockOffset == 0))
  }

  lemma OffsetOfLength(p: Pos)
    requires p.off <= BlockSize
    ensures SameOffset(Addr(p) % BlockSize, p.off)
  {
    assert (BlockSize * p.block + p.off) % BlockSize == p.off % BlockSize;
  }
}
