/**
  Fixed-width and variable-width integers as bytes (leveldb/util/coding.h, coding.cc).
*/
module Coding {
  type byte = x: int | 0 <= x < 256
  type uint32 = x: int | 0 <= x < 0x1_0000_0000
  type Bytes = seq<byte>

  // ---------------------------------------------------------------- bytes at a position

  /** Text l stands at position pos. */
  predicate StandsAt(file: Bytes, pos: nat, l: Bytes) {
    pos + |l| <= |file| && forall j :: pos <= j < pos + |l| ==> file[j] == l[j - pos]
  }

  lemma StandsLast(a: Bytes, z: Bytes, l: Bytes)
    ensures StandsAt(a + z + l, |a| + |z|, l)
  {
  }

  lemma StandsBefore(file: Bytes, more: Bytes, pos: nat, l: Bytes)
    requires StandsAt(file, pos, l)
    ensures StandsAt(file + more, pos, l)
  {
  }

  // ---------------------------------------------------------------- four bytes

  function EncodeFixed32(v: uint32): (s: Bytes)
    ensures |s| == 4
  {
    [v % 256, v / 256 % 256, v / 65536 % 256, v / 16777216]
  }

  function DecodeFixed32(s: Bytes): uint32
    requires |s| >= 4
  {
    var a: int, b: int, c: int, d: int := s[0], s[1], s[2], s[3];
    a + 256 * b + 65536 * c + 16777216 * d
  }

  lemma FixedRoundTrip(v: uint32)
    ensures DecodeFixed32(EncodeFixed32(v)) == v
  {
    assert v == v % 256 + 256 * (v / 256);
    assert v / 256 == v / 256 % 256 + 256 * (v / 65536);
    assert v / 65536 == v / 65536 % 256 + 256 * (v / 16777216);
  }

  lemma FixedAt(file: Bytes, pos: nat, v: uint32)
    requires StandsAt(file, pos, EncodeFixed32(v))
    ensures pos + 4 <= |file| && DecodeFixed32(file[pos..]) == v
  {
    FixedRoundTrip(v);
    var e := EncodeFixed32(v);
    assert file[pos] == e[0] && file[pos + 1] == e[1] && file[pos + 2] == e[2] && file[pos + 3] == e[3];
  }

  // ---------------------------------------------------------------- variable width

  /** Seven bits to a byte, lowest first; all but the last have the top bit set. */
  function EncodeVarint(v: nat): (s: Bytes)
    ensures |s| > 0
  {
    if v < 128 then [v] else [v % 128 + 128] + EncodeVarint(v / 128)
  }

  datatype Option<+T> = None | Some(value: T)

  /** GetVarint32PtrFallback from its k-th byte on, of five: the value and the position behind it. */
  function GetVarintFrom(data: Bytes, p: nat, limit: nat, k: nat): Option<(nat, nat)>
    requires limit <= |data|
    decreases 5 - k
  {
    if k >= 5 || p >= limit then None
    else if data[p] < 128 then Some((data[p], p + 1))
    else
      match GetVarintFrom(data, p + 1, limit, k + 1)
      case None => None
      case Some(r) =>
        var b: int := data[p];
        Some((b - 128 + 128 * r.0, r.1))
  }

  /** A value is kept to 32 bits. */
  function GetVarint(data: Bytes, p: nat, limit: nat): Option<(nat, nat)>
    requires limit <= |data|
  {
    match GetVarintFrom(data, p, limit, 0)
    case None => None
    case Some(r) => Some((r.0 % 0x1_0000_0000, r.1))
  }

  lemma {:induction false} VarintFromAt(data: Bytes, p: nat, limit: nat, k: nat, v: nat)
    requires limit <= |data| && p + |EncodeVarint(v)| <= limit && StandsAt(data, p, EncodeVarint(v)) && k + |EncodeVarint(v)| <= 5
    ensures GetVarintFrom(data, p, limit, k) == Some((v, p + |EncodeVarint(v)|))
    decreases v
  {
    var e := EncodeVarint(v);
    assert data[p] == e[0];
    if v >= 128 {
      assert e[1..] == EncodeVarint(v / 128);
      assert StandsAt(data, p + 1, e[1..]);
      VarintFromAt(data, p + 1, limit, k + 1, v / 128);
    }
  }

  lemma VarintLength(v: uint32)
    ensures |EncodeVarint(v)| <= 5
  {
    var a, b, c, d := v / 128, v / 128 / 128, v / 128 / 128 / 128, v / 128 / 128 / 128 / 128;
    assert d < 128;
    assert |EncodeVarint(d)| == 1 && |EncodeVarint(c)| <= 2;
    assert |EncodeVarint(b)| <= 3;
    assert |EncodeVarint(a)| <= 4;
  }

  /** Every 32-bit number reads back as it was written. */
  lemma VarintAt(data: Bytes, p: nat, limit: nat, v: uint32)
    requires limit <= |data| && p + |EncodeVarint(v)| <= limit && StandsAt(data, p, EncodeVarint(v))
    ensures GetVarint(data, p, limit) == Some((v, p + |EncodeVarint(v)|))
  {
    VarintLength(v);
    VarintFromAt(data, p, limit, 0, v);
  }

  lemma VarintFirst(v: nat)
    ensures v < 128 <==> EncodeVarint(v)[0] < 128
    ensures v < 128 ==> EncodeVarint(v) == [v]
  {
  }
}
