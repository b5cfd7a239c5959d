/**
  Prefix-compressed blocks: the layout of their bytes, and decoding an entry
  (leveldb/table/block_builder.cc, leveldb/table/block.cc: DecodeEntry).
*/
module BlockFormat {
  import opened Coding

  /**
    What a block holds: its pairs, the number of key bytes each entry shares with the one
    before, where each entry starts, and which entries are restart points.
  */
  datatype Plan = Plan(keys: seq<Bytes>, vals: seq<Bytes>, shared: seq<nat>, offs: seq<nat>, rs: seq<nat>)

  predicate Small(n: int) {
    0 <= n < 0x1_0000_0000
  }

  /** The three lengths in front of an entry. */
  function Lengths(shared: nat, nonShared: nat, valueSize: nat): Bytes {
    EncodeVarint(shared) + EncodeVarint(nonShared) + EncodeVarint(valueSize)
  }

  function NonShared(p: Plan, i: nat): nat {
    if i < |p.keys| && i < |p.shared| && p.shared[i] <= |p.keys[i]| then |p.keys[i]| - p.shared[i] else 0
  }

  /** The lengths of entry i. */
  function Head(p: Plan, i: nat): Bytes {
    if i < |p.shared| && i < |p.vals| then Lengths(p.shared[i], NonShared(p, i), |p.vals[i]|) else []
  }

  /** Entry i follows entry i - 1, and its bytes are where they should be. */
  ghost predicate EntryAt(data: Bytes, p: Plan, i: nat) {
    && i < |p.keys| && i < |p.vals| && i < |p.shared| && i + 1 < |p.offs| && p.shared[i] <= |p.keys[i]|
    && (i == 0 ==> p.shared[i] == 0)
    && (i > 0 ==> p.shared[i] <= |p.keys[i - 1]| && p.keys[i][..p.shared[i]] == p.keys[i - 1][..p.shared[i]])
    && Small(|p.keys[i]|) && Small(|p.vals[i]|)
    && var q := p.offs[i] + |Head(p, i)|;
       && StandsAt(data, p.offs[i], Head(p, i))
       && StandsAt(data, q, p.keys[i][p.shared[i]..])
       && StandsAt(data, q + NonShared(p, i), p.vals[i])
       && p.offs[i + 1] == q + NonShared(p, i) + |p.vals[i]|
  }

  ghost predicate Entries(data: Bytes, p: Plan) {
    && |p.vals| == |p.keys| && |p.shared| == |p.keys| && |p.offs| == |p.keys| + 1 && p.offs[0] == 0
    && forall i :: 0 <= i < |p.keys| ==> EntryAt(data, p, i)
  }

  /** Restart points are entries that share nothing; an empty block has one, pointing at its end. */
  ghost predicate RestartPoints(p: Plan) {
    && |p.rs| > 0 && p.rs[0] == 0 && (p.keys == [] ==> |p.rs| == 1)
    && (forall k :: 0 <= k < |p.rs| && p.keys != [] ==> p.rs[k] < |p.keys| && p.rs[k] < |p.shared| && p.shared[p.rs[k]] == 0)
    && (forall k, l :: 0 <= k < l < |p.rs| ==> p.rs[k] < p.rs[l])
  }

  /** The offset of restart point k. */
  function RestartOffset(p: Plan, k: nat): nat {
    if k < |p.rs| && p.rs[k] < |p.offs| then p.offs[p.rs[k]] else 0
  }

  lemma {:induction false} OffsIncrease(data: Bytes, p: Plan, i: nat, j: nat)
    requires Entries(data, p) && i <= j <= |p.keys|
    ensures p.offs[i] <= p.offs[j] && (i < j ==> p.offs[i] + 3 <= p.offs[j])
  {
    if i < j {
      OffsIncrease(data, p, i, j - 1);
      assert EntryAt(data, p, j - 1);
    }
  }

  // ---------------------------------------------------------------- decoding

  datatype Decoded = Decoded(shared: nat, nonShared: nat, valueLength: nat, q: nat)

  function DecodeLengths(data: Bytes, p: nat, limit: nat): Option<Decoded>
    requires limit <= |data|
  {
    match GetVarint(data, p, limit)
    case None => None
    case Some(a) =>
      match GetVarint(data, a.1, limit)
      case None => None
      case Some(b) =>
        match GetVarint(data, b.1, limit)
        case None => None
        case Some(c) => Some(Decoded(a.0, b.0, c.0, c.1))
  }

  /** DecodeEntry: a fast path for three one-byte lengths, otherwise three varints; nothing past the limit. */
  function DecodeEntry(data: Bytes, p: nat, limit: nat): Option<Decoded>
    requires limit <= |data|
  {
    if limit - p < 3 then None
    else
      var lengths :=
        if data[p] < 128 && data[p + 1] < 128 && data[p + 2] < 128
        then Some(Decoded(data[p], data[p + 1], data[p + 2], p + 3))
        else DecodeLengths(data, p, limit);
      if lengths.None? || limit - lengths.value.q < (lengths.value.nonShared + lengths.value.valueLength) % 0x1_0000_0000 then None
      else lengths
  }

  lemma FirstReads(data: Bytes, p: nat, limit: nat, h: Bytes, a: uint32, y: Bytes, z: Bytes)
    requires limit <= |data| && StandsAt(data, p, h) && h == EncodeVarint(a) + y + z && p + |h| <= limit
    ensures GetVarint(data, p, limit) == Some((a, p + |EncodeVarint(a)|))
  {
    Parts(data, p, h, EncodeVarint(a), y, z);
    VarintAt(data, p, limit, a);
  }

  lemma SecondReads(data: Bytes, p: nat, limit: nat, h: Bytes, x: Bytes, b: uint32, z: Bytes)
    requires limit <= |data| && StandsAt(data, p, h) && h == x + EncodeVarint(b) + z && p + |h| <= limit
    ensures GetVarint(data, p + |x|, limit) == Some((b, p + |x| + |EncodeVarint(b)|))
  {
    Parts(data, p, h, x, EncodeVarint(b), z);
    VarintAt(data, p + |x|, limit, b);
  }

  lemma ThirdReads(data: Bytes, p: nat, limit: nat, h: Bytes, x: Bytes, y: Bytes, c: uint32)
    requires limit <= |data| && StandsAt(data, p, h) && h == x + y + EncodeVarint(c) && p + |h| <= limit
    ensures GetVarint(data, p + |x| + |y|, limit) == Some((c, p + |h|))
  {
    Parts(data, p, h, x, y, EncodeVarint(c));
    VarintAt(data, p + |x| + |y|, limit, c);
  }

  /** Three lengths read back by the slow path. */
  lemma SlowLengthsAt(data: Bytes, p: nat, limit: nat, h: Bytes, a: uint32, b: uint32, c: uint32)
    requires limit <= |data| && StandsAt(data, p, h) && h == Lengths(a, b, c) && p + |h| <= limit
    ensures DecodeLengths(data, p, limit) == Some(Decoded(a, b, c, p + |h|))
  {
    var x, y, z := EncodeVarint(a), EncodeVarint(b), EncodeVarint(c);
    FirstReads(data, p, limit, h, a, y, z);
    SecondReads(data, p, limit, h, x, b, z);
    ThirdReads(data, p, limit, h, x, y, c);
    ThreeVarints(data, p, limit, (a, p + |x|), (b, p + |x| + |y|), (c, p + |h|));
  }

  lemma ThreeVarints(data: Bytes, p: nat, limit: nat, a: (nat, nat), b: (nat, nat), c: (nat, nat))
    requires limit <= |data| && GetVarint(data, p, limit) == Some(a)
    requires GetVarint(data, a.1, limit) == Some(b) && GetVarint(data, b.1, limit) == Some(c)
    ensures DecodeLengths(data, p, limit) == Some(Decoded(a.0, b.0, c.0, c.1))
  {
  }

  /** Three lengths read back, by the fast path or the slow one. */
  lemma LengthsAt(data: Bytes, p: nat, limit: nat, h: Bytes, a: uint32, b: uint32, c: uint32)
    requires limit <= |data| && StandsAt(data, p, h) && h == Lengths(a, b, c) && p + |h| + b + c <= limit && Small(b + c)
    ensures DecodeEntry(data, p, limit) == Some(Decoded(a, b, c, p + |h|))
  {
    SlowLengthsAt(data, p, limit, h, a, b, c);
    FirstThree(data, p, h, a, b, c);
    Combine(data, p, limit, Decoded(a, b, c, p + |h|));
  }

  /** Both paths agree, and the entry lies before the limit. */
  lemma Combine(data: Bytes, p: nat, limit: nat, d: Decoded)
    requires limit <= |data| && p + 3 <= limit && DecodeLengths(data, p, limit) == Some(d)
    requires data[p] < 128 && data[p + 1] < 128 && data[p + 2] < 128 ==> d == Decoded(data[p], data[p + 1], data[p + 2], p + 3)
    requires d.q + d.nonShared + d.valueLength <= limit && Small(d.nonShared + d.valueLength)
    ensures DecodeEntry(data, p, limit) == Some(d)
  {
  }

  lemma Parts(data: Bytes, p: nat, h: Bytes, x: Bytes, y: Bytes, z: Bytes)
    requires StandsAt(data, p, h) && h == x + y + z
    ensures StandsAt(data, p, x) && StandsAt(data, p + |x|, y) && StandsAt(data, p + |x| + |y|, z)
  {
    forall j | p <= j < p + |x| ensures data[j] == x[j - p] {
      assert data[j] == h[j - p];
    }
    forall j | p + |x| <= j < p + |x| + |y| ensures data[j] == y[j - (p + |x|)] {
      assert data[j] == h[j - p];
    }
    forall j | p + |x| + |y| <= j < p + |h| ensures data[j] == z[j - (p + |x| + |y|)] {
      assert data[j] == h[j - p];
    }
  }

  /** When the first three bytes are all below 128 they are the three lengths. */
  lemma FirstThree(data: Bytes, p: nat, h: Bytes, a: uint32, b: uint32, c: uint32)
    requires StandsAt(data, p, h) && h == Lengths(a, b, c)
    ensures |h| >= 3 && p + 3 <= |data|
    ensures data[p] < 128 && data[p + 1] < 128 && data[p + 2] < 128 ==>
              data[p] == a && data[p + 1] == b && data[p + 2] == c && |h| == 3
  {
    var x, y, z := EncodeVarint(a), EncodeVarint(b), EncodeVarint(c);
    Parts(data, p, h, x, y, z);
    VarintFirst(a);
    VarintFirst(b);
    VarintFirst(c);
    assert data[p] == x[0];
    if data[p] < 128 {
      assert data[p + 1] == y[0];
      if data[p + 1] < 128 {
        assert data[p + 2] == z[0];
      }
    }
  }

  /** The lengths of entry i are readable, and all of the entry lies before the limit. */
  lemma EntryFits(data: Bytes, p: Plan, i: nat)
    requires Entries(data, p) && i < |p.keys| && Small(p.offs[|p.keys|]) && p.offs[|p.keys|] <= |data|
    ensures Small(p.shared[i]) && Small(NonShared(p, i)) && Small(|p.vals[i]|) && Small(NonShared(p, i) + |p.vals[i]|)
    ensures StandsAt(data, p.offs[i], Lengths(p.shared[i], NonShared(p, i), |p.vals[i]|))
    ensures p.offs[i] + |Lengths(p.shared[i], NonShared(p, i), |p.vals[i]|)| + NonShared(p, i) + |p.vals[i]| <= p.offs[|p.keys|]
  {
    assert EntryAt(data, p, i);
    OffsIncrease(data, p, i + 1, |p.keys|);
  }

  /** Decoding finds entry i at its offset. */
  lemma EntryDecodes(data: Bytes, p: Plan, i: nat)
    requires Entries(data, p) && i < |p.keys| && Small(p.offs[|p.keys|]) && p.offs[|p.keys|] <= |data|
    ensures DecodeEntry(data, p.offs[i], p.offs[|p.keys|]) ==
            Some(Decoded(p.shared[i], NonShared(p, i), |p.vals[i]|, p.offs[i] + |Head(p, i)|))
  {
    EntryFits(data, p, i);
    LengthsAt(data, p.offs[i], p.offs[|p.keys|], Head(p, i), p.shared[i], NonShared(p, i), |p.vals[i]|);
  }
}
