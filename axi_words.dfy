/** Bit widths of the HBM AXI port and the CSRs of one port-access machine, the
    word-index to byte-address shift, and the split of the 256-bit data bus into
    eight 32-bit lanes (the data_readout1..8 status registers). */
module AxiWords {

  /** 2^32: one 32-bit lane. */
  const LANE: nat := 0x1_0000_0000
  /** 2^256: one beat of the HBM port's data bus. */
  const WORD: nat := 0x1_00000000_00000000_00000000_00000000_00000000_00000000_00000000_00000000
  /** Bytes per bus word: the address CSR is shifted left by 5. */
  const BYTES_PER_WORD: nat := 32

  type U2 = x: nat | x < 4
  type U28 = x: nat | x < 0x1000_0000
  type U32 = x: nat | x < 0x1_0000_0000
  type U33 = x: nat | x < 0x2_0000_0000
  type U256 = x: nat | x < WORD

  /** `address_readwrite << 5`: the 28-bit word index as a byte address. The result
      always fits the port's 33-bit address, is 32-byte aligned and gives the
      word index back. */
  function ByteAddress(index: U28): (addr: U33)
    ensures addr % BYTES_PER_WORD == 0
    ensures addr / BYTES_PER_WORD == index
  {
    index * BYTES_PER_WORD
  }

  /** The word index a byte address falls in (the inverse of the shift). */
  function WordIndex(addr: U33): U28
  {
    addr / BYTES_PER_WORD
  }

  /** The shift loses nothing: an aligned 33-bit byte address and a 28-bit word
      index determine each other. */
  lemma AddressRoundTrip(index: U28, addr: U33)
    ensures WordIndex(ByteAddress(index)) == index
    ensures addr % BYTES_PER_WORD == 0 ==> ByteAddress(WordIndex(addr)) == addr
  {
  }

  /** 2^(32k): the weight of lane k. */
  function LaneWeight(k: nat): (w: nat)
    ensures w >= 1
    ensures k >= 1 ==> w >= LANE
  {
    if k == 0 then 1 else LANE * LaneWeight(k - 1)
  }

  lemma LaneWeightEight()
    ensures LaneWeight(8) == WORD
  {
  }

  /** Bits [32k, 32k+32) of `d`: the slice `d[32*k : 32*k+32]`. */
  function Lane(d: nat, k: nat): (r: U32)
    ensures k == 0 ==> r == d % LANE
    ensures d < LaneWeight(k) ==> r == 0
  {
    BelowWeight(d, k);
    (d / LaneWeight(k)) % LANE
  }

  /** A value below the weight of lane k has nothing from lane k upwards. */
  lemma BelowWeight(d: nat, k: nat)
    ensures d < LaneWeight(k) ==> d / LaneWeight(k) == 0
  {
    if d < LaneWeight(k) {
      DivUnique(d, LaneWeight(k), 0, d);
    }
  }

  /** The eight status registers data_readout1..data_readout8, in that order. */
  function Readouts(d: U256): (r: seq<U32>)
    ensures |r| == 8
    ensures Join(r) == d
  {
    var r := [Lane(d, 0), Lane(d, 1), Lane(d, 2), Lane(d, 3),
              Lane(d, 4), Lane(d, 5), Lane(d, 6), Lane(d, 7)];
    LaneWeightEight();
    JoinLanes(r, d);
    r
  }

  /** Recombine lanes, lane 0 least significant. */
  function Join(lanes: seq<U32>): (d: nat)
    ensures d < LaneWeight(|lanes|)
  {
    if lanes == [] then 0 else lanes[0] + LANE * Join(lanes[1..])
  }

  /** Dividing by LANE * w is dividing by LANE and then by w. */
  lemma DivDiv(d: nat, w: nat)
    requires w >= 1
    ensures d / (LANE * w) == (d / LANE) / w
  {
    var q, r := d / LANE, d % LANE;
    var q2, r2 := q / w, q % w;
    assert d == LANE * q + r;
    assert q == w * q2 + r2;
    assert LANE * q == (LANE * w) * q2 + LANE * r2;
    assert LANE * r2 <= LANE * (w - 1);
    var rest := LANE * r2 + r;
    assert d == (LANE * w) * q2 + rest && 0 <= rest < LANE * w;
    DivUnique(d, LANE * w, q2, rest);
  }

  lemma DivUnique(d: nat, m: nat, q: nat, r: nat)
    requires m >= 1 && r < m && d == m * q + r
    ensures d / m == q
  {
    var q', r' := d / m, d % m;
    assert d == m * q' + r';
    if q' < q {
      MulSplit(m, q', q - q');
    } else if q' > q {
      MulSplit(m, q, q' - q);
    }
  }

  /** m * (a + t) is m * a plus at least m, for t >= 1. */
  lemma MulSplit(m: nat, a: nat, t: nat)
    requires t >= 1
    ensures m * (a + t) == m * a + m * t
    ensures m * t >= m
  {
  }

  /** Lane k + 1 of d is lane k of d with its lowest lane shifted out. */
  lemma LaneShift(d: nat, k: nat)
    ensures Lane(d, k + 1) == Lane(d / LANE, k)
  {
    DivDiv(d, LaneWeight(k));
  }

  /** Lanes taken from a value below 2^(32n) recombine to that value. */
  lemma {:induction false} JoinLanes(lanes: seq<U32>, d: nat)
    requires d < LaneWeight(|lanes|)
    requires forall k :: 0 <= k < |lanes| ==> lanes[k] == Lane(d, k)
    ensures Join(lanes) == d
  {
    if lanes == [] {
      assert d == 0;
    } else {
      var rest := lanes[1..];
      forall k | 0 <= k < |rest|
        ensures rest[k] == Lane(d / LANE, k)
      {
        LaneShift(d, k);
      }
      assert d < LANE * LaneWeight(|rest|);
      assert d / LANE < LaneWeight(|rest|);
      JoinLanes(rest, d / LANE);
      assert lanes[0] == d % LANE;
    }
  }

  /** Lane k of a recombined word is the k-th lane that went in. */
  lemma {:induction false} LaneOfJoin(lanes: seq<U32>, k: nat)
    requires k < |lanes|
    ensures Lane(Join(lanes), k) == lanes[k]
  {
    var d := Join(lanes);
    var rest := lanes[1..];
    DivUnique(d, LANE, Join(rest), lanes[0]);
    if k == 0 {
      assert d % LANE == lanes[0];
    } else {
      LaneShift(d, k - 1);
      LaneOfJoin(rest, k - 1);
    }
  }

  /** Readout k is lane k. */
  lemma ReadoutAt(d: U256, k: nat)
    requires k < 8
    ensures Readouts(d)[k] == Lane(d, k)
  {
  }

  /** Splitting a recombined word gives back its eight lanes. */
  lemma ReadoutsOfJoin(lanes: seq<U32>)
    requires |lanes| == 8
    ensures Join(lanes) < WORD
    ensures Readouts(Join(lanes)) == lanes
  {
    LaneWeightEight();
    var d := Join(lanes);
    forall k | 0 <= k < 8
      ensures Readouts(d)[k] == lanes[k]
    {
      ReadoutAt(d, k);
      LaneOfJoin(lanes, k);
    }
  }

  /** The empty bus word reads as eight zero lanes. */
  lemma ReadoutsOfZero()
    ensures forall k :: 0 <= k < 8 ==> Readouts(0)[k] == 0
  {
  }

  /** A 32-bit value zero-extended onto the bus sits in lane 0 only. */
  lemma ReadoutsOfLaneZero(x: U32)
    ensures Readouts(x)[0] == x
    ensures forall k :: 1 <= k < 8 ==> Readouts(x)[k] == 0
  {
    forall k | 1 <= k < 8
      ensures Lane(x, k) == 0
    {
      DivUnique(x, LaneWeight(k), 0, x);
    }
  }
}
