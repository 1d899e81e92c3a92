/** Timestamps of 64 bits that travel as two 32-bit event values. */
module PacketTimestamp {
  const TWO32 := 0x1_0000_0000
  const TWO31 := 0x8000_0000

  predicate IsInt32(v: int) { -TWO31 <= v < TWO31 }
  predicate IsInt64(v: int) { -TWO31 * TWO32 <= v < TWO31 * TWO32 }

  /** `(ts & 0xFFFFFFFF) | ((int64_t)v << 32)` */
  function MergeHi(ts: int, v: int): (r: int) {
    v * TWO32 + ts % TWO32
  }

  /** `(ts & 0xFFFFFFFF00000000) | ((int64_t)v & 0xFFFFFFFF)` */
  function MergeLo(ts: int, v: int): (r: int) {
    ts - ts % TWO32 + v % TWO32
  }

  /** The two event values a sender puts on the wire: the upper word, and the lower word as a signed 32-bit value. */
  function HiWord(ts: int): (v: int) {
    ts / TWO32
  }

  function LoWord(ts: int): (v: int) {
    if ts % TWO32 < TWO31 then ts % TWO32 else ts % TWO32 - TWO32
  }

  /** Both halves fit their 32-bit values, and merging them in the order HI, LO rebuilds the timestamp whatever
      was pending before; so does the order LO, HI. */
  lemma {:induction false} MergeRebuilds(stale: int, ts: int)
    requires IsInt64(ts)
    ensures IsInt32(HiWord(ts)) && IsInt32(LoWord(ts))
    ensures MergeLo(MergeHi(stale, HiWord(ts)), LoWord(ts)) == ts
    ensures MergeHi(MergeLo(stale, LoWord(ts)), HiWord(ts)) == ts
  {
    var h, l := HiWord(ts), ts % TWO32;
    assert LoWord(ts) % TWO32 == l;
    assert (h * TWO32 + stale % TWO32) % TWO32 == stale % TWO32;
    assert (stale / TWO32 * TWO32 + l) % TWO32 == l;
  }

  /** Merging never leaves the 64-bit range, so the unbounded integers of the model lose nothing. */
  lemma {:induction false} MergeStaysInt64(ts: int, v: int)
    requires IsInt64(ts) && IsInt32(v)
    ensures IsInt64(MergeHi(ts, v)) && IsInt64(MergeLo(ts, v))
  {
  }
}
