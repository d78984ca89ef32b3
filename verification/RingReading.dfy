/** A processor that reads on along a ring. */
module RingReading {
  import opened Common
  import opened Pm4
  import opened Ringbuffer

  /** The position `k` words behind `p` on the ring. */
  function Ahead(p: nat, k: nat): nat { if p + k < KGSL_RB_DWORDS then p + k else p + k - KGSL_RB_DWORDS }

  /** Words from `from` to `to` around the ring. */
  function Left(from: nat, to: nat): nat {
    if from <= to then to - from else if from <= KGSL_RB_DWORDS then KGSL_RB_DWORDS - from + to else 0
  }

  /** Where a processor at `from` gets that reads on by `k` words, or up to `to`. */
  function ReadTo(from: nat, to: nat, k: nat): nat {
    Ahead(from, if k <= Left(from, to) then k else Left(from, to))
  }

  /** Where the processor reads and where the driver writes. */
  datatype Place = Place(rptr: nat, wptr: nat)

  predicate NoRoomAt(at: Place, dwords: nat) { NoRoom(at.rptr, at.wptr, dwords) }

  /** `used` words have gone where room was found for `dwords`, and the processor has
      read on by `k` words. */
  function Added(at: Place, dwords: nat, used: nat, k: nat): Place {
    Place(ReadTo(at.rptr, at.wptr, k), StartOf(at.rptr, at.wptr, dwords) + used)
  }

  /** The processor has read on by `k` words. */
  function ReadOn(at: Place, k: nat): Place { Place(ReadTo(at.rptr, at.wptr, k), at.wptr) }

  lemma ReadsOn(buf: seq<u32>, from: nat, to: nat, k: nat, next: nat)
    requires |buf| == KGSL_RB_DWORDS && from < |buf| && to < |buf| && next == ReadTo(from, to, k)
    ensures next < |buf| && Between(from, next, to)
    ensures Cyclic(buf, from, to) == Cyclic(buf, from, next) + Cyclic(buf, next, to)
    ensures k == 0 ==> next == from && Cyclic(buf, from, next) == []
  {
    StretchSplits(buf, from, next, to);
  }
}
