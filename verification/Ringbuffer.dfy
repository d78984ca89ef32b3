/** A ringbuffer: space allocation with wrap-around, and writing words into it. */
module Ringbuffer {
  import opened Common
  import opened Pm4

  /** Words from position `from` up to `to`, around the end of the ring. */
  function Cyclic(buf: seq<u32>, from: nat, to: nat): seq<u32>
    requires from <= |buf| && to <= |buf|
  {
    if from <= to then buf[from..to] else buf[from..] + buf[..to]
  }

  /** `after` is `before` with `words` written at `at`. */
  predicate Wrote(before: seq<u32>, after: seq<u32>, at: nat, words: seq<u32>) {
    at + |words| <= |before| && after == before[..at] + words + before[at + |words|..]
  }

  lemma WroteMore(a: seq<u32>, b: seq<u32>, c: seq<u32>, at: nat, w1: seq<u32>, w2: seq<u32>)
    requires Wrote(a, b, at, w1) && Wrote(b, c, at + |w1|, w2)
    ensures Wrote(a, c, at, w1 + w2)
  {
    assert b[..at + |w1|] == a[..at] + w1;
    assert b[at + |w1| + |w2|..] == a[at + |w1| + |w2|..];
  }

  /** Copies words into a command array; `limit` is the end of what may be written. */
  method Put(cmds: array<u32>, index: nat, words: seq<u32>, ghost limit: nat) returns (next: nat)
    requires index + |words| <= limit <= cmds.Length
    modifies cmds
    ensures next == index + |words|
    ensures Wrote(old(cmds[..]), cmds[..], index, words)
  {
    forall k | 0 <= k < |words| {
      cmds[index + k] := words[k];
    }
    next := index + |words|;
    assert cmds[..] == old(cmds[..index]) + words + old(cmds[next..]);
  }

  /** The same under a condition. */
  method PutWhen(c: bool, cmds: array<u32>, index: nat, words: seq<u32>, ghost limit: nat) returns (next: nat)
    requires index + |words| <= limit <= cmds.Length
    modifies cmds
    ensures next == index + if c then |words| else 0
    ensures Wrote(old(cmds[..]), cmds[..], index, if c then words else [])
  {
    next := index;
    if c {
      next := Put(cmds, index, words, limit);
    } else {
      assert cmds[..] == cmds[..index] + [] + cmds[index..];
    }
  }

  /** Bookkeeping of a command array being filled: its first contents, where
      writing started, the packets written, and the end of what may be written. */
  datatype Log = Log(before: seq<u32>, start: nat, out: seq<Packet>, limit: nat)

  /** The array `now` is what `log` says, and `index` is behind its last word. */
  ghost predicate Holds(log: Log, now: seq<u32>, index: nat) {
    && AllFit(log.out)
    && Wrote(log.before, now, log.start, EncodeAll(log.out))
    && index == log.start + |EncodeAll(log.out)|
    && log.limit <= |now|
  }

  lemma HoldsFromStart(log: Log, now: seq<u32>, index: nat)
    requires Holds(log, now, index) && log.start == 0
    ensures index <= |now| && now[..index] == EncodeAll(log.out)
  {
  }

  lemma HoldsMore(log: Log, mid: seq<u32>, now: seq<u32>, index: nat, more: seq<Packet>)
    requires Holds(log, mid, index)
    requires AllFit(more) && Wrote(mid, now, index, EncodeAll(more))
    ensures Holds(log.(out := log.out + more), now, index + |EncodeAll(more)|)
  {
    var w1, w2 := EncodeAll(log.out), EncodeAll(more);
    WroteMore(log.before, mid, now, log.start, w1, w2);
    EncodeAppend(log.out, more);
  }

  /** Writes the words of one packet after the packets written so far. */
  method PutPacket(cmds: array<u32>, index: nat, words: seq<u32>, ghost p: Packet, ghost log: Log)
    returns (next: nat, ghost log': Log)
    requires Fits(p) && words == Encode(p)
    requires Holds(log, cmds[..], index) && index + |words| <= log.limit
    modifies cmds
    ensures next == index + |words| && log' == log.(out := log.out + [p])
    ensures Holds(log', cmds[..], next)
  {
    ghost var mid := cmds[..];
    next := Put(cmds, index, words, log.limit);
    EncodeOne(p);
    HoldsMore(log, mid, cmds[..], index, [p]);
    log' := log.(out := log.out + [p]);
  }

  /** A type 7 header with count `cnt`, then its payload. */
  method PutOp(cmds: array<u32>, index: nat, op: nat, cnt: nat, payload: seq<u32>, ghost log: Log)
    returns (next: nat, ghost log': Log)
    requires op < 0x80 && cnt == |payload| < 0x4000
    requires Holds(log, cmds[..], index) && index + 1 + cnt <= log.limit
    modifies cmds
    ensures next == index + 1 + cnt && log' == log.(out := log.out + [Pkt7(op, payload)])
    ensures Holds(log', cmds[..], next)
  {
    next, log' := PutPacket(cmds, index, [Type7(op, cnt)] + payload, Pkt7(op, payload), log);
  }

  /** A type 3 header with count `cnt`, then its payload. */
  method PutOp3(cmds: array<u32>, index: nat, op: nat, cnt: nat, payload: seq<u32>, ghost log: Log)
    returns (next: nat, ghost log': Log)
    requires op < 0x80 && 0 < cnt == |payload| <= 0x4000
    requires Holds(log, cmds[..], index) && index + 1 + cnt <= log.limit
    modifies cmds
    ensures next == index + 1 + cnt && log' == log.(out := log.out + [Pkt3(op, payload)])
    ensures Holds(log', cmds[..], next)
  {
    next, log' := PutPacket(cmds, index, [Type3(op, cnt)] + payload, Pkt3(op, payload), log);
  }

  /** A type 4 header with count `cnt`, then the register values. */
  method PutReg(cmds: array<u32>, index: nat, reg: nat, cnt: nat, payload: seq<u32>, ghost log: Log)
    returns (next: nat, ghost log': Log)
    requires reg < 0x4_0000 && cnt == |payload| < 0x80
    requires Holds(log, cmds[..], index) && index + 1 + cnt <= log.limit
    modifies cmds
    ensures next == index + 1 + cnt && log' == log.(out := log.out + [Pkt4(reg, payload)])
    ensures Holds(log', cmds[..], next)
  {
    next, log' := PutPacket(cmds, index, [Type4(reg, cnt)] + payload, Pkt4(reg, payload), log);
  }

  /** A type 0 header with count `cnt`, then the register values. */
  method PutReg0(cmds: array<u32>, index: nat, reg: nat, cnt: nat, payload: seq<u32>, ghost log: Log)
    returns (next: nat, ghost log': Log)
    requires reg < 0x8000 && 0 < cnt == |payload| <= 0x4000
    requires Holds(log, cmds[..], index) && index + 1 + cnt <= log.limit
    modifies cmds
    ensures next == index + 1 + cnt && log' == log.(out := log.out + [Pkt0(reg, payload)])
    ensures Holds(log', cmds[..], next)
  {
    next, log' := PutPacket(cmds, index, [Type0(reg, cnt)] + payload, Pkt0(reg, payload), log);
  }

  /** Copies a whole stream of packets after the packets written so far. */
  method PutStream(cmds: array<u32>, index: nat, words: seq<u32>, ghost ps: seq<Packet>, ghost log: Log)
    returns (next: nat, ghost log': Log)
    requires AllFit(ps) && words == EncodeAll(ps)
    requires Holds(log, cmds[..], index) && index + |words| <= log.limit
    modifies cmds
    ensures next == index + |words| && log' == log.(out := log.out + ps)
    ensures Holds(log', cmds[..], next)
  {
    ghost var mid := cmds[..];
    next := Put(cmds, index, words, log.limit);
    HoldsMore(log, mid, cmds[..], index, ps);
    log' := log.(out := log.out + ps);
  }

  /** The packet that skips from `w` to the end of the ring. */
  function Filler(legacy: bool, w: nat, stale: seq<u32>): Packet {
    if legacy then Pkt3(CP_NOP, stale) else Pkt7(CP_NOP, stale)
  }

  /** The words allocated at `start`, and the filler before it if the allocation
      wrapped, come after the unread words and do not touch them. */
  predicate Free(rptr: nat, w: nat, start: nat, dwords: nat) {
    if start == w then
      start + dwords <= KGSL_RB_DWORDS - 2 && (rptr <= w || start + dwords < rptr)
    else
      start == 0 && rptr <= w && dwords < rptr
  }

  /** No stretch of `dwords` words after `w` is free, neither there nor at the
      start of the ring. */
  predicate NoRoom(rptr: nat, w: nat, dwords: nat) {
    if rptr <= w then w + dwords > KGSL_RB_DWORDS - 2 && dwords >= rptr
    else w + dwords >= rptr
  }

  /** Where `dwords` words go behind `w`, if there is room: to the start of the ring
      if they do not fit before its end. */
  function StartOf(rptr: nat, w: nat, dwords: nat): nat {
    if rptr <= w && w + dwords > KGSL_RB_DWORDS - 2 then 0 else w
  }

  /** Writing into a free region leaves the unread words alone. */
  lemma UnreadKept(before: seq<u32>, after: seq<u32>, rptr: nat, w: nat, start: nat, dwords: nat)
    requires |before| == |after| == KGSL_RB_DWORDS && rptr < KGSL_RB_DWORDS && w < KGSL_RB_DWORDS
    requires Free(rptr, w, start, dwords)
    requires forall k :: 0 <= k < |after| && !(start <= k < start + dwords) && !(start != w && w <= k) ==> after[k] == before[k]
    ensures Cyclic(after, rptr, w) == Cyclic(before, rptr, w)
  {
    if rptr <= w {
      assert after[rptr..w] == before[rptr..w];
    } else {
      assert after[rptr..] == before[rptr..] && after[..w] == before[..w];
    }
  }

  /** `p` lies on the way from `from` to `to` around the ring. */
  predicate Between(from: nat, p: nat, to: nat) {
    if from <= to then from <= p <= to else from <= p || p <= to
  }

  lemma StretchSplits(a: seq<u32>, from: nat, p: nat, to: nat)
    requires from < |a| && p < |a| && to < |a| && Between(from, p, to)
    ensures Cyclic(a, from, to) == Cyclic(a, from, p) + Cyclic(a, p, to)
  {
    if from <= to {
      assert a[from..to] == a[from..p] + a[p..to];
    } else if from <= p {
      assert a[from..] == a[from..p] + a[p..];
      Associate(a[from..p], a[p..], a[..to]);
    } else {
      assert a[..to] == a[..p] + a[p..to];
      Associate(a[from..], a[..p], a[p..to]);
    }
  }

  lemma PartsEqual(x1: seq<u32>, x2: seq<u32>, y1: seq<u32>, y2: seq<u32>)
    requires |x1| == |y1| && x1 + x2 == y1 + y2
    ensures x1 == y1 && x2 == y2
  {
    assert x1 == (x1 + x2)[..|x1|] && y1 == (y1 + y2)[..|y1|];
    assert x2 == (x1 + x2)[|x1|..] && y2 == (y1 + y2)[|y1|..];
  }

  /** Two rings that agree on a stretch agree on both parts of it. */
  lemma PartsKept(a: seq<u32>, b: seq<u32>, from: nat, p: nat, to: nat)
    requires |a| == |b| && from < |a| && p < |a| && to < |a|
    requires Between(from, p, to) && Cyclic(a, from, to) == Cyclic(b, from, to)
    ensures Cyclic(a, from, p) == Cyclic(b, from, p) && Cyclic(a, p, to) == Cyclic(b, p, to)
  {
    StretchSplits(a, from, p, to);
    StretchSplits(b, from, p, to);
    PartsEqual(Cyclic(a, from, p), Cyclic(a, p, to), Cyclic(b, from, p), Cyclic(b, p, to));
  }

  /** What may stand before a submission: nothing, or the filler to the end of the ring. */
  ghost predicate IsLead(lead: seq<Packet>) {
    && AllFit(lead)
    && (lead == [] || (|lead| == 1 && (lead[0].Pkt7? || lead[0].Pkt3?) && lead[0].op == CP_NOP))
  }

  /** An allocation from `w`: `mid` is `orig`, or `orig` with a filler from `w` on. */
  predicate Allocated(legacy: bool, orig: seq<u32>, mid: seq<u32>, w: nat, start: nat)
    requires |orig| == |mid| == KGSL_RB_DWORDS && w < KGSL_RB_DWORDS
  {
    if start == w then mid == orig
    else
      && mid[..w] == orig[..w]
      && Fits(Filler(legacy, w, mid[w + 1..]))
      && mid[w..] == Encode(Filler(legacy, w, mid[w + 1..]))
  }

  /** The words read as the packets `out`, after a filler perhaps. */
  ghost predicate ReadsAs(words: seq<u32>, out: seq<Packet>) {
    exists lead :: IsLead(lead) && AllFit(lead + out) && words == EncodeAll(lead + out)
  }

  /** The words from the old write pointer to the end of what was written. */
  lemma PublishedWords(mid: seq<u32>, now: seq<u32>, w: nat, start: nat, words: seq<u32>)
    requires |mid| == KGSL_RB_DWORDS && w < KGSL_RB_DWORDS && Wrote(mid, now, start, words)
    requires start == w || (start == 0 && |words| < w)
    ensures Cyclic(now, w, start + |words|) == (if start == w then [] else mid[w..]) + words
  {
    if start == w {
      assert now[w..w + |words|] == words;
    } else {
      assert now[w..] == mid[w..];
      assert now[..|words|] == words;
    }
  }

  lemma UnreadUntouched(legacy: bool, orig: seq<u32>, mid: seq<u32>, now: seq<u32>, rptr: nat, w: nat, start: nat, dwords: nat, words: seq<u32>)
    requires |orig| == |mid| == KGSL_RB_DWORDS && w < KGSL_RB_DWORDS && rptr < KGSL_RB_DWORDS
    requires Free(rptr, w, start, dwords) && Allocated(legacy, orig, mid, w, start)
    requires Wrote(mid, now, start, words) && |words| <= dwords
    ensures Cyclic(now, rptr, w) == Cyclic(orig, rptr, w)
  {
    assert now[..start] == mid[..start];
    assert now[start + |words|..] == mid[start + |words|..];
    forall k | 0 <= k < |now| && !(start <= k < start + dwords) && !(start != w && w <= k)
      ensures now[k] == orig[k]
    {
      if k < start {
        assert now[..start][k] == mid[..start][k];
      } else {
        assert now[start + |words|..][k - start - |words|] == mid[start + |words|..][k - start - |words|];
      }
      assert mid[k] == orig[k] by { if start != w { assert mid[..w][k] == orig[..w][k]; } }
    }
    UnreadKept(orig, now, rptr, w, start, dwords);
  }

  lemma ReadsPlain(out: seq<Packet>)
    requires AllFit(out)
    ensures ReadsAs(EncodeAll(out), out)
  {
    assert [] + out == out && IsLead([]);
  }

  lemma ReadsBehindFiller(legacy: bool, mid: seq<u32>, w: nat, out: seq<Packet>)
    requires |mid| == KGSL_RB_DWORDS && w < KGSL_RB_DWORDS && AllFit(out)
    requires Fits(Filler(legacy, w, mid[w + 1..])) && mid[w..] == Encode(Filler(legacy, w, mid[w + 1..]))
    ensures ReadsAs(mid[w..] + EncodeAll(out), out)
  {
    var filler := Filler(legacy, w, mid[w + 1..]);
    EncodeCons(filler, out);
    assert IsLead([filler]);
  }

  /** What the processor will read from the old write pointer on. */
  lemma PublishedRead(legacy: bool, orig: seq<u32>, mid: seq<u32>, now: seq<u32>, rptr: nat, w: nat, start: nat, dwords: nat, out: seq<Packet>)
    requires |orig| == |mid| == KGSL_RB_DWORDS && w < KGSL_RB_DWORDS && rptr < KGSL_RB_DWORDS
    requires Free(rptr, w, start, dwords) && Allocated(legacy, orig, mid, w, start)
    requires AllFit(out) && Wrote(mid, now, start, EncodeAll(out)) && |EncodeAll(out)| <= dwords
    ensures |now| == KGSL_RB_DWORDS && start + |EncodeAll(out)| <= KGSL_RB_DWORDS
    ensures ReadsAs(Cyclic(now, w, start + |EncodeAll(out)|), out)
  {
    var words := EncodeAll(out);
    PublishedWords(mid, now, w, start, words);
    if start == w {
      assert [] + words == words;
      ReadsPlain(out);
    } else {
      ReadsBehindFiller(legacy, mid, w, out);
    }
  }

  /** What is left over of a reservation has room for as many words again. */
  lemma LeftOverFits(rptr: nat, rptrAfter: nat, w: nat, start: nat, dwords: nat, used: nat, more: nat)
    requires w < KGSL_RB_DWORDS && rptr < KGSL_RB_DWORDS && rptrAfter < KGSL_RB_DWORDS
    requires Between(rptr, rptrAfter, w) && Free(rptr, w, start, dwords) && used + more <= dwords
    ensures !NoRoom(rptrAfter, start + used, more)
  {
  }

  /** A reservation of `dwords` words at `start`, after the write pointer `w`. */
  predicate Reserved(legacy: bool, orig: seq<u32>, mid: seq<u32>, rptr: nat, w: nat, start: nat, dwords: nat) {
    && |orig| == |mid| == KGSL_RB_DWORDS && rptr < KGSL_RB_DWORDS && w < KGSL_RB_DWORDS
    && Free(rptr, w, start, dwords) && Allocated(legacy, orig, mid, w, start)
  }

  /** What was written into a reservation of `dwords` words comes right behind the
      unread words, and reads as the packets `out` behind at most the filler; the
      `more` words left over have room for as many words again.  `rptrAfter` is where the
      processor has read to in the meantime. */
  lemma Appended(legacy: bool, orig: seq<u32>, mid: seq<u32>, now: seq<u32>, rptr: nat, rptrAfter: nat,
                 w: nat, start: nat, dwords: nat, out: seq<Packet>, end: nat, more: nat)
    returns (words: seq<u32>)
    requires Reserved(legacy, orig, mid, rptr, w, start, dwords)
    requires rptrAfter < KGSL_RB_DWORDS && Between(rptr, rptrAfter, w)
    requires AllFit(out) && Wrote(mid, now, start, EncodeAll(out))
    requires end == start + |EncodeAll(out)| && end + more <= start + dwords
    ensures |now| == KGSL_RB_DWORDS && end < KGSL_RB_DWORDS && !NoRoom(rptrAfter, end, more)
    ensures ReadsAs(words, out) && Cyclic(now, rptrAfter, end) == Cyclic(orig, rptrAfter, w) + words
  {
    LeftOverFits(rptr, rptrAfter, w, start, dwords, end - start, more);
    PublishedRead(legacy, orig, mid, now, rptr, w, start, dwords, out);
    UnreadUntouched(legacy, orig, mid, now, rptr, w, start, dwords, EncodeAll(out));
    PartsKept(now, orig, rptr, rptrAfter, w);
    StretchSplits(now, rptrAfter, w, end);
    words := Cyclic(now, w, end);
  }

  /** How a submission comes out. */
  datatype Status = Ok | Detached | GpuFault | NoSpace

  /** A page of four-word slots for user profiling. */
  const PROFILE_IB_SLOTS: nat := 256

  class AdrenoRingbuffer {
    const buffer: array<u32>
    const profileBuffer: array<u32>
    const legacy: bool
    var profileIndex: nat
    var pendingWptr: nat      // _wptr
    var wptr: nat             // published
    var timestamp: u32

    ghost predicate Valid()
      reads this
    {
      && buffer.Length == KGSL_RB_DWORDS && profileBuffer.Length == 4 * PROFILE_IB_SLOTS && buffer != profileBuffer
      && profileIndex < PROFILE_IB_SLOTS
      && pendingWptr <= KGSL_RB_DWORDS - 2 && wptr <= KGSL_RB_DWORDS - 2
    }

    constructor (legacy: bool)
      ensures Valid() && fresh(buffer) && fresh(profileBuffer) && pendingWptr == wptr == 0 && timestamp == 0 && this.legacy == legacy
    {
      buffer := new u32[KGSL_RB_DWORDS](_ => 0xaaaa_aaaa);
      profileBuffer := new u32[4 * PROFILE_IB_SLOTS](_ => 0);
      profileIndex := 0;
      this.legacy := legacy;
      pendingWptr, wptr, timestamp := 0, 0, 0;
    }

    /** Reserves `dwords` contiguous words after the pending write pointer, with
        a NOP over the rest of the ring if they only fit at its start.  Returns
        the start, or a negative number when there is no room. */
    method AllocSpace(rptr: nat, dwords: nat) returns (start: int)
      requires Valid() && rptr < KGSL_RB_DWORDS
      modifies this`pendingWptr, buffer
      ensures Valid()
      ensures start < 0 ==> pendingWptr == old(pendingWptr) && buffer[..] == old(buffer[..])
      ensures start < 0 <==> NoRoom(rptr, old(pendingWptr), dwords)
      ensures start >= 0 ==> start == StartOf(rptr, old(pendingWptr), dwords)
      ensures start >= 0 ==>
                && pendingWptr == start + dwords
                && Reserved(legacy, old(buffer[..]), buffer[..], rptr, old(pendingWptr), start, dwords)
    {
      var w := pendingWptr;
      if rptr <= w {
        if w + dwords <= KGSL_RB_DWORDS - 2 {
          pendingWptr := w + dwords;
          return w;
        }
        if dwords < rptr {
          buffer[w] := if legacy then Type3(CP_NOP, KGSL_RB_DWORDS - w - 1)
                       else Type7(CP_NOP, KGSL_RB_DWORDS - w - 1);
          pendingWptr := dwords;
          return 0;
        }
      }
      if w + dwords < rptr {
        pendingWptr := w + dwords;
        return w;
      }
      return -1;
    }
  }
}
