/** The a5xx command-stream builder: methods that fill command arrays in place. */
module A5xxRingbuffer {
  import opened Common
  import opened Pm4
  import opened Ringbuffer
  import opened CommandLists
  import opened A5xxPackets

  /** Room for the packets around the caller's commands. */
  const A5XX_SUBMIT_MAX: nat := 64
  const A5XX_COMMAND_DWORDS: nat := 32

  /** Words before a submission's commands: 14 with preemption. */
  method PreemptionPreIbSubmit(cmds: array<u32>, index: nat, dev: Device, ctx: Option<Context>, ghost log: Log)
    returns (next: nat, ghost log': Log)
    requires Holds(log, cmds[..], index) && index + 14 <= log.limit
    modifies cmds
    ensures next == index + (if dev.preemption then 14 else 0)
    ensures log' == log.(out := PreIb(log.out, dev, ctx)) && Holds(log', cmds[..], next)
  {
    next, log' := index, log;
    if !dev.preemption {
      return;
    }
    var style := 0;
    if ctx.Some? {
      style := if ctx.value.secure then PREEMPT_STYLE_RINGBUFFER else ctx.value.style;
    }
    var global: u32 := if style == PREEMPT_STYLE_FINEGRAIN then 2 else 0;
    var local: u32 := if style == PREEMPT_STYLE_FINEGRAIN then 1 else 0;
    next, log' := PutOp(cmds, next, CP_PREEMPT_ENABLE_GLOBAL, 1, [global], log');
    next, log' := PutOp(cmds, next, CP_SET_PROTECTED_MODE, 1, [0], log');
    next, log' := PutReg(cmds, next, A5XX_CP_CONTEXT_SWITCH_SAVE_ADDR_LO, 1, [Lo(dev.recordAddr)], log');
    next, log' := PutReg(cmds, next, A5XX_CP_CONTEXT_SWITCH_SAVE_ADDR_HI, 1, [Hi(dev.recordAddr)], log');
    next, log' := PutOp(cmds, next, CP_SET_PROTECTED_MODE, 1, [1], log');
    next, log' := PutOp(cmds, next, CP_PREEMPT_ENABLE_LOCAL, 1, [local], log');
    next, log' := PutOp(cmds, next, CP_YIELD_ENABLE, 1, [2], log');
  }

  /** Words after a submission: 5 with preemption. */
  method PreemptionPostIbSubmit(cmds: array<u32>, index: nat, dev: Device, ghost log: Log)
    returns (next: nat, ghost log': Log)
    requires Holds(log, cmds[..], index) && index + 5 <= log.limit
    modifies cmds
    ensures next == index + (if dev.preemption then 5 else 0)
    ensures log' == log.(out := PostIb(log.out, dev)) && Holds(log', cmds[..], next)
  {
    next, log' := index, log;
    if !dev.preemption {
      return;
    }
    next, log' := PutOp(cmds, next, CP_CONTEXT_SWITCH_YIELD, 4, [0, 0, 1, 1], log');
  }

  /** An indirect buffer call, if there is one. */
  method PutProfileIb(cmds: array<u32>, index: nat, ib: Option<Ib>, ghost log: Log)
    returns (next: nat, ghost log': Log)
    requires Holds(log, cmds[..], index) && index + 4 <= log.limit
    modifies cmds
    ensures next == index + (if ib.Some? then 4 else 0)
    ensures log' == log.(out := ProfileIb(log.out, ib)) && Holds(log', cmds[..], next)
  {
    next, log' := index, log;
    if ib.Some? {
      next, log' := PutOp(cmds, next, CP_INDIRECT_BUFFER_PFE, 3, [Lo(ib.value.addr), Hi(ib.value.addr), ib.value.dwords], log');
    }
  }

  method PutMemWrite(cmds: array<u32>, index: nat, addr: u64, value: u32, ghost log: Log)
    returns (next: nat, ghost log': Log)
    requires Holds(log, cmds[..], index) && index + 4 <= log.limit
    modifies cmds
    ensures next == index + 4
    ensures log' == log.(out := log.out + [MemWrite(addr, value)]) && Holds(log', cmds[..], next)
  {
    next, log' := PutOp(cmds, index, CP_MEM_WRITE, 3, [Lo(addr), Hi(addr), value], log);
  }

  /** A packet under a condition. */
  method PutOpWhen(c: bool, cmds: array<u32>, index: nat, op: nat, cnt: nat, payload: seq<u32>, ghost log: Log)
    returns (next: nat, ghost log': Log)
    requires op < 0x80 && cnt == |payload| < 0x4000
    requires Holds(log, cmds[..], index) && index + 1 + cnt <= log.limit
    modifies cmds
    ensures next == index + (if c then 1 + cnt else 0)
    ensures log' == log.(out := When(log.out, c, Pkt7(op, payload))) && Holds(log', cmds[..], next)
  {
    next, log' := index, log;
    if c {
      next, log' := PutOp(cmds, next, op, cnt, payload, log');
    }
  }

  method PutStartStamps(cmds: array<u32>, index: nat, dev: Device, ctx: Option<Context>, timestamp: u32, rbTimestamp: u32, ghost log: Log)
    returns (next: nat, ghost log': Log)
    requires Holds(log, cmds[..], index) && index + 8 <= log.limit
    modifies cmds
    ensures next == index + (if ctx.Some? then 8 else 4)
    ensures log' == log.(out := StartStamps(log.out, dev, ctx, timestamp, rbTimestamp)) && Holds(log', cmds[..], next)
  {
    next, log' := index, log;
    if ctx.Some? {
      next, log' := PutMemWrite(cmds, next, ctx.value.sop, timestamp, log');
    }
    next, log' := PutMemWrite(cmds, next, dev.rbSop, rbTimestamp, log');
  }

  method PutEndStamps(cmds: array<u32>, index: nat, dev: Device, ctx: Option<Context>, timestamp: u32, rbTimestamp: u32, ghost log: Log)
    returns (next: nat, ghost log': Log)
    requires Holds(log, cmds[..], index) && index + 10 <= log.limit
    modifies cmds
    ensures next == index + (if ctx.Some? then 10 else 5)
    ensures log' == log.(out := EndStamps(log.out, dev, ctx, timestamp, rbTimestamp)) && Holds(log', cmds[..], next)
  {
    next, log' := index, log;
    if ctx.None? {
      next, log' := PutOp(cmds, next, CP_EVENT_WRITE, 4, [CACHE_FLUSH_TS_IRQ, Lo(dev.rbEop), Hi(dev.rbEop), rbTimestamp], log');
    } else {
      var eop := ctx.value.eop;
      next, log' := PutOp(cmds, next, CP_EVENT_WRITE, 4, [CACHE_FLUSH_TS_IRQ, Lo(eop), Hi(eop), timestamp], log');
      next, log' := PutOp(cmds, next, CP_EVENT_WRITE, 4, [CACHE_FLUSH_TS, Lo(dev.rbEop), Hi(dev.rbEop), rbTimestamp], log');
    }
  }

  method PutPrologue(cmds: array<u32>, index: nat, dev: Device, ctx: Option<Context>, f: Flags,
                     timestamp: u32, rbTimestamp: u32, profile: Option<Ib>, ghost log: Log)
    returns (next: nat, ghost log': Log)
    requires Holds(log, cmds[..], index) && index + 32 <= log.limit
    modifies cmds
    ensures index <= next <= index + 32
    ensures log' == log.(out := Prologue(log.out, dev, ctx, f, timestamp, rbTimestamp, profile)) && Holds(log', cmds[..], next)
  {
    next, log' := index, log;
    var id := if ctx.Some? then CMD_IDENTIFIER else CMD_INTERNAL_IDENTIFIER;
    next, log' := PutOp(cmds, next, CP_NOP, 1, [id], log');
    next, log' := PreemptionPreIbSubmit(cmds, next, dev, ctx, log');
    next, log' := PutProfileIb(cmds, next, profile, log');
    next, log' := PutStartStamps(cmds, next, dev, ctx, timestamp, rbTimestamp, log');
    next, log' := PutOpWhen(f.secure, cmds, next, CP_SET_SECURE_MODE, 1, [1], log');
    next, log' := PutOpWhen(f.notProtected, cmds, next, CP_SET_PROTECTED_MODE, 1, [0], log');
  }

  method PutRetirement(cmds: array<u32>, index: nat, dev: Device, ctx: Option<Context>, f: Flags,
                       timestamp: u32, rbTimestamp: u32, profile: Option<Ib>, sequence: u32, ghost log: Log)
    returns (next: nat, ghost log': Log)
    requires Holds(log, cmds[..], index) && index + 21 <= log.limit
    modifies cmds
    ensures index <= next <= index + 21
    ensures log' == log.(out := Retirement(log.out, dev, ctx, f, timestamp, rbTimestamp, profile, sequence))
    ensures Holds(log', cmds[..], next)
  {
    next, log' := index, log;
    next, log' := PutOpWhen(f.notProtected, cmds, next, CP_SET_PROTECTED_MODE, 1, [1], log');
    next, log' := PutProfileIb(cmds, next, profile, log');
    next, log' := PutOpWhen(dev.haltOnPagefault, cmds, next, CP_WAIT_MEM_WRITES, 0, [], log');
    next, log' := PutMemWrite(cmds, next, dev.refWaitTs, sequence, log');
    next, log' := PutEndStamps(cmds, next, dev, ctx, timestamp, rbTimestamp, log');
  }

  method PutClosing(cmds: array<u32>, index: nat, dev: Device, f: Flags, ghost log: Log)
    returns (next: nat, ghost log': Log)
    requires Holds(log, cmds[..], index) && index + 8 <= log.limit
    modifies cmds
    ensures index <= next <= index + 8
    ensures log' == log.(out := Closing(log.out, dev, f)) && Holds(log', cmds[..], next)
  {
    next, log' := index, log;
    next, log' := PutOpWhen(f.wfi, cmds, next, CP_WAIT_FOR_IDLE, 0, [], log');
    next, log' := PutOpWhen(f.secure, cmds, next, CP_SET_SECURE_MODE, 1, [0], log');
    next, log' := PreemptionPostIbSubmit(cmds, next, dev, log');
  }

  method FillReport(rb: AdrenoRingbuffer, start: nat, dev: Device)
    requires start + 3 <= rb.buffer.Length
    modifies rb.buffer
    ensures Wrote(old(rb.buffer[..]), rb.buffer[..], start, EncodeAll([WhereAmI(dev)]))
    ensures |EncodeAll([WhereAmI(dev)])| == 3
  {
    EncodeOne(WhereAmI(dev));
    var next := Put(rb.buffer, start, [Type7(CP_WHERE_AM_I, 2), Lo(dev.rptrShadow), Hi(dev.rptrShadow)], start + 3);
    assert EncodeAll([WhereAmI(dev)]) == [Type7(CP_WHERE_AM_I, 2), Lo(dev.rptrShadow), Hi(dev.rptrShadow)];
  }

  /** A packet that makes the processor report its read pointer, if it fits. */
  method PutWhereAmI(rb: AdrenoRingbuffer, dev: Device, rptr: nat) returns (ok: bool, ghost report: seq<u32>)
    requires rb.Valid() && rptr < KGSL_RB_DWORDS && !rb.legacy
    modifies rb`pendingWptr, rb.buffer
    ensures rb.Valid() && (ok <==> !NoRoom(rptr, old(rb.pendingWptr), 3))
    ensures !ok ==> rb.pendingWptr == old(rb.pendingWptr) && rb.buffer[..] == old(rb.buffer[..])
    ensures ok ==> ReadsAs(report, [WhereAmI(dev)])
    ensures ok ==> rb.pendingWptr == StartOf(rptr, old(rb.pendingWptr), 3) + 3
    ensures ok ==> Cyclic(rb.buffer[..], rptr, rb.pendingWptr) == old(Cyclic(rb.buffer[..], rptr, rb.pendingWptr)) + report
  {
    report := [];
    ghost var w, orig := rb.pendingWptr, rb.buffer[..];
    var start := rb.AllocSpace(rptr, 3);
    if start < 0 { return false, report; }
    ghost var mid, out := rb.buffer[..], [WhereAmI(dev)];
    FillReport(rb, start, dev);
    ghost var now := rb.buffer[..];
    report := Appended(false, orig, mid, now, rptr, rptr, w, start, 3, out, rb.pendingWptr, 0);
    return true, report;
  }

  /** Publishes the pending words; with `sync`, after the report of the read
      pointer.  False if that does not fit. */
  method RingbufferSubmit(rb: AdrenoRingbuffer, dev: Device, sync: bool, rptr: nat) returns (ok: bool, ghost report: seq<u32>)
    requires rb.Valid() && rptr < KGSL_RB_DWORDS && !rb.legacy
    modifies rb`pendingWptr, rb`wptr, rb.buffer
    ensures rb.Valid() && (ok <==> !sync || !NoRoom(rptr, old(rb.pendingWptr), 3))
    ensures !ok ==> rb.wptr == old(rb.wptr) && rb.pendingWptr == old(rb.pendingWptr) && rb.buffer[..] == old(rb.buffer[..])
    ensures !sync ==> report == []
    ensures ok && sync ==> ReadsAs(report, [WhereAmI(dev)])
    ensures ok ==> rb.wptr == rb.pendingWptr
    ensures ok ==> rb.wptr == if sync then StartOf(rptr, old(rb.pendingWptr), 3) + 3 else old(rb.pendingWptr)
    ensures ok ==> Cyclic(rb.buffer[..], rptr, rb.wptr) == old(Cyclic(rb.buffer[..], rptr, rb.pendingWptr)) + report
  {
    report := [];
    if sync {
      var fits;
      fits, report := PutWhereAmI(rb, dev, rptr);
      if !fits { return false, report; }
    }
    rb.wptr := rb.pendingWptr;
    assert Cyclic(rb.buffer[..], rptr, rb.wptr) + [] == Cyclic(rb.buffer[..], rptr, rb.wptr);
    return true, report;
  }

  /** Fills a reservation of `size` words at `start` and gives back the rest. */
  method FillSubmission(rb: AdrenoRingbuffer, start: nat, size: nat, job: Job, input: seq<u32>, ghost user: seq<Packet>)
    requires rb.buffer.Length == KGSL_RB_DWORDS && start + size <= KGSL_RB_DWORDS - 2 && rb.pendingWptr == start + size
    requires AllFit(user) && input == EncodeAll(user) && size == A5XX_SUBMIT_MAX + |input|
    modifies rb`pendingWptr, rb.buffer
    ensures Wrote(old(rb.buffer[..]), rb.buffer[..], start, EncodeAll(Submission(job, user)))
    ensures |EncodeAll(Submission(job, user))| <= size - 3
    ensures rb.pendingWptr == start + |EncodeAll(Submission(job, user))|
  {
    var cmds, index := rb.buffer, start;
    ghost var log := Log(cmds[..], start, [], start + size);
    index, log := PutPrologue(cmds, index, job.dev, job.ctx, job.f, job.timestamp, job.rbTimestamp, job.preIb, log);
    index, log := PutStream(cmds, index, input, user, log);
    index, log := PutRetirement(cmds, index, job.dev, job.ctx, job.f, job.timestamp, job.rbTimestamp, job.postIb, job.sequence, log);
    index, log := PutClosing(cmds, index, job.dev, job.f, log);
    rb.pendingWptr := rb.pendingWptr - (size - (index - start));
  }

  /** Reserves room for a submission and writes it there, unpublished.  A report
      of the read pointer has room behind it. */
  method WriteSubmission(rb: AdrenoRingbuffer, job: Job, input: seq<u32>, ghost user: seq<Packet>, rptr: nat, ghost rptrAfter: nat)
    returns (fits: bool, ghost words: seq<u32>)
    requires rb.Valid() && !rb.legacy && rptr < KGSL_RB_DWORDS && rptrAfter < KGSL_RB_DWORDS
    requires Between(rptr, rptrAfter, rb.pendingWptr)
    requires AllFit(user) && input == EncodeAll(user)
    modifies rb`pendingWptr, rb.buffer
    ensures rb.Valid() && (fits <==> !NoRoom(rptr, old(rb.pendingWptr), A5XX_SUBMIT_MAX + |input|))
    ensures !fits ==> rb.pendingWptr == old(rb.pendingWptr) && rb.buffer[..] == old(rb.buffer[..])
    ensures fits ==>
              && rb.pendingWptr == StartOf(rptr, old(rb.pendingWptr), A5XX_SUBMIT_MAX + |input|) + |EncodeAll(Submission(job, user))|
              && StartOf(rptrAfter, rb.pendingWptr, 3) == rb.pendingWptr
    ensures fits ==>
              && ReadsAs(words, Submission(job, user)) && !NoRoom(rptrAfter, rb.pendingWptr, 3)
              && Cyclic(rb.buffer[..], rptrAfter, rb.pendingWptr) == old(Cyclic(rb.buffer[..], rptrAfter, rb.pendingWptr)) + words
  {
    words := [];
    var size := A5XX_SUBMIT_MAX + |input|;
    ghost var w, orig := rb.pendingWptr, rb.buffer[..];
    var start := rb.AllocSpace(rptr, size);
    if start < 0 { return false, words; }

    ghost var mid, out := rb.buffer[..], Submission(job, user);
    FillSubmission(rb, start, size, job, input, user);
    ghost var now := rb.buffer[..];
    words := Appended(false, orig, mid, now, rptr, rptrAfter, w, start, size, out, rb.pendingWptr, 3);
    return true, words;
  }

  /** Submits `input`, the words of the packets `user`, and publishes it.  `rptr`
      and `rptrAfter` are the read pointer at the two times it is read.  On
      success, behind the words the processor has still to read come words that
      read as the submission, and without preemption behind those a report of
      the read pointer, which always fits. */
  method AddCmds(rb: AdrenoRingbuffer, job: Job, input: seq<u32>, ghost user: seq<Packet>,
                 detached: bool, gpuFault: bool, rptr: nat, rptrAfter: nat)
    returns (status: Status, ghost words: seq<u32>, ghost report: seq<u32>)
    requires rb.Valid() && !rb.legacy && rptr < KGSL_RB_DWORDS && rptrAfter < KGSL_RB_DWORDS
    requires Between(rptr, rptrAfter, rb.pendingWptr)
    requires AllFit(user) && input == EncodeAll(user)
    requires job.rbTimestamp == (rb.timestamp + 1) % TWO32
    modifies rb`timestamp, rb`pendingWptr, rb`wptr, rb.buffer
    ensures status.Detached? <==> job.ctx.Some? && detached
    ensures status.GpuFault? <==> !status.Detached? && gpuFault
    ensures status.NoSpace? <==>
              !status.Detached? && !gpuFault && NoRoom(rptr, old(rb.pendingWptr), A5XX_SUBMIT_MAX + |input|)
    ensures status.Detached? || status.GpuFault? ==> unchanged(rb) && unchanged(rb.buffer)
    ensures status.NoSpace? ==>
              && rb.timestamp == job.rbTimestamp && rb.wptr == old(rb.wptr) && rb.pendingWptr == old(rb.pendingWptr)
              && rb.buffer[..] == old(rb.buffer[..])
    ensures rb.Valid()
    ensures status.Ok? ==>
              rb.wptr == StartOf(rptr, old(rb.pendingWptr), A5XX_SUBMIT_MAX + |input|) + |EncodeAll(Submission(job, user))|
                         + if job.dev.preemption then 0 else 3
    ensures status.Ok? ==>
              && rb.timestamp == job.rbTimestamp && rb.wptr == rb.pendingWptr
              && ReadsAs(words, Submission(job, user))
              && (if job.dev.preemption then report == [] else ReadsAs(report, [WhereAmI(job.dev)]))
              && Cyclic(rb.buffer[..], rptrAfter, rb.wptr) ==
                   old(Cyclic(rb.buffer[..], rptrAfter, rb.pendingWptr)) + words + report
  {
    words, report := [], [];
    if job.ctx.Some? && detached { return Detached, words, report; }
    if gpuFault { return GpuFault, words, report; }
    rb.timestamp := (rb.timestamp + 1) % TWO32;

    var fits;
    fits, words := WriteSubmission(rb, job, input, user, rptr, rptrAfter);
    if !fits { return NoSpace, words, report; }
    var published;
    published, report := RingbufferSubmit(rb, job.dev, !job.dev.preemption, rptrAfter);
    return Ok, words, report;
  }

  // ---- User commands ----

  lemma EntryWords(ib: IbNode, f: Flags)
    ensures EncodeAll([Entry(false, ib, f)]) ==
              (if Skipped(ib, f) then [Type7(CP_NOP, 4)] else []) + Encode(IbPacket(NodeIb(false, ib)))
    ensures Encode(IbPacket(NodeIb(false, ib))) ==
              [Type7(CP_INDIRECT_BUFFER_PFE, 3), Lo(ib.addr), Hi(ib.addr), ib.size / 4 % 0x10_0000]
  {
    EncodeOne(Entry(false, ib, f));
  }

  /** The words of an entry, written in two steps. */
  lemma EntryWritten(a: seq<u32>, b: seq<u32>, c: seq<u32>, index: nat, ib: IbNode, f: Flags)
    requires Wrote(a, b, index, if Skipped(ib, f) then [Type7(CP_NOP, 4)] else [])
    requires Wrote(b, c, index + (if Skipped(ib, f) then 1 else 0), [Type7(CP_INDIRECT_BUFFER_PFE, 3), Lo(ib.addr), Hi(ib.addr), ib.size / 4 % 0x10_0000])
    ensures Wrote(a, c, index, EncodeAll([Entry(false, ib, f)]))
    ensures |EncodeAll([Entry(false, ib, f)])| == (if Skipped(ib, f) then 1 else 0) + 4
  {
    EntryWords(ib, f);
    WroteMore(a, b, c, index, if Skipped(ib, f) then [Type7(CP_NOP, 4)] else [], Encode(IbPacket(NodeIb(false, ib))));
  }

  lemma EntryHolds(log: Log, a: seq<u32>, b: seq<u32>, c: seq<u32>, index: nat, next: nat, ib: IbNode, f: Flags)
    requires Holds(log, a, index)
    requires Wrote(a, b, index, if Skipped(ib, f) then [Type7(CP_NOP, 4)] else [])
    requires Wrote(b, c, index + (if Skipped(ib, f) then 1 else 0), [Type7(CP_INDIRECT_BUFFER_PFE, 3), Lo(ib.addr), Hi(ib.addr), ib.size / 4 % 0x10_0000])
    requires next == index + (if Skipped(ib, f) then 1 else 0) + 4
    ensures Holds(log.(out := log.out + [Entry(false, ib, f)]), c, next)
  {
    EntryWritten(a, b, c, index, ib, f);
    HoldsMore(log, a, c, index, [Entry(false, ib, f)]);
  }

  /** One command list entry; a skipped one is hidden behind a NOP header. */
  method PutEntry(cmds: array<u32>, index: nat, ib: IbNode, f: Flags, ghost log: Log)
    returns (next: nat, ghost log': Log)
    requires Holds(log, cmds[..], index) && index + 5 <= log.limit
    modifies cmds
    ensures next <= index + 5
    ensures log' == log.(out := log.out + [Entry(false, ib, f)]) && Holds(log', cmds[..], next)
  {
    ghost var mid := cmds[..];
    next := PutWhen(ib.skip || (ib.preamble && !f.preamble), cmds, index, [Type7(CP_NOP, 4)], log.limit);
    ghost var between := cmds[..];
    next := Put(cmds, next, [Type7(CP_INDIRECT_BUFFER_PFE, 3), Lo(ib.addr), Hi(ib.addr), ib.size / 4 % 0x10_0000], log.limit);
    ghost var now := cmds[..];
    EntryHolds(log, mid, between, now, index, next, ib, f);
    log' := log.(out := log.out + [Entry(false, ib, f)]);
  }

  /** Profiling slots are used in turn. */
  function NextSlot(slot: nat): (next: nat)
    ensures next < PROFILE_IB_SLOTS && next != slot
  {
    (slot + 1) % PROFILE_IB_SLOTS
  }

  /** The call of a slot of the profiling page: four words of 16 bytes. */
  function SlotIb(page: u64, slot: nat): Ib
    requires page + 16 * PROFILE_IB_SLOTS < TWO32 * TWO32 && slot < PROFILE_IB_SLOTS
  {
    Ib(page + 16 * slot, 4)
  }

  /** The page with four words in a slot: they store the counter to `addr`. */
  function WithSlot(mem: seq<u32>, slot: nat, counter: u32, addr: u64): (after: seq<u32>)
    requires |mem| == 4 * PROFILE_IB_SLOTS && slot < PROFILE_IB_SLOTS
    ensures |after| == |mem|
  {
    mem[..4 * slot] + [Type7(CP_REG_TO_MEM, 3), counter, Lo(addr), Hi(addr)] + mem[4 * slot + 4..]
  }

  /** The words in a slot. */
  function SlotWords(mem: seq<u32>, slot: nat): seq<u32>
    requires |mem| == 4 * PROFILE_IB_SLOTS && slot < PROFILE_IB_SLOTS
  {
    mem[4 * slot..4 * slot + 4]
  }

  lemma SlotsHold(mem: seq<u32>, slot: nat, counter: u32, addr: u64, other: nat, addr2: u64)
    requires |mem| == 4 * PROFILE_IB_SLOTS && slot < PROFILE_IB_SLOTS && other < PROFILE_IB_SLOTS && slot != other
    ensures var after := WithSlot(WithSlot(mem, slot, counter, addr), other, counter, addr2);
            && SlotWords(after, slot) == [Type7(CP_REG_TO_MEM, 3), counter, Lo(addr), Hi(addr)]
            && SlotWords(after, other) == [Type7(CP_REG_TO_MEM, 3), counter, Lo(addr2), Hi(addr2)]
  {
    var mid := WithSlot(mem, slot, counter, addr);
    SlotIsSet(mem, slot, counter, addr);
    SlotIsSet(mid, other, counter, addr2);
    OtherSlotStays(mid, other, counter, addr2, slot);
  }

  lemma SlotIsSet(mem: seq<u32>, slot: nat, counter: u32, addr: u64)
    requires |mem| == 4 * PROFILE_IB_SLOTS && slot < PROFILE_IB_SLOTS
    ensures SlotWords(WithSlot(mem, slot, counter, addr), slot) == [Type7(CP_REG_TO_MEM, 3), counter, Lo(addr), Hi(addr)]
  {
  }

  lemma OtherSlotStays(mem: seq<u32>, slot: nat, counter: u32, addr: u64, other: nat)
    requires |mem| == 4 * PROFILE_IB_SLOTS && slot < PROFILE_IB_SLOTS && other < PROFILE_IB_SLOTS && slot != other
    ensures SlotWords(WithSlot(mem, slot, counter, addr), other) == SlotWords(mem, other)
  {
    var after := WithSlot(mem, slot, counter, addr);
    forall k | 4 * other <= k < 4 * other + 4 ensures after[k] == mem[k] {
      if other < slot { assert k < 4 * slot; } else { assert k >= 4 * slot + 4; }
    }
  }

  /** A call of the ring's next profiling slot, which stores the counter to `addr`. */
  method PutUserProfilingIb(rb: AdrenoRingbuffer, base: u64, counter: u32, addr: u64, cmds: array<u32>, index: nat, ghost log: Log)
    returns (next: nat, ib: Ib, ghost log': Log)
    requires rb.Valid() && base + 16 * PROFILE_IB_SLOTS < TWO32 * TWO32 && cmds != rb.profileBuffer
    requires Holds(log, cmds[..], index) && index + 4 <= log.limit
    modifies rb`profileIndex, rb.profileBuffer, cmds
    ensures rb.Valid() && rb.profileIndex == NextSlot(old(rb.profileIndex))
    ensures ib == SlotIb(base, old(rb.profileIndex))
    ensures rb.profileBuffer[..] == WithSlot(old(rb.profileBuffer[..]), old(rb.profileIndex), counter, addr)
    ensures next == index + 4
    ensures log' == log.(out := log.out + [IbPacket(ib)]) && Holds(log', cmds[..], next)
  {
    var offset := rb.profileIndex * 4;
    var dwords := Put(rb.profileBuffer, offset, [Type7(CP_REG_TO_MEM, 3), counter, Lo(addr), Hi(addr)], rb.profileBuffer.Length);
    ib := Ib(base + 4 * offset, dwords - offset);
    next, log' := PutOp(cmds, index, CP_INDIRECT_BUFFER_PFE, 3, [Lo(ib.addr), Hi(ib.addr), ib.dwords], log);
    rb.profileIndex := NextSlot(rb.profileIndex);
  }

  /** The profiling addresses of a command: kernel profile entries, the user's
      submission and retirement fields, and the ring's profiling page if it has one. */
  datatype Profile = Profile(started: u64, retired: u64, userSubmitted: u64, userRetired: u64, page: Option<u64>, afterA530: bool)

  predicate ProfileFits(p: Profile) {
    p.page.Some? ==> p.page.value + 16 * PROFILE_IB_SLOTS < TWO32 * TWO32
  }

  /** The call that stamps a time of the user's in a slot, if there is one. */
  function UserIb(f: Flags, pr: Profile, slot: nat): Option<Ib>
    requires ProfileFits(pr) && slot < PROFILE_IB_SLOTS
  {
    if f.userProfile && pr.page.Some? then Some(SlotIb(pr.page.value, slot)) else None
  }

  /** The page after such a call was made. */
  function UserSlot(mem: seq<u32>, f: Flags, pr: Profile, slot: nat, addr: u64): (after: seq<u32>)
    requires |mem| == 4 * PROFILE_IB_SLOTS && slot < PROFILE_IB_SLOTS
    ensures |after| == |mem|
  {
    if f.userProfile && pr.page.Some? then WithSlot(mem, slot, CounterReg(pr.afterA530), addr) else mem
  }

  function UserNext(f: Flags, pr: Profile, slot: nat): (next: nat)
    requires slot < PROFILE_IB_SLOTS
    ensures next < PROFILE_IB_SLOTS
  {
    if f.userProfile && pr.page.Some? then NextSlot(slot) else slot
  }

  method PutUserProfile(rb: AdrenoRingbuffer, f: Flags, pr: Profile, addr: u64, cmds: array<u32>, index: nat, ghost log: Log)
    returns (next: nat, ib: Option<Ib>, ghost log': Log)
    requires rb.Valid() && ProfileFits(pr) && cmds != rb.profileBuffer
    requires Holds(log, cmds[..], index) && index + 4 <= log.limit
    modifies rb`profileIndex, rb.profileBuffer, cmds
    ensures rb.Valid() && index <= next <= index + 4
    ensures ib == UserIb(f, pr, old(rb.profileIndex)) && rb.profileIndex == UserNext(f, pr, old(rb.profileIndex))
    ensures rb.profileBuffer[..] == UserSlot(old(rb.profileBuffer[..]), f, pr, old(rb.profileIndex), addr)
    ensures log' == log.(out := ProfileIb(log.out, ib)) && Holds(log', cmds[..], next)
  {
    next, ib, log' := index, None, log;
    if f.userProfile && pr.page.Some? {
      var slot;
      next, slot, log' := PutUserProfilingIb(rb, pr.page.value, CounterReg(pr.afterA530), addr, cmds, next, log');
      ib := Some(slot);
    }
  }

  method PutCommandHead(rb: AdrenoRingbuffer, f: Flags, pr: Profile, cmds: array<u32>, ghost log: Log)
    returns (index: nat, submitIb: Option<Ib>, ghost log': Log)
    requires rb.Valid() && ProfileFits(pr) && cmds != rb.profileBuffer
    requires Holds(log, cmds[..], 0) && log.out == [] && 10 <= log.limit
    modifies rb`profileIndex, rb.profileBuffer, cmds
    ensures rb.Valid() && index <= 10
    ensures submitIb == UserIb(f, pr, old(rb.profileIndex)) && rb.profileIndex == UserNext(f, pr, old(rb.profileIndex))
    ensures rb.profileBuffer[..] == UserSlot(old(rb.profileBuffer[..]), f, pr, old(rb.profileIndex), pr.userSubmitted)
    ensures log' == log.(out := CommandHead(f, CounterReg(pr.afterA530), pr.started, submitIb))
    ensures Holds(log', cmds[..], index)
  {
    index, log' := PutOp(cmds, 0, CP_NOP, 1, [START_IB_IDENTIFIER], log);
    index, log' := PutOpWhen(f.kernelProfile, cmds, index, CP_REG_TO_MEM, 3, [CounterReg(pr.afterA530), Lo(pr.started), Hi(pr.started)], log');
    index, submitIb, log' := PutUserProfile(rb, f, pr, pr.userSubmitted, cmds, index, log');
  }

  method PutEntries(cmds: array<u32>, index: nat, ibs: seq<IbNode>, f: Flags, ghost log: Log)
    returns (next: nat, ghost log': Log)
    requires Holds(log, cmds[..], index) && index + 5 * |ibs| <= log.limit
    modifies cmds
    ensures next <= index + 5 * |ibs|
    ensures log' == log.(out := Entries(false, log.out, ibs, f)) && Holds(log', cmds[..], next)
  {
    next, log' := index, log;
    var i := 0;
    while i < |ibs|
      invariant i <= |ibs| && next <= index + 5 * i
      invariant Holds(log', cmds[..], next)
      invariant log' == log.(out := Entries(false, log.out, ibs[..i], f))
    {
      assert ibs[..i + 1][..i] == ibs[..i];
      next, log' := PutEntry(cmds, next, ibs[i], f, log');
      i := i + 1;
    }
    assert ibs[..i] == ibs;
  }

  method PutCommandTail(rb: AdrenoRingbuffer, f: Flags, pr: Profile, cmds: array<u32>, index: nat, ghost log: Log)
    returns (next: nat, retireIb: Option<Ib>, ghost log': Log)
    requires rb.Valid() && ProfileFits(pr) && cmds != rb.profileBuffer
    requires Holds(log, cmds[..], index) && index + 18 <= log.limit
    modifies rb`profileIndex, rb.profileBuffer, cmds
    ensures rb.Valid() && next <= index + 18
    ensures retireIb == UserIb(f, pr, old(rb.profileIndex)) && rb.profileIndex == UserNext(f, pr, old(rb.profileIndex))
    ensures rb.profileBuffer[..] == UserSlot(old(rb.profileBuffer[..]), f, pr, old(rb.profileIndex), pr.userRetired)
    ensures log' == log.(out := CommandTail(log.out, f, CounterReg(pr.afterA530), pr.retired, retireIb))
    ensures Holds(log', cmds[..], next)
  {
    next, log' := PutOp(cmds, index, CP_SET_RENDER_MODE, 5, [0, 0, 0, 0, 0], log);
    next, log' := PutOp(cmds, next, CP_YIELD_ENABLE, 1, [1], log');
    next, log' := PutOpWhen(f.kernelProfile, cmds, next, CP_REG_TO_MEM, 3, [CounterReg(pr.afterA530), Lo(pr.retired), Hi(pr.retired)], log');
    next, retireIb, log' := PutUserProfile(rb, f, pr, pr.userRetired, cmds, next, log');
    next, log' := PutOp(cmds, next, CP_NOP, 1, [END_IB_IDENTIFIER], log');
  }

  method PutCommandBody(rb: AdrenoRingbuffer, cmds: array<u32>, ibs: seq<IbNode>, f: Flags, pr: Profile, ghost log: Log)
    returns (index: nat, submitIb: Option<Ib>, ghost log': Log)
    requires rb.Valid() && ProfileFits(pr) && cmds != rb.profileBuffer
    requires Holds(log, cmds[..], 0) && log.out == [] && 10 + 5 * |ibs| <= log.limit
    modifies rb`profileIndex, rb.profileBuffer, cmds
    ensures rb.Valid() && index <= 10 + 5 * |ibs|
    ensures submitIb == UserIb(f, pr, old(rb.profileIndex)) && rb.profileIndex == UserNext(f, pr, old(rb.profileIndex))
    ensures rb.profileBuffer[..] == UserSlot(old(rb.profileBuffer[..]), f, pr, old(rb.profileIndex), pr.userSubmitted)
    ensures log' == log.(out := Entries(false, CommandHead(f, CounterReg(pr.afterA530), pr.started, submitIb), ibs, f))
    ensures Holds(log', cmds[..], index)
  {
    index, submitIb, log' := PutCommandHead(rb, f, pr, cmds, log);
    index, log' := PutEntries(cmds, index, ibs, f, log');
  }

  /** Where a command's times go: the two user calls are of successive slots. */
  function StampsOf(f: Flags, pr: Profile, slot: nat): Stamps
    requires ProfileFits(pr) && slot < PROFILE_IB_SLOTS
  {
    Stamps(pr.started, pr.retired, UserIb(f, pr, slot), UserIb(f, pr, UserNext(f, pr, slot)), CounterReg(pr.afterA530))
  }

  /** The profiling page and the next slot after a command was built: with user profiling
      two slots store the counter where the user wants the times of submission and
      retirement, and no other word changes. */
  predicate PageAfter(before: seq<u32>, slot: nat, f: Flags, pr: Profile, after: seq<u32>, next: nat)
    requires |before| == 4 * PROFILE_IB_SLOTS && slot < PROFILE_IB_SLOTS
  {
    if f.userProfile && pr.page.Some? then
      && after == WithSlot(WithSlot(before, slot, CounterReg(pr.afterA530), pr.userSubmitted),
                           NextSlot(slot), CounterReg(pr.afterA530), pr.userRetired)
      && next == NextSlot(NextSlot(slot))
    else after == before && next == slot
  }

  /** Fills the command buffer for the buffers `ibs`.  The two profiling calls,
      if any, use successive slots of the ring's profiling page. */
  method FillCommand(rb: AdrenoRingbuffer, cmds: array<u32>, ibs: seq<IbNode>, f: Flags, pr: Profile)
    returns (index: nat, st: Stamps)
    requires rb.Valid() && ProfileFits(pr) && cmds != rb.profileBuffer && cmds.Length == A5XX_COMMAND_DWORDS + 5 * |ibs|
    modifies rb`profileIndex, rb.profileBuffer, cmds
    ensures rb.Valid() && index <= cmds.Length && cmds[..index] == EncodeAll(Commands(ibs, f, st))
    ensures st == StampsOf(f, pr, old(rb.profileIndex))
    ensures PageAfter(old(rb.profileBuffer[..]), old(rb.profileIndex), f, pr, rb.profileBuffer[..], rb.profileIndex)
  {
    ghost var log := Log(cmds[..], 0, [], cmds.Length);
    var submitIb, retireIb;
    index, submitIb, log := PutCommandBody(rb, cmds, ibs, f, pr, log);
    index, retireIb, log := PutCommandTail(rb, f, pr, cmds, index, log);
    HoldsFromStart(log, cmds[..], index);
    st := Stamps(pr.started, pr.retired, submitIb, retireIb, CounterReg(pr.afterA530));
  }

  /** Builds the command buffer for a command list; with F_SKIP the list counts
      as empty. */
  method BuildCommand(rb: AdrenoRingbuffer, list: seq<IbNode>, f: Flags, pr: Profile)
    returns (cmds: array<u32>, index: nat, st: Stamps)
    requires rb.Valid() && ProfileFits(pr)
    modifies rb`profileIndex, rb.profileBuffer
    ensures rb.Valid() && fresh(cmds) && index <= cmds.Length
    ensures cmds.Length == A5XX_COMMAND_DWORDS + 5 * |Issued(list, f)|
    ensures cmds[..index] == EncodeAll(Commands(Issued(list, f), f, st))
    ensures st == StampsOf(f, pr, old(rb.profileIndex))
    ensures PageAfter(old(rb.profileBuffer[..]), old(rb.profileIndex), f, pr, rb.profileBuffer[..], rb.profileIndex)
  {
    var ibs := if f.skip then [] else list;
    cmds := new u32[A5XX_COMMAND_DWORDS + 5 * |ibs|](_ => 0);
    index, st := FillCommand(rb, cmds, ibs, f, pr);
  }

  /** Page table switch: 18 words, none for the default table. */
  method PutPagetableSwitch(cmds: array<u32>, ttbr0: u64, id: u32, scratch: u64, ghost log: Log)
    returns (next: nat, ghost log': Log)
    requires Holds(log, cmds[..], 0) && log.out == [] && 18 <= log.limit
    modifies cmds
    ensures next == 18 && log' == log.(out := PagetableSwitch(ttbr0, id, scratch)) && Holds(log', cmds[..], next)
  {
    next, log' := 0, log;
    next, log' := PutOp(cmds, next, CP_SMMU_TABLE_UPDATE, 3, [Lo(ttbr0), Hi(ttbr0), id], log');
    next, log' := PutOp(cmds, next, CP_WAIT_FOR_IDLE, 0, [], log');
    next, log' := PutOp(cmds, next, CP_WAIT_FOR_ME, 0, [], log');
    next, log' := PutReg(cmds, next, A5XX_CP_CNTL, 1, [1], log');
    next, log' := PutOp(cmds, next, CP_MEM_WRITE, 5, [Lo(scratch), Hi(scratch), Lo(ttbr0), Hi(ttbr0), id], log');
    next, log' := PutOp(cmds, next, CP_WAIT_FOR_IDLE, 0, [], log');
    next, log' := PutOp(cmds, next, CP_WAIT_FOR_ME, 0, [], log');
    next, log' := PutReg(cmds, next, A5XX_CP_CNTL, 1, [0], log');
  }

  /** The commands of a context switch, in a local array of 32 words. */
  method BuildContextSwitch(pt: Option<u64>, id: u32, scratch: u64, rbCurrent: u64, globalCurrent: u64)
    returns (cmds: array<u32>, count: nat)
    ensures fresh(cmds) && cmds.Length == 32 && count <= 32
    ensures cmds[..count] == EncodeAll(ContextSwitch(pt, id, scratch, rbCurrent, globalCurrent))
  {
    cmds := new u32[32](_ => 0);
    count := 0;
    ghost var log := Log(cmds[..], 0, [], 32);
    if pt.Some? {
      count, log := PutPagetableSwitch(cmds, pt.value, id, scratch, log);
    }
    count, log := PutOp(cmds, count, CP_NOP, 1, [CONTEXT_TO_MEM_IDENTIFIER], log);
    count, log := PutMemWrite(cmds, count, rbCurrent, id, log);
    count, log := PutMemWrite(cmds, count, globalCurrent, id, log);
    count, log := PutReg(cmds, count, A5XX_UCHE_INVALIDATE0, 1, [0x12], log);
  }
}
