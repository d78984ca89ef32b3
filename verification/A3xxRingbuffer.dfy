/** The a3xx command-stream builder: methods that fill command arrays in place. */
module A3xxRingbuffer {
  import opened Common
  import opened Pm4
  import opened Ringbuffer
  import opened CommandLists
  import opened A5xxPackets
  import A = A3xxPackets

  /** Room for the packets around the caller's commands. */
  const A3XX_SUBMIT_MAX: nat := 55
  const A3XX_COMMAND_DWORDS: nat := 4

  // ---- The small emitters: each returns the index behind what it wrote ----

  method WaitReg(cmds: array<u32>, index: nat, addr: u32, val: u32, mask: u32, interval: u32, ghost log: Log)
    returns (next: nat, ghost log': Log)
    requires Holds(log, cmds[..], index) && index + 5 <= log.limit
    modifies cmds
    ensures next == index + 5
    ensures log' == log.(out := log.out + [A.WaitReg(addr, val, mask, interval)]) && Holds(log', cmds[..], next)
  {
    next, log' := PutOp3(cmds, index, CP_WAIT_REG_EQ, 4, [addr, val, mask, interval], log);
  }

  /** A packet of one word, and its word. */
  method PutOne(cmds: array<u32>, index: nat, op: nat, word: u32, ghost log: Log)
    returns (next: nat, ghost log': Log)
    requires op < 0x80 && Holds(log, cmds[..], index) && index + 2 <= log.limit
    modifies cmds
    ensures next == index + 2
    ensures log' == log.(out := log.out + [Pkt3(op, [word])]) && Holds(log', cmds[..], next)
  {
    next, log' := PutOp3(cmds, index, op, 1, [word], log);
  }

  method PutHalt(cmds: array<u32>, index: nat, value: u32, ghost log: Log)
    returns (next: nat, ghost log': Log)
    requires Holds(log, cmds[..], index) && index + 4 <= log.limit
    modifies cmds
    ensures next == index + 4
    ensures log' == log.(out := log.out + [A.Halt(value)]) && Holds(log', cmds[..], next)
  {
    next, log' := PutOp3(cmds, index, CP_REG_RMW, 3,
                         [A.A3XX_VBIF_DDR_OUTPUT_RECOVERABLE_HALT_CTRL0, A.UNHALT_MASK, value], log);
  }

  method VbifLock(cmds: array<u32>, index: nat, ghost log: Log) returns (next: nat, ghost log': Log)
    requires Holds(log, cmds[..], index) && index + 14 <= log.limit
    modifies cmds
    ensures next == index + 14
    ensures log' == log.(out := A.VbifLock(log.out)) && Holds(log', cmds[..], next)
  {
    next, log' := WaitReg(cmds, index, A.A3XX_CP_WFI_PEND_CTR, 1, 0xFFFF_FFFF, 0xF, log);
    next, log' := PutHalt(cmds, next, 1, log');
    next, log' := WaitReg(cmds, next, A.A3XX_VBIF_DDR_OUTPUT_RECOVERABLE_HALT_CTRL1, 1, 0xFFFF_FFFF, 0xF, log');
  }

  method VbifUnlock(cmds: array<u32>, index: nat, ghost log: Log) returns (next: nat, ghost log': Log)
    requires Holds(log, cmds[..], index) && index + 6 <= log.limit
    modifies cmds
    ensures next == index + 6
    ensures log' == log.(out := A.VbifUnlock(log.out)) && Holds(log', cmds[..], next)
  {
    next, log' := PutHalt(cmds, index, 0, log);
    next, log' := PutOne(cmds, next, CP_WAIT_FOR_ME, 0, log');
  }

  /** A write of SMMU registers: header, address, and the values. */
  method CpSmmuReg(cmds: array<u32>, index: nat, reg: nat, num: nat, values: seq<u32>, ghost log: Log)
    returns (next: nat, ghost log': Log)
    requires reg < 0x1000 && num == |values| < 0x100
    requires Holds(log, cmds[..], index) && index + 2 + num <= log.limit
    modifies cmds
    ensures next == index + 2 + num
    ensures log' == log.(out := log.out + [A.SmmuReg(reg, values)]) && Holds(log', cmds[..], next)
  {
    next, log' := PutOp3(cmds, index, CP_REG_WR_NO_CTXT, num + 1, [(A.A3XX_GPU_OFFSET + reg) / 4] + values, log);
  }

  method TlbiAll(cmds: array<u32>, index: nat, ghost log: Log) returns (next: nat, ghost log': Log)
    requires Holds(log, cmds[..], index) && index + 11 <= log.limit
    modifies cmds
    ensures next == index + 11
    ensures log' == log.(out := A.TlbiAll(log.out)) && Holds(log', cmds[..], next)
  {
    var status := (A.A3XX_GPU_OFFSET + A.KGSL_IOMMU_CTX_TLBSTATUS) / 4;
    next, log' := CpSmmuReg(cmds, index, A.KGSL_IOMMU_CTX_TLBIALL, 1, [1], log);
    next, log' := CpSmmuReg(cmds, next, A.KGSL_IOMMU_CTX_TLBSYNC, 1, [0], log');
    next, log' := WaitReg(cmds, next, status, 0, A.KGSL_IOMMU_CTX_TLBSTATUS_SACTIVE, 0xF, log');
  }

  method PutCall(cmds: array<u32>, index: nat, ib: Ib, ghost log: Log) returns (next: nat, ghost log': Log)
    requires Holds(log, cmds[..], index) && index + 3 <= log.limit
    modifies cmds
    ensures next == index + 3
    ensures log' == log.(out := log.out + [CallIb(ib)]) && Holds(log', cmds[..], next)
  {
    next, log' := PutOp3(cmds, index, CP_INDIRECT_BUFFER_PFE, 2, [Lo(ib.addr), ib.dwords], log);
  }

  method PutStore(cmds: array<u32>, index: nat, addr: u64, value: u32, ghost log: Log) returns (next: nat, ghost log': Log)
    requires Holds(log, cmds[..], index) && index + 3 <= log.limit
    modifies cmds
    ensures next == index + 3
    ensures log' == log.(out := log.out + [A.Store(addr, value)]) && Holds(log', cmds[..], next)
  {
    next, log' := PutOp3(cmds, index, CP_MEM_WRITE, 2, [Lo(addr), value], log);
  }

  method PutEvent(cmds: array<u32>, index: nat, event: u32, addr: u64, value: u32, ghost log: Log)
    returns (next: nat, ghost log': Log)
    requires Holds(log, cmds[..], index) && index + 4 <= log.limit
    modifies cmds
    ensures next == index + 4
    ensures log' == log.(out := log.out + [A.StampEvent(event, addr, value)]) && Holds(log', cmds[..], next)
  {
    next, log' := PutOp3(cmds, index, CP_EVENT_WRITE, 3, [event, Lo(addr), value], log);
  }

  // ---- Page table and context switch ----

  method PutStall(cmds: array<u32>, index: nat, setstate: u64, ghost log: Log) returns (next: nat, ghost log': Log)
    requires Holds(log, cmds[..], index) && index + 9 <= log.limit
    modifies cmds
    ensures next == index + 9
    ensures log' == log.(out := A.Stall(log.out, setstate)) && Holds(log', cmds[..], next)
  {
    next, log' := PutOne(cmds, index, CP_WAIT_FOR_ME, 0, log);
    next, log' := PutCall(cmds, next, Ib(setstate, 2), log');
    next, log' := PutOne(cmds, next, CP_WAIT_FOR_IDLE, 0, log');
    next, log' := PutOne(cmds, next, CP_WAIT_FOR_ME, 0, log');
  }

  /** A page table switch: 50 words, none for the default table. */
  method PutPagetableSwitch(cmds: array<u32>, index: nat, ttbr0: u64, setstate: u64, ghost log: Log)
    returns (next: nat, ghost log': Log)
    requires Holds(log, cmds[..], index) && index + 50 <= log.limit
    modifies cmds
    ensures next == index + 50
    ensures log' == log.(out := A.PagetableSwitch(log.out, ttbr0, setstate)) && Holds(log', cmds[..], next)
  {
    next, log' := PutStall(cmds, index, setstate, log);
    next, log' := VbifLock(cmds, next, log');
    next, log' := CpSmmuReg(cmds, next, A.KGSL_IOMMU_CTX_TTBR0, 2, [Lo(ttbr0), Hi(ttbr0)], log');
    next, log' := VbifUnlock(cmds, next, log');
    next, log' := TlbiAll(cmds, next, log');
    next, log' := PutInvalidate(cmds, next, log');
  }

  method PutInvalidate(cmds: array<u32>, index: nat, ghost log: Log) returns (next: nat, ghost log': Log)
    requires Holds(log, cmds[..], index) && index + 6 <= log.limit
    modifies cmds
    ensures next == index + 6
    ensures log' == log.(out := A.Invalidate(log.out)) && Holds(log', cmds[..], next)
  {
    next, log' := PutOne(cmds, index, CP_WAIT_FOR_ME, 0, log);
    next, log' := PutOne(cmds, next, CP_WAIT_FOR_IDLE, 0, log');
    next, log' := PutOne(cmds, next, CP_INVALIDATE_STATE, 0x7ffff, log');
  }

  /** The context's id goes to memory, and the cache is invalidated. */
  method PutNewContext(cmds: array<u32>, index: nat, id: u32, rbCurrent: u64, globalCurrent: u64, ghost log: Log)
    returns (next: nat, ghost log': Log)
    requires Holds(log, cmds[..], index) && index + 11 <= log.limit
    modifies cmds
    ensures next == index + 11 && Holds(log', cmds[..], next)
    ensures log' == log.(out := log.out + [A.Nop(CONTEXT_TO_MEM_IDENTIFIER)] + [A.Store(rbCurrent, id)] + [A.Store(globalCurrent, id)]
                                + [Pkt0(A.A3XX_UCHE_CACHE_INVALIDATE0_REG, [0, 0x9000_0000])])
  {
    next, log' := PutOne(cmds, index, CP_NOP, CONTEXT_TO_MEM_IDENTIFIER, log);
    next, log' := PutStore(cmds, next, rbCurrent, id, log');
    next, log' := PutStore(cmds, next, globalCurrent, id, log');
    next, log' := PutReg0(cmds, next, A.A3XX_UCHE_CACHE_INVALIDATE0_REG, 2, [0, 0x9000_0000], log');
  }

  /** The commands of a context switch, in a local array of 64 words. */
  method BuildContextSwitch(pt: Option<u64>, setstate: u64, id: u32, rbCurrent: u64, globalCurrent: u64)
    returns (cmds: array<u32>, count: nat)
    ensures fresh(cmds) && cmds.Length == 64 && count <= 64
    ensures cmds[..count] == EncodeAll(A.ContextSwitch(pt, setstate, id, rbCurrent, globalCurrent))
  {
    cmds := new u32[64](_ => 0);
    count := 0;
    ghost var log := Log(cmds[..], 0, [], 64);
    if pt.Some? {
      count, log := PutPagetableSwitch(cmds, count, pt.value, setstate, log);
    }
    count, log := PutNewContext(cmds, count, id, rbCurrent, globalCurrent, log);
    HoldsFromStart(log, cmds[..], count);
  }

  // ---- Submissions ----

  method PutFixup(cmds: array<u32>, index: nat, job: A.Job, ghost log: Log) returns (next: nat, ghost log': Log)
    requires Holds(log, cmds[..], index) && index + 9 <= log.limit
    modifies cmds
    ensures next == index + (if job.f.pwronFixup then 9 else 0)
    ensures log' == log.(out := A.PwronFixup(log.out, job)) && Holds(log', cmds[..], next)
  {
    next, log' := index, log;
    if job.f.pwronFixup {
      next, log' := PutOne(cmds, next, CP_SET_PROTECTED_MODE, 0, log');
      next, log' := PutOne(cmds, next, CP_NOP, A.PWRON_FIXUP_IDENTIFIER, log');
      next, log' := PutCall(cmds, next, job.fixup, log');
      next, log' := PutOne(cmds, next, CP_SET_PROTECTED_MODE, 0, log');
    }
  }

  method PutCallWhen(cmds: array<u32>, index: nat, ib: Option<Ib>, ghost log: Log) returns (next: nat, ghost log': Log)
    requires Holds(log, cmds[..], index) && index + 3 <= log.limit
    modifies cmds
    ensures next == index + (if ib.Some? then 3 else 0)
    ensures log' == log.(out := A.CallWhen(log.out, ib)) && Holds(log', cmds[..], next)
  {
    next, log' := index, log;
    if ib.Some? {
      next, log' := PutCall(cmds, next, ib.value, log');
    }
  }

  method PutOneWhen(c: bool, cmds: array<u32>, index: nat, op: nat, word: u32, ghost log: Log)
    returns (next: nat, ghost log': Log)
    requires op < 0x80 && Holds(log, cmds[..], index) && index + 2 <= log.limit
    modifies cmds
    ensures next == index + (if c then 2 else 0)
    ensures log' == log.(out := When(log.out, c, Pkt3(op, [word]))) && Holds(log', cmds[..], next)
  {
    next, log' := index, log;
    if c {
      next, log' := PutOne(cmds, next, op, word, log');
    }
  }

  method PutStartStamps(cmds: array<u32>, index: nat, job: A.Job, ghost log: Log) returns (next: nat, ghost log': Log)
    requires Holds(log, cmds[..], index) && index + 6 <= log.limit
    modifies cmds
    ensures next == index + (if job.ctx.Some? then 6 else 3)
    ensures log' == log.(out := A.StartStamps(log.out, job)) && Holds(log', cmds[..], next)
  {
    next, log' := index, log;
    if job.ctx.Some? {
      next, log' := PutStore(cmds, next, job.ctx.value.sop, job.timestamp, log');
    }
    next, log' := PutStore(cmds, next, job.rbSop, job.rbTimestamp, log');
  }

  method PutEndStamps(cmds: array<u32>, index: nat, job: A.Job, ghost log: Log) returns (next: nat, ghost log': Log)
    requires Holds(log, cmds[..], index) && index + 8 <= log.limit
    modifies cmds
    ensures next == index + (if job.ctx.Some? then 8 else 4)
    ensures log' == log.(out := A.EndStamps(log.out, job)) && Holds(log', cmds[..], next)
  {
    next, log' := index, log;
    if job.ctx.None? {
      next, log' := PutEvent(cmds, next, CACHE_FLUSH_TS_IRQ, job.rbEop, job.rbTimestamp, log');
    } else {
      next, log' := PutEvent(cmds, next, CACHE_FLUSH_TS_IRQ, job.ctx.value.eop, job.timestamp, log');
      next, log' := PutEvent(cmds, next, CACHE_FLUSH_TS, job.rbEop, job.rbTimestamp, log');
    }
  }

  method PutPrologue(cmds: array<u32>, index: nat, job: A.Job, ghost log: Log) returns (next: nat, ghost log': Log)
    requires Holds(log, cmds[..], index) && index + 22 <= log.limit
    modifies cmds
    ensures index <= next <= index + 22
    ensures log' == log.(out := A.Prologue(log.out, job)) && Holds(log', cmds[..], next)
  {
    var id := if job.ctx.Some? then CMD_IDENTIFIER else CMD_INTERNAL_IDENTIFIER;
    next, log' := PutOne(cmds, index, CP_NOP, id, log);
    next, log' := PutFixup(cmds, next, job, log');
    next, log' := PutCallWhen(cmds, next, job.preIb, log');
    next, log' := PutStartStamps(cmds, next, job, log');
    next, log' := PutOneWhen(job.f.notProtected, cmds, next, CP_SET_PROTECTED_MODE, 0, log');
  }

  method PutEpilogue(cmds: array<u32>, index: nat, job: A.Job, ghost log: Log) returns (next: nat, ghost log': Log)
    requires Holds(log, cmds[..], index) && index + 22 <= log.limit
    modifies cmds
    ensures index <= next <= index + 22
    ensures log' == log.(out := A.Epilogue(log.out, job)) && Holds(log', cmds[..], next)
  {
    next, log' := PutOneWhen(job.f.notProtected, cmds, index, CP_SET_PROTECTED_MODE, 1, log);
    next, log' := PutOne(cmds, next, CP_EVENT_WRITE, 0x07, log');
    next, log' := PutOne(cmds, next, CP_WAIT_FOR_IDLE, 0, log');
    next, log' := PutCallWhen(cmds, next, job.postIb, log');
    next, log' := PutEndStamps(cmds, next, job, log');
    next, log' := PutOp3(cmds, next, CP_SET_CONSTANT, 2, [0x4_0000 + A.A3XX_HLSQ_CL_KERNEL_GROUP_X_REG - 0x2000, 0], log');
    next, log' := PutOneWhen(job.f.wfi, cmds, next, CP_WAIT_FOR_IDLE, 0, log');
  }

  /** Fills a reservation of `size` words at `start` and gives back the rest. */
  method FillSubmission(rb: AdrenoRingbuffer, start: nat, size: nat, job: A.Job, input: seq<u32>, ghost user: seq<Packet>)
    requires rb.buffer.Length == KGSL_RB_DWORDS && start + size <= KGSL_RB_DWORDS - 2 && rb.pendingWptr == start + size
    requires AllFit(user) && input == EncodeAll(user) && size == A3XX_SUBMIT_MAX + |input|
    modifies rb`pendingWptr, rb.buffer
    ensures Wrote(old(rb.buffer[..]), rb.buffer[..], start, EncodeAll(A.Submission(job, user)))
    ensures |EncodeAll(A.Submission(job, user))| <= size - 11
    ensures rb.pendingWptr == start + |EncodeAll(A.Submission(job, user))|
  {
    var cmds, index := rb.buffer, start;
    ghost var log := Log(cmds[..], start, [], start + size);
    index, log := PutPrologue(cmds, index, job, log);
    index, log := PutStream(cmds, index, input, user, log);
    index, log := PutEpilogue(cmds, index, job, log);
    rb.pendingWptr := rb.pendingWptr - (size - (index - start));
  }

  /** Reserves room for a submission and writes it there, unpublished. */
  method WriteSubmission(rb: AdrenoRingbuffer, job: A.Job, input: seq<u32>, ghost user: seq<Packet>, rptr: nat)
    returns (fits: bool, ghost words: seq<u32>)
    requires rb.Valid() && rb.legacy && rptr < KGSL_RB_DWORDS
    requires AllFit(user) && input == EncodeAll(user)
    modifies rb`pendingWptr, rb.buffer
    ensures rb.Valid() && (fits <==> !NoRoom(rptr, old(rb.pendingWptr), A3XX_SUBMIT_MAX + |input|))
    ensures !fits ==> rb.pendingWptr == old(rb.pendingWptr) && rb.buffer[..] == old(rb.buffer[..])
    ensures fits ==>
              rb.pendingWptr == StartOf(rptr, old(rb.pendingWptr), A3XX_SUBMIT_MAX + |input|) + |EncodeAll(A.Submission(job, user))|
    ensures fits ==>
              && ReadsAs(words, A.Submission(job, user))
              && Cyclic(rb.buffer[..], rptr, rb.pendingWptr) == old(Cyclic(rb.buffer[..], rptr, rb.pendingWptr)) + words
  {
    words := [];
    var size := A3XX_SUBMIT_MAX + |input|;
    ghost var w, orig := rb.pendingWptr, rb.buffer[..];
    var start := rb.AllocSpace(rptr, size);
    if start < 0 { return false, words; }

    ghost var mid, out := rb.buffer[..], A.Submission(job, user);
    FillSubmission(rb, start, size, job, input, user);
    ghost var now := rb.buffer[..];
    words := Appended(true, orig, mid, now, rptr, rptr, w, start, size, out, rb.pendingWptr, 0);
    return true, words;
  }

  /** Submits `input`, the words of the packets `user`, and publishes it: behind
      the words the processor has still to read come words that read as the
      submission. */
  method AddCmds(rb: AdrenoRingbuffer, job: A.Job, input: seq<u32>, ghost user: seq<Packet>,
                 detached: bool, gpuFault: bool, rptr: nat)
    returns (status: Status, ghost words: seq<u32>)
    requires rb.Valid() && rb.legacy && rptr < KGSL_RB_DWORDS
    requires AllFit(user) && input == EncodeAll(user)
    requires job.rbTimestamp == (rb.timestamp + 1) % TWO32
    modifies rb`timestamp, rb`pendingWptr, rb`wptr, rb.buffer
    ensures status.Detached? <==> job.ctx.Some? && detached
    ensures status.GpuFault? <==> !status.Detached? && gpuFault
    ensures status.NoSpace? <==>
              !status.Detached? && !gpuFault && NoRoom(rptr, old(rb.pendingWptr), A3XX_SUBMIT_MAX + |input|)
    ensures status.Detached? || status.GpuFault? ==> unchanged(rb) && unchanged(rb.buffer)
    ensures status.NoSpace? ==>
              && rb.timestamp == job.rbTimestamp && rb.wptr == old(rb.wptr) && rb.pendingWptr == old(rb.pendingWptr)
              && rb.buffer[..] == old(rb.buffer[..])
    ensures rb.Valid()
    ensures status.Ok? ==>
              rb.wptr == StartOf(rptr, old(rb.pendingWptr), A3XX_SUBMIT_MAX + |input|) + |EncodeAll(A.Submission(job, user))|
    ensures status.Ok? ==>
              && rb.timestamp == job.rbTimestamp && rb.wptr == rb.pendingWptr
              && ReadsAs(words, A.Submission(job, user))
              && Cyclic(rb.buffer[..], rptr, rb.wptr) == old(Cyclic(rb.buffer[..], rptr, rb.pendingWptr)) + words
  {
    words := [];
    if job.ctx.Some? && detached { return Detached, words; }
    if gpuFault { return GpuFault, words; }
    rb.timestamp := (rb.timestamp + 1) % TWO32;

    var fits;
    fits, words := WriteSubmission(rb, job, input, user, rptr);
    if !fits { return NoSpace, words; }
    rb.wptr := rb.pendingWptr;
    return Ok, words;
  }

  // ---- User commands ----

  lemma EntryWords(ib: IbNode, f: Flags)
    ensures EncodeAll([Entry(true, ib, f)]) ==
              (if Skipped(ib, f) then [Type3(CP_NOP, 3)] else []) + Encode(CallIb(NodeIb(true, ib)))
    ensures Encode(CallIb(NodeIb(true, ib))) == [Type3(CP_INDIRECT_BUFFER_PFE, 2), Lo(ib.addr), ib.size / 4 % TWO32]
  {
    EncodeOne(Entry(true, ib, f));
  }

  /** The words of an entry, written in two steps. */
  lemma EntryWritten(a: seq<u32>, b: seq<u32>, c: seq<u32>, index: nat, ib: IbNode, f: Flags)
    requires Wrote(a, b, index, if Skipped(ib, f) then [Type3(CP_NOP, 3)] else [])
    requires Wrote(b, c, index + (if Skipped(ib, f) then 1 else 0), [Type3(CP_INDIRECT_BUFFER_PFE, 2), Lo(ib.addr), ib.size / 4 % TWO32])
    ensures Wrote(a, c, index, EncodeAll([Entry(true, ib, f)]))
    ensures |EncodeAll([Entry(true, ib, f)])| == (if Skipped(ib, f) then 1 else 0) + 3
  {
    EntryWords(ib, f);
    WroteMore(a, b, c, index, if Skipped(ib, f) then [Type3(CP_NOP, 3)] else [], Encode(CallIb(NodeIb(true, ib))));
  }

  lemma EntryHolds(log: Log, a: seq<u32>, b: seq<u32>, c: seq<u32>, index: nat, next: nat, ib: IbNode, f: Flags)
    requires Holds(log, a, index)
    requires Wrote(a, b, index, if Skipped(ib, f) then [Type3(CP_NOP, 3)] else [])
    requires Wrote(b, c, index + (if Skipped(ib, f) then 1 else 0), [Type3(CP_INDIRECT_BUFFER_PFE, 2), Lo(ib.addr), ib.size / 4 % TWO32])
    requires next == index + (if Skipped(ib, f) then 1 else 0) + 3
    ensures Holds(log.(out := log.out + [Entry(true, ib, f)]), c, next)
  {
    EntryWritten(a, b, c, index, ib, f);
    HoldsMore(log, a, c, index, [Entry(true, ib, f)]);
  }

  /** One command list entry; a skipped one is hidden behind a NOP header. */
  method PutEntry(cmds: array<u32>, index: nat, ib: IbNode, f: Flags, ghost log: Log)
    returns (next: nat, ghost log': Log)
    requires Holds(log, cmds[..], index) && index + 4 <= log.limit
    modifies cmds
    ensures next <= index + 4
    ensures log' == log.(out := log.out + [Entry(true, ib, f)]) && Holds(log', cmds[..], next)
  {
    ghost var mid := cmds[..];
    next := PutWhen(ib.skip || (ib.preamble && !f.preamble), cmds, index, [Type3(CP_NOP, 3)], log.limit);
    ghost var between := cmds[..];
    next := Put(cmds, next, [Type3(CP_INDIRECT_BUFFER_PFE, 2), Lo(ib.addr), ib.size / 4 % TWO32], log.limit);
    ghost var now := cmds[..];
    EntryHolds(log, mid, between, now, index, next, ib, f);
    log' := log.(out := log.out + [Entry(true, ib, f)]);
  }

  method PutEntries(cmds: array<u32>, index: nat, ibs: seq<IbNode>, f: Flags, ghost log: Log)
    returns (next: nat, ghost log': Log)
    requires Holds(log, cmds[..], index) && index + 4 * |ibs| <= log.limit
    modifies cmds
    ensures next <= index + 4 * |ibs|
    ensures log' == log.(out := Entries(true, log.out, ibs, f)) && Holds(log', cmds[..], next)
  {
    next, log' := index, log;
    var i := 0;
    while i < |ibs|
      invariant i <= |ibs| && next <= index + 4 * i
      invariant Holds(log', cmds[..], next)
      invariant log' == log.(out := Entries(true, log.out, ibs[..i], f))
    {
      assert ibs[..i + 1][..i] == ibs[..i];
      next, log' := PutEntry(cmds, next, ibs[i], f, log');
      i := i + 1;
    }
    assert ibs[..i] == ibs;
  }

  /** Builds the command buffer for a command list; with F_SKIP the list counts
      as empty. */
  method BuildCommand(list: seq<IbNode>, f: Flags) returns (cmds: array<u32>, index: nat)
    ensures fresh(cmds) && index <= cmds.Length == A3XX_COMMAND_DWORDS + 4 * |Issued(list, f)|
    ensures cmds[..index] == EncodeAll(A.Commands(Issued(list, f), f))
  {
    var ibs := if f.skip then [] else list;
    cmds := new u32[A3XX_COMMAND_DWORDS + 4 * |ibs|](_ => 0);
    ghost var log := Log(cmds[..], 0, [], cmds.Length);
    index, log := PutOne(cmds, 0, CP_NOP, START_IB_IDENTIFIER, log);
    index, log := PutEntries(cmds, index, ibs, f, log);
    index, log := PutOne(cmds, index, CP_NOP, END_IB_IDENTIFIER, log);
    HoldsFromStart(log, cmds[..], index);
  }
}
