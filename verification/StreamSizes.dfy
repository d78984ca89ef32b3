/** Sizes of command streams, in words. */
module StreamSizes {
  import opened Common
  import opened Pm4
  import opened CommandLists
  import opened A5xxPackets
  import A = A3xxPackets

  lemma SizeMore(out: seq<Packet>, p: Packet)
    requires AllFit(out) && Fits(p)
    ensures |EncodeAll(out + [p])| == |EncodeAll(out)| + 1 + |p.payload|
  {
    EncodeAppend(out, [p]);
    EncodeOne(p);
  }

  lemma SizeTwo(out: seq<Packet>, p: Packet, q: Packet)
    requires AllFit(out) && Fits(p) && Fits(q)
    ensures |EncodeAll(out + [p] + [q])| == |EncodeAll(out)| + 2 + |p.payload| + |q.payload|
  {
    SizeMore(out, p);
    SizeMore(out + [p], q);
  }

  lemma SizeWhen(out: seq<Packet>, c: bool, p: Packet)
    requires AllFit(out) && Fits(p)
    ensures |EncodeAll(When(out, c, p))| == |EncodeAll(out)| + if c then 1 + |p.payload| else 0
  {
    SizeMore(out, p);
  }

  // ---- Command lists ----

  /** Words of the entries of a list: a call, and one more to hide it. */
  function EntriesWords(legacy: bool, ibs: seq<IbNode>, f: Flags): nat {
    if ibs == [] then 0
    else EntriesWords(legacy, ibs[..|ibs| - 1], f) + (if legacy then 3 else 4) + (if Skipped(ibs[|ibs| - 1], f) then 1 else 0)
  }

  lemma {:induction false} EntriesSize(legacy: bool, out: seq<Packet>, ibs: seq<IbNode>, f: Flags)
    requires AllFit(out)
    ensures |EncodeAll(Entries(legacy, out, ibs, f))| == |EncodeAll(out)| + EntriesWords(legacy, ibs, f)
  {
    if ibs != [] {
      EntriesSize(legacy, out, ibs[..|ibs| - 1], f);
      SizeMore(Entries(legacy, out, ibs[..|ibs| - 1], f), Entry(legacy, ibs[|ibs| - 1], f));
    }
  }

  predicate NoneSkipped(list: seq<IbNode>, f: Flags) { forall i :: 0 <= i < |list| ==> !Skipped(list[i], f) }

  lemma {:induction false} FullListWords(legacy: bool, list: seq<IbNode>, f: Flags)
    requires NoneSkipped(list, f)
    ensures EntriesWords(legacy, list, f) == (if legacy then 3 else 4) * |list|
  {
    if list != [] { FullListWords(legacy, list[..|list| - 1], f); }
  }

  /** Words of an a5xx command buffer, with or without the two profiling calls. */
  function A5xxListWords(ibs: seq<IbNode>, f: Flags, profiled: bool): nat {
    12 + (if f.kernelProfile then 8 else 0) + (if profiled then 8 else 0) + EntriesWords(false, ibs, f)
  }

  lemma HeadSize(f: Flags, st: Stamps)
    ensures |EncodeAll(CommandHead(f, st.counter, st.started, st.submitIb))| ==
              2 + (if f.kernelProfile then 4 else 0) + if st.submitIb.Some? then 4 else 0
  {
    var o1 := [] + [NopPacket(START_IB_IDENTIFIER)];
    SizeMore([], NopPacket(START_IB_IDENTIFIER));
    SizeWhen(o1, f.kernelProfile, Counter(st.counter, st.started));
    var o2 := When(o1, f.kernelProfile, Counter(st.counter, st.started));
    if st.submitIb.Some? { SizeMore(o2, IbPacket(st.submitIb.value)); }
  }

  lemma TailSize(out: seq<Packet>, f: Flags, st: Stamps)
    requires AllFit(out)
    ensures |EncodeAll(CommandTail(out, f, st.counter, st.retired, st.retireIb))| ==
              |EncodeAll(out)| + 10 + (if f.kernelProfile then 4 else 0) + if st.retireIb.Some? then 4 else 0
  {
    var o1 := out + [Pkt7(CP_SET_RENDER_MODE, [0, 0, 0, 0, 0])];
    SizeMore(out, Pkt7(CP_SET_RENDER_MODE, [0, 0, 0, 0, 0]));
    var o2 := o1 + [Pkt7(CP_YIELD_ENABLE, [1])];
    SizeMore(o1, Pkt7(CP_YIELD_ENABLE, [1]));
    SizeWhen(o2, f.kernelProfile, Counter(st.counter, st.retired));
    var o3 := When(o2, f.kernelProfile, Counter(st.counter, st.retired));
    if st.retireIb.Some? { SizeMore(o3, IbPacket(st.retireIb.value)); }
    SizeMore(ProfileIb(o3, st.retireIb), NopPacket(END_IB_IDENTIFIER));
  }

  lemma A5xxListSize(ibs: seq<IbNode>, f: Flags, st: Stamps)
    requires st.submitIb.Some? == st.retireIb.Some?
    ensures |EncodeAll(Commands(ibs, f, st))| == A5xxListWords(ibs, f, st.submitIb.Some?)
  {
    var head := CommandHead(f, st.counter, st.started, st.submitIb);
    HeadSize(f, st);
    EntriesSize(false, head, ibs, f);
    TailSize(Entries(false, head, ibs, f), f, st);
  }

  /** Words of an a3xx command buffer. */
  function A3xxListWords(ibs: seq<IbNode>, f: Flags): nat { 4 + EntriesWords(true, ibs, f) }

  lemma A3xxListSize(ibs: seq<IbNode>, f: Flags)
    ensures |EncodeAll(A.Commands(ibs, f))| == A3xxListWords(ibs, f)
  {
    var o1 := [] + [A.Nop(START_IB_IDENTIFIER)];
    SizeMore([], A.Nop(START_IB_IDENTIFIER));
    EntriesSize(true, o1, ibs, f);
    SizeMore(Entries(true, o1, ibs, f), A.Nop(END_IB_IDENTIFIER));
  }

  // ---- Context switches ----

  /** Words of an a5xx context switch's commands. */
  function A5xxSwitchWords(pt: Option<u64>): nat { if pt.None? then 12 else 30 }

  lemma UpdateSize(ttbr0: u64, id: u32)
    ensures |EncodeAll([] + [Pkt7(CP_SMMU_TABLE_UPDATE, [Lo(ttbr0), Hi(ttbr0), id])] + [Pkt7(CP_WAIT_FOR_IDLE, [])]
                       + [Pkt7(CP_WAIT_FOR_ME, [])])| == 6
  {
    var update := Pkt7(CP_SMMU_TABLE_UPDATE, [Lo(ttbr0), Hi(ttbr0), id]);
    SizeMore([], update);
    SizeTwo([] + [update], Pkt7(CP_WAIT_FOR_IDLE, []), Pkt7(CP_WAIT_FOR_ME, []));
  }

  lemma A5xxPagetableSwitchSize(ttbr0: u64, id: u32, scratch: u64)
    ensures |EncodeAll(PagetableSwitch(ttbr0, id, scratch))| == 18
  {
    var update := Pkt7(CP_SMMU_TABLE_UPDATE, [Lo(ttbr0), Hi(ttbr0), id]);
    var store := Pkt7(CP_MEM_WRITE, [Lo(scratch), Hi(scratch), Lo(ttbr0), Hi(ttbr0), id]);
    var idle, wait := Pkt7(CP_WAIT_FOR_IDLE, []), Pkt7(CP_WAIT_FOR_ME, []);
    UpdateSize(ttbr0, id);
    var o1 := [] + [update] + [idle] + [wait];
    SizeTwo(o1, Pkt4(A5XX_CP_CNTL, [1]), store);
    var o2 := o1 + [Pkt4(A5XX_CP_CNTL, [1])] + [store];
    SizeTwo(o2, idle, wait);
    SizeMore(o2 + [idle] + [wait], Pkt4(A5XX_CP_CNTL, [0]));
  }

  lemma A5xxSwitchSize(pt: Option<u64>, id: u32, scratch: u64, rbCurrent: u64, globalCurrent: u64)
    ensures |EncodeAll(ContextSwitch(pt, id, scratch, rbCurrent, globalCurrent))| == A5xxSwitchWords(pt)
  {
    var nop, inv := NopPacket(CONTEXT_TO_MEM_IDENTIFIER), Pkt4(A5XX_UCHE_INVALIDATE0, [0x12]);
    var m1, m2 := MemWrite(rbCurrent, id), MemWrite(globalCurrent, id);
    var o1 := if pt.None? then [] else PagetableSwitch(pt.value, id, scratch);
    if pt.Some? { A5xxPagetableSwitchSize(pt.value, id, scratch); }
    SizeTwo(o1, nop, m1);
    SizeTwo(o1 + [nop] + [m1], m2, inv);
  }

  /** Words of an a3xx context switch's commands. */
  function A3xxSwitchWords(pt: Option<u64>): nat { if pt.None? then 11 else 61 }

  lemma StallSize(out: seq<Packet>, setstate: u64)
    requires AllFit(out)
    ensures |EncodeAll(A.Stall(out, setstate))| == |EncodeAll(out)| + 9
  {
    SizeTwo(out, A.WaitForMe(), CallIb(Ib(setstate, 2)));
    SizeTwo(out + [A.WaitForMe()] + [CallIb(Ib(setstate, 2))], A.WaitForIdle(), A.WaitForMe());
  }

  lemma LockSize(out: seq<Packet>)
    requires AllFit(out)
    ensures |EncodeAll(A.VbifLock(out))| == |EncodeAll(out)| + 14
  {
    var wait := A.WaitReg(A.A3XX_CP_WFI_PEND_CTR, 1, 0xFFFF_FFFF, 0xF);
    SizeTwo(out, wait, A.Halt(1));
    SizeMore(out + [wait] + [A.Halt(1)], A.WaitReg(A.A3XX_VBIF_DDR_OUTPUT_RECOVERABLE_HALT_CTRL1, 1, 0xFFFF_FFFF, 0xF));
  }

  lemma TlbiSize(out: seq<Packet>)
    requires AllFit(out)
    ensures |EncodeAll(A.TlbiAll(out))| == |EncodeAll(out)| + 11
  {
    var all, sync := A.SmmuReg(A.KGSL_IOMMU_CTX_TLBIALL, [1]), A.SmmuReg(A.KGSL_IOMMU_CTX_TLBSYNC, [0]);
    SizeTwo(out, all, sync);
    SizeMore(out + [all] + [sync], A.WaitReg(A.SmmuAddr(A.KGSL_IOMMU_CTX_TLBSTATUS), 0, A.KGSL_IOMMU_CTX_TLBSTATUS_SACTIVE, 0xF));
  }

  lemma NewTableSize(out: seq<Packet>, ttbr0: u64)
    requires AllFit(out)
    ensures |EncodeAll(A.VbifUnlock(A.NewTable(out, ttbr0)))| == |EncodeAll(out)| + 10
  {
    SizeMore(out, A.SmmuReg(A.KGSL_IOMMU_CTX_TTBR0, [Lo(ttbr0), Hi(ttbr0)]));
    SizeTwo(A.NewTable(out, ttbr0), A.Halt(0), A.WaitForMe());
  }

  lemma InvalidateSize(out: seq<Packet>)
    requires AllFit(out)
    ensures |EncodeAll(A.Invalidate(out))| == |EncodeAll(out)| + 6
  {
    SizeTwo(out, A.WaitForMe(), A.WaitForIdle());
    SizeMore(out + [A.WaitForMe()] + [A.WaitForIdle()], Pkt3(CP_INVALIDATE_STATE, [0x7ffff]));
  }

  lemma A3xxPagetableSwitchSize(ttbr0: u64, setstate: u64)
    ensures |EncodeAll(A.PagetableSwitch([], ttbr0, setstate))| == 50
  {
    StallSize([], setstate);
    LockSize(A.Stall([], setstate));
    var o1 := A.VbifLock(A.Stall([], setstate));
    NewTableSize(o1, ttbr0);
    var o2 := A.VbifUnlock(A.NewTable(o1, ttbr0));
    TlbiSize(o2);
    InvalidateSize(A.TlbiAll(o2));
  }

  lemma A3xxSwitchSize(pt: Option<u64>, setstate: u64, id: u32, rbCurrent: u64, globalCurrent: u64)
    ensures |EncodeAll(A.ContextSwitch(pt, setstate, id, rbCurrent, globalCurrent))| == A3xxSwitchWords(pt)
  {
    var nop, m1, m2 := A.Nop(CONTEXT_TO_MEM_IDENTIFIER), A.Store(rbCurrent, id), A.Store(globalCurrent, id);
    var o1 := if pt.None? then [] else A.PagetableSwitch([], pt.value, setstate);
    if pt.Some? { A3xxPagetableSwitchSize(pt.value, setstate); }
    SizeTwo(o1, nop, m1);
    SizeTwo(o1 + [nop] + [m1], m2, Pkt0(A.A3XX_UCHE_CACHE_INVALIDATE0_REG, [0, 0x9000_0000]));
  }

  // ---- Submissions ----

  /** Words of an a5xx submission of `n` words of commands, without a report. */
  function A5xxSubmissionWords(dev: Device, inContext: bool, f: Flags, pre: bool, post: bool, n: nat): nat {
    n + 15
    + (if dev.preemption then 19 else 0) + (if dev.haltOnPagefault then 1 else 0) + (if inContext then 9 else 0)
    + (if f.secure then 4 else 0) + (if f.notProtected then 4 else 0) + (if f.wfi then 1 else 0)
    + (if pre then 4 else 0) + (if post then 4 else 0)
  }

  lemma SizeProfileIb(out: seq<Packet>, ib: Option<Ib>)
    requires AllFit(out)
    ensures |EncodeAll(ProfileIb(out, ib))| == |EncodeAll(out)| + if ib.Some? then 4 else 0
  {
    if ib.Some? { SizeMore(out, IbPacket(ib.value)); }
  }

  lemma SaveRecordSize(out: seq<Packet>, dev: Device)
    requires AllFit(out)
    ensures |EncodeAll(SaveRecord(out, dev))| == |EncodeAll(out)| + 8
  {
    var lo, hi := Pkt4(A5XX_CP_CONTEXT_SWITCH_SAVE_ADDR_LO, [Lo(dev.recordAddr)]), Pkt4(A5XX_CP_CONTEXT_SWITCH_SAVE_ADDR_HI, [Hi(dev.recordAddr)]);
    SizeTwo(out, Protect(0), lo);
    SizeTwo(out + [Protect(0)] + [lo], hi, Protect(1));
  }

  lemma PreIbSize(out: seq<Packet>, dev: Device, ctx: Option<Context>)
    requires AllFit(out)
    ensures |EncodeAll(PreIb(out, dev, ctx))| == |EncodeAll(out)| + if dev.preemption then 14 else 0
  {
    if dev.preemption {
      var fine := PreemptStyle(ctx) == PREEMPT_STYLE_FINEGRAIN;
      var global, local := Pkt7(CP_PREEMPT_ENABLE_GLOBAL, [if fine then 2 else 0]), Pkt7(CP_PREEMPT_ENABLE_LOCAL, [if fine then 1 else 0]);
      SizeMore(out, global);
      SaveRecordSize(out + [global], dev);
      SizeTwo(SaveRecord(out + [global], dev), local, Pkt7(CP_YIELD_ENABLE, [2]));
    }
  }

  lemma StartStampsSize(out: seq<Packet>, dev: Device, ctx: Option<Context>, timestamp: u32, rbTimestamp: u32)
    requires AllFit(out)
    ensures |EncodeAll(StartStamps(out, dev, ctx, timestamp, rbTimestamp))| == |EncodeAll(out)| + if ctx.Some? then 8 else 4
  {
    if ctx.Some? {
      SizeTwo(out, MemWrite(ctx.value.sop, timestamp), MemWrite(dev.rbSop, rbTimestamp));
    } else {
      SizeMore(out, MemWrite(dev.rbSop, rbTimestamp));
    }
  }

  lemma EndStampsSize(out: seq<Packet>, dev: Device, ctx: Option<Context>, timestamp: u32, rbTimestamp: u32)
    requires AllFit(out)
    ensures |EncodeAll(EndStamps(out, dev, ctx, timestamp, rbTimestamp))| == |EncodeAll(out)| + if ctx.Some? then 10 else 5
  {
    if ctx.Some? {
      SizeTwo(out, Event(CACHE_FLUSH_TS_IRQ, ctx.value.eop, timestamp), Event(CACHE_FLUSH_TS, dev.rbEop, rbTimestamp));
    } else {
      SizeMore(out, Event(CACHE_FLUSH_TS_IRQ, dev.rbEop, rbTimestamp));
    }
  }

  lemma PrologueSize(job: Job)
    ensures |EncodeAll(Prologue([], job.dev, job.ctx, job.f, job.timestamp, job.rbTimestamp, job.preIb))| ==
              6 + (if job.dev.preemption then 14 else 0) + (if job.preIb.Some? then 4 else 0) + (if job.ctx.Some? then 4 else 0)
              + (if job.f.secure then 2 else 0) + (if job.f.notProtected then 2 else 0)
  {
    var id := NopPacket(if job.ctx.Some? then CMD_IDENTIFIER else CMD_INTERNAL_IDENTIFIER);
    var o1 := [] + [id];
    SizeMore([], id);
    PreIbSize(o1, job.dev, job.ctx);
    var o2 := PreIb(o1, job.dev, job.ctx);
    SizeProfileIb(o2, job.preIb);
    var o3 := ProfileIb(o2, job.preIb);
    StartStampsSize(o3, job.dev, job.ctx, job.timestamp, job.rbTimestamp);
    var o4 := StartStamps(o3, job.dev, job.ctx, job.timestamp, job.rbTimestamp);
    SizeWhen(o4, job.f.secure, SecureMode(1));
    SizeWhen(When(o4, job.f.secure, SecureMode(1)), job.f.notProtected, Protect(0));
  }

  lemma RetirementSize(out: seq<Packet>, job: Job)
    requires AllFit(out)
    ensures |EncodeAll(Retirement(out, job.dev, job.ctx, job.f, job.timestamp, job.rbTimestamp, job.postIb, job.sequence))| ==
              |EncodeAll(out)| + 9 + (if job.f.notProtected then 2 else 0) + (if job.postIb.Some? then 4 else 0)
              + (if job.dev.haltOnPagefault then 1 else 0) + (if job.ctx.Some? then 5 else 0)
  {
    var o1 := When(out, job.f.notProtected, Protect(1));
    SizeWhen(out, job.f.notProtected, Protect(1));
    var o2 := ProfileIb(o1, job.postIb);
    SizeProfileIb(o1, job.postIb);
    var o3 := When(o2, job.dev.haltOnPagefault, Pkt7(CP_WAIT_MEM_WRITES, []));
    SizeWhen(o2, job.dev.haltOnPagefault, Pkt7(CP_WAIT_MEM_WRITES, []));
    SizeMore(o3, MemWrite(job.dev.refWaitTs, job.sequence));
    EndStampsSize(o3 + [MemWrite(job.dev.refWaitTs, job.sequence)], job.dev, job.ctx, job.timestamp, job.rbTimestamp);
  }

  lemma ClosingSize(out: seq<Packet>, dev: Device, f: Flags)
    requires AllFit(out)
    ensures |EncodeAll(Closing(out, dev, f))| ==
              |EncodeAll(out)| + (if f.wfi then 1 else 0) + (if f.secure then 2 else 0) + if dev.preemption then 5 else 0
  {
    var o1 := When(out, f.wfi, Pkt7(CP_WAIT_FOR_IDLE, []));
    SizeWhen(out, f.wfi, Pkt7(CP_WAIT_FOR_IDLE, []));
    var o2 := When(o1, f.secure, SecureMode(0));
    SizeWhen(o1, f.secure, SecureMode(0));
    SizeWhen(o2, dev.preemption, Pkt7(CP_CONTEXT_SWITCH_YIELD, [0, 0, 1, 1]));
  }

  lemma A5xxSubmissionSize(job: Job, user: seq<Packet>)
    requires AllFit(user)
    ensures |EncodeAll(Submission(job, user))| ==
              A5xxSubmissionWords(job.dev, job.ctx.Some?, job.f, job.preIb.Some?, job.postIb.Some?, |EncodeAll(user)|)
  {
    var o1 := Prologue([], job.dev, job.ctx, job.f, job.timestamp, job.rbTimestamp, job.preIb);
    PrologueSize(job);
    EncodeAppend(o1, user);
    RetirementSize(o1 + user, job);
    var o2 := Retirement(o1 + user, job.dev, job.ctx, job.f, job.timestamp, job.rbTimestamp, job.postIb, job.sequence);
    ClosingSize(o2, job.dev, job.f);
  }

  /** Words of an a3xx submission of `n` words of commands. */
  function A3xxSubmissionWords(inContext: bool, f: Flags, pre: bool, post: bool, n: nat): nat {
    n + 16
    + (if inContext then 7 else 0) + (if f.pwronFixup then 9 else 0)
    + (if f.notProtected then 4 else 0) + (if f.wfi then 2 else 0) + (if pre then 3 else 0) + (if post then 3 else 0)
  }

  lemma SizeCallWhen(out: seq<Packet>, ib: Option<Ib>)
    requires AllFit(out)
    ensures |EncodeAll(A.CallWhen(out, ib))| == |EncodeAll(out)| + if ib.Some? then 3 else 0
  {
    if ib.Some? { SizeMore(out, CallIb(ib.value)); }
  }

  lemma FixupSize(out: seq<Packet>, job: A.Job)
    requires AllFit(out)
    ensures |EncodeAll(A.PwronFixup(out, job))| == |EncodeAll(out)| + if job.f.pwronFixup then 9 else 0
  {
    if job.f.pwronFixup {
      SizeTwo(out, A.SetProtected(0), A.Nop(A.PWRON_FIXUP_IDENTIFIER));
      SizeTwo(out + [A.SetProtected(0)] + [A.Nop(A.PWRON_FIXUP_IDENTIFIER)], CallIb(job.fixup), A.SetProtected(0));
    }
  }

  lemma A3xxStartStampsSize(out: seq<Packet>, job: A.Job)
    requires AllFit(out)
    ensures |EncodeAll(A.StartStamps(out, job))| == |EncodeAll(out)| + if job.ctx.Some? then 6 else 3
  {
    if job.ctx.Some? {
      SizeTwo(out, A.Store(job.ctx.value.sop, job.timestamp), A.Store(job.rbSop, job.rbTimestamp));
    } else {
      SizeMore(out, A.Store(job.rbSop, job.rbTimestamp));
    }
  }

  lemma A3xxEndStampsSize(out: seq<Packet>, job: A.Job)
    requires AllFit(out)
    ensures |EncodeAll(A.EndStamps(out, job))| == |EncodeAll(out)| + if job.ctx.Some? then 8 else 4
  {
    if job.ctx.Some? {
      SizeTwo(out, A.StampEvent(CACHE_FLUSH_TS_IRQ, job.ctx.value.eop, job.timestamp), A.StampEvent(CACHE_FLUSH_TS, job.rbEop, job.rbTimestamp));
    } else {
      SizeMore(out, A.StampEvent(CACHE_FLUSH_TS_IRQ, job.rbEop, job.rbTimestamp));
    }
  }

  lemma A3xxPrologueSize(job: A.Job)
    ensures |EncodeAll(A.Prologue([], job))| ==
              5 + (if job.f.pwronFixup then 9 else 0) + (if job.preIb.Some? then 3 else 0) + (if job.ctx.Some? then 3 else 0)
              + if job.f.notProtected then 2 else 0
  {
    var id := A.Nop(if job.ctx.Some? then CMD_IDENTIFIER else CMD_INTERNAL_IDENTIFIER);
    var o1 := [] + [id];
    SizeMore([], id);
    FixupSize(o1, job);
    SizeCallWhen(A.PwronFixup(o1, job), job.preIb);
    var o2 := A.CallWhen(A.PwronFixup(o1, job), job.preIb);
    A3xxStartStampsSize(o2, job);
    SizeWhen(A.StartStamps(o2, job), job.f.notProtected, A.SetProtected(0));
  }

  lemma A3xxEpilogueSize(out: seq<Packet>, job: A.Job)
    requires AllFit(out)
    ensures |EncodeAll(A.Epilogue(out, job))| ==
              |EncodeAll(out)| + 11 + (if job.f.notProtected then 2 else 0) + (if job.postIb.Some? then 3 else 0)
              + (if job.ctx.Some? then 4 else 0) + if job.f.wfi then 2 else 0
  {
    var o1 := When(out, job.f.notProtected, A.SetProtected(1));
    SizeWhen(out, job.f.notProtected, A.SetProtected(1));
    var flush := Pkt3(CP_EVENT_WRITE, [0x07]);
    SizeTwo(o1, flush, A.WaitForIdle());
    var o2 := o1 + [flush] + [A.WaitForIdle()];
    SizeCallWhen(o2, job.postIb);
    A3xxEndStampsSize(A.CallWhen(o2, job.postIb), job);
    var o3 := A.EndStamps(A.CallWhen(o2, job.postIb), job);
    SizeMore(o3, A.Rollover());
    SizeWhen(o3 + [A.Rollover()], job.f.wfi, A.WaitForIdle());
  }

  lemma A3xxSubmissionSize(job: A.Job, user: seq<Packet>)
    requires AllFit(user)
    ensures |EncodeAll(A.Submission(job, user))| ==
              A3xxSubmissionWords(job.ctx.Some?, job.f, job.preIb.Some?, job.postIb.Some?, |EncodeAll(user)|)
  {
    A3xxPrologueSize(job);
    EncodeAppend(A.Prologue([], job), user);
    A3xxEpilogueSize(A.Prologue([], job) + user, job);
  }
}
