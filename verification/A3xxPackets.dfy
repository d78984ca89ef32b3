/** The packets an a3xx submission consists of. */
module A3xxPackets {
  import opened Common
  import opened Pm4
  import opened CommandLists
  import opened A5xxPackets

  const PWRON_FIXUP_IDENTIFIER: u32 := 0x2AFAFAFA
  const A3XX_CP_WFI_PEND_CTR: u32 := 0x01F5
  const A3XX_VBIF_DDR_OUTPUT_RECOVERABLE_HALT_CTRL0: u32 := 0x3800
  const A3XX_VBIF_DDR_OUTPUT_RECOVERABLE_HALT_CTRL1: u32 := 0x3801
  const A3XX_UCHE_CACHE_INVALIDATE0_REG: nat := 0xEA0
  const A3XX_HLSQ_CL_KERNEL_GROUP_X_REG: nat := 0x2215
  /** All bits but VBIF_RECOVERABLE_HALT_CTRL */
  const UNHALT_MASK: u32 := 0xFFFF_FFFE
  const A3XX_GPU_OFFSET: nat := 0xa000
  const KGSL_IOMMU_CTX_TTBR0: nat := 0x20
  const KGSL_IOMMU_CTX_TLBIALL: nat := 0x618
  const KGSL_IOMMU_CTX_TLBSYNC: nat := 0x7f0
  const KGSL_IOMMU_CTX_TLBSTATUS: nat := 0x7f4
  const KGSL_IOMMU_CTX_TLBSTATUS_SACTIVE: u32 := 1

  // ---- Single packets ----

  function Nop(id: u32): (p: Packet)
    ensures Fits(p)
  {
    Pkt3(CP_NOP, [id])
  }

  function Store(addr: u64, value: u32): (p: Packet)
    ensures Fits(p)
  {
    Pkt3(CP_MEM_WRITE, [Lo(addr), value])
  }

  function SetProtected(on: u32): (p: Packet)
    ensures Fits(p)
  {
    Pkt3(CP_SET_PROTECTED_MODE, [on])
  }

  function WaitForIdle(): (p: Packet)
    ensures Fits(p)
  {
    Pkt3(CP_WAIT_FOR_IDLE, [0])
  }

  function WaitForMe(): (p: Packet)
    ensures Fits(p)
  {
    Pkt3(CP_WAIT_FOR_ME, [0])
  }

  function StampEvent(event: u32, addr: u64, value: u32): (p: Packet)
    ensures Fits(p)
  {
    Pkt3(CP_EVENT_WRITE, [event, Lo(addr), value])
  }

  function WaitReg(addr: u32, val: u32, mask: u32, interval: u32): (p: Packet)
    ensures Fits(p)
  {
    Pkt3(CP_WAIT_REG_EQ, [addr, val, mask, interval])
  }

  function Halt(value: u32): (p: Packet)
    ensures Fits(p)
  {
    Pkt3(CP_REG_RMW, [A3XX_VBIF_DDR_OUTPUT_RECOVERABLE_HALT_CTRL0, UNHALT_MASK, value])
  }

  /** The dword address of an SMMU register. */
  function SmmuAddr(reg: nat): u32
    requires reg < 0x1000
  {
    (A3XX_GPU_OFFSET + reg) / 4
  }

  function SmmuReg(reg: nat, values: seq<u32>): (p: Packet)
    requires reg < 0x1000 && |values| < 0x100
    ensures Fits(p)
  {
    Pkt3(CP_REG_WR_NO_CTXT, [SmmuAddr(reg)] + values)
  }

  // ---- Page table switch ----

  function VbifLock(out: seq<Packet>): (ps: seq<Packet>)
    requires AllFit(out)
    ensures AllFit(ps)
  {
    out + [WaitReg(A3XX_CP_WFI_PEND_CTR, 1, 0xFFFF_FFFF, 0xF)] + [Halt(1)]
    + [WaitReg(A3XX_VBIF_DDR_OUTPUT_RECOVERABLE_HALT_CTRL1, 1, 0xFFFF_FFFF, 0xF)]
  }

  function VbifUnlock(out: seq<Packet>): (ps: seq<Packet>)
    requires AllFit(out)
    ensures AllFit(ps)
  {
    out + [Halt(0)] + [WaitForMe()]
  }

  function TlbiAll(out: seq<Packet>): (ps: seq<Packet>)
    requires AllFit(out)
    ensures AllFit(ps)
  {
    out + [SmmuReg(KGSL_IOMMU_CTX_TLBIALL, [1])] + [SmmuReg(KGSL_IOMMU_CTX_TLBSYNC, [0])]
    + [WaitReg(SmmuAddr(KGSL_IOMMU_CTX_TLBSTATUS), 0, KGSL_IOMMU_CTX_TLBSTATUS_SACTIVE, 0xF)]
  }

  /** An indirect buffer that stalls the prefetch. */
  function Stall(out: seq<Packet>, setstate: u64): (ps: seq<Packet>)
    requires AllFit(out)
    ensures AllFit(ps)
  {
    out + [WaitForMe()] + [CallIb(Ib(setstate, 2))] + [WaitForIdle()] + [WaitForMe()]
  }

  function NewTable(out: seq<Packet>, ttbr0: u64): (ps: seq<Packet>)
    requires AllFit(out)
    ensures AllFit(ps)
  {
    out + [SmmuReg(KGSL_IOMMU_CTX_TTBR0, [Lo(ttbr0), Hi(ttbr0)])]
  }

  function Invalidate(out: seq<Packet>): (ps: seq<Packet>)
    requires AllFit(out)
    ensures AllFit(ps)
  {
    out + [WaitForMe()] + [WaitForIdle()] + [Pkt3(CP_INVALIDATE_STATE, [0x7ffff])]
  }

  /** A new page table. */
  function PagetableSwitch(out: seq<Packet>, ttbr0: u64, setstate: u64): (ps: seq<Packet>)
    requires AllFit(out)
    ensures AllFit(ps)
  {
    Invalidate(TlbiAll(VbifUnlock(NewTable(VbifLock(Stall(out, setstate)), ttbr0))))
  }

  /** A switch to context `id`; `pt` is its page table if that changes and is not the default. */
  function ContextSwitch(pt: Option<u64>, setstate: u64, id: u32, rbCurrent: u64, globalCurrent: u64): (ps: seq<Packet>)
    ensures AllFit(ps)
  {
    (if pt.None? then [] else PagetableSwitch([], pt.value, setstate))
    + [Nop(CONTEXT_TO_MEM_IDENTIFIER)] + [Store(rbCurrent, id)] + [Store(globalCurrent, id)]
    + [Pkt0(A3XX_UCHE_CACHE_INVALIDATE0_REG, [0, 0x9000_0000])]
  }

  // ---- Submissions ----

  datatype Job = Job(ctx: Option<Context>, f: Flags, timestamp: u32, rbTimestamp: u32,
                     rbSop: u64, rbEop: u64, fixup: Ib, preIb: Option<Ib>, postIb: Option<Ib>)

  /** The fixup after power-on, with protection off. */
  function PwronFixup(out: seq<Packet>, job: Job): (ps: seq<Packet>)
    requires AllFit(out)
    ensures AllFit(ps)
  {
    if !job.f.pwronFixup then out else
    out + [SetProtected(0)] + [Nop(PWRON_FIXUP_IDENTIFIER)] + [CallIb(job.fixup)] + [SetProtected(0)]
  }

  function CallWhen(out: seq<Packet>, ib: Option<Ib>): (ps: seq<Packet>)
    requires AllFit(out)
    ensures AllFit(ps)
  {
    if ib.None? then out else out + [CallIb(ib.value)]
  }

  function StartStamps(out: seq<Packet>, job: Job): (ps: seq<Packet>)
    requires AllFit(out)
    ensures AllFit(ps)
  {
    (if job.ctx.None? then out else out + [Store(job.ctx.value.sop, job.timestamp)]) + [Store(job.rbSop, job.rbTimestamp)]
  }

  function EndStamps(out: seq<Packet>, job: Job): (ps: seq<Packet>)
    requires AllFit(out)
    ensures AllFit(ps)
  {
    if job.ctx.None? then out + [StampEvent(CACHE_FLUSH_TS_IRQ, job.rbEop, job.rbTimestamp)]
    else out + [StampEvent(CACHE_FLUSH_TS_IRQ, job.ctx.value.eop, job.timestamp)] + [StampEvent(CACHE_FLUSH_TS, job.rbEop, job.rbTimestamp)]
  }

  /** A context rollover. */
  function Rollover(): (p: Packet)
    ensures Fits(p)
  {
    Pkt3(CP_SET_CONSTANT, [0x4_0000 + A3XX_HLSQ_CL_KERNEL_GROUP_X_REG - 0x2000, 0])
  }

  function Prologue(out: seq<Packet>, job: Job): (ps: seq<Packet>)
    requires AllFit(out)
    ensures AllFit(ps)
  {
    var o1 := out + [Nop(if job.ctx.Some? then CMD_IDENTIFIER else CMD_INTERNAL_IDENTIFIER)];
    var o2 := CallWhen(PwronFixup(o1, job), job.preIb);
    When(StartStamps(o2, job), job.f.notProtected, SetProtected(0))
  }

  function Epilogue(out: seq<Packet>, job: Job): (ps: seq<Packet>)
    requires AllFit(out)
    ensures AllFit(ps)
  {
    var o1 := When(out, job.f.notProtected, SetProtected(1));
    var o2 := o1 + [Pkt3(CP_EVENT_WRITE, [0x07])] + [WaitForIdle()];
    var o3 := EndStamps(CallWhen(o2, job.postIb), job);
    When(o3 + [Rollover()], job.f.wfi, WaitForIdle())
  }

  /** A whole submission of the commands `user`. */
  function Submission(job: Job, user: seq<Packet>): (ps: seq<Packet>)
    requires AllFit(user)
    ensures AllFit(ps)
  {
    Epilogue(Prologue([], job) + user, job)
  }

  /** The command buffer for the buffers `ibs`. */
  function Commands(ibs: seq<IbNode>, f: Flags): (ps: seq<Packet>)
    ensures AllFit(ps)
  {
    Entries(true, [] + [Nop(START_IB_IDENTIFIER)], ibs, f) + [Nop(END_IB_IDENTIFIER)]
  }
}
