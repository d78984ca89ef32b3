/** The packets an a5xx submission consists of. */
module A5xxPackets {
  import opened Common
  import opened Pm4
  import opened CommandLists

  const CMD_IDENTIFIER: u32 := 0x2EEDFACE
  const CMD_INTERNAL_IDENTIFIER: u32 := 0x2EEDD00D
  const CONTEXT_TO_MEM_IDENTIFIER: u32 := 0x2EADBEEF
  const START_IB_IDENTIFIER: u32 := 0x2EADEABE
  const END_IB_IDENTIFIER: u32 := 0x2ABEDEAD

  const A5XX_CP_CNTL: nat := 0x831
  const A5XX_CP_CONTEXT_SWITCH_SAVE_ADDR_LO: nat := 0x83E
  const A5XX_CP_CONTEXT_SWITCH_SAVE_ADDR_HI: nat := 0x83F
  const A5XX_UCHE_INVALIDATE0: nat := 0xE95
  /** A5XX_RBBM_ALWAYSON_COUNTER_LO, as the counter packet names it; after the A530
      the upper half is unreliable, and two more fields say so. */
  function CounterReg(afterA530: bool): u32 { if afterA530 then 0x4008_04D2 else 0x4D2 }

  const PREEMPT_STYLE_RINGBUFFER: nat := 1
  const PREEMPT_STYLE_FINEGRAIN: nat := 2

  /** A draw context: id, secure or not, preemption style, addresses of its
      start and end timestamps. */
  datatype Context = Context(id: u32, secure: bool, style: nat, sop: u64, eop: u64)

  /** What a submission reads from the device and the ring. */
  datatype Device = Device(
    preemption: bool,       // preemption is enabled
    recordAddr: u64,        // the ring's preemption record
    rbSop: u64, rbEop: u64, // the ring's timestamps
    refWaitTs: u64,         // target of the unique memory write
    rptrShadow: u64,        // the ring's read pointer in scratch
    haltOnPagefault: bool)  // wait for memory writes after the commands

  // ---- Single packets ----

  function NopPacket(id: u32): (p: Packet)
    ensures Fits(p)
  {
    Pkt7(CP_NOP, [id])
  }

  function MemWrite(addr: u64, value: u32): (p: Packet)
    ensures Fits(p)
  {
    Pkt7(CP_MEM_WRITE, [Lo(addr), Hi(addr), value])
  }

  function Protect(on: u32): (p: Packet)
    ensures Fits(p)
  {
    Pkt7(CP_SET_PROTECTED_MODE, [on])
  }

  function SecureMode(on: u32): (p: Packet)
    ensures Fits(p)
  {
    Pkt7(CP_SET_SECURE_MODE, [on])
  }

  function Event(event: u32, addr: u64, value: u32): (p: Packet)
    ensures Fits(p)
  {
    Pkt7(CP_EVENT_WRITE, [event, Lo(addr), Hi(addr), value])
  }

  // ---- Parts of a submission: each extends the packets `out` before it ----

  function When(out: seq<Packet>, c: bool, p: Packet): (ps: seq<Packet>)
    requires AllFit(out) && Fits(p)
    ensures AllFit(ps)
  {
    if c then out + [p] else out
  }

  /** Secure contexts are preempted at ringbuffer level only. */
  function PreemptStyle(ctx: Option<Context>): nat {
    match ctx
    case None => 0
    case Some(c) => if c.secure then PREEMPT_STYLE_RINGBUFFER else c.style
  }

  /** Where a switch saves to, set with protection off. */
  function SaveRecord(out: seq<Packet>, dev: Device): (ps: seq<Packet>)
    requires AllFit(out)
    ensures AllFit(ps)
  {
    out
    + [Protect(0)]
    + [Pkt4(A5XX_CP_CONTEXT_SWITCH_SAVE_ADDR_LO, [Lo(dev.recordAddr)])]
    + [Pkt4(A5XX_CP_CONTEXT_SWITCH_SAVE_ADDR_HI, [Hi(dev.recordAddr)])]
    + [Protect(1)]
  }

  function PreIb(out: seq<Packet>, dev: Device, ctx: Option<Context>): (ps: seq<Packet>)
    requires AllFit(out)
    ensures AllFit(ps)
  {
    var fine := PreemptStyle(ctx) == PREEMPT_STYLE_FINEGRAIN;
    if !dev.preemption then out else
    SaveRecord(out + [Pkt7(CP_PREEMPT_ENABLE_GLOBAL, [if fine then 2 else 0])], dev)
    + [Pkt7(CP_PREEMPT_ENABLE_LOCAL, [if fine then 1 else 0])]
    + [Pkt7(CP_YIELD_ENABLE, [2])]
  }

  function PostIb(out: seq<Packet>, dev: Device): (ps: seq<Packet>)
    requires AllFit(out)
    ensures AllFit(ps)
  {
    When(out, dev.preemption, Pkt7(CP_CONTEXT_SWITCH_YIELD, [0, 0, 1, 1]))
  }

  function ProfileIb(out: seq<Packet>, ib: Option<Ib>): (ps: seq<Packet>)
    requires AllFit(out)
    ensures AllFit(ps)
  {
    if ib.None? then out else out + [IbPacket(ib.value)]
  }

  function StartStamps(out: seq<Packet>, dev: Device, ctx: Option<Context>, timestamp: u32, rbTimestamp: u32): (ps: seq<Packet>)
    requires AllFit(out)
    ensures AllFit(ps)
  {
    (if ctx.None? then out else out + [MemWrite(ctx.value.sop, timestamp)]) + [MemWrite(dev.rbSop, rbTimestamp)]
  }

  function EndStamps(out: seq<Packet>, dev: Device, ctx: Option<Context>, timestamp: u32, rbTimestamp: u32): (ps: seq<Packet>)
    requires AllFit(out)
    ensures AllFit(ps)
  {
    if ctx.None? then out + [Event(CACHE_FLUSH_TS_IRQ, dev.rbEop, rbTimestamp)]
    else out + [Event(CACHE_FLUSH_TS_IRQ, ctx.value.eop, timestamp)] + [Event(CACHE_FLUSH_TS, dev.rbEop, rbTimestamp)]
  }

  /** Everything before the caller's commands. */
  function Prologue(out: seq<Packet>, dev: Device, ctx: Option<Context>, f: Flags, timestamp: u32, rbTimestamp: u32, profile: Option<Ib>): (ps: seq<Packet>)
    requires AllFit(out)
    ensures AllFit(ps)
  {
    var o1 := out + [NopPacket(if ctx.Some? then CMD_IDENTIFIER else CMD_INTERNAL_IDENTIFIER)];
    var o2 := PreIb(o1, dev, ctx);
    var o3 := ProfileIb(o2, profile);
    var o4 := StartStamps(o3, dev, ctx, timestamp, rbTimestamp);
    var o5 := When(o4, f.secure, SecureMode(1));
    When(o5, f.notProtected, Protect(0))
  }

  /** After the caller's commands: protection back on, and the timestamps. */
  function Retirement(out: seq<Packet>, dev: Device, ctx: Option<Context>, f: Flags, timestamp: u32, rbTimestamp: u32, profile: Option<Ib>, sequence: u32): (ps: seq<Packet>)
    requires AllFit(out)
    ensures AllFit(ps)
  {
    var o1 := When(out, f.notProtected, Protect(1));
    var o2 := ProfileIb(o1, profile);
    var o3 := When(o2, dev.haltOnPagefault, Pkt7(CP_WAIT_MEM_WRITES, []));
    var o4 := o3 + [MemWrite(dev.refWaitTs, sequence)];
    EndStamps(o4, dev, ctx, timestamp, rbTimestamp)
  }

  /** The end of a submission: idle, secure mode off, and the yield. */
  function Closing(out: seq<Packet>, dev: Device, f: Flags): (ps: seq<Packet>)
    requires AllFit(out)
    ensures AllFit(ps)
  {
    var o1 := When(out, f.wfi, Pkt7(CP_WAIT_FOR_IDLE, []));
    var o2 := When(o1, f.secure, SecureMode(0));
    PostIb(o2, dev)
  }

  /** What a submission needs to know, apart from its commands. */
  datatype Job = Job(dev: Device, ctx: Option<Context>, f: Flags, timestamp: u32, rbTimestamp: u32,
                     preIb: Option<Ib>, postIb: Option<Ib>, sequence: u32)

  /** A whole submission of the commands `user`. */
  function Submission(job: Job, user: seq<Packet>): (ps: seq<Packet>)
    requires AllFit(user)
    ensures AllFit(ps)
  {
    var o1 := Prologue([], job.dev, job.ctx, job.f, job.timestamp, job.rbTimestamp, job.preIb);
    var o2 := Retirement(o1 + user, job.dev, job.ctx, job.f, job.timestamp, job.rbTimestamp, job.postIb, job.sequence);
    Closing(o2, job.dev, job.f)
  }

  function WhereAmI(dev: Device): (p: Packet)
    ensures Fits(p)
  {
    Pkt7(CP_WHERE_AM_I, [Lo(dev.rptrShadow), Hi(dev.rptrShadow)])
  }

  // ---- A user's command buffer ----

  function Counter(reg: u32, addr: u64): (p: Packet)
    ensures Fits(p)
  {
    Pkt7(CP_REG_TO_MEM, [reg, Lo(addr), Hi(addr)])
  }

  /** Where the submission and retirement of a command are stamped. */
  datatype Stamps = Stamps(started: u64, retired: u64, submitIb: Option<Ib>, retireIb: Option<Ib>, counter: u32)

  function CommandHead(f: Flags, counter: u32, started: u64, submitIb: Option<Ib>): (ps: seq<Packet>)
    ensures AllFit(ps)
  {
    var o1 := [] + [NopPacket(START_IB_IDENTIFIER)];
    var o2 := When(o1, f.kernelProfile, Counter(counter, started));
    ProfileIb(o2, submitIb)
  }

  function CommandTail(out: seq<Packet>, f: Flags, counter: u32, retired: u64, retireIb: Option<Ib>): (ps: seq<Packet>)
    requires AllFit(out)
    ensures AllFit(ps)
  {
    var o1 := out + [Pkt7(CP_SET_RENDER_MODE, [0, 0, 0, 0, 0])];
    var o2 := o1 + [Pkt7(CP_YIELD_ENABLE, [1])];
    var o3 := When(o2, f.kernelProfile, Counter(counter, retired));
    var o4 := ProfileIb(o3, retireIb);
    o4 + [NopPacket(END_IB_IDENTIFIER)]
  }

  /** The command buffer for the buffers `ibs`. */
  function Commands(ibs: seq<IbNode>, f: Flags, st: Stamps): (ps: seq<Packet>)
    ensures AllFit(ps)
  {
    var head := CommandHead(f, st.counter, st.started, st.submitIb);
    CommandTail(Entries(false, head, ibs, f), f, st.counter, st.retired, st.retireIb)
  }

  // ---- Context switch ----

  /** Page table of a context and the ring's page table slot in scratch. */
  function PagetableSwitch(ttbr0: u64, id: u32, scratch: u64): (ps: seq<Packet>)
    ensures AllFit(ps)
  {
    []
    + [Pkt7(CP_SMMU_TABLE_UPDATE, [Lo(ttbr0), Hi(ttbr0), id])]
    + [Pkt7(CP_WAIT_FOR_IDLE, [])] + [Pkt7(CP_WAIT_FOR_ME, [])] + [Pkt4(A5XX_CP_CNTL, [1])]
    + [Pkt7(CP_MEM_WRITE, [Lo(scratch), Hi(scratch), Lo(ttbr0), Hi(ttbr0), id])]
    + [Pkt7(CP_WAIT_FOR_IDLE, [])] + [Pkt7(CP_WAIT_FOR_ME, [])] + [Pkt4(A5XX_CP_CNTL, [0])]
  }

  /** A switch to context `id`; `pt` is its page table if that changes and is not the default. */
  function ContextSwitch(pt: Option<u64>, id: u32, scratch: u64, rbCurrent: u64, globalCurrent: u64): (ps: seq<Packet>)
    ensures AllFit(ps)
  {
    (if pt.None? then [] else PagetableSwitch(pt.value, id, scratch))
    + [NopPacket(CONTEXT_TO_MEM_IDENTIFIER)] + [MemWrite(rbCurrent, id)] + [MemWrite(globalCurrent, id)]
    + [Pkt4(A5XX_UCHE_INVALIDATE0, [0x12])]
  }
}
