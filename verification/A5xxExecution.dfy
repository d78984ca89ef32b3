/** What the command processor does with a5xx streams: what it runs, sets and stores,
    in which order and mode, and how every submission leaves the mode. */
module A5xxExecution {
  import opened Common
  import opened Pm4
  import opened CommandProcessor
  import opened Ringbuffer
  import opened CommandLists
  import opened A5xxPackets

  /** The 20 bits of an indirect buffer's size field. */
  const MAX_IB_DWORDS: nat := 0xF_FFFF

  /** The check every buffer of a command passes before it is queued; `inRange`
      is the answer of the address range check. */
  predicate VerifyIb(ib: IbNode, inRange: bool) {
    !(ib.size == 0 || ib.size / 4 > MAX_IB_DWORDS) && inRange && ib.addr % 4 == 0
  }

  // ---- What a submission is for ----

  /** The mode a submission's commands run in. */
  function UserMode(f: Flags): Mode { Mode(!f.notProtected, f.secure) }

  /** An optional buffer is run. */
  function Called(ib: Option<Ib>): seq<Deed> {
    if ib.None? then [] else [Run(ib.value.addr, ib.value.dwords)]
  }

  /** The preemption record's address, set with protection off. */
  function RecordActs(dev: Device): seq<Act> {
    [Act(Set(A5XX_CP_CONTEXT_SWITCH_SAVE_ADDR_LO, [Lo(dev.recordAddr)]), Mode(false, false)),
     Act(Set(A5XX_CP_CONTEXT_SWITCH_SAVE_ADDR_HI, [Hi(dev.recordAddr)]), Mode(false, false))]
  }

  /** Only contexts that are not secure and ask for it are preempted in mid-draw. */
  predicate FineGrained(ctx: Option<Context>) {
    ctx.Some? && !ctx.value.secure && ctx.value.style == PREEMPT_STYLE_FINEGRAIN
  }

  /** Preemption is set up: at the level of the context, with the ring's record. */
  function SetupActs(dev: Device, ctx: Option<Context>): seq<Act> {
    if !dev.preemption then [] else
    In(PROTECTED, [Other(CP_PREEMPT_ENABLE_GLOBAL, [if FineGrained(ctx) then 2 else 0])])
    + RecordActs(dev)
    + In(PROTECTED, [Other(CP_PREEMPT_ENABLE_LOCAL, [if FineGrained(ctx) then 1 else 0]), Other(CP_YIELD_ENABLE, [2])])
  }

  /** The start timestamps: the context's, if there is one, and the ring's. */
  function StartDeeds(job: Job): seq<Deed> {
    (if job.ctx.None? then [] else [Store(job.ctx.value.sop, [job.timestamp])]) + [Store(job.dev.rbSop, [job.rbTimestamp])]
  }

  /** Before the commands: preemption, a profiling call, the start timestamps. */
  function BeforeActs(job: Job): seq<Act> {
    SetupActs(job.dev, job.ctx) + In(PROTECTED, Called(job.preIb) + StartDeeds(job))
  }

  /** The end timestamps; the interrupt comes with the context's, if there is one. */
  function EndDeeds(job: Job): seq<Deed> {
    if job.ctx.None? then [Stamp(CACHE_FLUSH_TS_IRQ, job.dev.rbEop, job.rbTimestamp)]
    else [Stamp(CACHE_FLUSH_TS_IRQ, job.ctx.value.eop, job.timestamp), Stamp(CACHE_FLUSH_TS, job.dev.rbEop, job.rbTimestamp)]
  }

  /** After the commands: a profiling call, the unique write, the end timestamps. */
  function RetireDeeds(job: Job): seq<Deed> {
    Called(job.postIb) + Maybe(job.dev.haltOnPagefault, Other(CP_WAIT_MEM_WRITES, []))
    + [Store(job.dev.refWaitTs, [job.sequence])] + EndDeeds(job)
  }

  /** After the commands, protected again, and secure until the end timestamps are
      written; then the processor may yield. */
  function AfterActs(job: Job): seq<Act> {
    In(Mode(true, job.f.secure), RetireDeeds(job) + Maybe(job.f.wfi, Other(CP_WAIT_FOR_IDLE, [])))
    + In(PROTECTED, Maybe(job.dev.preemption, Other(CP_CONTEXT_SWITCH_YIELD, [0, 0, 1, 1])))
  }

  // ---- The parts of a submission ----

  lemma ExecWhen(c: Cp, b: Cp, out: seq<Packet>, ds: seq<Deed>, cond: bool, p: Packet, d: Deed)
    requires AllFit(out) && Fits(p) && ExecAll(c, out) == DoesAll(b, ds) && DeedOf(p) == Some(d)
    ensures ExecAll(c, When(out, cond, p)) == DoesAll(b, ds + Maybe(cond, d))
  {
    if cond { ExecMore(c, b, out, ds, p, d); } else { assert ds + [] == ds; }
  }

  lemma ExecProtectWhen(c: Cp, out: seq<Packet>, cond: bool, on: u32)
    requires AllFit(out)
    ensures ExecAll(c, When(out, cond, Protect(on))) ==
              var d := ExecAll(c, out); if cond then d.(mode := d.mode.(prot := on != 0)) else d
  {
    ExecSnoc(c, out, Protect(on));
  }

  lemma ExecSecureWhen(c: Cp, out: seq<Packet>, cond: bool, on: u32)
    requires AllFit(out)
    ensures ExecAll(c, When(out, cond, SecureMode(on))) ==
              var d := ExecAll(c, out); if cond then d.(mode := d.mode.(secure := on != 0)) else d
  {
    ExecSnoc(c, out, SecureMode(on));
  }

  lemma CallDeed(ib: Ib)
    ensures DeedOf(IbPacket(ib)) == Some(Run(ib.addr, ib.dwords))
  {
    HalvesWhole(ib.addr);
  }

  lemma StoreDeed(addr: u64, value: u32)
    ensures DeedOf(MemWrite(addr, value)) == Some(Store(addr, [value]))
  {
    HalvesWhole(addr);
  }

  lemma EventDeed(event: u32, addr: u64, value: u32)
    ensures DeedOf(Event(event, addr, value)) == Some(Stamp(event, addr, value))
  {
    HalvesWhole(addr);
  }

  lemma CounterDeed(reg: u32, addr: u64)
    ensures DeedOf(Counter(reg, addr)) == Some(CountTo(reg, addr))
  {
    HalvesWhole(addr);
  }

  lemma ExecProfileIb(c: Cp, b: Cp, out: seq<Packet>, ds: seq<Deed>, ib: Option<Ib>)
    requires AllFit(out) && ExecAll(c, out) == DoesAll(b, ds)
    ensures ExecAll(c, ProfileIb(out, ib)) == DoesAll(b, ds + Called(ib))
  {
    if ib.Some? {
      CallDeed(ib.value);
      ExecMore(c, b, out, ds, IbPacket(ib.value), Run(ib.value.addr, ib.value.dwords));
    } else {
      assert ds + [] == ds;
    }
  }

  lemma ExecSetOne(c: Cp, out: seq<Packet>, reg: nat, value: u32)
    ensures ExecAll(c, out + [Pkt4(reg, [value])]) ==
              var d := ExecAll(c, out); d.(acts := d.acts + [Act(Set(reg, [value]), d.mode)])
  {
    ExecSnoc(c, out, Pkt4(reg, [value]));
  }

  /** The record's address is set with protection off. */
  lemma ExecRecord(c: Cp, out: seq<Packet>, dev: Device)
    requires AllFit(out) && ExecAll(c, out).mode == PROTECTED
    ensures ExecAll(c, SaveRecord(out, dev)) == Acted(ExecAll(c, out), RecordActs(dev))
  {
    var d, lo, hi := ExecAll(c, out), Lo(dev.recordAddr), Hi(dev.recordAddr);
    var o2 := out + [Protect(0)];
    ExecSnoc(c, out, Protect(0));
    ExecSetOne(c, o2, A5XX_CP_CONTEXT_SWITCH_SAVE_ADDR_LO, lo);
    var o3 := o2 + [Pkt4(A5XX_CP_CONTEXT_SWITCH_SAVE_ADDR_LO, [lo])];
    ExecSetOne(c, o3, A5XX_CP_CONTEXT_SWITCH_SAVE_ADDR_HI, hi);
    ExecSnoc(c, o3 + [Pkt4(A5XX_CP_CONTEXT_SWITCH_SAVE_ADDR_HI, [hi])], Protect(1));
    RecordInOrder(d.acts, dev);
  }

  lemma RecordInOrder(acts: seq<Act>, dev: Device)
    ensures acts + [RecordActs(dev)[0]] + [RecordActs(dev)[1]] == acts + RecordActs(dev)
  {
  }

  lemma ExecOne(c: Cp, out: seq<Packet>, p: Packet, d: Deed)
    requires DeedOf(p) == Some(d) && KeepsTable(d)
    ensures ExecAll(c, out + [p]) == Acted(ExecAll(c, out), In(ExecAll(c, out).mode, [d]))
  {
    ExecSnoc(c, out, p);
  }

  lemma ExecPreIb(c: Cp, out: seq<Packet>, dev: Device, ctx: Option<Context>)
    requires AllFit(out) && ExecAll(c, out).mode == PROTECTED
    ensures ExecAll(c, PreIb(out, dev, ctx)) == Acted(ExecAll(c, out), SetupActs(dev, ctx))
  {
    var e := ExecAll(c, out);
    if !dev.preemption {
      assert e.acts + [] == e.acts;
    } else {
      var global := Pkt7(CP_PREEMPT_ENABLE_GLOBAL, [if FineGrained(ctx) then 2 else 0]);
      var localOn := Pkt7(CP_PREEMPT_ENABLE_LOCAL, [if FineGrained(ctx) then 1 else 0]);
      var first := In(PROTECTED, [Other(CP_PREEMPT_ENABLE_GLOBAL, global.payload)]);
      var o1 := out + [global];
      ExecOne(c, out, global, Other(CP_PREEMPT_ENABLE_GLOBAL, global.payload));
      ExecRecord(c, o1, dev);
      ActedTwice(e, first, RecordActs(dev));
      var o2 := SaveRecord(o1, dev);
      ExecLast(c, o2, localOn);
      ActedTwice(e, first + RecordActs(dev), In(PROTECTED, [Other(CP_PREEMPT_ENABLE_LOCAL, localOn.payload), Other(CP_YIELD_ENABLE, [2])]));
    }
  }

  lemma ExecLast(c: Cp, out: seq<Packet>, p: Packet)
    requires AllFit(out) && ExecAll(c, out).mode == PROTECTED && p.Pkt7? && p.op == CP_PREEMPT_ENABLE_LOCAL
    ensures ExecAll(c, out + [p] + [Pkt7(CP_YIELD_ENABLE, [2])]) ==
              Acted(ExecAll(c, out), In(PROTECTED, [Other(p.op, p.payload), Other(CP_YIELD_ENABLE, [2])]))
  {
    var e := ExecAll(c, out);
    DoesNothing(e);
    ExecMore(c, e, out, [], p, Other(p.op, p.payload));
    ExecMore(c, e, out + [p], [] + [Other(p.op, p.payload)], Pkt7(CP_YIELD_ENABLE, [2]), Other(CP_YIELD_ENABLE, [2]));
    var ds := [Other(p.op, p.payload), Other(CP_YIELD_ENABLE, [2])];
    assert [] + [Other(p.op, p.payload)] + [Other(CP_YIELD_ENABLE, [2])] == ds;
    Untabled(e, ds);
  }

  lemma ExecStartStamps(c: Cp, b: Cp, out: seq<Packet>, ds: seq<Deed>, job: Job)
    requires AllFit(out) && ExecAll(c, out) == DoesAll(b, ds)
    ensures ExecAll(c, StartStamps(out, job.dev, job.ctx, job.timestamp, job.rbTimestamp)) == DoesAll(b, ds + StartDeeds(job))
  {
    var o1, ds1 := out, ds;
    if job.ctx.Some? {
      var sop := job.ctx.value.sop;
      StoreDeed(sop, job.timestamp);
      ExecMore(c, b, out, ds, MemWrite(sop, job.timestamp), Store(sop, [job.timestamp]));
      o1, ds1 := out + [MemWrite(sop, job.timestamp)], ds + [Store(sop, [job.timestamp])];
    }
    StoreDeed(job.dev.rbSop, job.rbTimestamp);
    ExecMore(c, b, o1, ds1, MemWrite(job.dev.rbSop, job.rbTimestamp), Store(job.dev.rbSop, [job.rbTimestamp]));
    assert ds1 + [Store(job.dev.rbSop, [job.rbTimestamp])] == ds + StartDeeds(job);
  }

  /** The processor when it comes to a submission's commands. */
  function AtCommands(c: Cp, job: Job): Cp { Cp(UserMode(job.f), c.table, c.acts + BeforeActs(job)) }

  lemma StartKeepsTable(job: Job)
    ensures AllKeepTable(Called(job.preIb) + StartDeeds(job))
  {
  }

  lemma ExecStart(c: Cp, out: seq<Packet>, job: Job)
    requires AllFit(out) && ExecAll(c, out).mode == PROTECTED
    ensures ExecAll(c, StartStamps(ProfileIb(out, job.preIb), job.dev, job.ctx, job.timestamp, job.rbTimestamp)) ==
              Acted(ExecAll(c, out), In(PROTECTED, Called(job.preIb) + StartDeeds(job)))
  {
    var e := ExecAll(c, out);
    DoesNothing(e);
    ExecProfileIb(c, e, out, [], job.preIb);
    assert [] + Called(job.preIb) == Called(job.preIb);
    ExecStartStamps(c, e, ProfileIb(out, job.preIb), Called(job.preIb), job);
    StartKeepsTable(job);
    Untabled(e, Called(job.preIb) + StartDeeds(job));
  }

  lemma ExecPrologue(c: Cp, job: Job)
    requires c.mode == PROTECTED
    ensures ExecAll(c, Prologue([], job.dev, job.ctx, job.f, job.timestamp, job.rbTimestamp, job.preIb)) == AtCommands(c, job)
  {
    var id := NopPacket(if job.ctx.Some? then CMD_IDENTIFIER else CMD_INTERNAL_IDENTIFIER);
    var o1 := [] + [id];
    ExecNop(c, [], id);
    var o2 := PreIb(o1, job.dev, job.ctx);
    ExecPreIb(c, o1, job.dev, job.ctx);
    ExecStart(c, o2, job);
    ActedTwice(c, SetupActs(job.dev, job.ctx), In(PROTECTED, Called(job.preIb) + StartDeeds(job)));
    var o4 := StartStamps(ProfileIb(o2, job.preIb), job.dev, job.ctx, job.timestamp, job.rbTimestamp);
    ExecSecureWhen(c, o4, job.f.secure, 1);
    ExecProtectWhen(c, When(o4, job.f.secure, SecureMode(1)), job.f.notProtected, 0);
  }

  lemma ExecEndStamps(c: Cp, b: Cp, out: seq<Packet>, ds: seq<Deed>, job: Job)
    requires AllFit(out) && ExecAll(c, out) == DoesAll(b, ds)
    ensures ExecAll(c, EndStamps(out, job.dev, job.ctx, job.timestamp, job.rbTimestamp)) == DoesAll(b, ds + EndDeeds(job))
  {
    var o1, ds1, event := out, ds, if job.ctx.None? then CACHE_FLUSH_TS_IRQ else CACHE_FLUSH_TS;
    if job.ctx.Some? {
      var eop := job.ctx.value.eop;
      EventDeed(CACHE_FLUSH_TS_IRQ, eop, job.timestamp);
      ExecMore(c, b, out, ds, Event(CACHE_FLUSH_TS_IRQ, eop, job.timestamp), Stamp(CACHE_FLUSH_TS_IRQ, eop, job.timestamp));
      o1 := out + [Event(CACHE_FLUSH_TS_IRQ, eop, job.timestamp)];
      ds1 := ds + [Stamp(CACHE_FLUSH_TS_IRQ, eop, job.timestamp)];
    }
    EventDeed(event, job.dev.rbEop, job.rbTimestamp);
    ExecMore(c, b, o1, ds1, Event(event, job.dev.rbEop, job.rbTimestamp), Stamp(event, job.dev.rbEop, job.rbTimestamp));
    assert ds1 + [Stamp(event, job.dev.rbEop, job.rbTimestamp)] == ds + EndDeeds(job);
  }

  lemma ExecUniqueWrite(c: Cp, b: Cp, out: seq<Packet>, ds: seq<Deed>, job: Job)
    requires AllFit(out) && ExecAll(c, out) == DoesAll(b, ds)
    ensures ExecAll(c, When(out, job.dev.haltOnPagefault, Pkt7(CP_WAIT_MEM_WRITES, [])) + [MemWrite(job.dev.refWaitTs, job.sequence)]) ==
              DoesAll(b, ds + Maybe(job.dev.haltOnPagefault, Other(CP_WAIT_MEM_WRITES, [])) + [Store(job.dev.refWaitTs, [job.sequence])])
  {
    var wait, d := Pkt7(CP_WAIT_MEM_WRITES, []), Other(CP_WAIT_MEM_WRITES, []);
    ExecWhen(c, b, out, ds, job.dev.haltOnPagefault, wait, d);
    StoreDeed(job.dev.refWaitTs, job.sequence);
    ExecMore(c, b, When(out, job.dev.haltOnPagefault, wait), ds + Maybe(job.dev.haltOnPagefault, d),
             MemWrite(job.dev.refWaitTs, job.sequence), Store(job.dev.refWaitTs, [job.sequence]));
  }

  lemma ExecUniqueAndEnd(c: Cp, b: Cp, out: seq<Packet>, ds: seq<Deed>, job: Job)
    requires AllFit(out) && ExecAll(c, out) == DoesAll(b, ds)
    ensures var o := When(out, job.dev.haltOnPagefault, Pkt7(CP_WAIT_MEM_WRITES, [])) + [MemWrite(job.dev.refWaitTs, job.sequence)];
            ExecAll(c, EndStamps(o, job.dev, job.ctx, job.timestamp, job.rbTimestamp)) ==
              DoesAll(b, ds + Maybe(job.dev.haltOnPagefault, Other(CP_WAIT_MEM_WRITES, [])) + [Store(job.dev.refWaitTs, [job.sequence])] + EndDeeds(job))
  {
    var o := When(out, job.dev.haltOnPagefault, Pkt7(CP_WAIT_MEM_WRITES, [])) + [MemWrite(job.dev.refWaitTs, job.sequence)];
    ExecUniqueWrite(c, b, out, ds, job);
    ExecEndStamps(c, b, o, ds + Maybe(job.dev.haltOnPagefault, Other(CP_WAIT_MEM_WRITES, [])) + [Store(job.dev.refWaitTs, [job.sequence])], job);
  }

  lemma ExecRetirement(c: Cp, out: seq<Packet>, job: Job)
    requires AllFit(out) && ExecAll(c, out).mode == UserMode(job.f)
    ensures ExecAll(c, Retirement(out, job.dev, job.ctx, job.f, job.timestamp, job.rbTimestamp, job.postIb, job.sequence)) ==
              DoesAll(ExecAll(c, out).(mode := Mode(true, job.f.secure)), RetireDeeds(job))
  {
    var o1, b := When(out, job.f.notProtected, Protect(1)), ExecAll(c, out).(mode := Mode(true, job.f.secure));
    ExecProtectWhen(c, out, job.f.notProtected, 1);
    DoesNothing(b);
    ExecProfileIb(c, b, o1, [], job.postIb);
    assert [] + Called(job.postIb) == Called(job.postIb);
    ExecUniqueAndEnd(c, b, ProfileIb(o1, job.postIb), Called(job.postIb), job);
  }

  /** The processor after a submission whose commands have left it as `d`. */
  function Ended(d: Cp, job: Job): Cp { Cp(PROTECTED, d.table, d.acts + AfterActs(job)) }

  lemma RetireKeepsTable(job: Job)
    ensures AllKeepTable(RetireDeeds(job) + Maybe(job.f.wfi, Other(CP_WAIT_FOR_IDLE, [])))
  {
  }

  lemma ExecClosing(c: Cp, b: Cp, out: seq<Packet>, job: Job)
    requires AllFit(out) && b.mode == Mode(true, job.f.secure) && ExecAll(c, out) == DoesAll(b, RetireDeeds(job))
    ensures ExecAll(c, Closing(out, job.dev, job.f)) == Ended(b, job)
  {
    var o1, idle := When(out, job.f.wfi, Pkt7(CP_WAIT_FOR_IDLE, [])), Other(CP_WAIT_FOR_IDLE, []);
    var ds := RetireDeeds(job) + Maybe(job.f.wfi, idle);
    ExecWhen(c, b, out, RetireDeeds(job), job.f.wfi, Pkt7(CP_WAIT_FOR_IDLE, []), idle);
    RetireKeepsTable(job);
    Untabled(b, ds);
    var o2 := When(o1, job.f.secure, SecureMode(0));
    ExecSecureWhen(c, o1, job.f.secure, 0);
    var e := ExecAll(c, o2);
    assert e == Cp(PROTECTED, b.table, b.acts + In(b.mode, ds));
    var yielding := Other(CP_CONTEXT_SWITCH_YIELD, [0, 0, 1, 1]);
    DoesNothing(e);
    ExecWhen(c, e, o2, [], job.dev.preemption, Pkt7(CP_CONTEXT_SWITCH_YIELD, [0, 0, 1, 1]), yielding);
    assert [] + Maybe(job.dev.preemption, yielding) == Maybe(job.dev.preemption, yielding);
    Untabled(e, Maybe(job.dev.preemption, yielding));
    Associate(b.acts, In(b.mode, ds), In(PROTECTED, Maybe(job.dev.preemption, yielding)));
  }

  /** A submission starts and ends protected and not secure.  Before its commands it
      sets up preemption and stores the start timestamps; the commands run in their
      mode; after all of them it makes the unique write and stores the end timestamps.
      The commands may be anything that leaves the mode as it was. */
  lemma SubmissionBrackets(c: Cp, job: Job, user: seq<Packet>)
    requires AllFit(user) && c.mode == PROTECTED
    requires ExecAll(AtCommands(c, job), user).mode == UserMode(job.f)
    ensures ExecAll(c, Submission(job, user)) == Ended(ExecAll(AtCommands(c, job), user), job)
  {
    var o1 := Prologue([], job.dev, job.ctx, job.f, job.timestamp, job.rbTimestamp, job.preIb);
    ExecPrologue(c, job);
    ExecAppend(c, o1, user);
    var o2 := Retirement(o1 + user, job.dev, job.ctx, job.f, job.timestamp, job.rbTimestamp, job.postIb, job.sequence);
    ExecRetirement(c, o1 + user, job);
    ExecClosing(c, ExecAll(c, o1 + user).(mode := Mode(true, job.f.secure)), o2, job);
  }

  // ---- User command lists ----

  /** What a command list asks to be run: its buffers that are not skipped, in
      order, each whole. */
  function Wanted(ibs: seq<IbNode>, f: Flags): seq<Deed> {
    if ibs == [] then [] else
    var last := ibs[|ibs| - 1];
    Wanted(ibs[..|ibs| - 1], f)
    + (if last.skip || (last.preamble && !f.preamble) then [] else [Run(last.addr, last.size / 4)])
  }

  predicate AllVerified(ibs: seq<IbNode>) {
    forall i :: 0 <= i < |ibs| ==> VerifyIb(ibs[i], true)
  }

  /** The size mask loses nothing exactly when the size passes the check's bound. */
  lemma MaskLosesNothing(ib: IbNode)
    ensures NodeIb(false, ib).dwords == ib.size / 4 <==> ib.size / 4 <= MAX_IB_DWORDS
  {
  }

  lemma EntryRuns(c: Cp, b: Cp, out: seq<Packet>, ds: seq<Deed>, ib: IbNode, f: Flags)
    requires VerifyIb(ib, true) && ExecAll(c, out) == DoesAll(b, ds)
    ensures ExecAll(c, out + [Entry(false, ib, f)]) == DoesAll(b, ds + if Skipped(ib, f) then [] else [Run(ib.addr, ib.size / 4)])
  {
    if Skipped(ib, f) {
      ExecNop(c, out, Entry(false, ib, f));
      assert ds + [] == ds;
    } else {
      MaskLosesNothing(ib);
      CallDeed(NodeIb(false, ib));
      ExecMore(c, b, out, ds, IbPacket(NodeIb(false, ib)), Run(ib.addr, ib.size / 4));
    }
  }

  lemma {:induction false} EntriesRun(c: Cp, b: Cp, out: seq<Packet>, ds: seq<Deed>, ibs: seq<IbNode>, f: Flags)
    requires AllFit(out) && AllVerified(ibs) && ExecAll(c, out) == DoesAll(b, ds)
    ensures ExecAll(c, Entries(false, out, ibs, f)) == DoesAll(b, ds + Wanted(ibs, f))
    decreases |ibs|
  {
    if ibs == [] {
      assert ds + [] == ds;
    } else {
      var before, last := ibs[..|ibs| - 1], ibs[|ibs| - 1];
      EntriesRun(c, b, out, ds, before, f);
      EntryRuns(c, b, Entries(false, out, before, f), ds + Wanted(before, f), last, f);
      Associate(ds, Wanted(before, f), if Skipped(last, f) then [] else [Run(last.addr, last.size / 4)]);
    }
  }

  /** What a draw asks for: its buffers in order, between counters that are read to
      the profile's entry and the calls that stamp the user's times. */
  function DrawDeeds(ibs: seq<IbNode>, f: Flags, st: Stamps): seq<Deed> {
    Maybe(f.kernelProfile, CountTo(st.counter, st.started)) + Called(st.submitIb)
    + Wanted(ibs, f)
    + [Other(CP_SET_RENDER_MODE, [0, 0, 0, 0, 0]), Other(CP_YIELD_ENABLE, [1])]
    + Maybe(f.kernelProfile, CountTo(st.counter, st.retired)) + Called(st.retireIb)
  }

  lemma ExecHead(c: Cp, f: Flags, st: Stamps)
    ensures ExecAll(c, CommandHead(f, st.counter, st.started, st.submitIb)) ==
              DoesAll(c, Maybe(f.kernelProfile, CountTo(st.counter, st.started)) + Called(st.submitIb))
  {
    var o1, count := [] + [NopPacket(START_IB_IDENTIFIER)], CountTo(st.counter, st.started);
    ExecNop(c, [], NopPacket(START_IB_IDENTIFIER));
    DoesNothing(c);
    CounterDeed(st.counter, st.started);
    ExecWhen(c, c, o1, [], f.kernelProfile, Counter(st.counter, st.started), count);
    assert [] + Maybe(f.kernelProfile, count) == Maybe(f.kernelProfile, count);
    ExecProfileIb(c, c, When(o1, f.kernelProfile, Counter(st.counter, st.started)), Maybe(f.kernelProfile, count), st.submitIb);
  }

  lemma ExecRender(c: Cp, b: Cp, out: seq<Packet>, ds: seq<Deed>)
    requires AllFit(out) && ExecAll(c, out) == DoesAll(b, ds)
    ensures ExecAll(c, out + [Pkt7(CP_SET_RENDER_MODE, [0, 0, 0, 0, 0])] + [Pkt7(CP_YIELD_ENABLE, [1])]) ==
              DoesAll(b, ds + [Other(CP_SET_RENDER_MODE, [0, 0, 0, 0, 0]), Other(CP_YIELD_ENABLE, [1])])
  {
    var render, yielding := Pkt7(CP_SET_RENDER_MODE, [0, 0, 0, 0, 0]), Pkt7(CP_YIELD_ENABLE, [1]);
    var d1, d2 := Other(CP_SET_RENDER_MODE, [0, 0, 0, 0, 0]), Other(CP_YIELD_ENABLE, [1]);
    ExecMore(c, b, out, ds, render, d1);
    ExecMore(c, b, out + [render], ds + [d1], yielding, d2);
    TwoMore(ds, d1, d2);
  }

  lemma TwoMore(ds: seq<Deed>, d1: Deed, d2: Deed)
    ensures ds + [d1] + [d2] == ds + [d1, d2]
  {
  }

  lemma ExecTail(c: Cp, b: Cp, out: seq<Packet>, ds: seq<Deed>, f: Flags, st: Stamps)
    requires AllFit(out) && ExecAll(c, out) == DoesAll(b, ds)
    ensures ExecAll(c, CommandTail(out, f, st.counter, st.retired, st.retireIb)) ==
              DoesAll(b, ds + [Other(CP_SET_RENDER_MODE, [0, 0, 0, 0, 0]), Other(CP_YIELD_ENABLE, [1])]
                         + Maybe(f.kernelProfile, CountTo(st.counter, st.retired)) + Called(st.retireIb))
  {
    var o2 := out + [Pkt7(CP_SET_RENDER_MODE, [0, 0, 0, 0, 0])] + [Pkt7(CP_YIELD_ENABLE, [1])];
    var d2 := ds + [Other(CP_SET_RENDER_MODE, [0, 0, 0, 0, 0]), Other(CP_YIELD_ENABLE, [1])];
    ExecRender(c, b, out, ds);
    CounterDeed(st.counter, st.retired);
    ExecWhen(c, b, o2, d2, f.kernelProfile, Counter(st.counter, st.retired), CountTo(st.counter, st.retired));
    var o3, d3 := When(o2, f.kernelProfile, Counter(st.counter, st.retired)), d2 + Maybe(f.kernelProfile, CountTo(st.counter, st.retired));
    ExecProfileIb(c, b, o3, d3, st.retireIb);
    ExecNop(c, ProfileIb(o3, st.retireIb), NopPacket(END_IB_IDENTIFIER));
  }

  /** A command buffer runs exactly the buffers that are not skipped, in order,
      between its profiling counters and calls, and changes neither mode nor table. */
  lemma CommandsRun(c: Cp, ibs: seq<IbNode>, f: Flags, st: Stamps)
    requires AllVerified(ibs)
    ensures ExecAll(c, Commands(ibs, f, st)) == Acted(c, In(c.mode, DrawDeeds(ibs, f, st)))
  {
    var head := CommandHead(f, st.counter, st.started, st.submitIb);
    var ds := Maybe(f.kernelProfile, CountTo(st.counter, st.started)) + Called(st.submitIb);
    ExecHead(c, f, st);
    EntriesRun(c, c, head, ds, ibs, f);
    ExecTail(c, c, Entries(false, head, ibs, f), ds + Wanted(ibs, f), f, st);
    DrawKeepsTable(ibs, f, st);
    Untabled(c, DrawDeeds(ibs, f, st));
  }

  lemma KeepTableBoth(a: seq<Deed>, b: seq<Deed>)
    requires AllKeepTable(a) && AllKeepTable(b)
    ensures AllKeepTable(a + b)
  {
  }

  lemma DrawKeepsTable(ibs: seq<IbNode>, f: Flags, st: Stamps)
    ensures AllKeepTable(DrawDeeds(ibs, f, st))
  {
    var a := Maybe(f.kernelProfile, CountTo(st.counter, st.started)) + Called(st.submitIb);
    var b := [Other(CP_SET_RENDER_MODE, [0, 0, 0, 0, 0]), Other(CP_YIELD_ENABLE, [1])];
    var d := Maybe(f.kernelProfile, CountTo(st.counter, st.retired));
    WantedKeepsTable(ibs, f);
    KeepTableBoth(a, Wanted(ibs, f));
    KeepTableBoth(a + Wanted(ibs, f), b);
    KeepTableBoth(a + Wanted(ibs, f) + b, d);
    KeepTableBoth(a + Wanted(ibs, f) + b + d, Called(st.retireIb));
  }

  lemma {:induction false} WantedKeepsTable(ibs: seq<IbNode>, f: Flags)
    ensures AllKeepTable(Wanted(ibs, f))
  {
    if ibs != [] { WantedKeepsTable(ibs[..|ibs| - 1], f); }
  }

  // ---- Context switches ----

  /** A new page table is loaded, and stored with the context's id in the ring's slot;
      the processor is idle before and after the store. */
  function TableDeeds(ttbr0: u64, id: u32, scratch: u64): seq<Deed> {
    var idle, wait := Other(CP_WAIT_FOR_IDLE, []), Other(CP_WAIT_FOR_ME, []);
    [Load(ttbr0, id), idle, wait, Set(A5XX_CP_CNTL, [1]),
     Store(scratch, [Lo(ttbr0), Hi(ttbr0), id]), idle, wait, Set(A5XX_CP_CNTL, [0])]
  }

  /** The context becomes the ring's and the device's current one, and the cache is
      invalidated. */
  function CurrentDeeds(id: u32, rbCurrent: u64, globalCurrent: u64): seq<Deed> {
    [Store(rbCurrent, [id]), Store(globalCurrent, [id]), Set(A5XX_UCHE_INVALIDATE0, [0x12])]
  }

  function SwitchDeeds(pt: Option<u64>, id: u32, scratch: u64, rbCurrent: u64, globalCurrent: u64): seq<Deed> {
    (if pt.None? then [] else TableDeeds(pt.value, id, scratch)) + CurrentDeeds(id, rbCurrent, globalCurrent)
  }

  lemma ExecPagetableSwitch(c: Cp, ttbr0: u64, id: u32, scratch: u64)
    ensures ExecAll(c, PagetableSwitch(ttbr0, id, scratch)) == DoesAll(c, TableDeeds(ttbr0, id, scratch))
  {
    var update := Pkt7(CP_SMMU_TABLE_UPDATE, [Lo(ttbr0), Hi(ttbr0), id]);
    var idle, wait := Pkt7(CP_WAIT_FOR_IDLE, []), Pkt7(CP_WAIT_FOR_ME, []);
    var store := Pkt7(CP_MEM_WRITE, [Lo(scratch), Hi(scratch), Lo(ttbr0), Hi(ttbr0), id]);
    var ds := TableDeeds(ttbr0, id, scratch);
    HalvesWhole(ttbr0);
    HalvesWhole(scratch);
    DoesNothing(c);
    var o1, o2, o3 := [] + [update], [] + [update] + [idle], [] + [update] + [idle] + [wait];
    ExecMore(c, c, [], [], update, ds[0]);
    ExecMore(c, c, o1, [] + [ds[0]], idle, ds[1]);
    ExecMore(c, c, o2, [] + [ds[0]] + [ds[1]], wait, ds[2]);
    var d3 := [] + [ds[0]] + [ds[1]] + [ds[2]];
    ExecMore(c, c, o3, d3, Pkt4(A5XX_CP_CNTL, [1]), ds[3]);
    var o4, d4 := o3 + [Pkt4(A5XX_CP_CNTL, [1])], d3 + [ds[3]];
    assert store.payload[2..] == [Lo(ttbr0), Hi(ttbr0), id];
    ExecMore(c, c, o4, d4, store, ds[4]);
    ExecMore(c, c, o4 + [store], d4 + [ds[4]], idle, ds[5]);
    ExecMore(c, c, o4 + [store] + [idle], d4 + [ds[4]] + [ds[5]], wait, ds[6]);
    ExecMore(c, c, o4 + [store] + [idle] + [wait], d4 + [ds[4]] + [ds[5]] + [ds[6]], Pkt4(A5XX_CP_CNTL, [0]), ds[7]);
    assert d4 + [ds[4]] + [ds[5]] + [ds[6]] + [ds[7]] == ds;
  }

  lemma ExecCurrent(c: Cp, b: Cp, out: seq<Packet>, ds: seq<Deed>, id: u32, rbCurrent: u64, globalCurrent: u64)
    requires AllFit(out) && ExecAll(c, out) == DoesAll(b, ds)
    ensures ExecAll(c, out + [MemWrite(rbCurrent, id)] + [MemWrite(globalCurrent, id)] + [Pkt4(A5XX_UCHE_INVALIDATE0, [0x12])]) ==
              DoesAll(b, ds + CurrentDeeds(id, rbCurrent, globalCurrent))
  {
    var x, y, z := Store(rbCurrent, [id]), Store(globalCurrent, [id]), Set(A5XX_UCHE_INVALIDATE0, [0x12]);
    StoreDeed(rbCurrent, id);
    StoreDeed(globalCurrent, id);
    ExecMore(c, b, out, ds, MemWrite(rbCurrent, id), x);
    ExecMore(c, b, out + [MemWrite(rbCurrent, id)], ds + [x], MemWrite(globalCurrent, id), y);
    ExecMore(c, b, out + [MemWrite(rbCurrent, id)] + [MemWrite(globalCurrent, id)], ds + [x] + [y], Pkt4(A5XX_UCHE_INVALIDATE0, [0x12]), z);
    assert ds + [x] + [y] + [z] == ds + CurrentDeeds(id, rbCurrent, globalCurrent);
  }

  /** The page table in use after the deeds of a switch. */
  lemma SwitchTable(table: u64, pt: Option<u64>, id: u32, scratch: u64, rbCurrent: u64, globalCurrent: u64)
    ensures TableBy(table, SwitchDeeds(pt, id, scratch, rbCurrent, globalCurrent)) == if pt.None? then table else pt.value
  {
    var a := if pt.None? then [] else TableDeeds(pt.value, id, scratch);
    var c := Cp(PROTECTED, if pt.None? then table else pt.value, []);
    TableByMore(table, a, CurrentDeeds(id, rbCurrent, globalCurrent));
    Untabled(c, CurrentDeeds(id, rbCurrent, globalCurrent));
    if pt.Some? {
      assert a == [a[0]] + a[1..] && TableBy(table, [a[0]]) == pt.value;
      TableByMore(table, [a[0]], a[1..]);
      Untabled(c, a[1..]);
    }
  }

  /** A context switch loads the new page table if there is one, stores it and the
      context's id where they belong, runs nothing, and leaves the mode alone. */
  lemma ContextSwitchExecutes(c: Cp, pt: Option<u64>, id: u32, scratch: u64, rbCurrent: u64, globalCurrent: u64)
    ensures ExecAll(c, ContextSwitch(pt, id, scratch, rbCurrent, globalCurrent)) ==
              Cp(c.mode, if pt.None? then c.table else pt.value,
                 c.acts + In(c.mode, SwitchDeeds(pt, id, scratch, rbCurrent, globalCurrent)))
  {
    var o1 := if pt.None? then [] else PagetableSwitch(pt.value, id, scratch);
    var ds := if pt.None? then [] else TableDeeds(pt.value, id, scratch);
    if pt.Some? { ExecPagetableSwitch(c, pt.value, id, scratch); } else { DoesNothing(c); }
    ExecNop(c, o1, NopPacket(CONTEXT_TO_MEM_IDENTIFIER));
    ExecCurrent(c, c, o1 + [NopPacket(CONTEXT_TO_MEM_IDENTIFIER)], ds, id, rbCurrent, globalCurrent);
    SwitchTable(c.table, pt, id, scratch, rbCurrent, globalCurrent);
  }

  // ---- Whole runs ----

  /** What the driver hands to the ring. */
  datatype Work =
    | Draw(ibs: seq<IbNode>, cf: Flags, st: Stamps)
    | Switch(pt: Option<u64>, id: u32, scratch: u64, rbCurrent: u64, globalCurrent: u64)

  function UserPackets(w: Work): (ps: seq<Packet>)
    ensures AllFit(ps)
  {
    match w
    case Draw(ibs, cf, st) => Commands(Issued(ibs, cf), cf, st)
    case Switch(pt, id, scratch, rbCurrent, globalCurrent) => ContextSwitch(pt, id, scratch, rbCurrent, globalCurrent)
  }

  /** One submission of the driver: a context switch goes out unprotected. */
  datatype Sent = Sent(job: Job, work: Work)

  predicate WellSent(s: Sent) {
    match s.work
    case Draw(ibs, _, _) => AllVerified(ibs)
    case Switch(_, _, _, _, _) => s.job.f.notProtected
  }

  /** What the commands of a submission ask for. */
  function WorkDeeds(w: Work): seq<Deed> {
    match w
    case Draw(ibs, cf, st) => DrawDeeds(if cf.skip then [] else ibs, cf, st)
    case Switch(pt, id, scratch, rbCurrent, globalCurrent) => SwitchDeeds(pt, id, scratch, rbCurrent, globalCurrent)
  }

  /** All that one submission makes the processor do, in order, each deed with its mode. */
  function SentActs(s: Sent): seq<Act> {
    BeforeActs(s.job) + In(UserMode(s.job.f), WorkDeeds(s.work)) + AfterActs(s.job)
  }

  /** The page table in use after a submission. */
  function WantedTable(table: u64, s: Sent): u64 {
    if s.work.Switch? && s.work.pt.Some? then s.work.pt.value else table
  }

  lemma SentExecutes(c: Cp, s: Sent)
    requires WellSent(s) && c.mode == PROTECTED
    ensures ExecAll(c, Submission(s.job, UserPackets(s.work))) == Cp(PROTECTED, WantedTable(c.table, s), c.acts + SentActs(s))
  {
    var d := AtCommands(c, s.job);
    match s.work {
      case Draw(ibs, cf, st) =>
        CommandsRun(d, Issued(ibs, cf), cf, st);
      case Switch(pt, id, scratch, rbCurrent, globalCurrent) =>
        ContextSwitchExecutes(d, pt, id, scratch, rbCurrent, globalCurrent);
    }
    SubmissionBrackets(c, s.job, UserPackets(s.work));
    ActsTogether(c.acts, BeforeActs(s.job), In(UserMode(s.job.f), WorkDeeds(s.work)), AfterActs(s.job));
  }

  lemma ActsTogether(acts: seq<Act>, a: seq<Act>, b: seq<Act>, c: seq<Act>)
    ensures acts + a + b + c == acts + (a + b + c)
  {
  }

  /** What the ring holds of one submission: its words, and the report of the
      read pointer behind them, if there is one. */
  datatype Published = Published(sent: Sent, words: seq<u32>, report: seq<u32>)

  /** The words are as AddCmds leaves them: a report comes without preemption. */
  ghost predicate AsPublished(p: Published) {
    && WellSent(p.sent)
    && ReadsAs(p.words, Submission(p.sent.job, UserPackets(p.sent.work)))
    && (if p.sent.job.dev.preemption then p.report == [] else ReadsAs(p.report, [WhereAmI(p.sent.job.dev)]))
  }

  ghost predicate AllPublished(ps: seq<Published>) {
    forall i {:trigger AsPublished(ps[i])} :: 0 <= i < |ps| ==> AsPublished(ps[i])
  }

  function RingWords(ps: seq<Published>): seq<u32> {
    if ps == [] then [] else ps[0].words + (ps[0].report + RingWords(ps[1..]))
  }

  /** What a submission and its report make the processor do. */
  function PublishedActs(s: Sent): seq<Act> {
    SentActs(s) + In(PROTECTED, Maybe(!s.job.dev.preemption, ReportTo(s.job.dev.rptrShadow)))
  }

  function AllActs(ps: seq<Published>): seq<Act> {
    if ps == [] then [] else PublishedActs(ps[0].sent) + AllActs(ps[1..])
  }

  lemma LeadDoesNothing(c: Cp, lead: seq<Packet>, out: seq<Packet>)
    requires IsLead(lead)
    ensures ExecAll(c, lead + out) == ExecAll(c, out)
  {
    ExecAppend(c, lead, out);
    if lead != [] {
      assert lead == [] + [lead[0]];
      ExecNop(c, [], lead[0]);
    }
  }

  /** The page table in use after all of them. */
  function TableAfter(table: u64, ps: seq<Published>): u64
    decreases |ps|
  {
    if ps == [] then table else TableAfter(WantedTable(table, ps[0].sent), ps[1..])
  }

  /** Words that read as `out` have the effect of `out`, and leave the reader at
      the words behind them. */
  lemma ExecuteThrough(c: Cp, words: seq<u32>, out: seq<Packet>, rest: seq<u32>)
    requires ReadsAs(words, out) && Decode(rest).Packets?
    ensures Decode(words + rest).Packets?
    ensures Execute(c, words + rest) == Execute(ExecAll(c, out), rest)
  {
    var lead :| IsLead(lead) && AllFit(lead + out) && words == EncodeAll(lead + out);
    DecodeAppend(lead + out, rest);
    ExecAppend(c, lead + out, Decode(rest).ps);
    LeadDoesNothing(c, lead, out);
  }

  /** The report stores the read pointer in the ring's slot. */
  lemma ReportExecutes(c: Cp, report: seq<u32>, dev: Device, rest: seq<u32>)
    requires if dev.preemption then report == [] else ReadsAs(report, [WhereAmI(dev)])
    requires Decode(rest).Packets?
    ensures Decode(report + rest).Packets?
    ensures Execute(c, report + rest) == Execute(Acted(c, In(c.mode, Maybe(!dev.preemption, ReportTo(dev.rptrShadow)))), rest)
  {
    if dev.preemption {
      assert report + rest == rest && c.acts + [] == c.acts;
    } else {
      ExecuteThrough(c, report, [WhereAmI(dev)], rest);
      ExecReport(c, dev);
    }
  }

  lemma ExecReport(c: Cp, dev: Device)
    ensures ExecAll(c, [WhereAmI(dev)]) == Acted(c, In(c.mode, [ReportTo(dev.rptrShadow)]))
  {
    HalvesWhole(dev.rptrShadow);
    assert [] + [WhereAmI(dev)] == [WhereAmI(dev)];
    ExecOne(c, [], WhereAmI(dev), ReportTo(dev.rptrShadow));
  }

  /** The processor after one submission. */
  function After(c: Cp, s: Sent): Cp { Cp(PROTECTED, WantedTable(c.table, s), c.acts + PublishedActs(s)) }

  lemma PublishedExecutes(c: Cp, p: Published, rest: seq<u32>)
    requires AsPublished(p) && c.mode == PROTECTED && Decode(rest).Packets?
    ensures Decode(p.words + (p.report + rest)).Packets?
    ensures Execute(c, p.words + (p.report + rest)) == Execute(After(c, p.sent), rest)
  {
    var packets := Submission(p.sent.job, UserPackets(p.sent.work));
    var d := ExecAll(c, packets);
    SentExecutes(c, p.sent);
    ReportExecutes(d, p.report, p.sent.job.dev, rest);
    ExecuteThrough(c, p.words, packets, p.report + rest);
    Associate(c.acts, SentActs(p.sent), In(PROTECTED, Maybe(!p.sent.job.dev.preemption, ReportTo(p.sent.job.dev.rptrShadow))));
  }

  /** The processor after all of them. */
  function AfterAll(c: Cp, ps: seq<Published>): Cp {
    Cp(PROTECTED, TableAfter(c.table, ps), c.acts + AllActs(ps))
  }

  lemma AfterMore(c: Cp, p: Published, ps: seq<Published>)
    ensures AfterAll(After(c, p.sent), ps) == AfterAll(c, [p] + ps)
    ensures RingWords([p] + ps) == p.words + (p.report + RingWords(ps))
  {
    assert ([p] + ps)[1..] == ps;
    Associate(c.acts, PublishedActs(p.sent), AllActs(ps));
  }

  lemma NothingSent(c: Cp)
    requires c.mode == PROTECTED
    ensures Decode([]).Packets? && Execute(c, []) == AfterAll(c, [])
  {
  }

  /** Over any sequence of submissions the ring reads as whole packets; the processor
      does exactly what each asks for, submission after submission, each deed in its
      mode, and each submission leaves it protected and not secure. */
  lemma {:induction false} EveryRunBrackets(c: Cp, ps: seq<Published>)
    requires AllPublished(ps) && c.mode == PROTECTED
    ensures Decode(RingWords(ps)).Packets?
    ensures Execute(c, RingWords(ps)) == AfterAll(c, ps)
    decreases |ps|
  {
    if ps == [] {
      NothingSent(c);
    } else {
      var p, rest := ps[0], ps[1..];
      assert ps == [p] + rest && AsPublished(ps[0]);
      EveryRunBrackets(After(c, p.sent), rest);
      PublishedExecutes(c, p, RingWords(rest));
      AfterMore(c, p, rest);
    }
  }
}
