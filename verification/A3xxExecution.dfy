/** What the command processor does with a3xx streams. */
module A3xxExecution {
  import opened Common
  import opened Pm4
  import opened Ringbuffer
  import opened CommandProcessor
  import opened CommandLists
  import opened A5xxPackets
  import opened A5xxExecution
  import A = A3xxPackets

  /** The buffer a call runs: only the low half of the address is in the packet. */
  function RunLow(ib: Ib): Deed { Run(Lo(ib.addr), ib.dwords) }

  function CalledLow(ib: Option<Ib>): seq<Deed> { if ib.None? then [] else [RunLow(ib.value)] }

  lemma ExecCall(c: Cp, b: Cp, out: seq<Packet>, ds: seq<Deed>, ib: Ib)
    requires ExecAll(c, out) == DoesAll(b, ds)
    ensures ExecAll(c, out + [CallIb(ib)]) == DoesAll(b, ds + [RunLow(ib)])
  {
    ExecMore(c, b, out, ds, CallIb(ib), RunLow(ib));
  }

  lemma ExecCallWhen(c: Cp, b: Cp, out: seq<Packet>, ds: seq<Deed>, ib: Option<Ib>)
    requires AllFit(out) && ExecAll(c, out) == DoesAll(b, ds)
    ensures ExecAll(c, A.CallWhen(out, ib)) == DoesAll(b, ds + CalledLow(ib))
  {
    if ib.Some? { ExecCall(c, b, out, ds, ib.value); } else { assert ds + [] == ds; }
  }

  // ---- User command lists ----

  /** What a command list makes the processor run. */
  function Reached(ibs: seq<IbNode>, f: Flags): seq<Deed> {
    if ibs == [] then [] else
    var last := ibs[|ibs| - 1];
    Reached(ibs[..|ibs| - 1], f)
    + (if last.skip || (last.preamble && !f.preamble) then [] else [Run(Lo(last.addr), last.size / 4 % TWO32)])
  }

  lemma EntryRuns(c: Cp, b: Cp, out: seq<Packet>, ds: seq<Deed>, ib: IbNode, f: Flags)
    requires ExecAll(c, out) == DoesAll(b, ds)
    ensures ExecAll(c, out + [Entry(true, ib, f)]) ==
              DoesAll(b, ds + if Skipped(ib, f) then [] else [Run(Lo(ib.addr), ib.size / 4 % TWO32)])
  {
    if Skipped(ib, f) {
      ExecNop(c, out, Entry(true, ib, f));
      assert ds + [] == ds;
    } else {
      ExecCall(c, b, out, ds, NodeIb(true, ib));
    }
  }

  lemma {:induction false} EntriesRun(c: Cp, b: Cp, out: seq<Packet>, ds: seq<Deed>, ibs: seq<IbNode>, f: Flags)
    requires AllFit(out) && ExecAll(c, out) == DoesAll(b, ds)
    ensures ExecAll(c, Entries(true, out, ibs, f)) == DoesAll(b, ds + Reached(ibs, f))
    decreases |ibs|
  {
    if ibs == [] {
      assert ds + [] == ds;
    } else {
      var before, last := ibs[..|ibs| - 1], ibs[|ibs| - 1];
      EntriesRun(c, b, out, ds, before, f);
      EntryRuns(c, b, Entries(true, out, before, f), ds + Reached(before, f), last, f);
      Associate(ds, Reached(before, f), if Skipped(last, f) then [] else [Run(Lo(last.addr), last.size / 4 % TWO32)]);
    }
  }

  lemma {:induction false} ReachedKeepsTable(ibs: seq<IbNode>, f: Flags)
    ensures AllKeepTable(Reached(ibs, f))
  {
    if ibs != [] { ReachedKeepsTable(ibs[..|ibs| - 1], f); }
  }

  /** A command buffer runs its buffers that are not skipped, in order, each by
      the low half of its address, and does nothing else. */
  lemma CommandsRun(c: Cp, ibs: seq<IbNode>, f: Flags)
    ensures ExecAll(c, A.Commands(ibs, f)) == Acted(c, In(c.mode, Reached(ibs, f)))
  {
    var o1 := [] + [A.Nop(START_IB_IDENTIFIER)];
    ExecNop(c, [], A.Nop(START_IB_IDENTIFIER));
    DoesNothing(c);
    EntriesRun(c, c, o1, [], ibs, f);
    assert [] + Reached(ibs, f) == Reached(ibs, f);
    ExecNop(c, Entries(true, o1, ibs, f), A.Nop(END_IB_IDENTIFIER));
    ReachedKeepsTable(ibs, f);
    Untabled(c, Reached(ibs, f));
  }

  /** The two words of a call hold the buffer's address and size in dwords. */
  predicate CallHolds(ib: IbNode) { ib.addr < TWO32 && ib.size / 4 < TWO32 }

  /** The calls of all buffers that are not skipped hold them. */
  predicate AllHeld(ibs: seq<IbNode>, f: Flags) {
    forall i :: 0 <= i < |ibs| && !Skipped(ibs[i], f) ==> CallHolds(ibs[i])
  }

  lemma {:induction false} SameLength(ibs: seq<IbNode>, f: Flags)
    ensures |Reached(ibs, f)| == |Wanted(ibs, f)|
  {
    if ibs != [] { SameLength(ibs[..|ibs| - 1], f); }
  }

  /** The buffers run are those asked for exactly when all of them lie below 4 GB
      and have sizes that fit a word. */
  lemma {:induction false} ReachedAsWanted(ibs: seq<IbNode>, f: Flags)
    ensures Reached(ibs, f) == Wanted(ibs, f) <==> AllHeld(ibs, f)
  {
    if ibs != [] {
      var before, last := ibs[..|ibs| - 1], ibs[|ibs| - 1];
      ReachedAsWanted(before, f);
      SameLength(before, f);
      AllHeldSplits(before, last, ibs, f);
      if !Skipped(last, f) {
        LastRuns(Reached(before, f), Wanted(before, f),
                 Run(Lo(last.addr), last.size / 4 % TWO32), Run(last.addr, last.size / 4));
        CallHoldsExactly(last);
      } else {
        assert Reached(before, f) + [] == Reached(before, f);
        assert Wanted(before, f) + [] == Wanted(before, f);
      }
    }
  }

  lemma AllHeldSplits(before: seq<IbNode>, last: IbNode, ibs: seq<IbNode>, f: Flags)
    requires ibs == before + [last]
    ensures AllHeld(ibs, f) <==> AllHeld(before, f) && (Skipped(last, f) || CallHolds(last))
  {
    if AllHeld(ibs, f) {
      assert forall i :: 0 <= i < |before| ==> before[i] == ibs[i];
      assert ibs[|before|] == last;
    }
  }

  lemma CallHoldsExactly(ib: IbNode)
    ensures Lo(ib.addr) == ib.addr && ib.size / 4 % TWO32 == ib.size / 4 <==> CallHolds(ib)
  {
  }

  lemma LastRuns(a: seq<Deed>, b: seq<Deed>, x: Deed, y: Deed)
    requires |a| == |b|
    ensures a + [x] == b + [y] <==> a == b && x == y
  {
    if a + [x] == b + [y] {
      assert (a + [x])[..|a|] == a && (b + [y])[..|b|] == b;
      assert (a + [x])[|a|] == x && (b + [y])[|b|] == y;
    }
  }

  /** The check every buffer passes before it is queued takes care of the sizes. */
  lemma VerifiedReachedExactly(ibs: seq<IbNode>, f: Flags)
    requires AllVerified(ibs)
    ensures Reached(ibs, f) == Wanted(ibs, f) <==>
              forall i :: 0 <= i < |ibs| && !Skipped(ibs[i], f) ==> ibs[i].addr < TWO32
  {
    ReachedAsWanted(ibs, f);
  }

  // ---- Submissions ----

  /** Whether protection is on when the commands run, given that it was `on` before. */
  predicate UserProtected(on: bool, f: Flags) { on && !f.pwronFixup && !f.notProtected }

  function Prot(m: Mode, on: bool): Mode { m.(prot := on) }

  /** The start timestamps: the context's, if there is one, and the ring's. */
  function StartDeeds(job: A.Job): seq<Deed> {
    (if job.ctx.None? then [] else [Store(Lo(job.ctx.value.sop), [job.timestamp])]) + [Store(Lo(job.rbSop), [job.rbTimestamp])]
  }

  /** Before the commands: the fixup, a profiling call, the start timestamps. */
  function BeforeDeeds(job: A.Job): seq<Deed> {
    Maybe(job.f.pwronFixup, RunLow(job.fixup)) + CalledLow(job.preIb) + StartDeeds(job)
  }

  /** The end timestamps; the interrupt comes with the context's, if there is one. */
  function EndDeeds(job: A.Job): seq<Deed> {
    if job.ctx.None? then [Stamp(CACHE_FLUSH_TS_IRQ, Lo(job.rbEop), job.rbTimestamp)]
    else [Stamp(CACHE_FLUSH_TS_IRQ, Lo(job.ctx.value.eop), job.timestamp), Stamp(CACHE_FLUSH_TS, Lo(job.rbEop), job.rbTimestamp)]
  }

  /** After the commands: lazy updates are flushed, a profiling call, the end timestamps,
      and a context rollover. */
  function AfterDeeds(job: A.Job): seq<Deed> {
    [Other(CP_EVENT_WRITE, [0x07]), Other(CP_WAIT_FOR_IDLE, [0])] + CalledLow(job.postIb) + EndDeeds(job)
    + [Other(CP_SET_CONSTANT, [0x4_0215, 0])] + Maybe(job.f.wfi, Other(CP_WAIT_FOR_IDLE, [0]))
  }

  lemma ExecProtect(c: Cp, out: seq<Packet>, on: u32)
    ensures ExecAll(c, out + [A.SetProtected(on)]) == var d := ExecAll(c, out); d.(mode := Prot(d.mode, on != 0))
  {
    ExecSnoc(c, out, A.SetProtected(on));
  }

  lemma ExecFixup(c: Cp, out: seq<Packet>, job: A.Job)
    requires AllFit(out)
    ensures ExecAll(c, A.PwronFixup(out, job)) ==
              var d := ExecAll(c, out);
              DoesAll(d.(mode := Prot(d.mode, d.mode.prot && !job.f.pwronFixup)), Maybe(job.f.pwronFixup, RunLow(job.fixup)))
  {
    var d := ExecAll(c, out);
    if job.f.pwronFixup {
      var b := d.(mode := Prot(d.mode, false));
      var o1 := out + [A.SetProtected(0)];
      ExecProtect(c, out, 0);
      var o2 := o1 + [A.Nop(A.PWRON_FIXUP_IDENTIFIER)];
      ExecNop(c, o1, A.Nop(A.PWRON_FIXUP_IDENTIFIER));
      DoesNothing(b);
      ExecCall(c, b, o2, [], job.fixup);
      assert [] + [RunLow(job.fixup)] == [RunLow(job.fixup)];
      ExecProtect(c, o2 + [CallIb(job.fixup)], 0);
    } else {
      DoesNothing(d);
    }
  }

  lemma StoreLow(addr: u64, value: u32)
    ensures DeedOf(A.Store(addr, value)) == Some(Store(Lo(addr), [value]))
  {
    assert [Lo(addr), value][1..] == [value];
  }

  lemma ExecStartStamps(c: Cp, b: Cp, out: seq<Packet>, ds: seq<Deed>, job: A.Job)
    requires AllFit(out) && ExecAll(c, out) == DoesAll(b, ds)
    ensures ExecAll(c, A.StartStamps(out, job)) == DoesAll(b, ds + StartDeeds(job))
  {
    var o1, ds1 := out, ds;
    if job.ctx.Some? {
      var sop := job.ctx.value.sop;
      StoreLow(sop, job.timestamp);
      ExecMore(c, b, out, ds, A.Store(sop, job.timestamp), Store(Lo(sop), [job.timestamp]));
      o1, ds1 := out + [A.Store(sop, job.timestamp)], ds + [Store(Lo(sop), [job.timestamp])];
    }
    StoreLow(job.rbSop, job.rbTimestamp);
    ExecMore(c, b, o1, ds1, A.Store(job.rbSop, job.rbTimestamp), Store(Lo(job.rbSop), [job.rbTimestamp]));
    assert ds1 + [Store(Lo(job.rbSop), [job.rbTimestamp])] == ds + StartDeeds(job);
  }

  lemma ExecEndStamps(c: Cp, b: Cp, out: seq<Packet>, ds: seq<Deed>, job: A.Job)
    requires AllFit(out) && ExecAll(c, out) == DoesAll(b, ds)
    ensures ExecAll(c, A.EndStamps(out, job)) == DoesAll(b, ds + EndDeeds(job))
  {
    var o1, ds1, event := out, ds, if job.ctx.None? then CACHE_FLUSH_TS_IRQ else CACHE_FLUSH_TS;
    if job.ctx.Some? {
      var eop := job.ctx.value.eop;
      ExecMore(c, b, out, ds, A.StampEvent(CACHE_FLUSH_TS_IRQ, eop, job.timestamp), Stamp(CACHE_FLUSH_TS_IRQ, Lo(eop), job.timestamp));
      o1 := out + [A.StampEvent(CACHE_FLUSH_TS_IRQ, eop, job.timestamp)];
      ds1 := ds + [Stamp(CACHE_FLUSH_TS_IRQ, Lo(eop), job.timestamp)];
    }
    ExecMore(c, b, o1, ds1, A.StampEvent(event, job.rbEop, job.rbTimestamp), Stamp(event, Lo(job.rbEop), job.rbTimestamp));
    assert ds1 + [Stamp(event, Lo(job.rbEop), job.rbTimestamp)] == ds + EndDeeds(job);
  }

  /** The processor when it comes to a submission's commands. */
  function AtCommands(c: Cp, job: A.Job): Cp {
    Cp(Prot(c.mode, UserProtected(c.mode.prot, job.f)), c.table,
       c.acts + In(Prot(c.mode, c.mode.prot && !job.f.pwronFixup), BeforeDeeds(job)))
  }

  lemma BeforeKeepsTable(job: A.Job)
    ensures AllKeepTable(BeforeDeeds(job)) && AllKeepTable(AfterDeeds(job))
  {
  }

  lemma ExecPrologue(c: Cp, job: A.Job)
    ensures ExecAll(c, A.Prologue([], job)) == AtCommands(c, job)
  {
    var id := A.Nop(if job.ctx.Some? then CMD_IDENTIFIER else CMD_INTERNAL_IDENTIFIER);
    var o1 := [] + [id];
    ExecNop(c, [], id);
    var b := c.(mode := Prot(c.mode, c.mode.prot && !job.f.pwronFixup));
    var o2, d2 := A.PwronFixup(o1, job), Maybe(job.f.pwronFixup, RunLow(job.fixup));
    ExecFixup(c, o1, job);
    var o3 := A.CallWhen(o2, job.preIb);
    ExecCallWhen(c, b, o2, d2, job.preIb);
    var o4 := A.StartStamps(o3, job);
    ExecStartStamps(c, b, o3, d2 + CalledLow(job.preIb), job);
    BeforeKeepsTable(job);
    Untabled(b, BeforeDeeds(job));
    ExecProtect(c, o4, 0);
  }

  /** The processor after a submission whose commands have left it as `d`. */
  function Ended(d: Cp, job: A.Job): Cp {
    var m := Prot(d.mode, d.mode.prot || job.f.notProtected);
    Cp(m, d.table, d.acts + In(m, AfterDeeds(job)))
  }

  lemma ExecFlush(c: Cp, b: Cp, out: seq<Packet>)
    requires ExecAll(c, out) == b
    ensures ExecAll(c, out + [Pkt3(CP_EVENT_WRITE, [0x07])] + [A.WaitForIdle()]) ==
              DoesAll(b, [Other(CP_EVENT_WRITE, [0x07]), Other(CP_WAIT_FOR_IDLE, [0])])
  {
    var d1, d2 := Other(CP_EVENT_WRITE, [0x07]), Other(CP_WAIT_FOR_IDLE, [0]);
    DoesNothing(b);
    ExecMore(c, b, out, [], Pkt3(CP_EVENT_WRITE, [0x07]), d1);
    ExecMore(c, b, out + [Pkt3(CP_EVENT_WRITE, [0x07])], [] + [d1], A.WaitForIdle(), d2);
    assert [] + [d1] + [d2] == [d1, d2];
  }

  lemma ExecRollover(c: Cp, b: Cp, out: seq<Packet>, ds: seq<Deed>, wfi: bool)
    requires AllFit(out) && ExecAll(c, out) == DoesAll(b, ds)
    ensures ExecAll(c, When(out + [A.Rollover()], wfi, A.WaitForIdle())) ==
              DoesAll(b, ds + [Other(CP_SET_CONSTANT, [0x4_0215, 0])] + Maybe(wfi, Other(CP_WAIT_FOR_IDLE, [0])))
  {
    var d := Other(CP_SET_CONSTANT, [0x4_0215, 0]);
    ExecMore(c, b, out, ds, A.Rollover(), d);
    ExecWhen(c, b, out + [A.Rollover()], ds + [d], wfi, A.WaitForIdle(), Other(CP_WAIT_FOR_IDLE, [0]));
  }

  lemma ExecEpilogue(c: Cp, out: seq<Packet>, job: A.Job)
    requires AllFit(out)
    ensures ExecAll(c, A.Epilogue(out, job)) == Ended(ExecAll(c, out), job)
  {
    var d := ExecAll(c, out);
    var b := d.(mode := Prot(d.mode, d.mode.prot || job.f.notProtected));
    var o1 := When(out, job.f.notProtected, A.SetProtected(1));
    ExecProtect(c, out, 1);
    var o2, d2 := o1 + [Pkt3(CP_EVENT_WRITE, [0x07])] + [A.WaitForIdle()], [Other(CP_EVENT_WRITE, [0x07]), Other(CP_WAIT_FOR_IDLE, [0])];
    ExecFlush(c, b, o1);
    ExecCallWhen(c, b, o2, d2, job.postIb);
    var o3, d3 := A.CallWhen(o2, job.postIb), d2 + CalledLow(job.postIb);
    ExecEndStamps(c, b, o3, d3, job);
    ExecRollover(c, b, A.EndStamps(o3, job), d3 + EndDeeds(job), job.f.wfi);
    BeforeKeepsTable(job);
    Untabled(b, AfterDeeds(job));
  }

  /** What a submission does, in whatever mode it starts and whatever its
      commands do: the start timestamps are stored before them, the end timestamps
      after all of them. */
  lemma SubmissionExecutes(c: Cp, job: A.Job, user: seq<Packet>)
    requires AllFit(user)
    ensures ExecAll(c, A.Submission(job, user)) == Ended(ExecAll(AtCommands(c, job), user), job)
  {
    var o1 := A.Prologue([], job);
    ExecPrologue(c, job);
    ExecAppend(c, o1, user);
    ExecEpilogue(c, o1 + user, job);
  }

  // ---- Context switches ----

  const IDLE: Deed := Other(CP_WAIT_FOR_IDLE, [0])
  const WAIT: Deed := Other(CP_WAIT_FOR_ME, [0])

  /** A register is polled until its masked value is as given. */
  function Polled(reg: u32, value: u32, mask: u32): Deed { Other(CP_WAIT_REG_EQ, [reg, value, mask, 0xF]) }

  /** The bus is halted or released, and nothing else in its register changes. */
  function Halted(value: u32): Deed { Modify(0x3800, 0xFFFF_FFFE, value) }

  /** The prefetch stalls in an indirect buffer; once the processor is idle the bus
      is halted, and that is waited for. */
  function LockDeeds(setstate: u64): seq<Deed> {
    [WAIT, Run(Lo(setstate), 2), IDLE, WAIT]
    + [Polled(0x1F5, 1, 0xFFFF_FFFF), Halted(1), Polled(0x3801, 1, 0xFFFF_FFFF)]
  }

  /** The bus is released and the translation buffers are invalidated, and that is
      waited for. */
  const UNLOCK_DEEDS: seq<Deed> :=
    [Halted(0), WAIT]
    + [Set(0x2986, [1]), Set(0x29FC, [0]), Polled(0x29FD, 0, 1)]
    + [WAIT, IDLE, Other(CP_INVALIDATE_STATE, [0x7_ffff])]

  /** The page table's two halves are set while the bus is halted. */
  function TableDeeds(ttbr0: u64, setstate: u64): seq<Deed> {
    LockDeeds(setstate) + [Set(SMMU_TTBR0, [Lo(ttbr0), Hi(ttbr0)])] + UNLOCK_DEEDS
  }

  /** The context becomes the ring's and the device's current one, and the cache is
      invalidated. */
  function CurrentDeeds(id: u32, rbCurrent: u64, globalCurrent: u64): seq<Deed> {
    [Store(Lo(rbCurrent), [id]), Store(Lo(globalCurrent), [id]), Set(0xEA0, [0, 0x9000_0000])]
  }

  function SwitchDeeds(pt: Option<u64>, setstate: u64, id: u32, rbCurrent: u64, globalCurrent: u64): seq<Deed> {
    (if pt.None? then [] else TableDeeds(pt.value, setstate)) + CurrentDeeds(id, rbCurrent, globalCurrent)
  }

  lemma ThreeMore(c: Cp, b: Cp, out: seq<Packet>, ds: seq<Deed>, p: Packet, q: Packet, r: Packet, x: Deed, y: Deed, z: Deed)
    requires ExecAll(c, out) == DoesAll(b, ds)
    requires DeedOf(p) == Some(x) && DeedOf(q) == Some(y) && DeedOf(r) == Some(z)
    ensures ExecAll(c, out + [p] + [q] + [r]) == DoesAll(b, ds + [x, y, z])
  {
    ExecMore(c, b, out, ds, p, x);
    ExecMore(c, b, out + [p], ds + [x], q, y);
    ExecMore(c, b, out + [p] + [q], ds + [x] + [y], r, z);
    assert ds + [x] + [y] + [z] == ds + [x, y, z];
  }

  lemma ExecStall(c: Cp, b: Cp, out: seq<Packet>, ds: seq<Deed>, setstate: u64)
    requires AllFit(out) && ExecAll(c, out) == DoesAll(b, ds)
    ensures ExecAll(c, A.Stall(out, setstate)) == DoesAll(b, ds + [WAIT, Run(Lo(setstate), 2), IDLE, WAIT])
  {
    var call := Run(Lo(setstate), 2);
    ThreeMore(c, b, out, ds, A.WaitForMe(), CallIb(Ib(setstate, 2)), A.WaitForIdle(), WAIT, call, IDLE);
    ExecMore(c, b, out + [A.WaitForMe()] + [CallIb(Ib(setstate, 2))] + [A.WaitForIdle()], ds + [WAIT, call, IDLE], A.WaitForMe(), WAIT);
    assert ds + [WAIT, call, IDLE] + [WAIT] == ds + [WAIT, call, IDLE, WAIT];
  }

  lemma ExecVbifLock(c: Cp, b: Cp, out: seq<Packet>, ds: seq<Deed>)
    requires AllFit(out) && ExecAll(c, out) == DoesAll(b, ds)
    ensures ExecAll(c, A.VbifLock(out)) == DoesAll(b, ds + [Polled(0x1F5, 1, 0xFFFF_FFFF), Halted(1), Polled(0x3801, 1, 0xFFFF_FFFF)])
  {
    ThreeMore(c, b, out, ds, A.WaitReg(A.A3XX_CP_WFI_PEND_CTR, 1, 0xFFFF_FFFF, 0xF), A.Halt(1),
              A.WaitReg(A.A3XX_VBIF_DDR_OUTPUT_RECOVERABLE_HALT_CTRL1, 1, 0xFFFF_FFFF, 0xF),
              Polled(0x1F5, 1, 0xFFFF_FFFF), Halted(1), Polled(0x3801, 1, 0xFFFF_FFFF));
  }

  lemma SmmuDeed(reg: nat, values: seq<u32>)
    requires reg < 0x1000 && |values| < 0x100
    ensures DeedOf(A.SmmuReg(reg, values)) == Some(Set(A.SmmuAddr(reg), values))
  {
    assert ([A.SmmuAddr(reg)] + values)[1..] == values;
  }

  lemma ExecNewTable(c: Cp, b: Cp, out: seq<Packet>, ds: seq<Deed>, ttbr0: u64)
    requires AllFit(out) && ExecAll(c, out) == DoesAll(b, ds)
    ensures ExecAll(c, A.NewTable(out, ttbr0)) == DoesAll(b, ds + [Set(SMMU_TTBR0, [Lo(ttbr0), Hi(ttbr0)])])
  {
    SmmuDeed(A.KGSL_IOMMU_CTX_TTBR0, [Lo(ttbr0), Hi(ttbr0)]);
    ExecMore(c, b, out, ds, A.SmmuReg(A.KGSL_IOMMU_CTX_TTBR0, [Lo(ttbr0), Hi(ttbr0)]), Set(SMMU_TTBR0, [Lo(ttbr0), Hi(ttbr0)]));
  }

  lemma ExecVbifUnlock(c: Cp, b: Cp, out: seq<Packet>, ds: seq<Deed>)
    requires AllFit(out) && ExecAll(c, out) == DoesAll(b, ds)
    ensures ExecAll(c, A.VbifUnlock(out)) == DoesAll(b, ds + [Halted(0), WAIT])
  {
    ExecMore(c, b, out, ds, A.Halt(0), Halted(0));
    ExecMore(c, b, out + [A.Halt(0)], ds + [Halted(0)], A.WaitForMe(), WAIT);
    TwoMore(ds, Halted(0), WAIT);
  }

  lemma ExecTlbiAll(c: Cp, b: Cp, out: seq<Packet>, ds: seq<Deed>)
    requires AllFit(out) && ExecAll(c, out) == DoesAll(b, ds)
    ensures ExecAll(c, A.TlbiAll(out)) == DoesAll(b, ds + [Set(0x2986, [1]), Set(0x29FC, [0]), Polled(0x29FD, 0, 1)])
  {
    SmmuDeed(A.KGSL_IOMMU_CTX_TLBIALL, [1]);
    SmmuDeed(A.KGSL_IOMMU_CTX_TLBSYNC, [0]);
    ThreeMore(c, b, out, ds, A.SmmuReg(A.KGSL_IOMMU_CTX_TLBIALL, [1]), A.SmmuReg(A.KGSL_IOMMU_CTX_TLBSYNC, [0]),
              A.WaitReg(A.SmmuAddr(A.KGSL_IOMMU_CTX_TLBSTATUS), 0, A.KGSL_IOMMU_CTX_TLBSTATUS_SACTIVE, 0xF),
              Set(0x2986, [1]), Set(0x29FC, [0]), Polled(0x29FD, 0, 1));
  }

  lemma ExecUnlock(c: Cp, b: Cp, out: seq<Packet>, ds: seq<Deed>)
    requires AllFit(out) && ExecAll(c, out) == DoesAll(b, ds)
    ensures ExecAll(c, A.Invalidate(A.TlbiAll(A.VbifUnlock(out)))) == DoesAll(b, ds + UNLOCK_DEEDS)
  {
    var x := [Halted(0), WAIT];
    var y, z := [Set(0x2986, [1]), Set(0x29FC, [0]), Polled(0x29FD, 0, 1)], [WAIT, IDLE, Other(CP_INVALIDATE_STATE, [0x7_ffff])];
    ExecVbifUnlock(c, b, out, ds);
    ExecTlbiAll(c, b, A.VbifUnlock(out), ds + x);
    ThreeMore(c, b, A.TlbiAll(A.VbifUnlock(out)), ds + x + y, A.WaitForMe(), A.WaitForIdle(), Pkt3(CP_INVALIDATE_STATE, [0x7ffff]),
              z[0], z[1], z[2]);
    ThreeTogether(ds, x, y, z);
  }

  lemma ThreeTogether(ds: seq<Deed>, x: seq<Deed>, y: seq<Deed>, z: seq<Deed>)
    ensures ds + x + y + z == ds + (x + y + z)
  {
  }

  /** A page table switch runs its stalling buffer, and loads the new table while
      the bus is halted. */
  lemma ExecPagetableSwitch(c: Cp, ttbr0: u64, setstate: u64)
    ensures ExecAll(c, A.PagetableSwitch([], ttbr0, setstate)) == DoesAll(c, TableDeeds(ttbr0, setstate))
  {
    var x, y := [WAIT, Run(Lo(setstate), 2), IDLE, WAIT], [Polled(0x1F5, 1, 0xFFFF_FFFF), Halted(1), Polled(0x3801, 1, 0xFFFF_FFFF)];
    DoesNothing(c);
    ExecStall(c, c, [], [], setstate);
    assert [] + x == x;
    ExecVbifLock(c, c, A.Stall([], setstate), x);
    var o1 := A.VbifLock(A.Stall([], setstate));
    ExecNewTable(c, c, o1, LockDeeds(setstate), ttbr0);
    ExecUnlock(c, c, A.NewTable(o1, ttbr0), LockDeeds(setstate) + [Set(SMMU_TTBR0, [Lo(ttbr0), Hi(ttbr0)])]);
  }

  lemma ExecCurrent(c: Cp, b: Cp, out: seq<Packet>, ds: seq<Deed>, id: u32, rbCurrent: u64, globalCurrent: u64)
    requires ExecAll(c, out) == DoesAll(b, ds)
    ensures ExecAll(c, out + [A.Store(rbCurrent, id)] + [A.Store(globalCurrent, id)] + [Pkt0(A.A3XX_UCHE_CACHE_INVALIDATE0_REG, [0, 0x9000_0000])]) ==
              DoesAll(b, ds + CurrentDeeds(id, rbCurrent, globalCurrent))
  {
    StoreLow(rbCurrent, id);
    StoreLow(globalCurrent, id);
    ThreeMore(c, b, out, ds, A.Store(rbCurrent, id), A.Store(globalCurrent, id), Pkt0(A.A3XX_UCHE_CACHE_INVALIDATE0_REG, [0, 0x9000_0000]),
              Store(Lo(rbCurrent), [id]), Store(Lo(globalCurrent), [id]), Set(0xEA0, [0, 0x9000_0000]));
  }

  lemma {:induction false} KeptTable(table: u64, ds: seq<Deed>)
    requires AllKeepTable(ds)
    ensures TableBy(table, ds) == table
    decreases |ds|
  {
    if ds != [] { KeptTable(table, ds[..|ds| - 1]); }
  }

  lemma NewTableBy(table: u64, ttbr0: u64, setstate: u64)
    ensures TableBy(table, TableDeeds(ttbr0, setstate)) == ttbr0
  {
    var halves := [Set(SMMU_TTBR0, [Lo(ttbr0), Hi(ttbr0)])];
    HalvesWhole(ttbr0);
    TableByMore(table, LockDeeds(setstate), halves);
    assert halves[..0] == [];
    assert TableBy(TableBy(table, LockDeeds(setstate)), halves) == ttbr0;
    TableByMore(table, LockDeeds(setstate) + halves, UNLOCK_DEEDS);
    KeptTable(ttbr0, UNLOCK_DEEDS);
  }

  /** What a context switch does: it loads the page table, if any, stores the context's
      id where it belongs, and leaves the mode alone. */
  function Switched(d: Cp, pt: Option<u64>, ds: seq<Deed>): Cp {
    Cp(d.mode, if pt.None? then d.table else pt.value, d.acts + In(d.mode, ds))
  }

  lemma ContextSwitchExecutes(c: Cp, pt: Option<u64>, setstate: u64, id: u32, rbCurrent: u64, globalCurrent: u64)
    ensures ExecAll(c, A.ContextSwitch(pt, setstate, id, rbCurrent, globalCurrent)) ==
              Switched(c, pt, SwitchDeeds(pt, setstate, id, rbCurrent, globalCurrent))
  {
    var o1 := if pt.None? then [] else A.PagetableSwitch([], pt.value, setstate);
    var ds, more := if pt.None? then [] else TableDeeds(pt.value, setstate), CurrentDeeds(id, rbCurrent, globalCurrent);
    if pt.Some? {
      ExecPagetableSwitch(c, pt.value, setstate);
      NewTableBy(c.table, pt.value, setstate);
    } else {
      DoesNothing(c);
    }
    ExecNop(c, o1, A.Nop(CONTEXT_TO_MEM_IDENTIFIER));
    ExecCurrent(c, c, o1 + [A.Nop(CONTEXT_TO_MEM_IDENTIFIER)], ds, id, rbCurrent, globalCurrent);
    TableByMore(c.table, ds, more);
    KeptTable(TableBy(c.table, ds), more);
  }

  // ---- Whole runs ----

  /** What the driver hands to the ring. */
  datatype Work =
    | Draw(ibs: seq<IbNode>, cf: Flags)
    | Switch(pt: Option<u64>, setstate: u64, id: u32, rbCurrent: u64, globalCurrent: u64)

  function UserPackets(w: Work): (ps: seq<Packet>)
    ensures AllFit(ps)
  {
    match w
    case Draw(ibs, cf) => A.Commands(Issued(ibs, cf), cf)
    case Switch(pt, setstate, id, rbCurrent, globalCurrent) => A.ContextSwitch(pt, setstate, id, rbCurrent, globalCurrent)
  }

  /** One submission, and the words that the ring holds of it. */
  datatype Sent = Sent(job: A.Job, work: Work, words: seq<u32>)

  /** The words are as AddCmds leaves them. */
  ghost predicate AsSent(s: Sent) { ReadsAs(s.words, A.Submission(s.job, UserPackets(s.work))) }

  ghost predicate AllSent(ss: seq<Sent>) {
    forall i {:trigger AsSent(ss[i])} :: 0 <= i < |ss| ==> AsSent(ss[i])
  }

  function RingWords(ss: seq<Sent>): seq<u32> {
    if ss == [] then [] else ss[0].words + RingWords(ss[1..])
  }

  /** What the commands of a submission do, in the mode they start in. */
  function Worked(d: Cp, w: Work): Cp {
    match w
    case Draw(ibs, cf) => Acted(d, In(d.mode, Reached(if cf.skip then [] else ibs, cf)))
    case Switch(pt, setstate, id, rbCurrent, globalCurrent) =>
      Switched(d, pt, SwitchDeeds(pt, setstate, id, rbCurrent, globalCurrent))
  }

  /** The processor after one submission, and after all of them. */
  function After(c: Cp, s: Sent): Cp { Ended(Worked(AtCommands(c, s.job), s.work), s.job) }

  function AfterAll(c: Cp, ss: seq<Sent>): Cp
    decreases |ss|
  {
    if ss == [] then c else AfterAll(After(c, ss[0]), ss[1..])
  }

  lemma SentExecutes(c: Cp, s: Sent)
    ensures ExecAll(c, A.Submission(s.job, UserPackets(s.work))) == After(c, s)
  {
    var d := AtCommands(c, s.job);
    match s.work {
      case Draw(ibs, cf) => CommandsRun(d, Issued(ibs, cf), cf);
      case Switch(pt, setstate, id, rbCurrent, globalCurrent) =>
        ContextSwitchExecutes(d, pt, setstate, id, rbCurrent, globalCurrent);
    }
    SubmissionExecutes(c, s.job, UserPackets(s.work));
  }

  /** Over any sequence of submissions the ring reads as whole packets, and the
      processor does exactly what each submission does in the mode it finds. */
  lemma {:induction false} EveryRunExecutes(c: Cp, ss: seq<Sent>)
    requires AllSent(ss)
    ensures Decode(RingWords(ss)).Packets? && Execute(c, RingWords(ss)) == AfterAll(c, ss)
    decreases |ss|
  {
    if ss != [] {
      var s := ss[0];
      assert AsSent(ss[0]);
      EveryRunExecutes(After(c, s), ss[1..]);
      ExecuteThrough(c, s.words, A.Submission(s.job, UserPackets(s.work)), RingWords(ss[1..]));
      SentExecutes(c, s);
    }
  }

  /** The page table in use after a submission, and after all of them. */
  function WantedTable(table: u64, s: Sent): u64 {
    if s.work.Switch? && s.work.pt.Some? then s.work.pt.value else table
  }

  function TableAfter(table: u64, ss: seq<Sent>): u64 {
    if ss == [] then table else WantedTable(TableAfter(table, ss[..|ss| - 1]), ss[|ss| - 1])
  }

  lemma TableAfterMore(table: u64, ss: seq<Sent>, s: Sent)
    ensures TableAfter(table, ss + [s]) == WantedTable(TableAfter(table, ss), s)
  {
    assert (ss + [s])[..|ss|] == ss;
  }

  /** Only context switches load page tables. */
  lemma {:induction false} TableFollows(c: Cp, ss: seq<Sent>)
    ensures AfterAll(c, ss).table == TableAfter(c.table, ss)
    decreases |ss|
  {
    if ss != [] {
      var before, last := ss[..|ss| - 1], ss[|ss| - 1];
      assert ss == before + [last];
      TableFollows(c, before);
      AfterAllMore(c, before, last);
    }
  }

  lemma {:induction false} AfterAllMore(c: Cp, ss: seq<Sent>, s: Sent)
    ensures AfterAll(c, ss + [s]) == After(AfterAll(c, ss), s)
    decreases |ss|
  {
    if ss == [] {
      assert ss + [s] == [s];
    } else {
      assert (ss + [s])[1..] == ss[1..] + [s];
      AfterAllMore(After(c, ss[0]), ss[1..], s);
    }
  }

  /** Before submission `i` some fixup has turned protection off, and no submission
      flagged not protected, the fixup's own included, has turned it on again. */
  ghost predicate LeftOpen(ss: seq<Sent>, i: nat)
    requires i <= |ss|
  {
    exists k :: 0 <= k < i && ss[k].job.f.pwronFixup && forall j :: k <= j < i ==> !ss[j].job.f.notProtected
  }

  /** Some submission before `i` was flagged not protected. */
  ghost predicate TurnedOn(ss: seq<Sent>, i: nat)
    requires i <= |ss|
  {
    exists j :: 0 <= j < i && ss[j].job.f.notProtected
  }

  lemma OneMore(ss: seq<Sent>, i: nat)
    requires i < |ss|
    ensures var f := ss[i].job.f;
            && (LeftOpen(ss, i + 1) <==> !f.notProtected && (f.pwronFixup || LeftOpen(ss, i)))
            && (TurnedOn(ss, i + 1) <==> f.notProtected || TurnedOn(ss, i))
  {
    var f := ss[i].job.f;
    if f.notProtected { assert ss[i].job.f.notProtected; }
    if LeftOpen(ss, i) && !f.notProtected {
      var k :| 0 <= k < i && ss[k].job.f.pwronFixup && forall j :: k <= j < i ==> !ss[j].job.f.notProtected;
      assert forall j :: k <= j < i + 1 ==> !ss[j].job.f.notProtected;
    }
    if LeftOpen(ss, i + 1) && !f.pwronFixup {
      var k :| 0 <= k < i + 1 && ss[k].job.f.pwronFixup && forall j :: k <= j < i + 1 ==> !ss[j].job.f.notProtected;
      assert k < i;
    }
  }

  lemma OneAfter(c: Cp, ss: seq<Sent>, i: nat)
    requires i < |ss|
    ensures AfterAll(c, ss[..i + 1]).mode.prot <==>
              ss[i].job.f.notProtected || (AfterAll(c, ss[..i]).mode.prot && !ss[i].job.f.pwronFixup)
  {
    assert ss[..i + 1] == ss[..i] + [ss[i]];
    AfterAllMore(c, ss[..i], ss[i]);
  }

  /** In every run, protection is on before submission `i` exactly if no fixup has
      left it off, and it was on at the start or has been turned on since. */
  lemma {:induction false} ProtectedBeforeExactly(c: Cp, ss: seq<Sent>, i: nat)
    requires i <= |ss|
    ensures AfterAll(c, ss[..i]).mode.prot <==> !LeftOpen(ss, i) && (c.mode.prot || TurnedOn(ss, i))
    decreases i
  {
    if i > 0 {
      ProtectedBeforeExactly(c, ss, i - 1);
      OneMore(ss, i - 1);
      OneAfter(c, ss, i - 1);
    }
  }

  /** So, from a protected start, the buffers of submission `i` run protected
      exactly if it has neither flag and no fixup before it has left protection off. */
  lemma BuffersProtectedExactly(c: Cp, ss: seq<Sent>, i: nat)
    requires i < |ss| && c.mode.prot
    ensures var f := ss[i].job.f;
            AtCommands(AfterAll(c, ss[..i]), ss[i].job).mode.prot <==>
              !f.pwronFixup && !f.notProtected && !LeftOpen(ss, i)
  {
    ProtectedBeforeExactly(c, ss, i);
  }

  /** One submission ends protected exactly if it was flagged not protected, or
      started protected without a fixup. */
  lemma ProtectedAfterExactly(c: Cp, s: Sent)
    ensures ExecAll(c, A.Submission(s.job, UserPackets(s.work))).mode.prot <==>
              s.job.f.notProtected || (c.mode.prot && !s.job.f.pwronFixup)
  {
    SentExecutes(c, s);
  }
}
