/** What every step of the preemption protocol keeps, and what follows for
    every run from power-up. */
module PreemptSafety {
  import opened Common
  import opened PreemptModel

  /** Which program counters go with which state word. */
  predicate PcMatchesState(d: Driver) {
    match d.st
    case PreemptNone => d.pc.Idle?
    case PreemptTriggered => d.pc.Idle?
    case PreemptFaulted => d.pc.Idle?
    case PreemptStart => d.pc.Scan? || d.pc.Record? || d.pc.Program? || d.pc.Update? || d.pc.Finish?
    case PreemptPending => d.pc.CheckStatus? || d.pc.SwapRings? || d.pc.Update? || d.pc.Finish?
    case PreemptComplete => d.pc.Idle? || d.pc.SwapRings? || d.pc.Update? || d.pc.Finish?
  }

  /** Outside a switch the hardware executes `cur`; inside one it executes `cur`
      until CONTEXT_SWITCH_CNTL clears and `next`, another ring, from then on. */
  predicate HardwareFollows(s: Sys) {
    && (!InFlight(s.d) ==> !s.g.cntl && s.g.ring == s.d.cur)
    && (InFlight(s.d) ==>
          && s.d.next.Some? && s.d.next.value != s.d.cur
          && s.g.target == s.d.next.value
          && s.g.ring == if s.g.cntl then s.d.cur else s.d.next.value)
    && (s.d.pc.SwapRings? ==> !s.g.cntl)
    && (s.d.pc.Record? || s.d.pc.Program? ==> s.d.pc.ring != s.d.cur)
    && (s.d.st.PreemptTriggered? && !s.g.cntl ==> s.g.irq)
  }

  /** `p` lies between the read pointer and the published write pointer of `r`. */
  predicate Published(r: Ring, p: RingPos) {
    Count(r.rptr, p) <= Count(r.rptr, r.wptr)
  }

  /** The hardware can only reach words the driver has published. */
  predicate ReadsPublished(s: Sys)
    requires Shape(s)
  {
    && Published(s.rings[s.g.ring], s.g.wreg)
    && (forall i :: 0 <= i < |s.rings| && i != s.g.ring ==> s.rings[i].recRptr == s.rings[i].rptr)
    && (s.g.cntl ==> Published(s.rings[s.g.target], s.rings[s.g.target].recWptr))
    && (s.d.pc.Program? ==> Published(s.rings[s.d.pc.ring], s.rings[s.d.pc.ring].recWptr))
  }

  /** The hardware runs each ring under that ring's own page table. */
  predicate TablesFollow(s: Sys)
    requires Shape(s)
  {
    s.perProcess ==>
      && s.g.ttbr == s.rings[s.g.ring].ttbr
      && (s.g.cntl ==> s.g.smmuTtbr == s.rings[s.g.target].ttbr)
      && (s.d.pc.Program? ==> s.d.pc.ttbr == s.rings[s.d.pc.ring].ttbr)
  }

  /** `wreg` is settled: no switch is in flight and no catch-up is due after one. */
  predicate Settled(d: Driver) {
    !InFlight(d) && !(d.pc.Update? && !d.st.PreemptStart?)
  }

  /** The register lags behind the current ring exactly when a submission is late. */
  predicate LagIsLate(s: Sys)
    requires Shape(s)
  {
    Settled(s.d) ==> (s.g.wreg == s.rings[s.d.cur].wptr <==> !s.h.late)
  }

  /** Each trigger is swapped in once, and claimed once: by the interrupt or by the timer. */
  predicate Balanced(s: Sys) {
    && s.h.triggers == s.h.swaps + (if InFlight(s.d) then 1 else 0)
    && s.h.triggers == s.h.irqClaims + s.h.timerClaims + (if s.d.st.PreemptTriggered? then 1 else 0)
  }

  /** Every doorbell reached the hardware while it executed that very ring. */
  predicate BellsRight(bells: seq<Doorbell>) {
    forall k :: 0 <= k < |bells| ==> bells[k].ring == bells[k].hw
  }

  predicate Inv(s: Sys) {
    && Shape(s)
    && PcMatchesState(s.d)
    && HardwareFollows(s)
    && ReadsPublished(s)
    && TablesFollow(s)
    && LagIsLate(s)
    && Balanced(s)
    && BellsRight(s.h.bells)
  }

  lemma InitInv(n: nat, perProcess: bool)
    requires 0 < n
    ensures Inv(Init(n, perProcess))
  {
  }

  lemma SubmitKeeps(s: Sys, r: nat, n: nat)
    requires Inv(s)
    ensures Inv(ApplySubmit(s, r, n))
  {
    if r < |s.rings| {
      SubmitReads(s, r, n);
      SubmitRings(s, r, n);
    }
  }

  lemma SubmitReads(s: Sys, r: nat, n: nat)
    requires Inv(s) && r < |s.rings|
    ensures Shape(ApplySubmit(s, r, n)) && ReadsPublished(ApplySubmit(s, r, n)) && TablesFollow(ApplySubmit(s, r, n))
  {
  }

  lemma SubmitRings(s: Sys, r: nat, n: nat)
    requires Inv(s) && r < |s.rings|
    ensures Shape(ApplySubmit(s, r, n)) && LagIsLate(ApplySubmit(s, r, n)) && BellsRight(ApplySubmit(s, r, n).h.bells)
  {
  }

  lemma BeginKeeps(s: Sys)
    requires Inv(s)
    ensures Inv(ApplyBegin(s))
  {
  }

  lemma ScanKeeps(s: Sys, i: nat)
    requires Inv(s) && s.d.pc == Scan(i)
    ensures Inv(OwnScan(s, i))
  {
  }

  lemma RecordKeeps(s: Sys, i: nat)
    requires Inv(s) && s.d.pc == Record(i)
    ensures Inv(OwnRecord(s, i))
  {
  }

  lemma ProgramKeeps(s: Sys, i: nat, ttbr: int)
    requires Inv(s) && s.d.pc == Program(i, ttbr)
    ensures Inv(OwnProgram(s, i, ttbr))
  {
  }

  lemma CheckStatusKeeps(s: Sys)
    requires Inv(s) && s.d.pc.CheckStatus?
    ensures Inv(OwnCheckStatus(s))
  {
  }

  lemma SwapKeeps(s: Sys)
    requires Inv(s) && s.d.pc.SwapRings?
    ensures Inv(OwnSwap(s))
  {
  }

  lemma UpdateKeeps(s: Sys)
    requires Inv(s) && s.d.pc.Update?
    ensures Inv(OwnUpdate(s))
  {
  }

  lemma FinishKeeps(s: Sys)
    requires Inv(s) && s.d.pc.Finish?
    ensures Inv(OwnFinish(s))
  {
  }

  lemma HwExecKeeps(s: Sys, n: nat)
    requires Inv(s)
    ensures Inv(ApplyHwExec(s, n))
  {
  }

  lemma HwPagetableKeeps(s: Sys, v: int)
    requires Inv(s)
    ensures Inv(ApplyHwPagetable(s, v))
  {
  }

  lemma HwSwitchKeeps(s: Sys)
    requires Inv(s)
    ensures Inv(ApplyHwSwitch(s))
  {
  }

  lemma IrqKeeps(s: Sys)
    requires Inv(s)
    ensures Inv(ApplyIrq(s))
  {
  }

  lemma TimerKeeps(s: Sys)
    requires Inv(s)
    ensures Inv(ApplyTimer(s))
  {
  }

  lemma WorkerKeeps(s: Sys, awake: bool)
    requires Inv(s)
    ensures Inv(ApplyWorker(s, awake))
  {
  }

  lemma ScheduleKeeps(s: Sys, awake: bool)
    requires Inv(s)
    ensures Inv(ApplySchedule(s, awake))
  {
  }

  lemma RestartKeeps(s: Sys, proceeds: bool)
    requires Inv(s)
    ensures Inv(ApplyRestart(s, proceeds))
  {
  }

  lemma OwnerKeeps(s: Sys)
    requires Inv(s)
    ensures Inv(ApplyOwner(s))
  {
    match s.d.pc
    case Idle =>
    case Scan(i) => ScanKeeps(s, i);
    case Record(i) => RecordKeeps(s, i);
    case Program(i, ttbr) => ProgramKeeps(s, i, ttbr);
    case CheckStatus => CheckStatusKeeps(s);
    case SwapRings => SwapKeeps(s);
    case Update => UpdateKeeps(s);
    case Finish => FinishKeeps(s);
  }

  /** Every step of every actor keeps the invariant. */
  lemma StepKeeps(s: Sys, a: Step)
    requires Inv(s)
    ensures Inv(Apply(s, a))
  {
    match a
    case Submit(r, n) => SubmitKeeps(s, r, n);
    case Begin => BeginKeeps(s);
    case Owner => OwnerKeeps(s);
    case HwExec(n) => HwExecKeeps(s, n);
    case HwPagetable(v) => HwPagetableKeeps(s, v);
    case HwSwitch => HwSwitchKeeps(s);
    case Irq => IrqKeeps(s);
    case Timer => TimerKeeps(s);
    case Worker(awake) => WorkerKeeps(s, awake);
    case Schedule(awake) => ScheduleKeeps(s, awake);
    case GpuFault =>
    case Restart(proceeds) => RestartKeeps(s, proceeds);
  }

  /** The invariant holds along every run. */
  lemma {:induction false} RunKeeps(s: Sys, steps: seq<Step>)
    requires Inv(s)
    ensures Inv(Run(s, steps))
    decreases |steps|
  {
    if steps != [] {
      StepKeeps(s, steps[0]);
      RunKeeps(Apply(s, steps[0]), steps[1..]);
    }
  }

  /** A state some run leads to from power-up. */
  ghost predicate Reachable(s: Sys) {
    exists n: nat, perProcess: bool, steps: seq<Step> ::
      0 < n && s == Run(Init(n, perProcess), steps)
  }

  lemma ReachableInv(s: Sys)
    requires Reachable(s)
    ensures Inv(s)
  {
    var n: nat, perProcess: bool, steps: seq<Step> :| 0 < n && s == Run(Init(n, perProcess), steps);
    InitInv(n, perProcess);
    RunKeeps(Init(n, perProcess), steps);
  }

  /** Doorbell safety: in every run, every write of the WPTR register lands
      while the hardware executes the ring whose pointer is written. */
  lemma DoorbellSafety(s: Sys, b: Doorbell)
    requires Reachable(s) && b in s.h.bells
    ensures b.ring == b.hw
  {
    ReachableInv(s);
  }

  /** No stranded submission, and exactly when there is one: with no switch
      going on the hardware executes `cur`, and its WPTR register equals `cur`'s
      write pointer if and only if no submission to `cur` came between the
      handler's catch-up and its return to NONE. */
  lemma StrandedExactlyIfLate(s: Sys)
    requires Reachable(s) && s.d.st.PreemptNone?
    ensures s.g.ring == s.d.cur && !s.g.cntl
    ensures s.g.wreg == s.rings[s.d.cur].wptr <==> !s.h.late
  {
    ReachableInv(s);
  }

  /** Which submissions skip their doorbell: with the register caught up and no
      switch in flight, the register falls behind exactly if the ring is current
      and the state is not NONE. */
  lemma DoorbellSkippedExactly(s: Sys, r: nat, n: nat)
    requires Reachable(s) && Settled(s.d) && !s.h.late
    requires r < |s.rings| && 0 < n && Count(s.rings[r].rptr, s.rings[r].wptr) + n < KGSL_RB_DWORDS
    ensures var t := ApplySubmit(s, r, n);
            t.g.wreg != t.rings[t.d.cur].wptr <==> r == s.d.cur && !s.d.st.PreemptNone?
  {
    ReachableInv(s);
  }

  /** The window is real: power-up, a trigger that has seen the only ring empty,
      a submission, and the trigger's return to NONE leave words unannounced. */
  lemma StrandingRun()
    ensures var s := Run(Init(1, false), [Begin, Owner, Submit(0, 5), Owner, Owner]);
            s.d.st.PreemptNone? && s.g.wreg == 0 && s.rings[0].wptr == 5
  {
    var s0 := Init(1, false);
    var s1 := Apply(s0, Begin);
    var s2 := Apply(s1, Owner);
    var s3 := Apply(s2, Submit(0, 5));
    var s4 := Apply(s3, Owner);
    var s5 := Apply(s4, Owner);
    assert Run(s4, [Owner]) == Run(s5, []) == s5;
    assert Run(s3, [Owner, Owner]) == Run(s4, [Owner]) by { assert [Owner, Owner][1..] == [Owner]; }
    assert Run(s2, [Submit(0, 5), Owner, Owner]) == Run(s3, [Owner, Owner]) by {
      assert [Submit(0, 5), Owner, Owner][1..] == [Owner, Owner];
    }
    assert Run(s1, [Owner, Submit(0, 5), Owner, Owner]) == Run(s2, [Submit(0, 5), Owner, Owner]) by {
      assert [Owner, Submit(0, 5), Owner, Owner][1..] == [Submit(0, 5), Owner, Owner];
    }
    assert [Begin, Owner, Submit(0, 5), Owner, Owner][1..] == [Owner, Submit(0, 5), Owner, Owner];
  }

  /** Conservation of switches since the last restart: each trigger is swapped
      in exactly once or is still in flight, and is claimed exactly once, by the
      interrupt or by the timer, or still waits in TRIGGERED.  A switch in
      flight leads to another ring than the current one. */
  lemma SwitchesConserved(s: Sys)
    requires Reachable(s)
    ensures s.h.triggers == s.h.swaps + (if InFlight(s.d) then 1 else 0)
    ensures s.h.triggers == s.h.irqClaims + s.h.timerClaims + (if s.d.st.PreemptTriggered? then 1 else 0)
    ensures InFlight(s.d) ==> s.d.next.Some? && s.d.next.value != s.d.cur
  {
    ReachableInv(s);
  }

  /** Whatever the hardware executes next was published before: executing words
      up to the WPTR register takes exactly that many off the ring's outstanding
      words and cannot pass its write pointer. */
  lemma HardwareExecutesPublished(s: Sys, n: nat)
    requires Reachable(s)
    requires n <= Count(s.rings[s.g.ring].rptr, s.g.wreg)
    ensures var r := s.rings[s.g.ring];
            n <= Count(r.rptr, r.wptr) && Count(Advance(r.rptr, n), r.wptr) == Count(r.rptr, r.wptr) - n
  {
    ReachableInv(s);
  }

  /** With per-process page tables, each ring runs under its own table. */
  lemma PageTableFollowsRing(s: Sys)
    requires Reachable(s) && s.perProcess
    ensures s.g.ttbr == s.rings[s.g.ring].ttbr
  {
    ReachableInv(s);
  }
}
