/** Handlers of the preemption protocol that run to their end without another
    actor between their sections: what a trigger chooses, and that runs made of
    such handlers never leave a submission without its doorbell. */
module PreemptHandlers {
  import opened Common
  import opened PreemptModel
  import opened PreemptSafety

  /** A handler's whole run keeps the invariant. */
  lemma {:induction false} RunOwnerKeeps(s: Sys)
    requires Inv(s)
    ensures Inv(RunOwner(s))
    decreases PcRank(s.d.pc, |s.rings|)
  {
    if !s.d.pc.Idle? {
      OwnerKeeps(s);
      OwnerDescends(s, ApplyOwner(s));
      OwnerShape(s, ApplyOwner(s));
      RunOwnerKeeps(ApplyOwner(s));
    }
  }

  /** The first ring from `i` on that is not empty, or the ring count. */
  function FirstBusy(rings: seq<Ring>, i: nat): (f: nat)
    requires i <= |rings|
    ensures i <= f <= |rings|
    ensures forall k :: i <= k < f ==> Empty(rings[k])
    ensures f < |rings| ==> !Empty(rings[f])
    decreases |rings| - i
  {
    if i == |rings| || !Empty(rings[i]) then i else FirstBusy(rings, i + 1)
  }

  lemma FinishRuns(s: Sys)
    requires Shape(s) && s.d.pc.Finish?
    ensures RunOwner(s) == OwnFinish(s)
  {
  }

  lemma UpdateRuns(s: Sys)
    requires Shape(s) && s.d.pc.Update?
    ensures RunOwner(s) == OwnFinish(OwnUpdate(s))
  {
    OwnerShape(s, OwnUpdate(s));
    FinishRuns(OwnUpdate(s));
  }

  lemma RecordRuns(s: Sys, i: nat)
    requires Shape(s) && s.d.pc == Record(i)
    ensures RunOwner(s) == OwnProgram(OwnRecord(s, i), i, s.rings[i].ttbr)
  {
    var t := OwnRecord(s, i);
    var u := OwnProgram(t, i, s.rings[i].ttbr);
    OwnerShape(s, t);
    OwnerShape(t, u);
    assert RunOwner(t) == RunOwner(u) == u;
  }

  /** Where a handler that scans from ring `i` on ends. */
  function ScanResult(s: Sys, i: nat): Sys
    requires Shape(s) && i <= |s.rings|
  {
    var f := FirstBusy(s.rings, i);
    if f == |s.rings| then OwnFinish(s)
    else if f == s.d.cur then OwnFinish(OwnUpdate(s))
    else OwnProgram(OwnRecord(s, f), f, s.rings[f].ttbr)
  }

  lemma {:induction false} ScanOutcome(s: Sys, i: nat)
    requires Shape(s) && s.d.pc == Scan(i)
    ensures RunOwner(s) == ScanResult(s, i)
    decreases |s.rings| - i
  {
    var t := OwnScan(s, i);
    OwnerShape(s, t);
    assert RunOwner(s) == RunOwner(t);
    if i == |s.rings| {
      FinishRuns(t);
    } else if Empty(s.rings[i]) {
      ScanOutcome(t, i + 1);
    } else if i == s.d.cur {
      UpdateRuns(t);
    } else {
      RecordRuns(t, i);
    }
  }

  /** A trigger, from its compare-and-swap to its return. */
  function TriggerRun(s: Sys): (t: Sys)
    requires Shape(s) && s.d.pc.Idle?
    ensures Shape(t) && t.d.pc.Idle?
  {
    RunOwner(ApplyBegin(s))
  }

  /** Priority: an undisturbed trigger from NONE returns to NONE exactly when
      nothing is outstanding or the highest-priority busy ring is current, and
      then every submission to it has its doorbell; otherwise it starts a switch
      to the highest-priority busy ring, whose record carries its write pointer
      and whose page table is handed over. */
  lemma TriggerPicksHighestPriority(s: Sys)
    requires Inv(s) && s.d.st.PreemptNone?
    ensures var t := TriggerRun(s); var f := FirstBusy(s.rings, 0);
            && Inv(t)
            && (t.d.st.PreemptNone? <==> f == |s.rings| || f == s.d.cur)
            && (t.d.st.PreemptNone? ==> t.d.cur == s.d.cur && t.rings == s.rings)
            && (t.d.st.PreemptNone? && f == s.d.cur ==> t.g.wreg == t.rings[f].wptr)
            && (!t.d.st.PreemptNone? ==>
                  && t.d.st.PreemptTriggered? && t.g.cntl && t.d.next == Some(f) && t.g.target == f
                  && t.rings[f].recWptr == s.rings[f].wptr
                  && (s.perProcess ==> t.g.smmuTtbr == s.rings[f].ttbr))
  {
    BeginKeeps(s);
    ScanOutcome(ApplyBegin(s), 0);
    RunOwnerKeeps(ApplyBegin(s));
  }

  /** The completion interrupt's handler: on success it swaps and then triggers
      again; with the status register still set it leaves the rest to the worker. */
  function CallbackRun(s: Sys): (t: Sys)
    requires Inv(s) && s.d.pc.Idle?
    ensures Shape(t) && t.d.pc.Idle?
  {
    IrqKeeps(s);
    var t := RunOwner(ApplyIrq(s));
    if ApplyIrq(s).d.pc.Idle? || t.d.st.PreemptComplete? then t else TriggerRun(t)
  }

  /** The dispatcher's clean-up after a COMPLETE state, then a trigger. */
  function ScheduleRun(s: Sys, awake: bool): (t: Sys)
    requires Inv(s) && s.d.pc.Idle?
    ensures Shape(t) && t.d.pc.Idle?
  {
    ScheduleKeeps(s, awake);
    TriggerRun(RunOwner(ApplySchedule(s, awake)))
  }

  /** What happens at the level of whole handlers. */
  datatype Event =
    | Submission(ring: nat, words: nat)
    | Trigger
    | Interrupt
    | Dispatch(awake: bool)
    | Timeout
    | TimeoutWork(awake: bool)
    | Environment(step: Step)

  /** Steps of the hardware and of fault recovery. */
  predicate EnvironmentStep(a: Step) {
    a.HwExec? || a.HwPagetable? || a.HwSwitch? || a.GpuFault? || a.Restart?
  }

  /** Between handlers, NONE means that no submission is late. */
  predicate HandlerInv(s: Sys) {
    Inv(s) && s.d.pc.Idle? && (s.d.st.PreemptNone? ==> !s.h.late)
  }

  function Handle(s: Sys, e: Event): (t: Sys)
    requires Inv(s) && s.d.pc.Idle?
    ensures Shape(t) && t.d.pc.Idle?
  {
    match e
    case Submission(r, n) => StepKeeps(s, Submit(r, n)); ApplySubmit(s, r, n)
    case Trigger => TriggerRun(s)
    case Interrupt => CallbackRun(s)
    case Dispatch(awake) => ScheduleRun(s, awake)
    case Timeout => ApplyTimer(s)
    case TimeoutWork(awake) => ApplyWorker(s, awake)
    case Environment(a) => if EnvironmentStep(a) then StepKeeps(s, a); Apply(s, a) else s
  }

  /** Running a handler from its first section to its end catches up. */
  lemma {:induction false} RunOwnerCatchesUp(s: Sys)
    requires Inv(s) && !s.d.pc.Idle?
    requires s.d.st.PreemptStart? || s.d.pc.Finish? ==> !s.h.late
    ensures HandlerInv(RunOwner(s))
    decreases PcRank(s.d.pc, |s.rings|)
  {
    var t := ApplyOwner(s);
    OwnerKeeps(s);
    OwnerDescends(s, t);
    OwnerShape(s, t);
    if !t.d.pc.Idle? {
      RunOwnerCatchesUp(t);
    }
  }

  lemma TriggerKeepsHandlerInv(s: Sys)
    requires HandlerInv(s)
    ensures HandlerInv(TriggerRun(s))
  {
    if s.d.st.PreemptNone? {
      BeginKeeps(s);
      RunOwnerCatchesUp(ApplyBegin(s));
    }
  }

  lemma CallbackKeepsHandlerInv(s: Sys)
    requires HandlerInv(s)
    ensures HandlerInv(CallbackRun(s))
  {
    var i := ApplyIrq(s);
    IrqKeeps(s);
    if !i.d.pc.Idle? {
      RunOwnerCatchesUp(i);
      TriggerKeepsHandlerInv(RunOwner(i));
    }
  }

  lemma ScheduleKeepsHandlerInv(s: Sys, awake: bool)
    requires HandlerInv(s)
    ensures HandlerInv(ScheduleRun(s, awake))
  {
    var c := ApplySchedule(s, awake);
    ScheduleKeeps(s, awake);
    if !c.d.pc.Idle? {
      RunOwnerCatchesUp(c);
    }
    TriggerKeepsHandlerInv(RunOwner(c));
  }

  lemma EnvironmentKeeps(s: Sys, a: Step)
    requires HandlerInv(s)
    requires EnvironmentStep(a)
    ensures HandlerInv(Apply(s, a))
  {
    StepKeeps(s, a);
  }

  lemma HandleKeeps(s: Sys, e: Event)
    requires HandlerInv(s)
    ensures HandlerInv(Handle(s, e))
  {
    match e
    case Submission(r, n) => SubmitKeeps(s, r, n);
    case Trigger => TriggerKeepsHandlerInv(s);
    case Interrupt => CallbackKeepsHandlerInv(s);
    case Dispatch(awake) => ScheduleKeepsHandlerInv(s, awake);
    case Timeout => TimerKeeps(s);
    case TimeoutWork(awake) => WorkerKeeps(s, awake);
    case Environment(a) => if EnvironmentStep(a) { EnvironmentKeeps(s, a); }
  }

  /** `t` follows `s` after the events. */
  ghost predicate Leads(s: Sys, events: seq<Event>, t: Sys)
    decreases |events|
  {
    if events == [] then s == t
    else Inv(s) && s.d.pc.Idle? && Leads(Handle(s, events[0]), events[1..], t)
  }

  /** With whole handlers as the unit of interleaving, in every state reached
      after power-up: NONE means that the hardware executes `cur` with `cur`'s
      write pointer in its register, whatever was submitted in mid-switch. */
  lemma NoStrandedSubmission(n: nat, perProcess: bool, events: seq<Event>, t: Sys)
    requires 0 < n && Leads(Init(n, perProcess), events, t)
    ensures t.d.st.PreemptNone? ==>
              !t.g.cntl && t.g.ring == t.d.cur && t.d.cur < |t.rings| && t.g.wreg == t.rings[t.d.cur].wptr
  {
    InitInv(n, perProcess);
    LeadsKeeps(Init(n, perProcess), events, t);
  }

  lemma {:induction false} LeadsKeeps(s: Sys, events: seq<Event>, t: Sys)
    requires HandlerInv(s) && Leads(s, events, t)
    ensures HandlerInv(t)
    decreases |events|
  {
    if events != [] {
      HandleKeeps(s, events[0]);
      LeadsKeeps(Handle(s, events[0]), events[1..], t);
    }
  }

  /** Every list of events leads somewhere: whole handlers never get stuck. */
  lemma {:induction false} EventsLead(s: Sys, events: seq<Event>) returns (t: Sys)
    requires HandlerInv(s)
    ensures Leads(s, events, t) && HandlerInv(t)
    decreases |events|
  {
    if events == [] {
      t := s;
    } else {
      HandleKeeps(s, events[0]);
      t := EventsLead(Handle(s, events[0]), events[1..]);
    }
  }

  /** So from power-up every list of events is followed by exactly one state. */
  lemma EventsLeadToOne(n: nat, perProcess: bool, events: seq<Event>) returns (t: Sys)
    requires 0 < n
    ensures forall u :: Leads(Init(n, perProcess), events, u) <==> u == t
  {
    InitInv(n, perProcess);
    t := EventsLead(Init(n, perProcess), events);
    forall u | Leads(Init(n, perProcess), events, u) ensures u == t {
      LeadsToOne(Init(n, perProcess), events, t, u);
    }
  }

  lemma {:induction false} LeadsToOne(s: Sys, events: seq<Event>, t: Sys, u: Sys)
    requires Leads(s, events, t) && Leads(s, events, u)
    ensures t == u
    decreases |events|
  {
    if events != [] { LeadsToOne(Handle(s, events[0]), events[1..], t, u); }
  }
}
