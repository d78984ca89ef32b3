/** The preemption protocol at a finer grain: entering TRIGGERED and starting the
    switch are two steps, and everybody may move between them. */
module PreemptGrain {
  import opened Common
  import opened PreemptModel
  import opened PreemptSafety

  /** `open`: a trigger has entered TRIGGERED and has not yet written
      CONTEXT_SWITCH_CNTL. */
  datatype Fine = Fine(s: Sys, open: bool)

  datatype FineStep =
    | Do(a: Step)
    | StartSwitch     // the trigger writes CONTEXT_SWITCH_CNTL

  function SetCntl(s: Sys, cntl: bool): Sys { s.(g := s.g.(cntl := cntl)) }

  /** Nothing is restarted while the window is open: a trigger of the dispatcher holds
      the device mutex that the restart takes, and one of an interrupt handler is waited
      for when the restart disables the interrupt. */
  function ApplyFine(f: Fine, a: FineStep): Fine
    requires Shape(f.s)
  {
    match a
    case StartSwitch => if f.open then Fine(SetCntl(f.s, true), false) else f
    case Do(b) =>
      if f.open && b == Restart(true) then f
      else if b.Owner? && f.s.d.pc.Program? then Fine(SetCntl(Apply(f.s, b), f.s.g.cntl), true)
      else Fine(Apply(f.s, b), f.open)
  }

  function FineRun(f: Fine, steps: seq<FineStep>): (t: Fine)
    requires Shape(f.s)
    ensures Shape(t.s)
    decreases |steps|
  {
    if steps == [] then f else
    FineShape(f, steps[0]);
    FineRun(ApplyFine(f, steps[0]), steps[1..])
  }

  lemma FineShape(f: Fine, a: FineStep)
    requires Shape(f.s)
    ensures Shape(ApplyFine(f, a).s)
  {
    if a.Do? { StepShape(f.s, a.a); }
  }

  /** With nobody in between, the two steps are the one step of the coarser model. */
  lemma TwoStepsAreOne(s: Sys)
    requires Shape(s) && s.d.pc.Program?
    ensures FineRun(Fine(s, false), [Do(Owner), StartSwitch]) == Fine(Apply(s, Owner), false)
  {
    FineShape(Fine(s, false), Do(Owner));
    assert [Do(Owner), StartSwitch][1..] == [StartSwitch];
    assert FineRun(ApplyFine(Fine(s, false), Do(Owner)), [StartSwitch]) == Fine(Apply(s, Owner), false);
  }

  /** In the open window CONTEXT_SWITCH_CNTL still reads 0 from before the switch.
      A step is hasty if it takes that for the end of the switch. */
  predicate Hasty(f: Fine, a: FineStep) {
    && f.open && a.Do?
    && match a.a
       case Owner => f.s.d.pc.CheckStatus?
       case Schedule(awake) => f.s.d.st.PreemptComplete? && f.s.d.pc.Idle? && awake
       case _ => false
  }

  predicate NoneHasty(f: Fine, steps: seq<FineStep>)
    requires Shape(f.s)
    decreases |steps|
  {
    steps == [] || (
      FineShape(f, steps[0]);
      !Hasty(f, steps[0]) && NoneHasty(ApplyFine(f, steps[0]), steps[1..]))
  }

  /** In the window the system is as if the switch had been started already. */
  function Closed(f: Fine): Sys { if f.open then SetCntl(f.s, true) else f.s }

  ghost predicate FineInv(f: Fine) {
    && Inv(Closed(f))
    && (f.open ==> !f.s.g.cntl && InFlight(f.s.d) && !f.s.d.pc.SwapRings?)
  }

  /** In the window all but three steps do what they do once the switch is started. */
  lemma AsIfStarted(f: Fine, b: Step)
    requires FineInv(f) && f.open && !Hasty(f, Do(b)) && !b.HwSwitch? && !b.Worker? && b != Restart(true)
    ensures Closed(ApplyFine(f, Do(b))) == Apply(Closed(f), b)
  {
  }

  /** The timer's worker takes the window for the end of the switch, but what is
      scheduled then looks again. */
  lemma WorkerInWindow(f: Fine, awake: bool)
    requires FineInv(f) && f.open
    ensures Inv(Closed(ApplyFine(f, Do(Worker(awake)))))
  {
  }

  lemma WindowKeeps(f: Fine, b: Step)
    requires FineInv(f) && f.open && !Hasty(f, Do(b))
    ensures FineInv(ApplyFine(f, Do(b)))
  {
    if b.Worker? {
      WorkerInWindow(f, b.awake);
    } else if !b.HwSwitch? && b != Restart(true) {
      AsIfStarted(f, b);
      StepKeeps(Closed(f), b);
    }
  }

  lemma FineStepKeeps(f: Fine, a: FineStep)
    requires FineInv(f) && !Hasty(f, a)
    ensures FineInv(ApplyFine(f, a))
  {
    if a.Do? {
      if f.open { WindowKeeps(f, a.a); } else { StepKeeps(f.s, a.a); }
    }
  }

  lemma {:induction false} FineRunKeeps(f: Fine, steps: seq<FineStep>)
    requires FineInv(f) && NoneHasty(f, steps)
    ensures FineInv(FineRun(f, steps))
    decreases |steps|
  {
    if steps != [] {
      FineStepKeeps(f, steps[0]);
      FineRunKeeps(ApplyFine(f, steps[0]), steps[1..]);
    }
  }

  /** A state some run without a hasty step leads to from power-up. */
  ghost predicate UnhurriedlyReachable(f: Fine) {
    exists n: nat, perProcess: bool, steps: seq<FineStep> ::
      0 < n && NoneHasty(Fine(Init(n, perProcess), false), steps)
      && f == FineRun(Fine(Init(n, perProcess), false), steps)
  }

  lemma UnhurriedInv(f: Fine)
    requires UnhurriedlyReachable(f)
    ensures FineInv(f)
  {
    var n: nat, perProcess: bool, steps: seq<FineStep> :|
      0 < n && NoneHasty(Fine(Init(n, perProcess), false), steps)
      && f == FineRun(Fine(Init(n, perProcess), false), steps);
    InitInv(n, perProcess);
    FineRunKeeps(Fine(Init(n, perProcess), false), steps);
  }

  /** Doorbell safety at this grain: in every run without a hasty step every write
      of the WPTR register lands on the ring it is meant for. */
  lemma UnhurriedDoorbells(f: Fine, b: Doorbell)
    requires UnhurriedlyReachable(f) && b in f.s.h.bells
    ensures b.ring == b.hw
  {
    UnhurriedInv(f);
  }

  /** What a hasty look at the register leads to: the rings are swapped, and the
      handler catches up. */
  function SwapAndCatchUp(f: Fine, look: FineStep): Fine
    requires Shape(f.s)
  {
    FineShape(f, look);
    FineShape(ApplyFine(f, look), Do(Owner));
    ApplyFine(ApplyFine(ApplyFine(f, look), Do(Owner)), Do(Owner))
  }

  /** Exactly when the first hasty look rings for the wrong ring, if its handler
      runs on undisturbed: if the register differs from the next ring's write
      pointer. */
  lemma HastyLookWrongExactly(f: Fine, look: FineStep)
    requires UnhurriedlyReachable(f) && Hasty(f, look)
    ensures Shape(f.s) && f.s.d.next.Some? && f.s.d.next.value < |f.s.rings|
    ensures BellsRight(SwapAndCatchUp(f, look).s.h.bells) <==> f.s.g.wreg == f.s.rings[f.s.d.next.value].wptr
  {
    UnhurriedInv(f);
    var t := SwapAndCatchUp(f, look);
    var next := f.s.d.next.value;
    if f.s.g.wreg == f.s.rings[next].wptr {
      assert t.s.h.bells == f.s.h.bells;
    } else {
      assert t.s.h.bells == f.s.h.bells + [Doorbell(next, f.s.g.ring)];
      assert t.s.h.bells[|f.s.h.bells|] == Doorbell(next, f.s.g.ring);
    }
  }

  // ---- Where hasty steps come from ----

  /** As long as the timer has claimed no switch since the last restart, a raised
      interrupt belongs to the switch that is waited for. */
  predicate InterruptFresh(f: Fine) {
    f.s.h.timerClaims == 0 ==>
      && !f.s.d.st.PreemptFaulted? && !f.s.d.st.PreemptComplete?
      && (f.s.g.irq ==> f.s.d.st.PreemptTriggered? && !f.s.g.cntl && !f.open)
      && (f.s.g.cntl || f.open ==> f.s.d.st.PreemptTriggered?)
  }

  lemma FreshOwner(f: Fine)
    requires Shape(f.s) && PcMatchesState(f.s.d) && HardwareFollows(Closed(f)) && (f.open ==> !f.s.g.cntl)
    requires InterruptFresh(f) && !Hasty(f, Do(Owner))
    ensures InterruptFresh(ApplyFine(f, Do(Owner)))
  {
    match f.s.d.pc
    case Idle =>
    case Scan(_) =>
    case Record(_) =>
    case Program(_, _) =>
    case CheckStatus =>
    case SwapRings =>
    case Update =>
    case Finish =>
  }

  lemma FreshStep(f: Fine, a: FineStep)
    requires Shape(f.s) && PcMatchesState(f.s.d) && HardwareFollows(Closed(f)) && (f.open ==> !f.s.g.cntl)
    requires InterruptFresh(f) && !Hasty(f, a)
    ensures InterruptFresh(ApplyFine(f, a))
  {
    if a == Do(Owner) { FreshOwner(f); }
  }

  lemma {:induction false} FreshRun(f: Fine, steps: seq<FineStep>)
    requires FineInv(f) && InterruptFresh(f) && NoneHasty(f, steps)
    ensures InterruptFresh(FineRun(f, steps))
    decreases |steps|
  {
    if steps != [] {
      FineStepKeeps(f, steps[0]);
      FreshStep(f, steps[0]);
      FreshRun(ApplyFine(f, steps[0]), steps[1..]);
    }
  }

  /** The first hasty look at the register needs a switch that the timer claimed,
      so that its interrupt is still raised when the next switch is announced. */
  lemma HastyLookNeedsTimer(f: Fine, look: FineStep)
    requires UnhurriedlyReachable(f) && Hasty(f, look)
    ensures 0 < f.s.h.timerClaims
  {
    var n: nat, perProcess: bool, steps: seq<FineStep> :|
      0 < n && NoneHasty(Fine(Init(n, perProcess), false), steps)
      && f == FineRun(Fine(Init(n, perProcess), false), steps);
    InitInv(n, perProcess);
    FineRunKeeps(Fine(Init(n, perProcess), false), steps);
    FreshRun(Fine(Init(n, perProcess), false), steps);
  }

  lemma {:induction false} RunSnoc(f: Fine, steps: seq<FineStep>, a: FineStep)
    requires Shape(f.s) && NoneHasty(f, steps) && !Hasty(FineRun(f, steps), a)
    ensures NoneHasty(f, steps + [a]) && FineRun(f, steps + [a]) == ApplyFine(FineRun(f, steps), a)
    decreases |steps|
  {
    if steps == [] {
      FineShape(f, a);
      assert steps + [a] == [a] && [a][1..] == [];
    } else {
      FineShape(f, steps[0]);
      assert (steps + [a])[0] == steps[0] && (steps + [a])[1..] == steps[1..] + [a];
      RunSnoc(ApplyFine(f, steps[0]), steps[1..], a);
    }
  }

  lemma Onward(f: Fine, a: FineStep) returns (t: Fine)
    requires UnhurriedlyReachable(f) && Shape(f.s) && !Hasty(f, a)
    ensures t == ApplyFine(f, a) && UnhurriedlyReachable(t) && Shape(t.s)
  {
    var n: nat, perProcess: bool, steps: seq<FineStep> :|
      0 < n && NoneHasty(Fine(Init(n, perProcess), false), steps)
      && f == FineRun(Fine(Init(n, perProcess), false), steps);
    FineShape(f, a);
    RunSnoc(Fine(Init(n, perProcess), false), steps, a);
    t := ApplyFine(f, a);
  }

  lemma PowerUp() returns (f: Fine)
    ensures f == Fine(Init(2, false), false) && UnhurriedlyReachable(f) && Shape(f.s)
  {
    f := Fine(Init(2, false), false);
    assert NoneHasty(f, []) && FineRun(f, []) == f;
  }

  /** A trigger on two rings finds words on ring `to` alone. */
  lemma FoundBusy(f: Fine, to: nat) returns (t: Fine)
    requires UnhurriedlyReachable(f) && Shape(f.s) && !f.open && |f.s.rings| == 2 && to < 2
    requires f.s.d.st.PreemptNone? && f.s.d.cur == 1 - to
    requires !Empty(f.s.rings[to]) && (to == 1 ==> Empty(f.s.rings[0]))
    ensures UnhurriedlyReachable(t) && Shape(t.s) && !t.open
    ensures t.s == f.s.(d := f.s.d.(st := PreemptStart, pc := Record(to)))
  {
    t := Onward(f, Do(Begin));
    t := Onward(t, Do(Owner));
    if to == 1 { t := Onward(t, Do(Owner)); }
  }

  /** It goes on up to TRIGGERED. */
  lemma TriggerTo(f: Fine, to: nat) returns (t: Fine)
    requires UnhurriedlyReachable(f) && Shape(f.s) && !f.open && |f.s.rings| == 2 && to < 2
    requires f.s.d.st.PreemptNone? && !f.s.perProcess && f.s.d.cur == 1 - to
    requires !Empty(f.s.rings[to]) && (to == 1 ==> Empty(f.s.rings[0]))
    ensures UnhurriedlyReachable(t) && Shape(t.s) && t.open
    ensures t.s == f.s.(rings := f.s.rings[to := f.s.rings[to].(recWptr := f.s.rings[to].wptr)],
                        g := f.s.g.(target := to),
                        d := f.s.d.(next := Some(to), st := PreemptTriggered, pc := Idle),
                        h := f.s.h.(triggers := f.s.h.triggers + 1))
  {
    t := FoundBusy(f, to);
    t := Onward(t, Do(Owner));
    t := Onward(t, Do(Owner));
  }

  /** What is complete is swapped in, the handler catches up and returns to NONE. */
  lemma SwappedIn(f: Fine) returns (t: Fine)
    requires UnhurriedlyReachable(f) && Shape(f.s) && !f.open && f.s.d.pc.SwapRings?
    requires f.s.d.next.Some? && f.s.g.wreg == f.s.rings[f.s.d.next.value].wptr
    ensures UnhurriedlyReachable(t) && !t.open && t.s.d.st.PreemptNone? && t.s.d.cur == f.s.d.next.value
    ensures t.s.g == f.s.g && t.s.rings == f.s.rings && t.s.perProcess == f.s.perProcess
  {
    t := Onward(f, Do(Owner));
    t := Onward(t, Do(Owner));
    t := Onward(t, Do(Owner));
  }

  /** A finished switch that the timer claims ends with its interrupt still raised. */
  lemma TimerSettles(f: Fine) returns (t: Fine)
    requires UnhurriedlyReachable(f) && Shape(f.s) && !f.open && f.s.d.st.PreemptTriggered? && f.s.d.pc.Idle?
    requires !f.s.g.cntl && f.s.d.next.Some? && f.s.g.wreg == f.s.rings[f.s.d.next.value].wptr
    ensures UnhurriedlyReachable(t) && !t.open && t.s.d.st.PreemptNone? && t.s.d.cur == f.s.d.next.value
    ensures t.s.g == f.s.g && t.s.rings == f.s.rings && t.s.perProcess == f.s.perProcess
  {
    t := Onward(f, Do(Timer));
    t := Onward(t, Do(Worker(true)));
    t := Onward(t, Do(Schedule(true)));
    t := SwappedIn(t);
  }

  /** The first switch of the run, to ring 1, is claimed by the timer. */
  lemma TimerClaimedSwitch() returns (f: Fine)
    ensures UnhurriedlyReachable(f) && Shape(f.s) && !f.open && |f.s.rings| == 2 && !f.s.perProcess
    ensures f.s.d.st.PreemptNone? && f.s.d.cur == 1 && f.s.g.irq && f.s.g.wreg == 5 && f.s.rings[0].rptr == f.s.rings[0].wptr == 0
  {
    f := PowerUp();
    f := Onward(f, Do(Submit(1, 5)));
    f := TriggerTo(f, 1);
    f := Onward(f, StartSwitch);
    f := Onward(f, Do(HwSwitch));
    f := TimerSettles(f);
  }

  /** The window matters: a run in which that interrupt claims the next switch
      before it is started, and the catch-up rings for the wrong ring. */
  lemma StaleInterruptRun() returns (f: Fine)
    ensures UnhurriedlyReachable(f) && Shape(f.s) && Hasty(f, Do(Owner))
    ensures !BellsRight(SwapAndCatchUp(f, Do(Owner)).s.h.bells)
  {
    f := TimerClaimedSwitch();
    f := Onward(f, Do(Submit(0, 3)));
    f := TriggerTo(f, 0);
    f := Onward(f, Do(Irq));
    HastyLookWrongExactly(f, Do(Owner));
  }
}
