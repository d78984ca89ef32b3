/** The driver's handlers in their own shape: methods that update the device.
    Each is proved to have exactly the effect of the atomic steps it is made of. */
module PreemptDevice {
  import opened Common
  import opened PreemptModel
  import opened PreemptSafety
  import opened PreemptHandlers

  class AdrenoDevice {
    // driver state
    var state: PreemptState
    var curRb: nat
    var nextRb: Option<nat>
    var prevRb: nat
    var dispatcherFault: bool
    var rings: seq<Ring>
    const perProcess: bool

    // registers and shared records
    var wptrReg: RingPos
    var contextSwitchCntl: bool
    var restoreAddr: nat
    var smmuTtbr: int

    // the command processor
    var executing: nat
    var hwTtbr: int
    var irqRaised: bool

    ghost var pc: Pc
    ghost var history: History

    ghost function View(): Sys
      reads this
    {
      Sys(Driver(state, pc, curRb, nextRb, prevRb, dispatcherFault),
          Gpu(executing, wptrReg, contextSwitchCntl, restoreAddr, smmuTtbr, hwTtbr, irqRaised),
          rings, perProcess, history)
    }

    ghost predicate Valid()
      reads this
    {
      Inv(View()) && pc.Idle?
    }

    constructor (n: nat, perProcess: bool)
      requires 0 < n
      ensures Valid() && View() == Init(n, perProcess)
    {
      state, curRb, nextRb, prevRb, dispatcherFault := PreemptNone, 0, None, 0, false;
      rings := FreshRings(n);
      this.perProcess := perProcess;
      wptrReg, contextSwitchCntl, restoreAddr, smmuTtbr := 0, false, 0, DEFAULT_TTBR0;
      executing, hwTtbr, irqRaised := 0, DEFAULT_TTBR0, false;
      pc, history := Idle, History([], 0, 0, 0, 0, false);
      new;
      InitInv(n, perProcess);
    }

    /** Compare-and-swap of the state word. */
    method MovePreemptState(from: PreemptState, to: PreemptState) returns (moved: bool)
      modifies this`state
      ensures moved == (old(state) == from)
      ensures state == if moved then to else old(state)
    {
      moved := state == from;
      if moved { state := to; }
    }

    /** Publishes words of `rb`; rings the doorbell if `rb` is current and no
        preemption is going on.  A handler may be between any two of its sections. */
    method RingbufferSubmit(rb: nat, words: nat)
      requires Inv(View()) && rb < |rings|
      requires 0 < words && Count(rings[rb].rptr, rings[rb].wptr) + words < KGSL_RB_DWORDS
      modifies this`wptrReg, this`history, this`rings
      ensures Inv(View()) && View() == ApplySubmit(old(View()), rb, words)
      ensures rings == old(rings)[rb := old(rings)[rb].(wptr := Advance(old(rings)[rb].wptr, words))]
      ensures wptrReg == if state.PreemptNone? && curRb == rb then rings[rb].wptr else old(wptrReg)
    {
      SubmitKeeps(View(), rb, words);
      Publish(rb, words, Advance(rings[rb].wptr, words));
    }

    method Publish(rb: nat, ghost words: nat, pending: RingPos)
      requires Shape(View()) && rb < |rings| && 0 < words && Count(rings[rb].rptr, rings[rb].wptr) + words < KGSL_RB_DWORDS
      requires pending == Advance(rings[rb].wptr, words)
      modifies this`wptrReg, this`history, this`rings
      ensures View() == ApplySubmit(old(View()), rb, words)
      ensures rings == old(rings)[rb := old(rings)[rb].(wptr := pending)]
      ensures wptrReg == if state.PreemptNone? && curRb == rb then pending else old(wptrReg)
    {
      if state.PreemptNone? {
        if curRb == rb {
          wptrReg := pending;
          history := history.(bells := history.bells + [Doorbell(rb, executing)], late := false);
        }
      } else if curRb == rb {
        history := history.(late := true);
      }
      rings := rings[rb := rings[rb].(wptr := pending)];
    }

    /** Brings the WPTR register up to the current ring's write pointer. */
    method UpdateWptr()
      requires curRb < |rings|
      modifies this`wptrReg, this`history, this`pc
      ensures View() == OwnUpdate(old(View())) && wptrReg == rings[curRb].wptr
    {
      var wptr := wptrReg;
      if wptr != rings[curRb].wptr {
        wptrReg := rings[curRb].wptr;
        history := history.(bells := history.bells + [Doorbell(curRb, executing)]);
      }
      history := history.(late := false);
      pc := Finish;
    }

    /** Finds the highest-priority ring with outstanding words. */
    method NextRingbuffer() returns (next: Option<nat>)
      requires Shape(View()) && pc == Scan(0)
      modifies this`pc
      ensures next == (var f := FirstBusy(rings, 0); if f == |rings| then None else Some(f))
      ensures pc == if next.None? then Finish else if next.value == curRb then Update else Record(next.value)
    {
      var i := 0;
      while i < |rings|
        invariant i <= |rings| && pc == Scan(i)
        invariant FirstBusy(rings, 0) == FirstBusy(rings, i)
      {
        var empty := rings[i].rptr == rings[i].wptr;
        if !empty {
          pc := if i == curRb then Update else Record(i);
          return Some(i);
        }
        i := i + 1;
        pc := Scan(i);
      }
      pc := Finish;
      return None;
    }

    /** Puts ring `n`'s write pointer in its record, and reads its page table. */
    method RecordRing(n: nat) returns (ttbr0: int)
      requires n < |rings|
      modifies this`rings, this`pc
      ensures ttbr0 == old(rings)[n].ttbr && View() == OwnRecord(old(View()), n)
      ensures rings == old(rings)[n := old(rings)[n].(recWptr := old(rings)[n].wptr)]
    {
      ttbr0 := rings[n].ttbr;
      rings := rings[n := rings[n].(recWptr := rings[n].wptr)];
      pc := Program(n, ttbr0);
    }

    /** Hands ring `n` to the CP: its page table in the SMMU record, its record's
        address, and the trigger. */
    method ProgramSwitch(n: nat, ttbr0: int)
      modifies this
      ensures View() == OwnProgram(old(View()), n, ttbr0)
      ensures smmuTtbr == (if perProcess then ttbr0 else old(smmuTtbr)) && restoreAddr == n && nextRb == Some(n)
      ensures state.PreemptTriggered? && contextSwitchCntl
    {
      if perProcess {
        smmuTtbr := ttbr0;
      }
      restoreAddr := n;
      nextRb := Some(n);
      state := PreemptTriggered;
      contextSwitchCntl := true;
      pc := Idle;
      history := history.(triggers := history.triggers + 1);
    }

    /** Past the compare-and-swap: switch to the highest-priority busy ring, or
        settle and give the state word back. */
    method TriggerFromStart()
      requires Shape(View()) && pc == Scan(0)
      modifies this
      ensures View() == ScanResult(old(View()), 0)
      ensures curRb == old(curRb) && prevRb == old(prevRb) && (state.PreemptNone? || state.PreemptTriggered?)
    {
      var next := NextRingbuffer();
      if next.None? || next.value == curRb {
        if next.Some? {
          UpdateWptr();
        }
        state := PreemptNone;
        pc := Idle;
        return;
      }
      var ttbr0 := RecordRing(next.value);
      ProgramSwitch(next.value, ttbr0);
    }

    /** Starts a switch to the highest-priority busy ring, if it is another one. */
    method PreemptionTrigger()
      requires Valid()
      modifies this
      ensures Valid() && View() == TriggerRun(old(View()))
      ensures curRb == old(curRb) && prevRb == old(prevRb) && dispatcherFault == old(dispatcherFault)
      ensures old(state).PreemptNone? ==> state.PreemptNone? || state.PreemptTriggered?
      ensures !old(state).PreemptNone? ==> View() == old(View())
    {
      TriggerKeeps(View());
      TriggerEffect(View());
      var moved := MovePreemptState(PreemptNone, PreemptStart);
      if !moved { return; }
      pc := Scan(0);
      TriggerFromStart();
    }

    /** Makes the ring the hardware has switched to current. */
    method SwapRbs()
      requires nextRb.Some?
      modifies this`prevRb, this`curRb, this`nextRb, this`history, this`pc
      ensures View() == OwnSwap(old(View()))
      ensures Some(curRb) == old(nextRb) && prevRb == old(curRb) && nextRb == None
    {
      prevRb := curRb;
      curRb := nextRb.value;
      nextRb := None;
      history := history.(swaps := history.swaps + 1);
      pc := Update;
    }

    /** Gives the state word back. */
    method ReleaseState()
      modifies this`state, this`pc
      ensures View() == OwnFinish(old(View()))
    {
      state := PreemptNone;
      pc := Idle;
    }

    method FinishSwitch()
      requires Shape(View()) && nextRb.Some?
      modifies this
      ensures View() == OwnFinish(OwnUpdate(OwnSwap(old(View()))))
      ensures Some(curRb) == old(nextRb) && prevRb == old(curRb) && nextRb == None && state.PreemptNone?
      ensures curRb < |rings| && wptrReg == rings[curRb].wptr && rings == old(rings)
    {
      SwapRbs();
      UpdateWptr();
      ReleaseState();
    }

    /** Takes the interrupt; true if the completion is this handler's to finish. */
    method ClaimCompletion() returns (moved: bool)
      requires irqRaised
      modifies this
      ensures View() == ApplyIrq(old(View())) && moved == old(state).PreemptTriggered? && !irqRaised
      ensures state == if moved then PreemptPending else old(state)
    {
      irqRaised := false;
      moved := MovePreemptState(PreemptTriggered, PreemptPending);
      if !moved { return; }
      history := history.(irqClaims := history.irqClaims + 1);
      pc := CheckStatus;
    }

    /** A claimed completion: unless the hardware is still switching, the switch
        is finished and the next one triggered. */
    method CompleteSwitch() returns (scheduled: bool)
      requires Inv(View()) && pc.CheckStatus?
      modifies this
      ensures scheduled == old(contextSwitchCntl)
      ensures scheduled ==> state.PreemptComplete? && curRb == old(curRb) && nextRb == old(nextRb)
      ensures !scheduled ==> Some(curRb) == old(nextRb) && prevRb == old(curRb)
      ensures Inv(View()) && pc.Idle?
      ensures View() == var t := RunOwner(old(View())); if t.d.st.PreemptComplete? then t else TriggerRun(t)
    {
      CompletionRuns(View());
      var status := contextSwitchCntl;
      if status {
        state := PreemptComplete;
        pc := Idle;
        return true;
      }
      pc := SwapRings;
      FinishSwitch();
      PreemptionTrigger();
      return false;
    }

    /** The completion interrupt; true if the dispatcher is scheduled to clean up. */
    method PreemptCallback() returns (scheduled: bool)
      requires Valid() && irqRaised
      modifies this
      ensures Valid() && View() == CallbackRun(old(View()))
      ensures scheduled <==> old(state).PreemptTriggered? && old(contextSwitchCntl)
      ensures old(state).PreemptTriggered? && old(contextSwitchCntl) ==>
                state.PreemptComplete? && curRb == old(curRb) && nextRb == old(nextRb)
      ensures old(state).PreemptTriggered? && !old(contextSwitchCntl) ==> Some(curRb) == old(nextRb) && prevRb == old(curRb)
      ensures !old(state).PreemptTriggered? ==> state == old(state) && curRb == old(curRb) && nextRb == old(nextRb) && !irqRaised
    {
      IrqKeeps(View());
      var moved := ClaimCompletion();
      if !moved { return false; }
      scheduled := CompleteSwitch();
    }

    /** Clean-up of a switch the interrupt handler could not finish. */
    method PreemptionDone(awake: bool)
      requires Valid() && state.PreemptComplete?
      modifies this
      ensures Valid() && View() == RunOwner(ApplySchedule(old(View()), awake))
      ensures dispatcherFault <==> old(dispatcherFault) || (awake && contextSwitchCntl)
      ensures contextSwitchCntl == old(contextSwitchCntl)
      ensures !awake || contextSwitchCntl ==> state.PreemptComplete? && curRb == old(curRb) && nextRb == old(nextRb)
      ensures awake && !contextSwitchCntl ==>
                && state.PreemptNone? && Some(curRb) == old(nextRb) && prevRb == old(curRb) && nextRb == None
                && curRb < |rings| && wptrReg == rings[curRb].wptr
    {
      ScheduleKeeps(View(), awake);
      if !awake { return; }
      var status := contextSwitchCntl;
      if status {
        dispatcherFault := true;
        return;
      }
      pc := SwapRings;
      SwapRuns(View());
      FinishSwitch();
    }

    method PreemptionSchedule(enabled: bool, awake: bool)
      requires Valid()
      modifies this
      ensures Valid()
      ensures View() == if enabled then ScheduleRun(old(View()), awake) else old(View())
    {
      if !enabled { return; }
      if state.PreemptComplete? {
        PreemptionDone(awake);
      }
      PreemptionTrigger();
    }

    /** The timer that detects a stuck switch. */
    method PreemptionTimer() returns (schedule: bool)
      requires Valid()
      modifies this`state, this`history
      ensures Valid() && View() == ApplyTimer(old(View())) && schedule == old(state).PreemptTriggered?
      ensures state == if schedule then PreemptFaulted else old(state)
    {
      TimerKeeps(View());
      schedule := MovePreemptState(PreemptTriggered, PreemptFaulted);
      if schedule {
        history := history.(timerClaims := history.timerClaims + 1);
      }
    }

    /** The timer's worker: the switch may have completed after all, and the dispatcher
        is scheduled to clean up; otherwise a fault is reported. */
    method PreemptionWorker(awake: bool) returns (scheduled: bool)
      requires Valid()
      modifies this`state, this`dispatcherFault
      ensures Valid() && View() == ApplyWorker(old(View()), awake)
      ensures old(state).PreemptFaulted? && (!awake || contextSwitchCntl) ==> dispatcherFault && state.PreemptFaulted?
      ensures old(state).PreemptFaulted? && awake && !contextSwitchCntl ==>
                state.PreemptComplete? && dispatcherFault == old(dispatcherFault)
      ensures !old(state).PreemptFaulted? ==> state == old(state) && dispatcherFault == old(dispatcherFault)
      ensures scheduled <==> old(state).PreemptFaulted? && state.PreemptComplete?
    {
      WorkerKeeps(View(), awake);
      if !state.PreemptFaulted? { return false; }
      if awake {
        var status := contextSwitchCntl;
        if !status {
          state := PreemptComplete;
          return true;
        }
      }
      dispatcherFault := true;
      return false;
    }

    /** Clears the state word, the records and the page tables of all rings. */
    method PreemptionStart(enabled: bool)
      modifies this`state, this`rings, this`smmuTtbr
      ensures !enabled ==> unchanged(this)
      ensures enabled ==>
                && state.PreemptNone? && |rings| == |old(rings)|
                && smmuTtbr == (if perProcess then DEFAULT_TTBR0 else old(smmuTtbr))
                && forall i :: 0 <= i < |rings| ==>
                     rings[i] == old(rings)[i].(recRptr := 0, recWptr := 0, ttbr := DEFAULT_TTBR0)
    {
      if !enabled { return; }
      state := PreemptNone;
      if perProcess {
        smmuTtbr := DEFAULT_TTBR0;
      }
      for i := 0 to |rings|
        modifies this`rings
        invariant |rings| == |old(rings)|
        invariant forall k :: 0 <= k < i ==> rings[k] == old(rings)[k].(recRptr := 0, recWptr := 0, ttbr := DEFAULT_TTBR0)
        invariant forall k :: i <= k < |rings| ==> rings[k] == old(rings)[k]
      {
        rings := rings[i := rings[i].(recRptr := 0, recWptr := 0, ttbr := DEFAULT_TTBR0)];
      }
    }

    /** Clears the pointers of all rings. */
    method RbStart()
      modifies this`rings
      ensures |rings| == |old(rings)|
      ensures forall i :: 0 <= i < |rings| ==> rings[i] == old(rings)[i].(wptr := 0, rptr := 0)
    {
      for i := 0 to |rings|
        invariant |rings| == |old(rings)|
        invariant forall k :: 0 <= k < i ==> rings[k] == old(rings)[k].(wptr := 0, rptr := 0)
        invariant forall k :: i <= k < |rings| ==> rings[k] == old(rings)[k]
      {
        rings := rings[i := rings[i].(wptr := 0, rptr := 0)];
      }
    }

    /** Clears everything the driver keeps of the rings and of the switch. */
    method StartOver()
      modifies this`state, this`rings, this`smmuTtbr
      ensures state.PreemptNone? && rings == FreshRings(|old(rings)|)
      ensures smmuTtbr == if perProcess then DEFAULT_TTBR0 else old(smmuTtbr)
    {
      PreemptionStart(true);
      RbStart();
      assert rings == FreshRings(|rings|);
    }

    /** The hung ring becomes current. */
    method MakeHungCurrent()
      modifies this`prevRb, this`curRb
      ensures curRb == executing && prevRb == if old(curRb) != executing then old(curRb) else old(prevRb)
    {
      if curRb != executing {
        prevRb := curRb;
        curRb := executing;
      }
    }

    /** The hung ring becomes current, the hardware is reset, and the driver starts
        over.  `nextRb` is left as it is. */
    method Recover()
      requires pc.Idle? && !dispatcherFault
      modifies this
      ensures View() == Restarted(old(View()))
    {
      MakeHungCurrent();
      StartOver();
      wptrReg, contextSwitchCntl, hwTtbr, irqRaised := 0, false, DEFAULT_TTBR0, false;
      history := History(history.bells, 0, 0, 0, 0, false);
    }

    /** Fault recovery: takes the fault, and does no more with the power off or the
        SMMU stalled. */
    method DoFault(awake: bool, stalled: bool)
      requires Valid()
      modifies this
      ensures Valid() && View() == ApplyRestart(old(View()), awake && !stalled) && !dispatcherFault
      ensures !old(dispatcherFault) || !awake || stalled ==> state == old(state) && curRb == old(curRb) && rings == old(rings)
      ensures old(dispatcherFault) && awake && !stalled ==>
                && state.PreemptNone? && !contextSwitchCntl && curRb == executing == old(executing) && wptrReg == 0
                && prevRb == (if old(curRb) != curRb then old(curRb) else old(prevRb))
                && |rings| == |old(rings)| && forall i :: 0 <= i < |rings| ==> Empty(rings[i]) && rings[i].wptr == 0
    {
      RestartKeeps(View(), awake && !stalled);
      var fault := dispatcherFault;
      dispatcherFault := false;
      if !fault { return; }
      if !awake { return; }
      if stalled { return; }
      Recover();
    }
  }

  lemma TriggerKeeps(s: Sys)
    requires Inv(s) && s.d.pc.Idle?
    ensures Inv(TriggerRun(s))
  {
    BeginKeeps(s);
    RunOwnerKeeps(ApplyBegin(s));
  }

  /** What a trigger does, in terms of its critical sections. */
  lemma TriggerEffect(s: Sys)
    requires Inv(s) && s.d.pc.Idle?
    ensures TriggerRun(s) == if s.d.st.PreemptNone? then ScanResult(ApplyBegin(s), 0) else s
  {
    if s.d.st.PreemptNone? {
      BeginKeeps(s);
      ScanOutcome(ApplyBegin(s), 0);
    }
  }

  lemma StatusRuns(s: Sys)
    requires Inv(s) && s.d.pc.CheckStatus?
    ensures RunOwner(s) == if s.g.cntl then OwnCheckStatus(s) else RunOwner(OwnCheckStatus(s))
  {
    OwnerShape(s, OwnCheckStatus(s));
  }

  /** What a claimed completion runs through. */
  lemma CompletionRuns(s: Sys)
    requires Inv(s) && s.d.pc.CheckStatus?
    ensures Inv(RunOwner(s)) && RunOwner(s).d.pc.Idle?
    ensures s.g.cntl ==> RunOwner(s) == OwnCheckStatus(s)
    ensures !s.g.cntl ==> OwnCheckStatus(s).d.next.Some? && Shape(OwnCheckStatus(s))
                          && RunOwner(s) == OwnFinish(OwnUpdate(OwnSwap(OwnCheckStatus(s))))
                          && RunOwner(s).d.st.PreemptNone?
  {
    RunOwnerKeeps(s);
    CheckStatusKeeps(s);
    StatusRuns(s);
    if !s.g.cntl { SwapRuns(OwnCheckStatus(s)); }
  }

  lemma SwapRuns(s: Sys)
    requires Inv(s) && s.d.pc.SwapRings?
    ensures RunOwner(s) == OwnFinish(OwnUpdate(OwnSwap(s))) && Inv(RunOwner(s))
  {
    RunOwnerKeeps(s);
    SwapKeeps(s);
    UpdateRuns(OwnSwap(s));
  }
}
