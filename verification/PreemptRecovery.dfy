/** A switch that the hardware never ends: it is reported as a fault, and recovery
    returns to normal operation. */
module PreemptRecovery {
  import opened Common
  import opened PreemptModel
  import opened PreemptSafety

  // ---- The fault, step by step ----

  /** Exactly which steps raise the fault: one reported from elsewhere; the worker of a
      timed-out switch that has not ended, or with the power off; and the clean-up of a
      switch that has not ended. */
  lemma FaultRaisedExactly(s: Sys, a: Step)
    requires Inv(s) && !s.d.fault
    ensures Apply(s, a).d.fault <==>
              || a.GpuFault?
              || (a.Worker? && s.d.st.PreemptFaulted? && (!a.awake || s.g.cntl))
              || (a.Schedule? && s.d.st.PreemptComplete? && s.d.pc.Idle? && a.awake && s.g.cntl)
  {
    OwnerLeavesFault(s);
  }

  /** Exactly which steps take it: recovery, once no handler is under way. */
  lemma FaultTakenExactly(s: Sys, a: Step)
    requires Inv(s) && s.d.fault
    ensures !Apply(s, a).d.fault <==> a.Restart? && s.d.pc.Idle?
  {
    OwnerLeavesFault(s);
  }

  lemma OwnerLeavesFault(s: Sys)
    requires Inv(s)
    ensures ApplyOwner(s).d.fault == s.d.fault
  {
    match s.d.pc
    case Idle =>
    case Scan(_) =>
    case Record(_) =>
    case Program(_, _) =>
    case CheckStatus =>
    case SwapRings =>
    case Update =>
    case Finish =>
  }

  // ---- A switch that does not end ----

  /** A switch was started and the hardware has not ended it. */
  predicate Hung(s: Sys) { InFlight(s.d) && s.g.cntl }

  /** It has been reported, and recovery can start. */
  predicate Reported(s: Sys) { s.d.fault && s.d.pc.Idle? }

  /** What is still to come before it is reported. */
  function Stage(s: Sys): nat { if s.d.st.PreemptTriggered? then 3 else if s.d.st.PreemptPending? then 2 else 1 }

  datatype Attendant = TimerFires | HandlerRuns | WorkerRuns | DispatcherRuns

  predicate Is(a: Step, w: Attendant) {
    match w
    case TimerFires => a.Timer?
    case HandlerRuns => a.Owner?
    case WorkerRuns => a.Worker?
    case DispatcherRuns => a == Schedule(true)
  }

  /** Who moves a hung switch on, in a state of the word. */
  function Awaited(st: PreemptState): Attendant {
    match st
    case PreemptTriggered => TimerFires
    case PreemptPending => HandlerRuns
    case PreemptFaulted => WorkerRuns
    case _ => DispatcherRuns
  }

  /** As long as the hardware does not end the switch, no step but recovery does:
      the rings stay as they are, and a fault stays raised. */
  lemma HungStays(s: Sys, a: Step)
    requires Inv(s) && Hung(s) && !a.HwSwitch? && !(a.Restart? && Reported(s))
    ensures var t := Apply(s, a);
            && Inv(t) && Hung(t) && t.d.cur == s.d.cur && t.d.next == s.d.next && (s.d.fault ==> t.d.fault)
            && (s.d.st.PreemptFaulted? ==> t.d.st.PreemptFaulted?)
  {
    StepKeeps(s, a);
    OwnerLeavesFault(s);
  }

  /** Until it is reported, a hung switch comes no further from it; and the actor it
      waits for brings it nearer. */
  lemma HungNearer(s: Sys, a: Step)
    requires Inv(s) && Hung(s) && !Reported(s) && !a.HwSwitch?
    ensures var t := Apply(s, a);
            || Reported(t)
            || (Stage(t) < Stage(s) && !Reported(t))
            || (t.d.st == s.d.st && !Is(a, Awaited(s.d.st)))
  {
    HungStays(s, a);
  }

  // ---- Runs ----

  predicate NeverEnds(steps: seq<Step>) { forall i :: 0 <= i < |steps| ==> !steps[i].HwSwitch? && !steps[i].Restart? }

  lemma {:induction false} HungRun(s: Sys, steps: seq<Step>)
    requires Inv(s) && Hung(s) && NeverEnds(steps)
    ensures var t := Run(s, steps);
            && Inv(t) && Hung(t) && t.d.cur == s.d.cur && (s.d.fault ==> t.d.fault)
            && (s.d.st.PreemptFaulted? ==> t.d.st.PreemptFaulted?)
    decreases |steps|
  {
    if steps != [] {
      HungStays(s, steps[0]);
      HungRun(Apply(s, steps[0]), steps[1..]);
    }
  }

  lemma {:induction false} RunParts(s: Sys, a: seq<Step>, b: seq<Step>)
    requires Shape(s)
    ensures Run(s, a + b) == Run(Run(s, a), b)
    decreases |a|
  {
    if a == [] {
      assert a + b == b;
    } else {
      assert (a + b)[1..] == a[1..] + b;
      StepShape(s, a[0]);
      RunParts(Apply(s, a[0]), a[1..], b);
    }
  }

  /** Two steps, with others between and behind them. */
  lemma RunAround(s: Sys, x: Step, between: seq<Step>, y: Step, after: seq<Step>)
    requires Shape(s)
    ensures Shape(Apply(s, x)) && Shape(Apply(Run(Apply(s, x), between), y))
    ensures Run(s, [x] + between + [y] + after) == Run(Apply(Run(Apply(s, x), between), y), after)
  {
    StepShape(s, x);
    var s1 := Apply(s, x);
    var s2 := Run(s1, between);
    StepShape(s2, y);
    RunParts(s, [x] + between + [y], after);
    RunParts(s, [x] + between, [y]);
    RunParts(s, [x], between);
    assert Run(s, [x]) == Run(s1, []);
    assert Run(s2, [y]) == Run(Apply(s2, y), []);
  }

  /** Recovery from a hung switch: the ring the hardware hung on stays current, no switch
      is going on, nothing is outstanding, and the fault is taken. */
  lemma RecoveryReturns(s: Sys)
    requires Inv(s) && Hung(s) && Reported(s)
    ensures var u := Apply(s, Restart(true));
            && Inv(u) && u.d.st.PreemptNone? && !u.d.fault && !u.g.cntl && u.d.cur == u.g.ring == s.d.cur
            && forall i :: 0 <= i < |u.rings| ==> Empty(u.rings[i])
  {
    StepKeeps(s, Restart(true));
  }

  /** A switch that the hardware never ends, claimed by the timer and looked at by the
      worker, whatever else happens in between and afterwards, is reported; and
      recovery then returns to NONE. */
  lemma TimedOutIsReported(s: Sys, between: seq<Step>, awake: bool, after: seq<Step>)
    requires Inv(s) && Hung(s) && s.d.st.PreemptTriggered? && NeverEnds(between) && NeverEnds(after)
    ensures var t := Run(s, [Timer] + between + [Worker(awake)] + after);
            && t.d.st.PreemptFaulted? && t.d.pc.Idle? && t.d.fault
            && Shape(t) && Apply(t, Restart(true)).d.st.PreemptNone? && !Apply(t, Restart(true)).d.fault
  {
    var s1 := Apply(s, Timer);
    TimerClaims(s);
    HungRun(s1, between);
    var s2 := Run(s1, between);
    WorkerReports(s2, awake);
    var s3 := Apply(s2, Worker(awake));
    HungRun(s3, after);
    var t := Run(s, [Timer] + between + [Worker(awake)] + after);
    assert t == Run(s3, after) by { RunAround(s, Timer, between, Worker(awake), after); }
    RecoveryReturns(t);
  }

  lemma TimerClaims(s: Sys)
    requires Inv(s) && Hung(s) && s.d.st.PreemptTriggered?
    ensures var t := Apply(s, Timer); Inv(t) && Hung(t) && t.d.st.PreemptFaulted?
  {
    HungStays(s, Timer);
  }

  lemma WorkerReports(s: Sys, awake: bool)
    requires Inv(s) && Hung(s) && s.d.st.PreemptFaulted?
    ensures var t := Apply(s, Worker(awake)); Inv(t) && Hung(t) && t.d.st.PreemptFaulted? && t.d.fault
  {
    HungStays(s, Worker(awake));
  }

  /** The same of a switch whose interrupt came while the register was still set: the
      dispatcher's clean-up reports it. */
  lemma StuckCleanUpIsReported(s: Sys, between: seq<Step>, after: seq<Step>)
    requires Inv(s) && Hung(s) && s.d.st.PreemptPending? && NeverEnds(between) && NeverEnds(after)
    ensures var t := Run(s, [Owner] + between + [Schedule(true)] + after);
            && t.d.st.PreemptComplete? && t.d.pc.Idle? && t.d.fault
            && Shape(t) && Apply(t, Restart(true)).d.st.PreemptNone? && !Apply(t, Restart(true)).d.fault
  {
    var s1 := Apply(s, Owner);
    HungStays(s, Owner);
    StaysComplete(s1, between);
    var s2 := Run(s1, between);
    HungStays(s2, Schedule(true));
    var s3 := Apply(s2, Schedule(true));
    StaysComplete(s3, after);
    RunAround(s, Owner, between, Schedule(true), after);
    RecoveryReturns(Run(s3, after));
  }

  lemma {:induction false} StaysComplete(s: Sys, steps: seq<Step>)
    requires Inv(s) && Hung(s) && s.d.st.PreemptComplete? && NeverEnds(steps)
    ensures var t := Run(s, steps);
            Inv(t) && Hung(t) && t.d.st.PreemptComplete? && t.d.pc.Idle? && (s.d.fault ==> t.d.fault)
    decreases |steps|
  {
    if steps != [] {
      HungStays(s, steps[0]);
      CompleteStays(s, steps[0]);
      StaysComplete(Apply(s, steps[0]), steps[1..]);
    }
  }

  lemma CompleteStays(s: Sys, a: Step)
    requires Inv(s) && Hung(s) && s.d.st.PreemptComplete? && !a.HwSwitch? && !a.Restart?
    ensures Apply(s, a).d.st.PreemptComplete?
  {
  }

  // ---- Infinite runs ----

  /** From step `n` on the run takes its steps, and the hardware ends no switch. */
  ghost predicate HangsFrom(trace: nat -> Sys, sched: nat -> Step, n: nat) {
    forall i: nat {:trigger sched(i)} :: n <= i ==> HangStep(trace(i), sched(i), trace(i + 1))
  }

  ghost predicate HangStep(s: Sys, a: Step, t: Sys) { Shape(s) && t == Apply(s, a) && !a.HwSwitch? }

  ghost predicate ComesAgain(sched: nat -> Step, w: Attendant, i: nat) { exists j: nat :: i <= j && Is(sched(j), w) }

  /** The timer, the handlers, the worker and the dispatcher come again and again. */
  ghost predicate Attended(sched: nat -> Step) { forall w: Attendant, i: nat :: ComesAgain(sched, w, i) }

  /** From a hung switch, with the actor it waits for coming at step `j`. */
  lemma {:induction false} NearerBy(trace: nat -> Sys, sched: nat -> Step, i: nat, j: nat) returns (m: nat)
    requires HangsFrom(trace, sched, i) && Inv(trace(i)) && Hung(trace(i)) && !Reported(trace(i))
    requires i <= j && Is(sched(j), Awaited(trace(i).d.st))
    ensures i < m && Inv(trace(m)) && Hung(trace(m))
    ensures Reported(trace(m)) || Stage(trace(m)) < Stage(trace(i))
    decreases j - i
  {
    var s, a := trace(i), sched(i);
    assert HangStep(s, a, trace(i + 1));
    HungStays(s, a);
    HungNearer(s, a);
    m := i + 1;
    if !Reported(trace(m)) && Stage(trace(m)) >= Stage(s) {
      m := NearerBy(trace, sched, i + 1, j);
    }
  }

  lemma {:induction false} ReportedFrom(trace: nat -> Sys, sched: nat -> Step, i: nat) returns (m: nat)
    requires HangsFrom(trace, sched, i) && Attended(sched) && Inv(trace(i)) && Hung(trace(i))
    ensures i <= m && Inv(trace(m)) && Hung(trace(m)) && Reported(trace(m))
    decreases Stage(trace(i))
  {
    m := i;
    if !Reported(trace(i)) {
      var w := Awaited(trace(i).d.st);
      assert ComesAgain(sched, w, i);
      var j: nat :| i <= j && Is(sched(j), w);
      m := NearerBy(trace, sched, i, j);
      if !Reported(trace(m)) { m := ReportedFrom(trace, sched, m); }
    }
  }

  /** In a state from which recovery returns to NONE. */
  ghost predicate CanRecover(s: Sys) {
    Shape(s) && Reported(s) && Apply(s, Restart(true)).d.st.PreemptNone? && !Apply(s, Restart(true)).d.fault
  }

  /** A hung switch never goes unnoticed: from every reachable state with a switch in
      flight that the hardware never ends, every run in which the timer, the handlers, the
      worker and the dispatcher keep coming reaches a state in which the fault is raised,
      and recovery from there returns to NONE. */
  lemma EveryHungSwitchIsReported(trace: nat -> Sys, sched: nat -> Step, n: nat)
    requires Reachable(trace(n)) && Hung(trace(n)) && HangsFrom(trace, sched, n) && Attended(sched)
    ensures exists m: nat :: n <= m && CanRecover(trace(m))
  {
    ReachableInv(trace(n));
    var m := ReportedFrom(trace, sched, n);
    RecoveryReturns(trace(m));
    assert CanRecover(trace(m));
  }
}
