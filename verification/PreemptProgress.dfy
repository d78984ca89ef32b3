/** Everything drains: with no new submissions, no timeouts and no faults, every
    fair run of the preemption protocol empties every ring. */
module PreemptProgress {
  import opened Common
  import opened PreemptModel
  import opened PreemptSafety
  import opened PreemptHandlers

  /** Words published and not yet executed, in the rings from `i` on. */
  function Outstanding(rings: seq<Ring>, i: nat): nat
    requires i <= |rings|
    decreases |rings| - i
  {
    if i == |rings| then 0
    else Count(rings[i].rptr, rings[i].wptr) + Outstanding(rings, i + 1)
  }

  predicate SameQueues(a: seq<Ring>, b: seq<Ring>) {
    |a| == |b| && forall i :: 0 <= i < |a| ==> a[i].rptr == b[i].rptr && a[i].wptr == b[i].wptr
  }

  lemma {:induction false} SameOutstanding(a: seq<Ring>, b: seq<Ring>, i: nat)
    requires SameQueues(a, b) && i <= |a|
    ensures Outstanding(a, i) == Outstanding(b, i) && FirstBusy(a, i) == FirstBusy(b, i)
    decreases |a| - i
  {
    if i < |a| { SameOutstanding(a, b, i + 1); }
  }

  /** Moving one ring's pointers changes the total by that ring's change. */
  lemma {:induction false} OutstandingMoves(a: seq<Ring>, k: nat, r: Ring, i: nat)
    requires k < |a| && i <= |a|
    ensures Outstanding(a[k := r], i) + (if i <= k then Count(a[k].rptr, a[k].wptr) else 0)
         == Outstanding(a, i) + (if i <= k then Count(r.rptr, r.wptr) else 0)
    decreases |a| - i
  {
    if i < |a| { OutstandingMoves(a, k, r, i + 1); }
  }

  lemma {:induction false} BusyIffOutstanding(a: seq<Ring>, i: nat)
    requires i <= |a|
    ensures Outstanding(a, i) == 0 <==> FirstBusy(a, i) == |a|
    decreases |a| - i
  {
    if i < |a| { BusyIffOutstanding(a, i + 1); }
  }

  /** The hardware works on the highest-priority busy ring `f` with all its words
      announced, and the handler under way, if any, will leave it there. */
  predicate AtWork(s: Sys, f: nat)
    requires Shape(s) && f < |s.rings|
  {
    && s.d.cur == f && !InFlight(s.d) && s.g.wreg == s.rings[f].wptr
    && !s.d.pc.Record? && !s.d.pc.Program?
    && (s.d.pc.Scan? ==> s.d.pc.ring <= f)
  }

  /** How far a handler or switch is from putting the hardware to work on `f`:
      at most one lap with another target, then one lap towards `f`. */
  function Distance(d: Driver, cntl: bool, f: nat, n: nat): nat {
    var lap := 22 + n;
    var far := lap + 4;
    var flight := (if d.next == Some(f) then 0 else far) + (if cntl then 5 else 0);
    match d.pc
    case Update => if d.cur == f then 1 else lap + 3
    case Finish => lap + 2
    case Scan(i) => if i <= f then 20 + (f - i) else far + 16 + (if i <= n then n - i else 0)
    case Record(i) => (if i == f then 0 else far) + 15
    case Program(i, _) => (if i == f then 0 else far) + 14
    case CheckStatus => flight + 7
    case SwapRings => flight + 5
    case Idle =>
      if d.st.PreemptTriggered? then flight + 8
      else if d.st.PreemptFaulted? then flight + 7
      else if d.st.PreemptComplete? then flight + 6
      else lap + 1
  }

  function Rank(s: Sys): nat
    requires Shape(s) && FirstBusy(s.rings, 0) < |s.rings|
  {
    var f := FirstBusy(s.rings, 0);
    if AtWork(s, f) then 0 else Distance(s.d, s.g.cntl, f, |s.rings|)
  }

  datatype Actor = Execution | Handler | NewTrigger | Switching | Interrupting | TimeoutWorker | Dispatcher

  /** What each actor could do now. */
  predicate Enabled(s: Sys, w: Actor)
    requires Shape(s)
  {
    match w
    case Execution => s.rings[s.g.ring].rptr != s.g.wreg
    case Handler => !s.d.pc.Idle?
    case NewTrigger => s.d.st.PreemptNone?
    case Switching => s.g.cntl
    case Interrupting => s.g.irq && s.d.st.PreemptTriggered?
    case TimeoutWorker => s.d.st.PreemptFaulted? && !s.g.cntl
    case Dispatcher => s.d.st.PreemptComplete? && s.d.pc.Idle? && !s.g.cntl
  }

  /** The step is one of this actor, and it does something. */
  predicate Serves(s: Sys, a: Step, w: Actor)
    requires Shape(s)
  {
    Enabled(s, w) &&
    match w
    case Execution => a.HwExec? && 0 < a.words <= Count(s.rings[s.g.ring].rptr, s.g.wreg)
    case Handler => a.Owner?
    case NewTrigger => a.Begin?
    case Switching => a.HwSwitch?
    case Interrupting => a.Irq?
    case TimeoutWorker => a == Worker(true)
    case Dispatcher => a == Schedule(true)
  }

  /** The actor that the run is waiting for. */
  function Due(s: Sys): Actor
    requires Shape(s) && FirstBusy(s.rings, 0) < |s.rings|
  {
    if AtWork(s, FirstBusy(s.rings, 0)) then Execution
    else if !s.d.pc.Idle? then Handler
    else if s.d.st.PreemptNone? then NewTrigger
    else if s.g.cntl then Switching
    else if s.d.st.PreemptTriggered? then Interrupting
    else if s.d.st.PreemptFaulted? then TimeoutWorker
    else Dispatcher
  }

  predicate Quiet(a: Step) {
    !a.Submit? && !a.Timer? && !a.GpuFault? && !a.Restart?
  }

  /** From `s` to `t` either words were executed, or the rank did not grow, and
      an unchanged rank leaves the same actor due. */
  predicate Nearer(s: Sys, t: Sys)
    requires Shape(s) && Shape(t) && |t.rings| == |s.rings|
  {
    FirstBusy(s.rings, 0) < |s.rings| ==>
      || Outstanding(t.rings, 0) < Outstanding(s.rings, 0)
      || (&& Outstanding(t.rings, 0) == Outstanding(s.rings, 0)
          && FirstBusy(t.rings, 0) == FirstBusy(s.rings, 0)
          && (Rank(t) < Rank(s) || (Rank(t) == Rank(s) && Due(t) == Due(s))))
  }

  predicate StrictlyNearer(s: Sys, t: Sys)
    requires Shape(s) && Shape(t) && |t.rings| == |s.rings|
  {
    || Outstanding(t.rings, 0) < Outstanding(s.rings, 0)
    || (&& Outstanding(t.rings, 0) == Outstanding(s.rings, 0)
        && FirstBusy(t.rings, 0) == FirstBusy(s.rings, 0) < |s.rings|
        && Rank(t) < Rank(s))
  }

  lemma DueIsEnabled(s: Sys)
    requires Inv(s) && FirstBusy(s.rings, 0) < |s.rings|
    ensures Enabled(s, Due(s))
  {
  }

  lemma ScanNearer(s: Sys, i: nat)
    requires Inv(s) && s.d.pc == Scan(i) && FirstBusy(s.rings, 0) < |s.rings|
    ensures Nearer(s, OwnScan(s, i)) && (Due(s) == Handler ==> StrictlyNearer(s, OwnScan(s, i)))
  {
    SameOutstanding(s.rings, OwnScan(s, i).rings, 0);
  }

  lemma RecordNearer(s: Sys, i: nat)
    requires Inv(s) && s.d.pc == Record(i) && FirstBusy(s.rings, 0) < |s.rings|
    ensures Nearer(s, OwnRecord(s, i)) && (Due(s) == Handler ==> StrictlyNearer(s, OwnRecord(s, i)))
  {
    SameOutstanding(s.rings, OwnRecord(s, i).rings, 0);
  }

  lemma ProgramNearer(s: Sys, i: nat, ttbr: int)
    requires Inv(s) && s.d.pc == Program(i, ttbr) && FirstBusy(s.rings, 0) < |s.rings|
    ensures Nearer(s, OwnProgram(s, i, ttbr)) && (Due(s) == Handler ==> StrictlyNearer(s, OwnProgram(s, i, ttbr)))
  {
    SameOutstanding(s.rings, OwnProgram(s, i, ttbr).rings, 0);
  }

  lemma CheckStatusNearer(s: Sys)
    requires Inv(s) && s.d.pc.CheckStatus? && FirstBusy(s.rings, 0) < |s.rings|
    ensures Nearer(s, OwnCheckStatus(s)) && (Due(s) == Handler ==> StrictlyNearer(s, OwnCheckStatus(s)))
  {
    SameOutstanding(s.rings, OwnCheckStatus(s).rings, 0);
  }

  lemma SwapNearer(s: Sys)
    requires Inv(s) && s.d.pc.SwapRings? && FirstBusy(s.rings, 0) < |s.rings|
    ensures Nearer(s, OwnSwap(s)) && (Due(s) == Handler ==> StrictlyNearer(s, OwnSwap(s)))
  {
    SameOutstanding(s.rings, OwnSwap(s).rings, 0);
  }

  lemma UpdateNearer(s: Sys)
    requires Inv(s) && s.d.pc.Update? && FirstBusy(s.rings, 0) < |s.rings|
    ensures Nearer(s, OwnUpdate(s)) && (Due(s) == Handler ==> StrictlyNearer(s, OwnUpdate(s)))
  {
    SameOutstanding(s.rings, OwnUpdate(s).rings, 0);
  }

  lemma FinishNearer(s: Sys)
    requires Inv(s) && s.d.pc.Finish? && FirstBusy(s.rings, 0) < |s.rings|
    ensures Nearer(s, OwnFinish(s)) && (Due(s) == Handler ==> StrictlyNearer(s, OwnFinish(s)))
  {
    SameOutstanding(s.rings, OwnFinish(s).rings, 0);
  }

  lemma OwnerNearer(s: Sys)
    requires Inv(s) && FirstBusy(s.rings, 0) < |s.rings|
    ensures Shape(ApplyOwner(s)) && |ApplyOwner(s).rings| == |s.rings|
    ensures Nearer(s, ApplyOwner(s))
    ensures Due(s) == Handler ==> StrictlyNearer(s, ApplyOwner(s))
  {
    OwnerShape(s, ApplyOwner(s));
    match s.d.pc
    case Idle =>
    case Scan(i) => ScanNearer(s, i);
    case Record(i) => RecordNearer(s, i);
    case Program(i, ttbr) => ProgramNearer(s, i, ttbr);
    case CheckStatus => CheckStatusNearer(s);
    case SwapRings => SwapNearer(s);
    case Update => UpdateNearer(s);
    case Finish => FinishNearer(s);
  }

  lemma HwExecNearer(s: Sys, n: nat)
    requires Inv(s)
    ensures var t := ApplyHwExec(s, n);
            Outstanding(t.rings, 0) <= Outstanding(s.rings, 0) && Nearer(s, t) &&
            (0 < n <= Count(s.rings[s.g.ring].rptr, s.g.wreg) ==> StrictlyNearer(s, t))
  {
    var r := s.rings[s.g.ring];
    if 0 < n <= Count(r.rptr, s.g.wreg) {
      OutstandingMoves(s.rings, s.g.ring, r.(rptr := Advance(r.rptr, n)), 0);
    }
  }

  lemma HwPagetableNearer(s: Sys, v: int)
    requires Inv(s)
    ensures Nearer(s, ApplyHwPagetable(s, v))
  {
    SameOutstanding(s.rings, ApplyHwPagetable(s, v).rings, 0);
  }

  lemma HwSwitchNearer(s: Sys)
    requires Inv(s)
    ensures Nearer(s, ApplyHwSwitch(s))
    ensures FirstBusy(s.rings, 0) < |s.rings| && Due(s) == Switching ==> StrictlyNearer(s, ApplyHwSwitch(s))
  {
    SameOutstanding(s.rings, ApplyHwSwitch(s).rings, 0);
  }

  lemma BeginNearer(s: Sys)
    requires Inv(s) && FirstBusy(s.rings, 0) < |s.rings|
    ensures Nearer(s, ApplyBegin(s)) && (Due(s) == NewTrigger ==> StrictlyNearer(s, ApplyBegin(s)))
  {
  }

  lemma IrqNearer(s: Sys)
    requires Inv(s) && FirstBusy(s.rings, 0) < |s.rings|
    ensures Nearer(s, ApplyIrq(s)) && (Due(s) == Interrupting ==> StrictlyNearer(s, ApplyIrq(s)))
  {
  }

  lemma WorkerNearer(s: Sys, awake: bool)
    requires Inv(s) && FirstBusy(s.rings, 0) < |s.rings| && !ApplyWorker(s, awake).d.fault
    ensures Nearer(s, ApplyWorker(s, awake))
    ensures Due(s) == TimeoutWorker && awake ==> StrictlyNearer(s, ApplyWorker(s, awake))
  {
  }

  lemma ScheduleNearer(s: Sys, awake: bool)
    requires Inv(s) && FirstBusy(s.rings, 0) < |s.rings| && !ApplySchedule(s, awake).d.fault
    ensures Nearer(s, ApplySchedule(s, awake))
    ensures Due(s) == Dispatcher && awake ==> StrictlyNearer(s, ApplySchedule(s, awake))
  {
  }

  /** Every quiet, fault-free step brings the run nearer to the end or leaves the
      same actor due, and a step of the actor that is due brings it nearer. */
  lemma QuietStepNearer(s: Sys, a: Step)
    requires Inv(s) && FirstBusy(s.rings, 0) < |s.rings| && Quiet(a) && !Apply(s, a).d.fault
    ensures Shape(Apply(s, a)) && |Apply(s, a).rings| == |s.rings|
    ensures Nearer(s, Apply(s, a))
    ensures Serves(s, a, Due(s)) ==> StrictlyNearer(s, Apply(s, a))
  {
    StepShape(s, a);
    match a
    case Begin => BeginNearer(s);
    case Owner => OwnerNearer(s);
    case HwExec(n) => HwExecNearer(s, n);
    case HwPagetable(v) => HwPagetableNearer(s, v);
    case HwSwitch => HwSwitchNearer(s);
    case Irq => IrqNearer(s);
    case Worker(awake) => WorkerNearer(s, awake);
    case Schedule(awake) => ScheduleNearer(s, awake);
    case _ =>
  }

  // ---- Infinite runs ----

  ghost predicate QuietFrom(s: Sys, a: Step, t: Sys) {
    Shape(s) && Quiet(a) && t == Apply(s, a) && !t.d.fault
  }

  /** An infinite run without submissions, timeouts or faults. */
  ghost predicate QuietRun(trace: nat -> Sys, sched: nat -> Step) {
    forall i: nat :: QuietFrom(trace(i), sched(i), trace(i + 1))
  }

  ghost predicate Turn(s: Sys, a: Step, w: Actor) {
    Shape(s) ==> !Enabled(s, w) || Serves(s, a, w)
  }

  ghost predicate GetsTurn(trace: nat -> Sys, sched: nat -> Step, w: Actor, i: nat) {
    exists j: nat :: i <= j && Turn(trace(j), sched(j), w)
  }

  /** Weak fairness: no actor is enabled for ever without taking a step. */
  ghost predicate Fair(trace: nat -> Sys, sched: nat -> Step) {
    forall w: Actor, i: nat :: GetsTurn(trace, sched, w, i)
  }

  lemma TraceStep(trace: nat -> Sys, sched: nat -> Step, k: nat)
    requires QuietRun(trace, sched) && Inv(trace(k))
    ensures Inv(trace(k + 1)) && |trace(k + 1).rings| == |trace(k).rings|
    ensures FirstBusy(trace(k).rings, 0) < |trace(k).rings| ==>
              && Nearer(trace(k), trace(k + 1))
              && (Turn(trace(k), sched(k), Due(trace(k))) ==> StrictlyNearer(trace(k), trace(k + 1)))
  {
    assert QuietFrom(trace(k), sched(k), trace(k + 1));
    StepKeeps(trace(k), sched(k));
    StepShape(trace(k), sched(k));
    if FirstBusy(trace(k).rings, 0) < |trace(k).rings| {
      QuietStepNearer(trace(k), sched(k));
      DueIsEnabled(trace(k));
    }
  }

  /** `t` has the same work left as `s`, and the same actor is due. */
  predicate AsFar(s: Sys, t: Sys) {
    && |t.rings| == |s.rings| && FirstBusy(t.rings, 0) == FirstBusy(s.rings, 0) < |s.rings|
    && Outstanding(t.rings, 0) == Outstanding(s.rings, 0)
    && Shape(s) && Shape(t) && Rank(t) == Rank(s) && Due(t) == Due(s)
  }

  lemma StillAsFar(s: Sys, t: Sys, u: Sys)
    requires AsFar(s, t) && Shape(u) && |u.rings| == |t.rings| && Nearer(t, u)
    ensures StrictlyNearer(s, u) || AsFar(s, u)
    ensures StrictlyNearer(t, u) ==> StrictlyNearer(s, u)
  {
  }

  /** One step on, the run is nearer or as far; nearer if the actor due had its turn. */
  lemma StepOn(trace: nat -> Sys, sched: nat -> Step, s: Sys, k: nat)
    requires QuietRun(trace, sched) && Inv(trace(k)) && AsFar(s, trace(k))
    ensures Inv(trace(k + 1)) && |trace(k + 1).rings| == |s.rings|
    ensures StrictlyNearer(s, trace(k + 1)) || AsFar(s, trace(k + 1))
    ensures Turn(trace(k), sched(k), Due(s)) ==> StrictlyNearer(s, trace(k + 1))
  {
    TraceStep(trace, sched, k);
    StillAsFar(s, trace(k), trace(k + 1));
  }

  /** From a point as far as `s`, with a turn of the actor due at step `j`. */
  lemma {:induction false} NearerBy(trace: nat -> Sys, sched: nat -> Step, s: Sys, k: nat, j: nat) returns (m: nat)
    requires QuietRun(trace, sched) && Inv(trace(k)) && AsFar(s, trace(k))
    requires k <= j && Turn(trace(j), sched(j), Due(s))
    ensures k < m && Inv(trace(m)) && |trace(m).rings| == |s.rings| && StrictlyNearer(s, trace(m))
    decreases j - k
  {
    StepOn(trace, sched, s, k);
    m := k + 1;
    if !StrictlyNearer(s, trace(m)) {
      m := NearerBy(trace, sched, s, k + 1, j);
    }
  }

  /** From a point with work left, a fair run gets strictly nearer to the end. */
  lemma GetsNearer(trace: nat -> Sys, sched: nat -> Step, i: nat) returns (k: nat)
    requires QuietRun(trace, sched) && Fair(trace, sched)
    requires Inv(trace(i)) && FirstBusy(trace(i).rings, 0) < |trace(i).rings|
    ensures i < k && Inv(trace(k)) && |trace(k).rings| == |trace(i).rings|
    ensures StrictlyNearer(trace(i), trace(k))
  {
    var w := Due(trace(i));
    assert GetsTurn(trace, sched, w, i);
    var j: nat :| i <= j && Turn(trace(j), sched(j), w);
    k := NearerBy(trace, sched, trace(i), i, j);
  }

  lemma {:induction false} DrainsFrom(trace: nat -> Sys, sched: nat -> Step, i: nat) returns (k: nat)
    requires QuietRun(trace, sched) && Fair(trace, sched) && Inv(trace(i))
    ensures Inv(trace(k)) && FirstBusy(trace(k).rings, 0) == |trace(k).rings|
    decreases Outstanding(trace(i).rings, 0),
              if FirstBusy(trace(i).rings, 0) < |trace(i).rings| then Rank(trace(i)) else 0
  {
    if FirstBusy(trace(i).rings, 0) == |trace(i).rings| {
      k := i;
    } else {
      k := GetsNearer(trace, sched, i);
      k := DrainsFrom(trace, sched, k);
    }
  }

  ghost predicate Drained(s: Sys) {
    forall i :: 0 <= i < |s.rings| ==> Empty(s.rings[i])
  }

  ghost predicate DrainedFrom(trace: nat -> Sys, k: nat) {
    forall m: nat :: k <= m ==> Drained(trace(m))
  }

  /** Nothing outstanding stays so: the hardware has no word left to execute. */
  lemma QuietKeepsDrained(s: Sys, a: Step)
    requires Inv(s) && Quiet(a) && Drained(s)
    ensures Drained(Apply(s, a))
  {
    StepShape(s, a);
    assert SameQueues(s.rings, Apply(s, a).rings);
  }

  lemma {:induction false} StaysDrained(trace: nat -> Sys, sched: nat -> Step, k: nat, m: nat)
    requires QuietRun(trace, sched) && Inv(trace(k)) && Drained(trace(k)) && k <= m
    ensures Inv(trace(m)) && Drained(trace(m))
    decreases m
  {
    if k < m {
      StaysDrained(trace, sched, k, m - 1);
      TraceStep(trace, sched, m - 1);
      assert QuietFrom(trace(m - 1), sched(m - 1), trace(m));
      QuietKeepsDrained(trace(m - 1), sched(m - 1));
    }
  }

  /** Progress: from every reachable state, every fair run without submissions,
      timeouts or faults comes to a point from which all rings are empty. */
  lemma EveryFairRunDrains(trace: nat -> Sys, sched: nat -> Step)
    requires Reachable(trace(0)) && QuietRun(trace, sched) && Fair(trace, sched)
    ensures exists k: nat :: DrainedFrom(trace, k)
  {
    ReachableInv(trace(0));
    var k := DrainsFrom(trace, sched, 0);
    forall m: nat | k <= m
      ensures Drained(trace(m))
    {
      StaysDrained(trace, sched, k, m);
    }
    assert DrainedFrom(trace, k);
  }
}
