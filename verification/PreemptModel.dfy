/** The a5xx ringbuffer preemption protocol as a transition system.

    One step is one critical section of the driver (a section under a ring's
    `preempt_lock`, or one atomic move of the state word together with the
    register accesses next to it) or one action of the hardware.  A handler is a
    run of such steps, and other actors may move between them.  The state word
    works as a lock: at most one handler is past its compare-and-swap, so one
    program counter (`pc`) tells where that handler stands. */
module PreemptModel {
  import opened Common

  /** Page table every ring starts with. */
  const DEFAULT_TTBR0: int := 0

  type RingPos = p: nat | p < KGSL_RB_DWORDS

  datatype PreemptState =
    | PreemptNone
    | PreemptStart
    | PreemptTriggered
    | PreemptFaulted
    | PreemptPending
    | PreemptComplete

  /** The next critical section of the handler that owns the state word. */
  datatype Pc =
    | Idle
    | Scan(ring: nat)                    // look whether `ring` is empty
    | Record(ring: nat)                  // copy `wptr` of `ring` into its record
    | Program(ring: nat, ttbr: int)      // program the CP and start the switch
    | CheckStatus                        // interrupt handler reads CONTEXT_SWITCH_CNTL
    | SwapRings                          // cur_rb := next_rb
    | Update                             // _update_wptr
    | Finish                             // back to PreemptNone

  /** One ringbuffer: published write pointer, read pointer shadow in scratch,
      the two pointers of its preemption record, its page table in scratch. */
  datatype Ring = Ring(wptr: RingPos, rptr: RingPos, recWptr: RingPos, recRptr: RingPos, ttbr: int)

  /** The driver's side: state word, owning handler, and ring pointers. */
  datatype Driver = Driver(
    st: PreemptState,
    pc: Pc,
    cur: nat,
    next: Option<nat>,
    prev: nat,
    fault: bool)        // a fault was reported to the dispatcher

  /** The command processor and the registers it shares with the driver. */
  datatype Gpu = Gpu(
    ring: nat,          // ring it executes
    wreg: RingPos,      // A5XX_CP_RB_WPTR
    cntl: bool,         // A5XX_CP_CONTEXT_SWITCH_CNTL != 0
    target: nat,        // ring whose record is in CONTEXT_SWITCH_RESTORE_ADDR
    smmuTtbr: int,      // page table in the SMMU info record
    ttbr: int,          // page table in use
    irq: bool)          // completion interrupt raised and not yet handled

  /** A write of the WPTR register: on behalf of which ring, and which ring the
      hardware was executing at that moment. */
  datatype Doorbell = Doorbell(ring: nat, hw: nat)

  /** History: doorbells rung; switches triggered and completed and who claimed
      them since the last restart; whether the last submission to the current
      ring came while no doorbell was allowed and none has been rung since. */
  datatype History = History(bells: seq<Doorbell>, triggers: nat, swaps: nat,
                             irqClaims: nat, timerClaims: nat, late: bool)

  datatype Sys = Sys(d: Driver, g: Gpu, rings: seq<Ring>, perProcess: bool, h: History)

  datatype Step =
    | Submit(ring: nat, words: nat)
    | Begin                     // a trigger: NONE -> START
    | Owner                     // the owning handler runs its next section
    | HwExec(words: nat)
    | HwPagetable(ttbr: int)
    | HwSwitch
    | Irq
    | Timer
    | Worker(awake: bool)
    | Schedule(awake: bool)
    | GpuFault
    | Restart(proceeds: bool)   // fault recovery, which may return early

  /** Words between a read and a write pointer (adreno_ringbuffer_count). */
  function Count(rptr: RingPos, wptr: RingPos): nat {
    if wptr >= rptr then wptr - rptr else wptr + KGSL_RB_DWORDS - rptr
  }

  function Advance(p: RingPos, words: nat): RingPos
    requires words < KGSL_RB_DWORDS
  {
    if p + words < KGSL_RB_DWORDS then p + words else p + words - KGSL_RB_DWORDS
  }

  predicate Empty(r: Ring) { r.rptr == r.wptr }

  predicate PcShape(pc: Pc, rings: nat) {
    && (pc.Scan? ==> pc.ring <= rings)
    && (pc.Record? || pc.Program? ==> pc.ring < rings)
  }

  predicate Shape(s: Sys) {
    && s.d.cur < |s.rings| && s.g.ring < |s.rings| && s.g.target < |s.rings|
    && (s.d.next.Some? ==> s.d.next.value < |s.rings|)
    && PcShape(s.d.pc, |s.rings|)
  }

  /** A switch was started and `cur` has not yet been moved to its target. */
  predicate InFlight(d: Driver) {
    || d.st.PreemptTriggered? || d.st.PreemptFaulted?
    || ((d.st.PreemptPending? || d.st.PreemptComplete?)
        && (d.pc.Idle? || d.pc.CheckStatus? || d.pc.SwapRings?))
  }

  /** The driver writes the WPTR register for the ring it holds current. */
  function RingBell(s: Sys, w: RingPos): Sys {
    s.(g := s.g.(wreg := w),
       h := s.h.(bells := s.h.bells + [Doorbell(s.d.cur, s.g.ring)], late := false))
  }

  function ApplySubmit(s: Sys, r: nat, n: nat): Sys
    requires Shape(s)
  {
    if r < |s.rings| && 0 < n && Count(s.rings[r].rptr, s.rings[r].wptr) + n < KGSL_RB_DWORDS then
      var w := Advance(s.rings[r].wptr, n);
      var s1 := if r == s.d.cur && s.d.st.PreemptNone? then RingBell(s, w)
                else if r == s.d.cur then s.(h := s.h.(late := true))
                else s;
      s1.(rings := s.rings[r := s.rings[r].(wptr := w)])
    else s
  }

  function ApplyBegin(s: Sys): Sys {
    if s.d.st.PreemptNone? then s.(d := s.d.(st := PreemptStart, pc := Scan(0))) else s
  }

  function OwnScan(s: Sys, i: nat): Sys
    requires Shape(s) && i <= |s.rings|
  {
    s.(d := s.d.(pc := if i == |s.rings| then Finish
                       else if Empty(s.rings[i]) then Scan(i + 1)
                       else if i == s.d.cur then Update
                       else Record(i)))
  }

  function OwnRecord(s: Sys, i: nat): Sys
    requires i < |s.rings|
  {
    s.(rings := s.rings[i := s.rings[i].(recWptr := s.rings[i].wptr)],
       d := s.d.(pc := Program(i, s.rings[i].ttbr)))
  }

  function OwnProgram(s: Sys, i: nat, ttbr: int): Sys {
    s.(g := s.g.(smmuTtbr := if s.perProcess then ttbr else s.g.smmuTtbr, target := i, cntl := true),
       d := s.d.(next := Some(i), st := PreemptTriggered, pc := Idle),
       h := s.h.(triggers := s.h.triggers + 1))
  }

  function OwnCheckStatus(s: Sys): Sys {
    if s.g.cntl then s.(d := s.d.(st := PreemptComplete, pc := Idle))
    else s.(d := s.d.(pc := SwapRings))
  }

  function OwnSwap(s: Sys): Sys {
    if s.d.next.None? then s else
    s.(d := s.d.(prev := s.d.cur, cur := s.d.next.value, next := None, pc := Update),
       h := s.h.(swaps := s.h.swaps + 1))
  }

  function OwnUpdate(s: Sys): Sys
    requires s.d.cur < |s.rings|
  {
    var w := s.rings[s.d.cur].wptr;
    var s1 := s.(d := s.d.(pc := Finish));
    if s.g.wreg != w then RingBell(s1, w) else s1.(h := s.h.(late := false))
  }

  function OwnFinish(s: Sys): Sys {
    s.(d := s.d.(st := PreemptNone, pc := Idle))
  }

  function ApplyOwner(s: Sys): Sys
    requires Shape(s)
  {
    match s.d.pc
    case Idle => s
    case Scan(i) => OwnScan(s, i)
    case Record(i) => OwnRecord(s, i)
    case Program(i, ttbr) => OwnProgram(s, i, ttbr)
    case CheckStatus => OwnCheckStatus(s)
    case SwapRings => OwnSwap(s)
    case Update => OwnUpdate(s)
    case Finish => OwnFinish(s)
  }

  function ApplyHwExec(s: Sys, n: nat): Sys
    requires Shape(s)
  {
    var r := s.rings[s.g.ring];
    if 0 < n <= Count(r.rptr, s.g.wreg) then
      s.(rings := s.rings[s.g.ring := r.(rptr := Advance(r.rptr, n))])
    else s
  }

  function ApplyHwPagetable(s: Sys, v: int): Sys
    requires Shape(s)
  {
    if s.perProcess then
      s.(g := s.g.(ttbr := v), rings := s.rings[s.g.ring := s.rings[s.g.ring].(ttbr := v)])
    else s
  }

  /** The CP saves the old ring, restores the target from its record, clears
      CONTEXT_SWITCH_CNTL and raises the interrupt. */
  function ApplyHwSwitch(s: Sys): Sys
    requires Shape(s)
  {
    if !s.g.cntl then s else
    var saved := s.rings[s.g.ring := s.rings[s.g.ring].(recRptr := s.rings[s.g.ring].rptr, recWptr := s.g.wreg)];
    var t := saved[s.g.target];
    s.(rings := saved[s.g.target := t.(rptr := t.recRptr)],
       g := s.g.(ring := s.g.target, wreg := t.recWptr, cntl := false, irq := true,
                 ttbr := if s.perProcess then s.g.smmuTtbr else s.g.ttbr))
  }

  function ApplyIrq(s: Sys): Sys {
    if !s.g.irq then s
    else if s.d.st.PreemptTriggered? then
      s.(g := s.g.(irq := false), d := s.d.(st := PreemptPending, pc := CheckStatus),
         h := s.h.(irqClaims := s.h.irqClaims + 1))
    else s.(g := s.g.(irq := false))
  }

  function ApplyTimer(s: Sys): Sys {
    if s.d.st.PreemptTriggered? then
      s.(d := s.d.(st := PreemptFaulted), h := s.h.(timerClaims := s.h.timerClaims + 1))
    else s
  }

  function ApplyWorker(s: Sys, awake: bool): Sys {
    if !s.d.st.PreemptFaulted? then s
    else if awake && !s.g.cntl then s.(d := s.d.(st := PreemptComplete))
    else s.(d := s.d.(fault := true))
  }

  /** The head of `_a5xx_preemption_done`, up to the decision to swap. */
  function ApplySchedule(s: Sys, awake: bool): Sys {
    if !s.d.st.PreemptComplete? || !s.d.pc.Idle? || !awake then s
    else if s.g.cntl then s.(d := s.d.(fault := true))
    else s.(d := s.d.(pc := SwapRings))
  }

  function FreshRings(n: nat): (r: seq<Ring>)
    ensures |r| == n
  {
    seq(n, _ => Ring(0, 0, 0, 0, DEFAULT_TTBR0))
  }

  /** The hung ring becomes current and everything starts over; `next` is not cleared. */
  function Restarted(s: Sys): Sys {
    Sys(Driver(PreemptNone, Idle, s.g.ring, s.d.next, if s.d.cur != s.g.ring then s.d.cur else s.d.prev, false),
        Gpu(s.g.ring, 0, false, s.g.target, if s.perProcess then DEFAULT_TTBR0 else s.g.smmuTtbr, DEFAULT_TTBR0, false),
        FreshRings(|s.rings|), s.perProcess, History(s.h.bells, 0, 0, 0, 0, false))
  }

  /** Fault recovery takes the fault.  With the power off, or the SMMU stalled, it
      does no more; otherwise everything starts over. */
  function ApplyRestart(s: Sys, proceeds: bool): Sys {
    if !s.d.fault || !s.d.pc.Idle? then s
    else if !proceeds then s.(d := s.d.(fault := false))
    else Restarted(s)
  }

  /** One step; a step that is not enabled leaves the system as it is. */
  function Apply(s: Sys, a: Step): Sys
    requires Shape(s)
  {
    match a
    case Submit(r, n) => ApplySubmit(s, r, n)
    case Begin => ApplyBegin(s)
    case Owner => ApplyOwner(s)
    case HwExec(n) => ApplyHwExec(s, n)
    case HwPagetable(v) => ApplyHwPagetable(s, v)
    case HwSwitch => ApplyHwSwitch(s)
    case Irq => ApplyIrq(s)
    case Timer => ApplyTimer(s)
    case Worker(awake) => ApplyWorker(s, awake)
    case Schedule(awake) => ApplySchedule(s, awake)
    case GpuFault => s.(d := s.d.(fault := true))
    case Restart(proceeds) => ApplyRestart(s, proceeds)
  }

  function Init(rings: nat, perProcess: bool): Sys {
    Sys(Driver(PreemptNone, Idle, 0, None, 0, false),
        Gpu(0, 0, false, 0, DEFAULT_TTBR0, DEFAULT_TTBR0, false),
        FreshRings(rings), perProcess, History([], 0, 0, 0, 0, false))
  }

  /** How far the owning handler is from giving the state word back. */
  function PcRank(pc: Pc, rings: nat): nat {
    match pc
    case Idle => 0
    case Finish => 1
    case Program(_, _) => 1
    case Update => 2
    case Record(_) => 2
    case SwapRings => 3
    case CheckStatus => 4
    case Scan(i) => if i <= rings then 3 + rings - i else 3
  }

  /** A section of the owning handler keeps all indices in range. */
  lemma OwnerShape(s: Sys, t: Sys)
    requires Shape(s) && t == ApplyOwner(s)
    ensures Shape(t) && |t.rings| == |s.rings|
  {
  }

  /** A section of the owning handler brings it nearer to its end. */
  lemma OwnerDescends(s: Sys, t: Sys)
    requires Shape(s) && !s.d.pc.Idle? && (s.d.pc.SwapRings? ==> s.d.next.Some?)
    requires t == ApplyOwner(s)
    ensures PcRank(t.d.pc, |s.rings|) < PcRank(s.d.pc, |s.rings|)
    ensures t.d.pc.SwapRings? || t.d.pc.CheckStatus? ==> t.d.next == s.d.next && s.d.pc.CheckStatus?
  {
  }

  /** The owning handler runs to its end without interference. */
  function RunOwner(s: Sys): (r: Sys)
    requires Shape(s) && (s.d.pc.SwapRings? || s.d.pc.CheckStatus? ==> s.d.next.Some?)
    ensures Shape(r) && r.d.pc.Idle?
    decreases PcRank(s.d.pc, |s.rings|)
  {
    if s.d.pc.Idle? then s else
    var t := ApplyOwner(s);
    OwnerShape(s, t); OwnerDescends(s, t);
    RunOwner(t)
  }

  /** Every step keeps all indices in range. */
  lemma StepShape(s: Sys, a: Step)
    requires Shape(s)
    ensures Shape(Apply(s, a)) && |Apply(s, a).rings| == |s.rings|
  {
    if a.Owner? {
      OwnerShape(s, ApplyOwner(s));
    }
  }

  /** A run: any interleaving of steps of the driver and the hardware. */
  function Run(s: Sys, steps: seq<Step>): (t: Sys)
    requires Shape(s)
    ensures Shape(t) && |t.rings| == |s.rings|
    decreases |steps|
  {
    if steps == [] then s else
    StepShape(s, steps[0]);
    Run(Apply(s, steps[0]), steps[1..])
  }
}
