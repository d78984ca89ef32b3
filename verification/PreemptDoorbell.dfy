/** The preemption protocol with both pairs of statements split: entering TRIGGERED
    and starting the switch are two steps, and a submission's look at the state word
    and its write of the doorbell register are two steps. */
module PreemptDoorbell {
  import opened Common
  import opened PreemptModel
  import opened PreemptSafety
  import opened PreemptGrain

  /** A submission that has looked and not yet written: the ring's new write
      pointer, whether it will write the register, and whether the hardware has
      switched rings since. */
  datatype Pending = Pending(ring: nat, w: RingPos, bell: bool, switched: bool)

  datatype Split = Split(fine: Fine, pending: Option<Pending>)

  datatype SplitStep =
    | Other(a: FineStep)
    | Look(ring: nat, words: nat)   // takes the ring's lock, reads state word and `cur`
    | Write                         // writes the register or not, publishes, unlocks

  predicate CanSubmit(s: Sys, r: nat, n: nat) {
    r < |s.rings| && 0 < n && Count(s.rings[r].rptr, s.rings[r].wptr) + n < KGSL_RB_DWORDS
  }

  function ApplyLook(f: Split, r: nat, n: nat): Split {
    var s := f.fine.s;
    if f.pending.None? && CanSubmit(s, r, n) then
      f.(pending := Some(Pending(r, Advance(s.rings[r].wptr, n), s.d.st.PreemptNone? && r == s.d.cur, false)))
    else f
  }

  function WriteTo(s: Sys, p: Pending): Sys
    requires p.ring < |s.rings|
  {
    var s1 := if p.bell then
                s.(g := s.g.(wreg := p.w),
                   h := s.h.(bells := s.h.bells + [Doorbell(p.ring, s.g.ring)], late := false))
              else if p.ring == s.d.cur then s.(h := s.h.(late := true))
              else s;
    s1.(rings := s.rings[p.ring := s.rings[p.ring].(wptr := p.w)])
  }

  /** Who waits for a submission to `ring` between its two steps: whoever needs the
      device mutex, and whoever needs the lock of its ring. */
  predicate Waits(d: Driver, ring: nat, b: Step) {
    match b
    case Submit(_, _) => true
    case Schedule(_) => true
    case Worker(_) => true
    case Restart(proceeds) => proceeds
    case Owner => d.pc == Scan(ring) || d.pc == Record(ring) || (d.pc.Update? && d.cur == ring)
    case _ => false
  }

  predicate Blocked(f: Split, a: FineStep) {
    f.pending.Some? && a.Do? && Waits(f.fine.s.d, f.pending.value.ring, a.a)
  }

  /** The pending submission after a step: it is noted if the hardware switches. */
  function Noted(p: Pending, s: Sys, b: Step): Pending {
    if b.HwSwitch? && s.g.cntl then p.(switched := true) else p
  }

  predicate SplitShape(f: Split) {
    Shape(f.fine.s) && (f.pending.Some? ==> f.pending.value.ring < |f.fine.s.rings|)
  }

  function ApplySplit(f: Split, a: SplitStep): Split
    requires SplitShape(f)
  {
    match a
    case Other(b) =>
      if Blocked(f, b) then f
      else Split(ApplyFine(f.fine, b),
                 if f.pending.Some? && b.Do? then Some(Noted(f.pending.value, f.fine.s, b.a)) else f.pending)
    case Look(r, n) => ApplyLook(f, r, n)
    case Write =>
      if f.pending.None? then f else Split(f.fine.(s := WriteTo(f.fine.s, f.pending.value)), None)
  }

  lemma SplitStepShape(f: Split, a: SplitStep)
    requires SplitShape(f)
    ensures SplitShape(ApplySplit(f, a))
  {
    if a.Other? && a.a.Do? { StepShape(f.fine.s, a.a.a); }
  }

  function SplitRun(f: Split, steps: seq<SplitStep>): (t: Split)
    requires SplitShape(f)
    ensures SplitShape(t)
    decreases |steps|
  {
    if steps == [] then f else
    SplitStepShape(f, steps[0]);
    SplitRun(ApplySplit(f, steps[0]), steps[1..])
  }

  function PoweredUp(n: nat, perProcess: bool): Split { Split(Fine(Init(n, perProcess), false), None) }

  /** With nobody in between, the two steps are the one step of the coarser models. */
  lemma LookThenWrite(f: Fine, r: nat, n: nat)
    requires Shape(f.s)
    ensures SplitRun(Split(f, None), [Look(r, n), Write]) == Split(ApplyFine(f, Do(Submit(r, n))), None)
  {
    var f0 := Split(f, None);
    RunOn(f0, Look(r, n), [Write]);
    var g := ApplySplit(f0, Look(r, n));
    RunOn(g, Write, []);
    assert [Look(r, n), Write] == [Look(r, n)] + [Write] && [Write] == [Write] + [];
    WriteSubmits(f, r, n, g);
  }

  lemma WriteSubmits(f: Fine, r: nat, n: nat, g: Split)
    requires Shape(f.s) && g == ApplyLook(Split(f, None), r, n) && SplitShape(g)
    ensures ApplySplit(g, Write) == Split(ApplyFine(f, Do(Submit(r, n))), None)
  {
  }

  lemma RunOn(f: Split, a: SplitStep, rest: seq<SplitStep>)
    requires SplitShape(f)
    ensures SplitShape(ApplySplit(f, a)) && SplitRun(f, [a] + rest) == SplitRun(ApplySplit(f, a), rest)
  {
    SplitStepShape(f, a);
    assert ([a] + rest)[1..] == rest;
  }

  // ---- Safety ----

  /** The register is about to be written, and the hardware has switched rings
      since the state word was looked at. */
  predicate Overtaken(f: Split) { f.pending.Some? && f.pending.value.bell && f.pending.value.switched }

  /** The two steps that can lead to a wrong write: the register is written by a
      submission that was overtaken, or read too early. */
  predicate Unsafe(f: Split, a: SplitStep) {
    match a
    case Other(b) => Hasty(f.fine, b)
    case Look(_, _) => false
    case Write => Overtaken(f)
  }

  /** What holds of a submission between its steps. */
  predicate PendingOk(s: Sys, p: Pending)
    requires Shape(s)
  {
    && p.ring < |s.rings|
    && Count(s.rings[p.ring].rptr, s.rings[p.ring].wptr) < Count(s.rings[p.ring].rptr, p.w)
    && (p.bell ==>
          && (s.g.ring == p.ring <==> !p.switched) && (!p.switched ==> s.d.cur == p.ring)
          && (s.g.cntl ==> s.g.target != p.ring)
          && (s.d.pc.Record? || s.d.pc.Program? ==> s.d.pc.ring != p.ring))
  }

  ghost predicate SplitInv(f: Split) {
    FineInv(f.fine) && (f.pending.Some? ==> PendingOk(Closed(f.fine), f.pending.value))
  }

  lemma LookKeeps(f: Split, r: nat, n: nat)
    requires SplitInv(f)
    ensures SplitInv(ApplyLook(f, r, n))
  {
  }

  lemma PendingScan(s: Sys, p: Pending, t: Sys)
    requires Inv(s) && PendingOk(s, p) && !Waits(s.d, p.ring, Owner) && t == ApplyOwner(s) && Shape(t)
    requires s.d.pc.Scan? || s.d.pc.Record? || s.d.pc.Program?
    ensures PendingOk(t, p)
  {
    match s.d.pc
    case Scan(_) =>
    case Record(_) =>
    case Program(_, _) =>
  }

  lemma PendingOwner(s: Sys, p: Pending, t: Sys)
    requires Inv(s) && PendingOk(s, p) && !Waits(s.d, p.ring, Owner) && t == ApplyOwner(s) && Shape(t)
    ensures PendingOk(t, p)
  {
    match s.d.pc
    case Idle =>
    case Scan(_) => PendingScan(s, p, t);
    case Record(_) => PendingScan(s, p, t);
    case Program(_, _) => PendingScan(s, p, t);
    case CheckStatus =>
    case SwapRings =>
    case Update =>
    case Finish =>
  }

  lemma PendingExec(s: Sys, p: Pending, n: nat, t: Sys)
    requires Inv(s) && PendingOk(s, p) && t == ApplyHwExec(s, n) && Shape(t)
    ensures PendingOk(t, p)
  {
  }

  /** A step that does not wait leaves a pending submission in order. */
  lemma PendingKept(s: Sys, p: Pending, b: Step)
    requires Inv(s) && PendingOk(s, p) && !Waits(s.d, p.ring, b)
    ensures Inv(Apply(s, b)) && PendingOk(Apply(s, b), Noted(p, s, b))
  {
    StepKeeps(s, b);
    var t := Apply(s, b);
    if b.Owner? { PendingOwner(s, p, t); } else if b.HwExec? { PendingExec(s, p, b.words, t); }
  }

  /** It does the same in the window between TRIGGERED and the switch. */
  lemma PendingInWindow(f: Split, b: Step)
    requires SplitInv(f) && f.pending.Some? && !Waits(f.fine.s.d, f.pending.value.ring, b) && !Hasty(f.fine, Do(b))
    ensures SplitInv(ApplySplit(f, Other(Do(b))))
  {
    FineStepKeeps(f.fine, Do(b));
    var s, p := Closed(f.fine), f.pending.value;
    if !f.fine.open || !b.HwSwitch? {
      if f.fine.open { AsIfStarted(f.fine, b); }
      PendingKept(s, p, b);
      assert Closed(ApplyFine(f.fine, Do(b))) == Apply(s, b);
    }
  }

  lemma WriteKeeps(s: Sys, p: Pending)
    requires Inv(s) && PendingOk(s, p) && !(p.bell && p.switched)
    ensures Inv(WriteTo(s, p))
  {
  }

  lemma SplitStepKeeps(f: Split, a: SplitStep)
    requires SplitInv(f) && !Unsafe(f, a)
    ensures SplitInv(ApplySplit(f, a))
  {
    match a
    case Look(r, n) => LookKeeps(f, r, n);
    case Write =>
      if f.pending.Some? {
        WriteKeeps(Closed(f.fine), f.pending.value);
        assert Closed(ApplySplit(f, Write).fine) == WriteTo(Closed(f.fine), f.pending.value);
      }
    case Other(b) =>
      if !Blocked(f, b) {
        if f.pending.Some? && b.Do? { PendingInWindow(f, b.a); } else { FineStepKeeps(f.fine, b); }
      }
  }

  /** A run without the two unsafe steps. */
  predicate Safe(f: Split, steps: seq<SplitStep>)
    requires SplitShape(f)
    decreases |steps|
  {
    steps == [] || (
      SplitStepShape(f, steps[0]);
      !Unsafe(f, steps[0]) && Safe(ApplySplit(f, steps[0]), steps[1..]))
  }

  lemma {:induction false} SplitRunKeeps(f: Split, steps: seq<SplitStep>)
    requires SplitInv(f) && Safe(f, steps)
    ensures SplitInv(SplitRun(f, steps))
    decreases |steps|
  {
    if steps != [] {
      SplitStepKeeps(f, steps[0]);
      SplitRunKeeps(ApplySplit(f, steps[0]), steps[1..]);
    }
  }

  /** A state some such run leads to from power-up. */
  ghost predicate SafelyReachable(f: Split) {
    exists n: nat, perProcess: bool, steps: seq<SplitStep> ::
      0 < n && Safe(PoweredUp(n, perProcess), steps) && f == SplitRun(PoweredUp(n, perProcess), steps)
  }

  lemma SafeInv(f: Split)
    requires SafelyReachable(f)
    ensures SplitInv(f)
  {
    var n: nat, perProcess: bool, steps: seq<SplitStep> :|
      0 < n && Safe(PoweredUp(n, perProcess), steps) && f == SplitRun(PoweredUp(n, perProcess), steps);
    InitInv(n, perProcess);
    SplitRunKeeps(PoweredUp(n, perProcess), steps);
  }

  /** Doorbell safety with both pairs split, and exactly when: as long as nobody has
      read the register too early and no overtaken submission has written, every write
      of the register hit the ring it was meant for; and the next submission's write
      does if and only if it is not overtaken. */
  lemma DoorbellsExactly(f: Split)
    requires SafelyReachable(f)
    ensures SplitShape(f) && BellsRight(f.fine.s.h.bells)
    ensures BellsRight(ApplySplit(f, Write).fine.s.h.bells) <==> !Overtaken(f)
  {
    SafeInv(f);
    if Overtaken(f) {
      var bells := ApplySplit(f, Write).fine.s.h.bells;
      assert bells[|f.fine.s.h.bells|] == Doorbell(f.pending.value.ring, f.fine.s.g.ring);
    } else {
      SplitStepKeeps(f, Write);
    }
  }

  // ---- Which submissions can be overtaken ----

  /** Before a look of ring `r`: some ring of higher priority has words. */
  predicate BusyAbove(s: Sys, r: nat) {
    exists i :: 0 <= i < r && i < |s.rings| && !Empty(s.rings[i])
  }

  /** The trigger cannot get past the locked ring. */
  predicate HeldUp(f: Split) {
    var s := f.fine.s;
    && f.pending.Some? && f.pending.value.bell && !f.pending.value.switched && !BusyAbove(s, f.pending.value.ring)
    && !s.g.cntl && !f.fine.open
    && (s.d.st.PreemptNone? || (s.d.st.PreemptStart? && s.d.pc.Scan? && s.d.pc.ring <= f.pending.value.ring))
  }

  lemma HeldUpStays(f: Split, a: SplitStep)
    requires SplitInv(f) && HeldUp(f) && !a.Write?
    ensures HeldUp(ApplySplit(f, a))
  {
    var t := ApplySplit(f, a);
    assert t.pending == f.pending;
    forall i | 0 <= i < f.pending.value.ring && i < |t.fine.s.rings| ensures Empty(t.fine.s.rings[i]) {
      assert Empty(f.fine.s.rings[i]);
    }
  }

  lemma {:induction false} HeldUpRun(f: Split, steps: seq<SplitStep>)
    requires SplitInv(f) && HeldUp(f) && Write !in steps && Safe(f, steps)
    ensures HeldUp(SplitRun(f, steps))
    decreases |steps|
  {
    if steps != [] {
      HeldUpStays(f, steps[0]);
      SplitStepKeeps(f, steps[0]);
      HeldUpRun(ApplySplit(f, steps[0]), steps[1..]);
    }
  }

  lemma {:induction false} SilentRun(f: Split, steps: seq<SplitStep>)
    requires SplitShape(f) && f.pending.Some? && !f.pending.value.bell && Write !in steps
    ensures var t := SplitRun(f, steps); t.pending.Some? && !t.pending.value.bell
    decreases |steps|
  {
    if steps != [] {
      SplitStepShape(f, steps[0]);
      SilentRun(ApplySplit(f, steps[0]), steps[1..]);
    }
  }

  /** A safe run of the others leads to a state in which the submission is overtaken. */
  ghost predicate Overtakes(f: Split, steps: seq<SplitStep>)
    requires SplitShape(f)
  {
    Write !in steps && Safe(f, steps) && Overtaken(SplitRun(f, steps))
  }

  lemma OneMore(f: Split, a: SplitStep, rest: seq<SplitStep>) returns (steps: seq<SplitStep>)
    requires SplitShape(f) && SplitShape(ApplySplit(f, a)) && a != Write && !Unsafe(f, a)
    requires Overtakes(ApplySplit(f, a), rest)
    ensures Overtakes(f, steps)
  {
    steps := [a] + rest;
    RunOn(f, a, rest);
    assert steps[1..] == rest;
  }

  const OWNER := Other(Do(Owner))

  /** From a record taken, the switch is announced and started, and the hardware makes it. */
  lemma SwitchOvertakes(f: Split, i: nat) returns (steps: seq<SplitStep>)
    requires SplitInv(f) && f.pending.Some? && f.pending.value.bell && f.fine.s.d.pc == Record(i)
    ensures Overtakes(f, steps)
  {
    var f1 := ApplySplit(f, OWNER);
    SplitStepShape(f, OWNER);
    var f2 := ApplySplit(f1, OWNER);
    SplitStepShape(f1, OWNER);
    var f3 := ApplySplit(f2, Other(StartSwitch));
    SplitStepShape(f2, Other(StartSwitch));
    SplitStepShape(f3, Other(Do(HwSwitch)));
    steps := [];
    assert Overtakes(ApplySplit(f3, Other(Do(HwSwitch))), steps);
    steps := OneMore(f3, Other(Do(HwSwitch)), steps);
    steps := OneMore(f2, Other(StartSwitch), steps);
    steps := OneMore(f1, OWNER, steps);
    steps := OneMore(f, OWNER, steps);
  }

  /** A scan at ring `i` finds the first busy ring `j` above the locked one. */
  lemma {:induction false} ScanOvertakes(f: Split, i: nat, j: nat) returns (steps: seq<SplitStep>)
    requires SplitInv(f) && f.pending.Some? && f.pending.value.bell && !f.pending.value.switched
    requires f.fine.s.d.pc == Scan(i) && i <= j < f.pending.value.ring && !Empty(f.fine.s.rings[j])
    requires forall k :: i <= k < j ==> Empty(f.fine.s.rings[k])
    ensures Overtakes(f, steps)
    decreases j - i
  {
    var t := ApplySplit(f, OWNER);
    SplitStepKeeps(f, OWNER);
    if i == j { steps := SwitchOvertakes(t, j); } else { steps := ScanOvertakes(t, i + 1, j); }
    steps := OneMore(f, OWNER, steps);
  }

  lemma FirstBusy(s: Sys, r: nat) returns (j: nat)
    requires BusyAbove(s, r)
    ensures j < r && j < |s.rings| && !Empty(s.rings[j]) && forall k :: 0 <= k < j ==> Empty(s.rings[k])
  {
    j := 0;
    while Empty(s.rings[j])
      invariant j < r && j < |s.rings| && forall k :: 0 <= k < j ==> Empty(s.rings[k])
      invariant exists i :: j <= i < r && i < |s.rings| && !Empty(s.rings[i])
      decreases |s.rings| - j
    {
      j := j + 1;
    }
  }

  /** Some safe interleaving lets the hardware switch before the submission writes. */
  ghost predicate CanBeOvertaken(f: Split)
    requires SplitShape(f)
  {
    exists steps :: Overtakes(f, steps)
  }

  /** The submission will ring, while a ring of higher priority has words. */
  predicate RingsBelow(s: Sys, r: nat) { s.d.st.PreemptNone? && r == s.d.cur && BusyAbove(s, r) }

  lemma LookOvertaken(f: Split, r: nat, n: nat)
    requires SplitInv(f) && f.pending.None? && CanSubmit(f.fine.s, r, n) && RingsBelow(f.fine.s, r)
    ensures CanBeOvertaken(ApplySplit(f, Look(r, n)))
  {
    var g := ApplySplit(f, Look(r, n));
    LookKeeps(f, r, n);
    var begin := Other(Do(Begin));
    var t := ApplySplit(g, begin);
    SplitStepKeeps(g, begin);
    var j := FirstBusy(f.fine.s, r);
    var steps := ScanOvertakes(t, 0, j);
    steps := OneMore(g, begin, steps);
  }

  lemma LookNotOvertaken(f: Split, r: nat, n: nat, steps: seq<SplitStep>)
    requires SplitInv(f) && f.pending.None? && CanSubmit(f.fine.s, r, n) && !RingsBelow(f.fine.s, r)
    ensures !Overtakes(ApplySplit(f, Look(r, n)), steps)
  {
    var g := ApplySplit(f, Look(r, n));
    LookKeeps(f, r, n);
    if Write !in steps && Safe(g, steps) {
      if g.pending.value.bell { HeldUpRun(g, steps); } else { SilentRun(g, steps); }
    }
  }

  /** Exactly which submissions can be overtaken, as they look at the state word: those
      that will ring, while a ring of higher priority has words. */
  lemma CanBeOvertakenExactly(f: Split, r: nat, n: nat)
    requires SafelyReachable(f) && f.pending.None? && SplitShape(f) && CanSubmit(f.fine.s, r, n)
    ensures SplitShape(ApplySplit(f, Look(r, n)))
    ensures CanBeOvertaken(ApplySplit(f, Look(r, n))) <==>
              f.fine.s.d.st.PreemptNone? && r == f.fine.s.d.cur && BusyAbove(f.fine.s, r)
  {
    SafeInv(f);
    if RingsBelow(f.fine.s, r) {
      LookOvertaken(f, r, n);
    } else {
      forall steps ensures !Overtakes(ApplySplit(f, Look(r, n)), steps) {
        LookNotOvertaken(f, r, n, steps);
      }
    }
  }

  // ---- A run ----

  lemma {:induction false} RunSnoc(f: Split, steps: seq<SplitStep>, a: SplitStep)
    requires SplitShape(f) && Safe(f, steps) && !Unsafe(SplitRun(f, steps), a)
    ensures Safe(f, steps + [a]) && SplitRun(f, steps + [a]) == ApplySplit(SplitRun(f, steps), a)
    decreases |steps|
  {
    if steps == [] {
      SplitStepShape(f, a);
      assert steps + [a] == [a] && [a][1..] == [];
    } else {
      SplitStepShape(f, steps[0]);
      assert (steps + [a])[0] == steps[0] && (steps + [a])[1..] == steps[1..] + [a];
      RunSnoc(ApplySplit(f, steps[0]), steps[1..], a);
    }
  }

  lemma Onward(f: Split, a: SplitStep) returns (t: Split)
    requires SafelyReachable(f) && SplitShape(f) && !Unsafe(f, a)
    ensures t == ApplySplit(f, a) && SafelyReachable(t) && SplitShape(t)
  {
    var n: nat, perProcess: bool, steps: seq<SplitStep> :|
      0 < n && Safe(PoweredUp(n, perProcess), steps) && f == SplitRun(PoweredUp(n, perProcess), steps);
    SplitStepShape(f, a);
    RunSnoc(PoweredUp(n, perProcess), steps, a);
    t := ApplySplit(f, a);
  }

  lemma {:induction false} OnwardSafely(f: Split, steps: seq<SplitStep>)
    requires SafelyReachable(f) && SplitShape(f) && Safe(f, steps)
    ensures SafelyReachable(SplitRun(f, steps))
    decreases |steps|
  {
    if steps != [] {
      var t := Onward(f, steps[0]);
      OnwardSafely(t, steps[1..]);
    }
  }

  lemma PowerUp() returns (f: Split)
    ensures f == PoweredUp(2, false) && SafelyReachable(f) && SplitShape(f)
  {
    f := PoweredUp(2, false);
    assert Safe(f, []) && SplitRun(f, []) == f;
  }

  /** A trigger that has found ring 0 empty looks at ring 1. */
  lemma ScanningRing1() returns (f: Split)
    ensures SafelyReachable(f) && SplitShape(f) && f.pending.None? && !f.fine.open
    ensures var s0 := Init(2, false);
            f.fine.s == s0.(rings := s0.rings[1 := s0.rings[1].(wptr := 5)], d := s0.d.(st := PreemptStart, pc := Scan(1)))
  {
    f := PowerUp();
    f := Onward(f, Other(Do(Submit(1, 5))));
    f := Onward(f, Other(Do(Begin)));
    f := Onward(f, OWNER);
  }

  /** The switch to ring 1, up to the hardware's part in it. */
  lemma SwitchedToRing1() returns (f: Split)
    ensures SafelyReachable(f) && SplitShape(f) && f.pending.None? && !f.fine.open
    ensures var s := f.fine.s;
            && |s.rings| == 2 && s.d.st.PreemptTriggered? && s.d.pc.Idle? && s.d.cur == 0 && s.d.next == Some(1)
            && !s.g.cntl && s.g.irq && s.g.wreg == s.rings[1].wptr == 5
            && s.rings[0].rptr == s.rings[0].wptr == 0 && s.rings[1].rptr == 0
  {
    f := ScanningRing1();
    f := Onward(f, OWNER);
    f := Onward(f, OWNER);
    f := Onward(f, OWNER);
    f := Onward(f, Other(StartSwitch));
    f := Onward(f, Other(Do(HwSwitch)));
  }

  /** The interrupt claims a finished switch. */
  lemma Claimed(f: Split) returns (t: Split)
    requires SafelyReachable(f) && SplitShape(f) && f.pending.None? && !f.fine.open
    requires f.fine.s.d.st.PreemptTriggered? && f.fine.s.g.irq && !f.fine.s.g.cntl
    ensures SafelyReachable(t) && SplitShape(t) && t.pending.None? && !t.fine.open && t.fine.s.d.pc.SwapRings?
    ensures t.fine.s.d.cur == f.fine.s.d.cur && t.fine.s.d.next == f.fine.s.d.next
    ensures t.fine.s.rings == f.fine.s.rings && t.fine.s.g.wreg == f.fine.s.g.wreg
  {
    t := Onward(f, Other(Do(Irq)));
    t := Onward(t, OWNER);
  }

  /** A claimed switch is swapped in. */
  lemma SwappedIn(f: Split) returns (t: Split)
    requires SafelyReachable(f) && SplitShape(f) && f.pending.None? && !f.fine.open && f.fine.s.d.pc.SwapRings?
    requires f.fine.s.d.next.Some? && f.fine.s.g.wreg == f.fine.s.rings[f.fine.s.d.next.value].wptr
    ensures SafelyReachable(t) && SplitShape(t) && t.pending.None? && !t.fine.open && t.fine.s.rings == f.fine.s.rings
    ensures t.fine.s.d.st.PreemptNone? && t.fine.s.d.cur == f.fine.s.d.next.value
  {
    t := Onward(f, OWNER);
    t := CaughtUp(t);
  }

  /** The register is right already, and the state word is given back. */
  lemma CaughtUp(f: Split) returns (t: Split)
    requires SafelyReachable(f) && SplitShape(f) && f.pending.None? && !f.fine.open && f.fine.s.d.pc.Update?
    requires f.fine.s.g.wreg == f.fine.s.rings[f.fine.s.d.cur].wptr
    ensures SafelyReachable(t) && SplitShape(t) && t.pending.None? && !t.fine.open && t.fine.s.rings == f.fine.s.rings
    ensures t.fine.s.d.st.PreemptNone? && t.fine.s.d.cur == f.fine.s.d.cur
  {
    t := Onward(f, OWNER);
    t := Onward(t, OWNER);
  }

  /** Ring 1 is current, and then ring 0 gets words. */
  lemma Ring0Busy() returns (f: Split)
    ensures SafelyReachable(f) && SplitShape(f) && f.pending.None? && |f.fine.s.rings| == 2
    ensures RingsBelow(f.fine.s, 1) && CanSubmit(f.fine.s, 1, 2)
  {
    f := SwitchedToRing1();
    f := Claimed(f);
    f := SwappedIn(f);
    f := Onward(f, Other(Do(Submit(0, 3))));
    assert !Empty(f.fine.s.rings[0]);
  }

  /** It happens: a run in which a submission to ring 1 is overtaken by a switch to
      ring 0, and rings for the wrong ring. */
  lemma OvertakenRun() returns (f: Split)
    ensures SafelyReachable(f) && SplitShape(f) && !BellsRight(ApplySplit(f, Write).fine.s.h.bells)
  {
    var idle := Ring0Busy();
    CanBeOvertakenExactly(idle, 1, 2);
    var g := Onward(idle, Look(1, 2));
    var steps :| Overtakes(g, steps);
    OnwardSafely(g, steps);
    f := SplitRun(g, steps);
    DoorbellsExactly(f);
  }
}
