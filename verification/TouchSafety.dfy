/** What holds in every run of the finger detector. */
module TouchSafety {
  import opened Common
  import opened TouchModel

  /** A finger, in the area. */
  predicate Inside(e: Event, c: Config) { e.id >= 0 && InArea(e, c) }

  /** What the classification means: a finger that stays in the area moves, one
      that comes into it is down, one that leaves it is up, and so is any lift
      inside the area; everything else is dropped. */
  lemma ClassifyMeans(cur: Event, last: Event, c: Config)
    ensures Classify(cur, last, c) ==
              if Inside(cur, c) then
                (if Inside(last, c) && last.id == cur.id then Some(Move) else Some(Down))
              else if Inside(last, c) || InArea(cur, c) then Some(Up)
              else None
  {
  }

  /** A slot is recorded down exactly when its last event is a finger in the area. */
  predicate SlotOk(s: Slot, c: Config) {
    s.state != Move && (s.state == Down <==> Inside(s.last, c))
  }

  /** A turn keeps the slot right; a move leaves the recorded state and is reported
      of a slot that is down only; any other report is the state then recorded. */
  lemma TurnKeeps(s: Slot, c: Config)
    requires SlotOk(s, c)
    ensures var turn := SlotTurn(s, c);
            && SlotOk(turn.slot, c)
            && (turn.event.None? || turn.event == Some(Move) ==> turn.slot.state == s.state)
            && (turn.event == Some(Move) ==> s.state == Down)
            && (turn.event.Some? && turn.event.value != Move ==> turn.slot.state == turn.event.value)
  {
    if s.cur.updated { ClassifyMeans(s.cur, s.last, c); }
  }

  /** The state a slot's reports say it is in: the latest that is not a move. */
  function Reported(reports: seq<Report>, slot: nat): State {
    if reports == [] then Up else
    var r := reports[|reports| - 1];
    if r.slot == slot && r.state != Move then r.state else Reported(reports[..|reports| - 1], slot)
  }

  /** Every move is reported of a slot whose reports say it is down. */
  predicate MovesWhenDown(reports: seq<Report>) {
    reports == [] ||
    var before, r := reports[..|reports| - 1], reports[|reports| - 1];
    MovesWhenDown(before) && (r.state == Move ==> Reported(before, r.slot) == Down)
  }

  ghost predicate SlotsOk(slots: seq<Slot>, c: Config) {
    forall i :: 0 <= i < |slots| ==> SlotOk(slots[i], c)
  }

  ghost predicate Inv(t: Touch, c: Config) {
    && SlotsOk(t.slots, c)
    && (c.touchFd ==> forall i :: 0 <= i < |t.slots| ==> Reported(t.reports, i) == t.slots[i].state)
    && (c.touchFd ==> MovesWhenDown(t.reports))
  }

  lemma ReportedMore(reports: seq<Report>, r: Report, slot: nat)
    ensures Reported(reports + [r], slot) == if r.slot == slot && r.state != Move then r.state else Reported(reports, slot)
  {
    assert (reports + [r])[..|reports|] == reports;
  }

  lemma StepKeeps(p: Progress, c: Config, k: nat)
    requires k < |p.t.slots| && Inv(p.t, c)
    ensures Inv(SlotStep(p, c, k).t, c)
  {
    var s := p.t.slots[k];
    var turn := SlotTurn(s, c);
    var u := SlotStep(p, c, k).t;
    TurnKeeps(s, c);
    if turn.event.Some? && c.touchFd {
      var r := Report(k, turn.event.value, s.cur.x, s.cur.y);
      forall i | 0 <= i < |u.slots| ensures Reported(u.reports, i) == u.slots[i].state {
        ReportedMore(p.t.reports, r, i);
      }
      assert u.reports[..|u.reports| - 1] == p.t.reports;
    }
  }

  lemma {:induction false} WorkKeeps(p: Progress, c: Config, k: nat)
    requires k <= |p.t.slots| && Inv(p.t, c)
    ensures Inv(WorkFrom(p, c, k).t, c)
    decreases |p.t.slots| - k
  {
    if k < |p.t.slots| {
      StepKeeps(p, c, k);
      WorkKeeps(SlotStep(p, c, k), c, k + 1);
    }
  }

  /** While detection is on in some form, input changes only what is seen, not
      what is known. */
  lemma FeedKeeps(t: Touch, c: Config, input: Input)
    requires Inv(t, c) && Enabled(c)
    ensures Inv(Feed(t, c, input).t, c)
    ensures Feed(t, c, input).t.line == t.line
    ensures forall i :: 0 <= i < |t.slots| ==> Feed(t, c, input).t.slots[i].state == t.slots[i].state
  {
  }

  lemma {:induction false} RunKeeps(t: Touch, c: Config, steps: seq<Step>)
    requires Inv(t, c) && Enabled(c)
    ensures Inv(Run(t, c, steps), c)
  {
    if steps != [] {
      var u := Run(t, c, steps[..|steps| - 1]);
      RunKeeps(t, c, steps[..|steps| - 1]);
      match steps[|steps| - 1] {
        case Feeding(input) => FeedKeeps(u, c, input);
        case Working => WorkKeeps(Progress(u, false), c, 0);
      }
    }
  }

  lemma FreshInv(t: Touch, c: Config)
    requires Fresh(t, c)
    ensures Inv(t, c)
  {
  }

  /** In every run, each slot is recorded down exactly when its last event is a
      finger in the area. */
  lemma DownExactlyInside(t: Touch, c: Config, steps: seq<Step>, slot: nat)
    requires Fresh(t, c) && Enabled(c) && slot < |Run(t, c, steps).slots|
    ensures var s := Run(t, c, steps).slots[slot];
            s.state == Down <==> s.last.id >= 0 && InArea(s.last, c)
  {
    FreshInv(t, c);
    RunKeeps(t, c, steps);
  }

  /** The latest report of the slot before position `i` that is not a move is `j`. */
  ghost predicate LatestBefore(reports: seq<Report>, i: nat, j: nat)
    requires i < |reports|
  {
    && j < i && reports[j].slot == reports[i].slot && reports[j].state != Move
    && forall k :: j < k < i && reports[k].slot == reports[i].slot ==> reports[k].state == Move
  }

  /** Where the reports say a slot is down, some report said so. */
  lemma {:induction false} DownWasReported(reports: seq<Report>, slot: nat) returns (j: nat)
    requires Reported(reports, slot) == Down
    ensures j < |reports| && reports[j].slot == slot && reports[j].state == Down
    ensures forall k :: j < k < |reports| && reports[k].slot == slot ==> reports[k].state == Move
  {
    var n := |reports| - 1;
    if reports[n].slot == slot && reports[n].state != Move {
      return n;
    }
    j := DownWasReported(reports[..n], slot);
    assert forall k :: 0 <= k < n ==> reports[k] == reports[..n][k];
  }

  lemma {:induction false} MoveHasDown(reports: seq<Report>, i: nat) returns (j: nat)
    requires MovesWhenDown(reports) && i < |reports| && reports[i].state == Move
    ensures LatestBefore(reports, i, j) && reports[j].state == Down
    decreases |reports|
  {
    var n := |reports| - 1;
    var before := reports[..n];
    if i == n {
      j := DownWasReported(before, reports[i].slot);
    } else {
      j := MoveHasDown(before, i);
    }
    assert forall k :: 0 <= k < n ==> reports[k] == before[k];
  }

  /** In every run, the latest report of a slot before a move of it that is not
      itself a move says down. */
  lemma EveryMoveFollowsDown(t: Touch, c: Config, steps: seq<Step>, i: nat)
    requires Fresh(t, c) && c.touchFd
    requires i < |Run(t, c, steps).reports| && Run(t, c, steps).reports[i].state == Move
    ensures exists j: nat :: LatestBefore(Run(t, c, steps).reports, i, j) && Run(t, c, steps).reports[j].state == Down
  {
    FreshInv(t, c);
    RunKeeps(t, c, steps);
    var j := MoveHasDown(Run(t, c, steps).reports, i);
  }

  // ---- The interrupt line ----

  /** A turn that sets the line: it reports a finger up or down. */
  predicate Sets(s: Slot, c: Config) {
    var e := SlotTurn(s, c).event; e.Some? && e.value != Move
  }

  /** A slot set before one that was down: the run sees that finger. */
  ghost predicate SetsBelowDown(slots: seq<Slot>, c: Config, k: nat) {
    exists i, j :: k <= i < j < |slots| && Sets(slots[i], c) && slots[j].state == Down
  }

  ghost predicate SomeSets(slots: seq<Slot>, c: Config, k: nat) {
    exists i :: k <= i < |slots| && Sets(slots[i], c)
  }

  /** A work run gives every slot from `k` on its turn, and leaves the others. */
  lemma {:induction false} WorkSlots(p: Progress, c: Config, k: nat)
    requires k <= |p.t.slots|
    ensures forall i :: 0 <= i < |p.t.slots| ==>
              WorkFrom(p, c, k).t.slots[i] == if i < k then p.t.slots[i] else SlotTurn(p.t.slots[i], c).slot
    decreases |p.t.slots| - k
  {
    if k < |p.t.slots| { WorkSlots(SlotStep(p, c, k), c, k + 1); }
  }

  lemma StateStays(s: Slot, c: Config)
    requires !Sets(s, c)
    ensures SlotTurn(s, c).slot.state == s.state
  {
  }

  /** The slots before the turn of slot `k`, seen from the turn after it. */
  lemma NextSets(slots: seq<Slot>, next: seq<Slot>, c: Config, k: nat, s: Slot)
    requires k < |slots| && next == slots[k := s]
    ensures SomeSets(slots, c, k) <==> Sets(slots[k], c) || SomeSets(next, c, k + 1)
  {
    if SomeSets(next, c, k + 1) {
      var i :| k + 1 <= i < |next| && Sets(next[i], c);
      assert Sets(slots[i], c);
    }
    if SomeSets(slots, c, k) && !Sets(slots[k], c) {
      var i :| k <= i < |slots| && Sets(slots[i], c);
      assert Sets(next[i], c);
    }
  }

  lemma NextBelow(slots: seq<Slot>, next: seq<Slot>, c: Config, k: nat, s: Slot)
    requires k < |slots| && next == slots[k := s]
    ensures SetsBelowDown(slots, c, k) <==>
              (Sets(slots[k], c) && exists j :: k < j < |slots| && slots[j].state == Down) || SetsBelowDown(next, c, k + 1)
  {
    if SetsBelowDown(next, c, k + 1) {
      var i, j :| k + 1 <= i < j < |next| && Sets(next[i], c) && next[j].state == Down;
      assert Sets(slots[i], c) && slots[j].state == Down;
    }
    if SetsBelowDown(slots, c, k) {
      var i, j :| k <= i < j < |slots| && Sets(slots[i], c) && slots[j].state == Down;
      if i > k { assert Sets(next[i], c) && next[j].state == Down; }
    }
  }

  /** What a run sees from slot `k` on. */
  ghost predicate Sees(p: Progress, c: Config, k: nat)
    requires k <= |p.t.slots|
  {
    || p.saw
    || (SomeSets(p.t.slots, c, k) && AnyDown(WorkFrom(p, c, k).t.slots))
    || SetsBelowDown(p.t.slots, c, k)
  }

  /** A slot down after the turn of slot `k` is one still down at the end, or a later one. */
  lemma DownSlots(slots: seq<Slot>, next: seq<Slot>, end: seq<Slot>, c: Config, k: nat)
    requires k < |slots| == |next| == |end|
    requires forall i :: 0 <= i < |slots| && i != k ==> next[i] == slots[i]
    requires forall i :: 0 <= i <= k ==> end[i] == next[i]
    requires forall i :: k < i < |slots| && !Sets(next[i], c) ==> end[i].state == next[i].state
    ensures AnyDown(next) ==> AnyDown(end) || exists j :: k < j < |next| && slots[j].state == Down
    ensures AnyDown(end) && !SomeSets(next, c, k + 1) ==> AnyDown(next)
    ensures (exists j :: k < j < |next| && slots[j].state == Down) ==> AnyDown(next)
  {
    if AnyDown(next) {
      var i :| 0 <= i < |next| && next[i].state == Down;
      if i <= k { assert end[i].state == Down; } else { assert slots[i].state == Down; }
    }
    if AnyDown(end) && !SomeSets(next, c, k + 1) {
      var i :| 0 <= i < |end| && end[i].state == Down;
      if i > k { assert !Sets(next[i], c); }
      assert next[i].state == Down;
    }
    if j :| k < j < |next| && slots[j].state == Down { assert next[j].state == Down; }
  }

  /** When slot `k` sets the line, a finger down after its turn is one still down
      at the end, or one of a later slot. */
  lemma SeenAfter(p: Progress, c: Config, k: nat)
    requires k < |p.t.slots|
    ensures var next, end := SlotStep(p, c, k).t.slots, WorkFrom(p, c, k).t.slots;
            && (AnyDown(next) ==> AnyDown(end) || exists j :: k < j < |next| && p.t.slots[j].state == Down)
            && (AnyDown(end) && !SomeSets(next, c, k + 1) ==> AnyDown(next))
            && ((exists j :: k < j < |next| && p.t.slots[j].state == Down) ==> AnyDown(next))
  {
    var next, end := SlotStep(p, c, k).t.slots, WorkFrom(p, c, k).t.slots;
    WorkSlots(p, c, k);
    forall i | k < i < |end| && !Sets(next[i], c) ensures end[i].state == next[i].state { StateStays(next[i], c); }
    DownSlots(p.t.slots, next, end, c, k);
  }

  lemma SeesNext(p: Progress, c: Config, k: nat)
    requires k < |p.t.slots|
    ensures Sees(p, c, k) <==> Sees(SlotStep(p, c, k), c, k + 1)
  {
    NextSets(p.t.slots, SlotStep(p, c, k).t.slots, c, k, SlotTurn(p.t.slots[k], c).slot);
    NextBelow(p.t.slots, SlotStep(p, c, k).t.slots, c, k, SlotTurn(p.t.slots[k], c).slot);
    SeenAfter(p, c, k);
  }

  /** The line at the end of a work run, and what the run has seen. */
  lemma {:induction false} LineFrom(p: Progress, c: Config, k: nat)
    requires k <= |p.t.slots| && c.intr2 && c.gpioValid
    ensures var q := WorkFrom(p, c, k);
            && (q.saw <==> Sees(p, c, k))
            && q.t.line == if SomeSets(p.t.slots, c, k) then q.saw else p.t.line
    decreases |p.t.slots| - k
  {
    if k < |p.t.slots| {
      var q := SlotStep(p, c, k);
      SeesNext(p, c, k);
      NextSets(p.t.slots, q.t.slots, c, k, SlotTurn(p.t.slots[k], c).slot);
      LineFrom(q, c, k + 1);
    }
  }

  /** After a work run that reports a finger up or down, the line is high exactly
      if a finger is down, or one was down when a slot before it was reported. */
  lemma LineExactly(t: Touch, c: Config)
    requires c.intr2 && c.gpioValid
    ensures Work(t, c).line <==>
              if SomeSets(t.slots, c, 0) then AnyDown(Work(t, c).slots) || SetsBelowDown(t.slots, c, 0) else t.line
  {
    LineFrom(Progress(t, false), c, 0);
  }

  /** The event a slot knows after a work run. */
  function Known(s: Slot): Event { if s.cur.updated then s.cur else s.last }

  /** After a work run some slot's event is a finger in the area. */
  ghost predicate FingerAfter(slots: seq<Slot>, c: Config) {
    exists i :: 0 <= i < |slots| && Inside(Known(slots[i]), c)
  }

  lemma TurnDown(s: Slot, c: Config)
    requires SlotOk(s, c)
    ensures SlotTurn(s, c).slot.state == Down <==> Inside(Known(s), c)
  {
    TurnKeeps(s, c);
  }

  /** Which finger is down after a work run can be read off before it. */
  lemma DownAfterExactly(t: Touch, c: Config)
    requires SlotsOk(t.slots, c)
    ensures AnyDown(Work(t, c).slots) <==> FingerAfter(t.slots, c)
  {
    var u := Work(t, c).slots;
    WorkSlots(Progress(t, false), c, 0);
    forall i | 0 <= i < |u| ensures u[i].state == Down <==> Inside(Known(t.slots[i]), c) {
      TurnDown(t.slots[i], c);
    }
    if AnyDown(u) {
      var i :| 0 <= i < |u| && u[i].state == Down;
      assert Inside(Known(t.slots[i]), c);
    }
    if FingerAfter(t.slots, c) {
      var i :| 0 <= i < |t.slots| && Inside(Known(t.slots[i]), c);
      assert u[i].state == Down;
    }
  }

  lemma NothingSet(t: Touch, c: Config)
    requires !SomeSets(t.slots, c, 0)
    ensures AnyDown(Work(t, c).slots) <==> AnyDown(t.slots)
  {
    var u := Work(t, c).slots;
    WorkSlots(Progress(t, false), c, 0);
    forall i | 0 <= i < |u| ensures u[i].state == t.slots[i].state {
      assert !Sets(t.slots[i], c);
      StateStays(t.slots[i], c);
    }
    if AnyDown(u) {
      var i :| 0 <= i < |u| && u[i].state == Down;
      assert t.slots[i].state == Down;
    }
    if AnyDown(t.slots) {
      var i :| 0 <= i < |t.slots| && t.slots[i].state == Down;
      assert u[i].state == Down;
    }
  }

  /** After a work run the line tells exactly whether a finger is down, except in
      two cases that show before the run: it reports no finger up or down, and the
      line was wrong already; or it will leave no finger in the area, and a slot
      it reports comes before one that is down. */
  lemma LineTellsDownExactly(t: Touch, c: Config)
    requires c.intr2 && c.gpioValid && SlotsOk(t.slots, c)
    ensures (Work(t, c).line <==> AnyDown(Work(t, c).slots)) <==>
              if SomeSets(t.slots, c, 0) then FingerAfter(t.slots, c) || !SetsBelowDown(t.slots, c, 0)
              else (t.line <==> AnyDown(t.slots))
  {
    LineExactly(t, c);
    DownAfterExactly(t, c);
    if !SomeSets(t.slots, c, 0) { NothingSet(t, c); }
  }

  ghost predicate LineHighWhenDown(t: Touch) { AnyDown(t.slots) ==> t.line }

  lemma WorkLine(t: Touch, c: Config)
    requires c.intr2 && c.gpioValid && LineHighWhenDown(t)
    ensures LineHighWhenDown(Work(t, c))
  {
    LineExactly(t, c);
    var u := Work(t, c);
    if AnyDown(u.slots) && !SomeSets(t.slots, c, 0) {
      var i :| 0 <= i < |u.slots| && u.slots[i].state == Down;
      WorkSlots(Progress(t, false), c, 0);
      StateStays(t.slots[i], c);
    }
  }

  /** In every run, whenever some slot is down the line is high. */
  lemma {:induction false} LineHighInEveryRun(t: Touch, c: Config, steps: seq<Step>)
    requires c.intr2 && c.gpioValid && Fresh(t, c)
    ensures LineHighWhenDown(Run(t, c, steps))
  {
    if steps != [] {
      var u := Run(t, c, steps[..|steps| - 1]);
      LineHighInEveryRun(t, c, steps[..|steps| - 1]);
      FreshInv(t, c);
      RunKeeps(t, c, steps[..|steps| - 1]);
      match steps[|steps| - 1] {
        case Feeding(input) =>
          FeedKeeps(u, c, input);
          if AnyDown(Feed(u, c, input).t.slots) {
            var i :| 0 <= i < |u.slots| && Feed(u, c, input).t.slots[i].state == Down;
            assert u.slots[i].state == Down;
          }
        case Working => WorkLine(u, c);
      }
    }
  }

  lemma RunMore(t: Touch, c: Config, steps: seq<Step>, a: Step)
    ensures Run(t, c, steps + [a]) == Apply(Run(t, c, steps), c, a)
  {
    assert (steps + [a])[..|steps|] == steps;
  }

  lemma {:induction false} RunAppend(t: Touch, c: Config, a: seq<Step>, b: seq<Step>)
    ensures Run(t, c, a + b) == Run(Run(t, c, a), c, b)
    decreases |b|
  {
    if b == [] {
      assert a + b == a;
    } else {
      var front, last := b[..|b| - 1], b[|b| - 1];
      assert a + b == (a + front) + [last] && b == front + [last];
      RunAppend(t, c, a, front);
      RunMore(t, c, a + front, last);
    }
  }

  /** One frame of input with both ids, and the work run for it. */
  function Frame(a: int, b: int): seq<Step> {
    [] + [Feeding(SlotCode(0))] + [Feeding(TrackingId(a))] + [Feeding(SlotCode(1))] + [Feeding(TrackingId(b))]
    + [Feeding(SynReport)] + [Working]
  }

  function Update(s: Slot, id: int): Slot { s.(cur := s.cur.(id := id, updated := true)) }

  /** What the detector has seen of a frame. */
  function Seen(t: Touch, a: int, b: int): Touch
    requires 2 <= |t.slots|
  {
    t.(slots := t.slots[0 := Update(t.slots[0], a)][1 := Update(t.slots[1], b)], currentSlot := 1)
  }

  lemma FrameRuns(t: Touch, c: Config, a: int, b: int)
    requires 2 <= |t.slots| && t.currentSlot < |t.slots| && t.complete && Enabled(c)
    ensures Run(t, c, Frame(a, b)) == Work(Seen(t, a, b), c)
  {
    var f1 := [] + [Feeding(SlotCode(0))];
    RunMore(t, c, [], Feeding(SlotCode(0)));
    var f2 := f1 + [Feeding(TrackingId(a))];
    RunMore(t, c, f1, Feeding(TrackingId(a)));
    var f3 := f2 + [Feeding(SlotCode(1))];
    RunMore(t, c, f2, Feeding(SlotCode(1)));
    var f4 := f3 + [Feeding(TrackingId(b))];
    RunMore(t, c, f3, Feeding(TrackingId(b)));
    var f5 := f4 + [Feeding(SynReport)];
    RunMore(t, c, f4, Feeding(SynReport));
    RunMore(t, c, f5, Working);
    assert Run(t, c, f5).slots == Seen(t, a, b).slots;
  }

  lemma {:induction false} WorkLeaves(p: Progress, c: Config, k: nat)
    requires k <= |p.t.slots|
    ensures var u := WorkFrom(p, c, k).t; u.currentSlot == p.t.currentSlot && u.complete == p.t.complete
    decreases |p.t.slots| - k
  {
    if k < |p.t.slots| { WorkLeaves(SlotStep(p, c, k), c, k + 1); }
  }

  /** A configuration with everything on, and an area around the origin. */
  const SQUARE: Config := Config(true, false, 0, 0, 100, 100, 0, 0, true, true, false)

  const NO_FINGER: Slot := Slot(Event(0, 0, -1, false), Event(0, 0, -1, false), 0, 0, Up)

  /** A detector as it starts. */
  function Start(): Touch {
    Touch(seq(MT_MAX_FINGERS, i requires 0 <= i < MT_MAX_FINGERS => NO_FINGER), 0, true, false, [])
  }

  /** A slot with a finger down at the origin. */
  function Touched(id: int): Slot { Slot(Event(0, 0, id, false), Event(0, 0, id, true), 0, 0, Down) }

  lemma FingerComes(id: int)
    requires id >= 0
    ensures SlotTurn(Update(NO_FINGER, id), SQUARE) == Turn(Touched(id), Some(Down))
  {
  }

  lemma FingerGoes(id: int)
    requires id >= 0
    ensures Sets(Update(Touched(id), -1), SQUARE) && SlotTurn(Update(Touched(id), -1), SQUARE).slot.state == Up
  {
  }

  lemma NoFingerStays()
    ensures SlotTurn(NO_FINGER, SQUARE) == Turn(NO_FINGER, None)
  {
  }

  /** Two fingers put down in one frame. */
  lemma TwoDown() returns (t: Touch)
    ensures t == Run(Start(), SQUARE, Frame(5, 6)) && |t.slots| == MT_MAX_FINGERS && t.currentSlot == 1 && t.complete
    ensures forall i :: 0 <= i < |t.slots| ==>
              t.slots[i] == if i == 0 then Touched(5) else if i == 1 then Touched(6) else NO_FINGER
  {
    var t1, c := Seen(Start(), 5, 6), SQUARE;
    FrameRuns(Start(), c, 5, 6);
    t := Work(t1, c);
    WorkSlots(Progress(t1, false), c, 0);
    WorkLeaves(Progress(t1, false), c, 0);
    FingerComes(5);
    FingerComes(6);
    NoFingerStays();
  }

  lemma BothLifted(t: Touch)
    requires |t.slots| == MT_MAX_FINGERS
    requires forall i :: 0 <= i < |t.slots| ==>
               t.slots[i] == if i == 0 then Touched(5) else if i == 1 then Touched(6) else NO_FINGER
    ensures var u := Work(Seen(t, -1, -1), SQUARE); u.line && !AnyDown(u.slots)
  {
    var t3, c := Seen(t, -1, -1), SQUARE;
    FingerGoes(5);
    FingerGoes(6);
    NoFingerStays();
    assert Sets(t3.slots[0], c) && t3.slots[1].state == Down;
    LineExactly(t3, c);
    WorkSlots(Progress(t3, false), c, 0);
  }

  /** The line can stay high with no finger down: two fingers put down in one
      frame and lifted in the next leave it so. */
  lemma LineStaysHigh()
    ensures Fresh(Start(), SQUARE)
    ensures var u := Run(Start(), SQUARE, Frame(5, 6) + Frame(-1, -1)); u.line && !AnyDown(u.slots)
  {
    var t := TwoDown();
    RunAppend(Start(), SQUARE, Frame(5, 6), Frame(-1, -1));
    FrameRuns(t, SQUARE, -1, -1);
    BothLifted(t);
  }
}
