/** Frames of input with positions: where a finger is put is where it is reported. */
module TouchFrames {
  import opened Common
  import opened TouchModel
  import opened TouchSafety

  /** One finger's codes in a frame. */
  datatype Finger = Finger(slot: nat, id: int, x: int, y: int)

  function Codes(f: Finger): seq<Step> {
    [Feeding(SlotCode(f.slot)), Feeding(TrackingId(f.id)), Feeding(PositionX(f.x)), Feeding(PositionY(f.y))]
  }

  function AllCodes(fs: seq<Finger>): seq<Step> {
    if fs == [] then [] else AllCodes(fs[..|fs| - 1]) + Codes(fs[|fs| - 1])
  }

  /** A frame: the fingers' codes, the end of the frame, and the work run for it. */
  function FrameOf(fs: seq<Finger>): seq<Step> { AllCodes(fs) + [Feeding(SynReport), Working] }

  /** Every finger has a slot of its own. */
  predicate OwnSlots(fs: seq<Finger>, slots: nat) {
    && (forall i :: 0 <= i < |fs| ==> fs[i].slot < slots)
    && forall i, j :: 0 <= i < j < |fs| ==> fs[i].slot != fs[j].slot
  }

  // ---- What a frame leaves in the slots ----

  function Seen(f: Finger, updated: bool): Event { Event(Abs(f.x), Abs(f.y), f.id, updated) }

  /** Nothing but the events seen is changed. */
  predicate SameKnown(s: Slot, t: Slot) { t == s.(cur := t.cur) }

  /** The slots once the codes of `fs` were fed: each finger's slot has its event, which
      is over for all but the last. */
  predicate Fed(before: Touch, t: Touch, fs: seq<Finger>) {
    && |t.slots| == |before.slots| && t.reports == before.reports && t.line == before.line && t.currentSlot < |t.slots|
    && (forall i :: 0 <= i < |t.slots| ==> SameKnown(before.slots[i], t.slots[i]))
    && (fs != [] ==> !t.complete && t.currentSlot == fs[|fs| - 1].slot)
    && forall k :: 0 <= k < |fs| ==> HasEvent(t, fs[k], k < |fs| - 1)
  }

  predicate HasEvent(t: Touch, f: Finger, over: bool) {
    f.slot < |t.slots| && var e := t.slots[f.slot].cur; e == Seen(f, e.updated) && (over ==> e.updated)
  }

  lemma CodesRun(t: Touch, c: Config, f: Finger)
    requires t.currentSlot < |t.slots| && f.slot < |t.slots|
    ensures Run(t, c, Codes(f)) ==
              var u := (if t.complete then t else WithCur(t, t.slots[t.currentSlot].cur.(updated := true)))
                         .(currentSlot := f.slot, complete := false);
              WithCur(u, Seen(f, u.slots[f.slot].cur.updated))
  {
    var s0 := [];
    RunMore(t, c, s0, Feeding(SlotCode(f.slot)));
    var s1 := s0 + [Feeding(SlotCode(f.slot))];
    RunMore(t, c, s1, Feeding(TrackingId(f.id)));
    var s2 := s1 + [Feeding(TrackingId(f.id))];
    RunMore(t, c, s2, Feeding(PositionX(f.x)));
    var s3 := s2 + [Feeding(PositionX(f.x))];
    RunMore(t, c, s3, Feeding(PositionY(f.y)));
    assert s3 + [Feeding(PositionY(f.y))] == Codes(f);
    var u := Run(t, c, s1);
    assert u == (if t.complete then t else WithCur(t, t.slots[t.currentSlot].cur.(updated := true)))
                  .(currentSlot := f.slot, complete := false);
    ThreeFields(u, c, f);
  }

  lemma ThreeFields(u: Touch, c: Config, f: Finger)
    requires u.currentSlot == f.slot < |u.slots| && !u.complete
    ensures Feed(Feed(Feed(u, c, TrackingId(f.id)).t, c, PositionX(f.x)).t, c, PositionY(f.y)).t ==
              WithCur(u, Seen(f, u.slots[f.slot].cur.updated))
  {
  }

  /** One more finger's codes. */
  lemma OneMoreFed(before: Touch, t: Touch, c: Config, fs: seq<Finger>, f: Finger)
    requires Fed(before, t, fs) && OwnSlots(fs + [f], |t.slots|)
    ensures Fed(before, Run(t, c, Codes(f)), fs + [f])
  {
    assert (fs + [f])[|fs|] == f;
    CodesRun(t, c, f);
    var u, all := Run(t, c, Codes(f)), fs + [f];
    forall k | 0 <= k < |all| ensures HasEvent(u, all[k], k < |all| - 1) {
      if k < |fs| {
        assert all[k] == fs[k] && HasEvent(t, fs[k], k < |fs| - 1) && fs[k].slot != f.slot;
      }
    }
  }

  lemma {:induction false} AllFed(t: Touch, c: Config, fs: seq<Finger>)
    requires t.currentSlot < |t.slots| && OwnSlots(fs, |t.slots|)
    ensures Fed(t, Run(t, c, AllCodes(fs)), fs)
    decreases |fs|
  {
    if fs != [] {
      var front, last := fs[..|fs| - 1], fs[|fs| - 1];
      AllFed(t, c, front);
      RunAppend(t, c, AllCodes(front), Codes(last));
      assert fs == front + [last];
      OneMoreFed(t, Run(t, c, AllCodes(front)), c, front, last);
    }
  }

  /** At the end of a frame every finger's event is over. */
  lemma FrameSeen(before: Touch, t: Touch, c: Config, fs: seq<Finger>, k: nat)
    requires Fed(before, t, fs) && k < |fs| && Enabled(c)
    ensures var u := Feed(t, c, SynReport).t;
            && |u.slots| == |before.slots| && u.reports == before.reports && fs[k].slot < |u.slots|
            && u.slots[fs[k].slot] == before.slots[fs[k].slot].(cur := Seen(fs[k], true))
  {
    assert HasEvent(t, fs[k], k < |fs| - 1) && SameKnown(before.slots[fs[k].slot], t.slots[fs[k].slot]);
  }

  // ---- What a work run reports ----

  /** The reports of one slot. */
  function ReportsOf(reports: seq<Report>, slot: nat): seq<Report> {
    if reports == [] then [] else
    var before, r := ReportsOf(reports[..|reports| - 1], slot), reports[|reports| - 1];
    if r.slot == slot then before + [r] else before
  }

  lemma ReportsOfMore(reports: seq<Report>, r: Report, slot: nat)
    ensures ReportsOf(reports + [r], slot) == ReportsOf(reports, slot) + if r.slot == slot then [r] else []
  {
    assert (reports + [r])[..|reports|] == reports;
  }

  /** What a slot reports in its turn. */
  function TurnReports(s: Slot, c: Config, slot: nat): seq<Report> {
    var e := SlotTurn(s, c).event;
    if c.touchFd && e.Some? then [Report(slot, e.value, s.cur.x, s.cur.y)] else []
  }

  lemma StepReports(p: Progress, c: Config, k: nat, slot: nat)
    requires k < |p.t.slots|
    ensures ReportsOf(SlotStep(p, c, k).t.reports, slot) ==
              ReportsOf(p.t.reports, slot) + if slot == k then TurnReports(p.t.slots[k], c, k) else []
  {
    var e := SlotTurn(p.t.slots[k], c).event;
    if e.Some? && c.touchFd {
      ReportsOfMore(p.t.reports, Report(k, e.value, p.t.slots[k].cur.x, p.t.slots[k].cur.y), slot);
    } else {
      assert ReportsOf(p.t.reports, slot) + [] == ReportsOf(p.t.reports, slot);
    }
  }

  lemma NothingMore(s: seq<Report>)
    ensures s + [] == s
  {
  }

  /** A work run reports each slot at most once, with its event's position. */
  lemma {:induction false} WorkReports(p: Progress, c: Config, k: nat, slot: nat)
    requires k <= |p.t.slots| && slot < |p.t.slots|
    ensures ReportsOf(WorkFrom(p, c, k).t.reports, slot) ==
              ReportsOf(p.t.reports, slot) + if k <= slot then TurnReports(p.t.slots[slot], c, slot) else []
    decreases |p.t.slots| - k
  {
    if k == |p.t.slots| {
      assert ReportsOf(p.t.reports, slot) + [] == ReportsOf(p.t.reports, slot);
    } else {
      var q := SlotStep(p, c, k);
      StepReports(p, c, k, slot);
      WorkReports(q, c, k + 1, slot);
      NothingMore(ReportsOf(p.t.reports, slot));
      NothingMore(ReportsOf(q.t.reports, slot));
      assert k != slot ==> q.t.slots[slot] == p.t.slots[slot];
    }
  }

  // ---- A frame in a run ----

  /** A position, in the configured area. */
  predicate At(c: Config, x: int, y: int) { c.left <= x <= c.right && c.top <= y <= c.bottom }

  /** What a slot must report of a frame's finger, given the event it knew and the
      displacement since its last report. */
  function MustReport(last: Event, dx: int, dy: int, f: Finger, c: Config): seq<Report> {
    var x, y := Abs(f.x), Abs(f.y);
    var inside, wasInside := f.id >= 0 && At(c, x, y), last.id >= 0 && At(c, last.x, last.y);
    var dx', dy' := dx + (x - last.x), dy + (y - last.y);
    if inside && wasInside && last.id == f.id then
      if !c.radFilter || Abs(dx') > Unsigned(c.radX) || Abs(dy') > Unsigned(c.radY) then [Report(f.slot, Move, x, y)] else []
    else if inside then [Report(f.slot, Down, x, y)]
    else if wasInside || At(c, x, y) then [Report(f.slot, Up, x, y)]
    else []
  }

  /** The displacement a slot keeps: it adds up while the finger moves in the area, and
      starts over when that is reported. */
  function MustDrift(d: int, moved: int, last: Event, dx: int, dy: int, f: Finger, c: Config): int {
    var x, y := Abs(f.x), Abs(f.y);
    if f.id < 0 || !At(c, x, y) || !At(c, last.x, last.y) || last.id != f.id then d
    else if MustReport(last, dx, dy, f, c) != [] then 0
    else d + moved
  }

  lemma TurnMustReport(s: Slot, c: Config, f: Finger)
    requires s.cur == Seen(f, true)
    ensures c.touchFd ==> TurnReports(s, c, f.slot) == MustReport(s.last, s.dx, s.dy, f, c)
    ensures var t := SlotTurn(s, c).slot;
            && t.last == s.cur
            && t.dx == MustDrift(s.dx, Abs(f.x) - s.last.x, s.last, s.dx, s.dy, f, c)
            && t.dy == MustDrift(s.dy, Abs(f.y) - s.last.y, s.last, s.dx, s.dy, f, c)
  {
    ClassifyMeans(s.cur, s.last, c);
  }

  /** After a frame and its work run, from any detector that is right, each of its
      fingers' slots is down exactly if the finger is there and its position is in the
      area; and the slot reports once, with exactly that position, what must be reported. */
  lemma FrameReported(t: Touch, c: Config, fs: seq<Finger>, k: nat)
    requires SlotsOk(t.slots, c) && Enabled(c) && t.currentSlot < |t.slots| && OwnSlots(fs, |t.slots|) && k < |fs|
    ensures var f, u := fs[k], Run(t, c, FrameOf(fs));
            && f.slot < |u.slots| && f.slot < |t.slots|
            && (u.slots[f.slot].state == Down <==> f.id >= 0 && At(c, Abs(f.x), Abs(f.y)))
            && (var s, v := t.slots[f.slot], u.slots[f.slot];
                && v.last == Seen(f, true)
                && v.dx == MustDrift(s.dx, Abs(f.x) - s.last.x, s.last, s.dx, s.dy, f, c)
                && v.dy == MustDrift(s.dy, Abs(f.y) - s.last.y, s.last, s.dx, s.dy, f, c))
            && (c.touchFd ==>
                  var s := t.slots[f.slot];
                  ReportsOf(u.reports, f.slot) == ReportsOf(t.reports, f.slot) + MustReport(s.last, s.dx, s.dy, f, c))
  {
    var f, fed := fs[k], Run(t, c, AllCodes(fs));
    AllFed(t, c, fs);
    FrameSeen(t, fed, c, fs, k);
    var seen := Feed(fed, c, SynReport).t;
    FrameRun(t, c, fs);
    var s := seen.slots[f.slot];
    assert SlotOk(t.slots[f.slot], c);
    WorkSlots(Progress(seen, false), c, 0);
    TurnDown(s, c);
    WorkReports(Progress(seen, false), c, 0, f.slot);
    TurnMustReport(s, c, f);
  }

  lemma FrameRun(t: Touch, c: Config, fs: seq<Finger>)
    ensures Run(t, c, FrameOf(fs)) == Work(Feed(Run(t, c, AllCodes(fs)), c, SynReport).t, c)
  {
    var codes := AllCodes(fs);
    RunMore(t, c, codes, Feeding(SynReport));
    RunMore(t, c, codes + [Feeding(SynReport)], Working);
    assert codes + [Feeding(SynReport)] + [Working] == FrameOf(fs);
  }

  /** That holds of a frame in any run. */
  lemma FrameInEveryRun(t: Touch, c: Config, steps: seq<Step>, fs: seq<Finger>, k: nat)
    requires Fresh(t, c) && Enabled(c)
    requires var u := Run(t, c, steps); u.currentSlot < |u.slots| && OwnSlots(fs, |u.slots|) && k < |fs|
    ensures var f, u := fs[k], Run(t, c, steps + FrameOf(fs));
            && f.slot < |u.slots|
            && (u.slots[f.slot].state == Down <==> f.id >= 0 && At(c, Abs(f.x), Abs(f.y)))
  {
    FreshInv(t, c);
    RunKeeps(t, c, steps);
    RunAppend(t, c, steps, FrameOf(fs));
    FrameReported(Run(t, c, steps), c, fs, k);
  }

  /** A slot code beyond the slots is never left again: from then on no input changes
      what is seen. */
  lemma {:induction false} BadSlotSticks(t: Touch, c: Config, steps: seq<Step>)
    requires t.currentSlot >= |t.slots|
    ensures var u := Run(t, c, steps);
            && u.currentSlot == t.currentSlot && |u.slots| == |t.slots|
            && forall i :: 0 <= i < |u.slots| ==> u.slots[i].cur.(updated := false) == t.slots[i].cur.(updated := false)
  {
    if steps != [] {
      var front, last := steps[..|steps| - 1], steps[|steps| - 1];
      BadSlotSticks(t, c, front);
      var u := Run(t, c, front);
      if last.Working? {
        WorkSlots(Progress(u, false), c, 0);
        WorkLeaves(Progress(u, false), c, 0);
      }
    }
  }
}
