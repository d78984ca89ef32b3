/** Finger detection from touch events: each slot's events are classified and
    filtered by an area and a radius, and reported. */
module TouchModel {
  import opened Common

  const MT_MAX_FINGERS: nat := 10
  const MAX_FW_EVENTS: nat := 128

  datatype State = Up | Down | Move

  datatype Event = Event(x: int, y: int, id: int, updated: bool)

  /** The configuration; it stays as it is while fingers are tracked. */
  datatype Config = Config(touchFd: bool, radFilter: bool, left: int, top: int, right: int, bottom: int,
                           radX: int, radY: int, intr2: bool, gpioValid: bool, irqEnabled: bool)

  datatype Slot = Slot(cur: Event, last: Event, dx: int, dy: int, state: State)

  datatype Report = Report(slot: nat, state: State, x: int, y: int)

  /** The detector: slots, the interrupt line to the sensor, and all reports. */
  datatype Touch = Touch(slots: seq<Slot>, currentSlot: nat, complete: bool, line: bool, reports: seq<Report>)

  function Abs(v: int): nat { if v < 0 then -v else v }

  /** A 32-bit int converted to unsigned. */
  function Unsigned(v: int): int { if v < 0 then v + 0x1_0000_0000 else v }

  // ---- Classification, branch by branch ----

  predicate InArea(e: Event, c: Config) {
    !(e.x < c.left || e.x > c.right || e.y < c.top || e.y > c.bottom)
  }

  /** The event's kind before the area is looked at. */
  function Raw(cur: Event, last: Event): State {
    if cur.id < 0 then Up
    else if last.id < 0 then Down
    else if last.id == cur.id then Move
    else Down
  }

  /** The event's kind with the area filter; none if it is dropped. */
  function Classify(cur: Event, last: Event, c: Config): Option<State> {
    if !InArea(cur, c) then
      if InArea(last, c) && last.id >= 0 then Some(Up) else None
    else if !InArea(last, c) && cur.id >= 0 then Some(Down)
    else Some(Raw(cur, last))
  }

  /** The displacement leaves the radius. */
  predicate LeavesRadius(dx: int, dy: int, c: Config) {
    !c.radFilter || Abs(dx) > Unsigned(c.radX) || Abs(dy) > Unsigned(c.radY)
  }

  /** A slot after its turn, and the event it reports, if any. */
  datatype Turn = Turn(slot: Slot, event: Option<State>)

  function SlotTurn(s: Slot, c: Config): Turn {
    if !s.cur.updated then Turn(s, None) else
    var t := s.(cur := s.cur.(updated := false), last := s.cur);
    var kind := Classify(s.cur, s.last, c);
    if kind.None? then Turn(t, None)
    else if kind.value == Move then
      var dx, dy := s.dx + s.cur.x - s.last.x, s.dy + s.cur.y - s.last.y;
      if LeavesRadius(dx, dy, c) then Turn(t.(dx := 0, dy := 0), Some(Move))
      else Turn(t.(dx := dx, dy := dy), None)
    else Turn(t.(state := kind.value), kind)
  }

  predicate AnyDown(slots: seq<Slot>) { exists i :: 0 <= i < |slots| && slots[i].state == Down }

  /** A work run under way: the detector, and whether a slot was seen down. */
  datatype Progress = Progress(t: Touch, saw: bool)

  /** One slot's turn in a work run. */
  function SlotStep(p: Progress, c: Config, k: nat): Progress
    requires k < |p.t.slots|
  {
    var turn := SlotTurn(p.t.slots[k], c);
    var slots := p.t.slots[k := turn.slot];
    if turn.event.None? then p.(t := p.t.(slots := slots)) else
    var saw := p.saw || (turn.event.value != Move && AnyDown(slots));
    var report := Report(k, turn.event.value, p.t.slots[k].cur.x, p.t.slots[k].cur.y);
    Progress(p.t.(slots := slots,
                  line := if turn.event.value != Move && c.intr2 && c.gpioValid then saw else p.t.line,
                  reports := if c.touchFd then p.t.reports + [report] else p.t.reports),
             saw)
  }

  function WorkFrom(p: Progress, c: Config, k: nat): (q: Progress)
    requires k <= |p.t.slots|
    ensures |q.t.slots| == |p.t.slots|
    decreases |p.t.slots| - k
  {
    if k == |p.t.slots| then p else WorkFrom(SlotStep(p, c, k), c, k + 1)
  }

  function Work(t: Touch, c: Config): (u: Touch)
    ensures |u.slots| == |t.slots|
  {
    WorkFrom(Progress(t, false), c, 0).t
  }

  // ---- Input events ----

  datatype Input = SlotCode(value: nat) | TrackingId(id: int) | PositionX(x: int) | PositionY(y: int) | SynReport | OtherCode

  /** An input event, and whether it schedules a work run. */
  datatype Fed = Fed(t: Touch, scheduled: bool)

  predicate Enabled(c: Config) { c.touchFd || c.intr2 || c.irqEnabled }

  function WithCur(t: Touch, e: Event): Touch
    requires t.currentSlot < |t.slots|
  {
    t.(slots := t.slots[t.currentSlot := t.slots[t.currentSlot].(cur := e)])
  }

  /** Without detection the events seen become the last events. */
  function Forget(slots: seq<Slot>): (r: seq<Slot>)
    ensures |r| == |slots|
  {
    seq(|slots|, i requires 0 <= i < |slots| => slots[i].(last := slots[i].cur))
  }

  function Feed(t: Touch, c: Config, input: Input): (f: Fed)
    ensures |f.t.slots| == |t.slots|
  {
    if t.currentSlot >= |t.slots| then Fed(t, false) else
    var e := t.slots[t.currentSlot].cur;
    var u := match input
      case SlotCode(value) =>
        (if t.complete then t else WithCur(t, e.(updated := true))).(currentSlot := value, complete := false)
      case TrackingId(id) => WithCur(t, e.(id := id)).(complete := false)
      case PositionX(x) => WithCur(t, e.(x := Abs(x))).(complete := false)
      case PositionY(y) => WithCur(t, e.(y := Abs(y))).(complete := false)
      case SynReport => WithCur(t, e.(updated := true)).(complete := true)
      case OtherCode => t;
    if !u.complete then Fed(u, false)
    else if Enabled(c) then Fed(u, true)
    else Fed(u.(slots := Forget(u.slots)), false)
  }

  // ---- Runs ----

  datatype Step = Feeding(input: Input) | Working

  function Apply(t: Touch, c: Config, s: Step): (u: Touch)
    ensures |u.slots| == |t.slots|
  {
    match s
    case Feeding(input) => Feed(t, c, input).t
    case Working => Work(t, c)
  }

  function Run(t: Touch, c: Config, steps: seq<Step>): (u: Touch) {
    if steps == [] then t else Apply(Run(t, c, steps[..|steps| - 1]), c, steps[|steps| - 1])
  }

  /** At the start no finger is in the area and nothing was reported. */
  predicate Fresh(t: Touch, c: Config) {
    && |t.slots| == MT_MAX_FINGERS && t.reports == []
    && forall i :: 0 <= i < |t.slots| ==>
         t.slots[i].state == Up && (t.slots[i].last.id < 0 || !InArea(t.slots[i].last, c))
  }
}
