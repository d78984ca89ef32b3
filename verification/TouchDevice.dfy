/** The finger detector as the driver keeps it: arrays updated in place. */
module TouchDevice {
  import opened Common
  import opened TouchModel

  /** The current slot's event after a code: each code has its own field, and a slot code
      ends the event unless a frame was just over. */
  function Changed(e: Event, input: Input, frameOver: bool): Event {
    match input
    case SlotCode(_) => Event(e.x, e.y, e.id, e.updated || !frameOver)
    case TrackingId(id) => Event(e.x, e.y, id, e.updated)
    case PositionX(x) => Event(if x < 0 then -x else x, e.y, e.id, e.updated)
    case PositionY(y) => Event(e.x, if y < 0 then -y else y, e.id, e.updated)
    case SynReport => Event(e.x, e.y, e.id, true)
    case OtherCode => e
  }

  class TouchDetector {
    const config: Config
    const currentEvents: array<Event>
    const lastEvents: array<Event>
    const deltaX: array<int>
    const deltaY: array<int>
    const slotState: array<State>
    var currentSlot: nat
    var reportEvent: bool
    var line: bool
    /** Reports waiting to be read. */
    var fifo: seq<Report>
    /** All reports ever made. */
    ghost var reports: seq<Report>

    ghost predicate Valid()
    {
      && currentEvents.Length == lastEvents.Length == MT_MAX_FINGERS
      && deltaX.Length == deltaY.Length == slotState.Length == MT_MAX_FINGERS
      && currentEvents != lastEvents && deltaX != deltaY
    }

    ghost function SlotAt(i: nat): Slot
      requires Valid() && i < MT_MAX_FINGERS
      reads currentEvents, lastEvents, deltaX, deltaY, slotState
    {
      Slot(currentEvents[i], lastEvents[i], deltaX[i], deltaY[i], slotState[i])
    }

    ghost function Slots(): (s: seq<Slot>)
      requires Valid()
      reads currentEvents, lastEvents, deltaX, deltaY, slotState
      ensures |s| == MT_MAX_FINGERS && forall i :: 0 <= i < |s| ==> s[i] == SlotAt(i)
    {
      seq(MT_MAX_FINGERS, i requires 0 <= i < MT_MAX_FINGERS
                            reads currentEvents, lastEvents, deltaX, deltaY, slotState => SlotAt(i))
    }

    ghost function View(): (t: Touch)
      requires Valid()
      reads this, currentEvents, lastEvents, deltaX, deltaY, slotState
    {
      Touch(Slots(), currentSlot, reportEvent, line, reports)
    }

    constructor (config: Config)
      ensures Valid() && this.config == config && fifo == [] && Fresh(View(), config)
    {
      this.config := config;
      currentEvents := new Event[MT_MAX_FINGERS](_ => Event(0, 0, -1, false));
      lastEvents := new Event[MT_MAX_FINGERS](_ => Event(0, 0, -1, false));
      deltaX := new int[MT_MAX_FINGERS](_ => 0);
      deltaY := new int[MT_MAX_FINGERS](_ => 0);
      slotState := new State[MT_MAX_FINGERS](_ => Up);
      currentSlot, reportEvent, line, fifo, reports := 0, true, false, [], [];
    }

    /** Queues a report for user space; a full queue drops it. */
    method FdReportEvent(r: Report)
      modifies this`fifo, this`reports
      ensures reports == old(reports) + [r]
      ensures fifo == if |old(fifo)| < MAX_FW_EVENTS then old(fifo) + [r] else old(fifo)
    {
      if |fifo| < MAX_FW_EVENTS {
        fifo := fifo + [r];
      }
      reports := reports + [r];
    }

    /** Accumulates a slot's displacement; true, and starts over, if it leaves the radius. */
    method FilterByRadius(cur: Event, last: Event, slot: nat) returns (leaves: bool)
      requires Valid() && slot < MT_MAX_FINGERS
      modifies deltaX, deltaY
      ensures leaves == LeavesRadius(old(deltaX[slot]) + cur.x - last.x, old(deltaY[slot]) + cur.y - last.y, config)
      ensures deltaX[..] == old(deltaX[..])[slot := if leaves then 0 else old(deltaX[slot]) + cur.x - last.x]
      ensures deltaY[..] == old(deltaY[..])[slot := if leaves then 0 else old(deltaY[slot]) + cur.y - last.y]
    {
      deltaX[slot] := deltaX[slot] + (cur.x - last.x);
      deltaY[slot] := deltaY[slot] + (cur.y - last.y);
      var delX, delY := Abs(deltaX[slot]), Abs(deltaY[slot]);
      leaves := !config.radFilter || delX > Unsigned(config.radX) || delY > Unsigned(config.radY);
      if leaves {
        deltaX[slot], deltaY[slot] := 0, 0;
      }
    }

    /** The kind of an event after the area filter; none if it is dropped. */
    method FilterByArea(cur: Event, last: Event) returns (kind: Option<State>)
      ensures kind == Classify(cur, last, config)
    {
      var state;
      if cur.id < 0 {
        state := Up;
      } else if last.id < 0 {
        state := Down;
      } else if last.id == cur.id {
        state := Move;
      } else {
        state := Down;
      }
      if !InArea(cur, config) {
        if InArea(last, config) && last.id >= 0 {
          state := Up;
        } else {
          return None;
        }
      } else if !InArea(last, config) && cur.id >= 0 {
        state := Down;
      }
      return Some(state);
    }

    /** Takes over a slot's event, and classifies it. */
    method TurnSlot(slot: nat) returns (event: Option<State>, cur: Event)
      requires Valid() && slot < MT_MAX_FINGERS
      modifies currentEvents, lastEvents, deltaX, deltaY, slotState
      ensures cur == old(currentEvents[slot])
      ensures event == SlotTurn(old(SlotAt(slot)), config).event
      ensures Slots() == old(Slots())[slot := SlotTurn(old(SlotAt(slot)), config).slot]
    {
      cur := currentEvents[slot];
      currentEvents[slot] := cur.(updated := false);
      if !cur.updated { return None, cur; }
      var last := lastEvents[slot];
      lastEvents[slot] := cur;
      event := FilterByArea(cur, last);
      if event.None? { return; }
      if event.value == Move {
        var leaves := FilterByRadius(cur, last, slot);
        if !leaves { event := None; }
      } else {
        slotState[slot] := event.value;
      }
    }

    /** Looks for a slot that is down. */
    method ScanDown() returns (down: bool)
      requires Valid()
      ensures down <==> AnyDown(Slots())
    {
      for i := 0 to MT_MAX_FINGERS
        invariant forall k :: 0 <= k < i ==> slotState[k] != Down
      {
        if slotState[i] == Down {
          assert Slots()[i].state == Down;
          return true;
        }
      }
      return false;
    }

    method ProcessSlot(slot: nat, saw: bool) returns (saw': bool)
      requires Valid() && slot < MT_MAX_FINGERS
      modifies this, currentEvents, lastEvents, deltaX, deltaY, slotState
      ensures Progress(View(), saw') == SlotStep(Progress(old(View()), saw), config, slot)
    {
      saw' := saw;
      var event, cur := TurnSlot(slot);
      if event.None? { return; }
      if event.value != Move {
        var down := ScanDown();
        if down { saw' := true; }
        if config.intr2 && config.gpioValid { line := saw'; }
      }
      if config.touchFd { FdReportEvent(Report(slot, event.value, cur.x, cur.y)); }
    }

    /** The work run: every slot that was updated has its turn. */
    method TouchWork()
      requires Valid()
      modifies this, currentEvents, lastEvents, deltaX, deltaY, slotState
      ensures View() == Work(old(View()), config)
    {
      var saw := false;
      for slot := 0 to MT_MAX_FINGERS
        invariant WorkFrom(Progress(View(), saw), config, slot) == WorkFrom(Progress(old(View()), false), config, 0)
      {
        saw := ProcessSlot(slot, saw);
      }
    }

    /** An input event for the current slot; true if a work run is scheduled. */
    method TouchReportEvent(input: Input) returns (scheduled: bool)
      requires Valid()
      modifies this, currentEvents, lastEvents
      ensures Fed(View(), scheduled) == Feed(old(View()), config, input)
      ensures old(currentSlot) >= MT_MAX_FINGERS ==> !scheduled && currentEvents[..] == old(currentEvents[..])
      ensures old(currentSlot) < MT_MAX_FINGERS ==>
                currentEvents[..] ==
                  old(currentEvents[..])[old(currentSlot) := Changed(old(currentEvents[..])[old(currentSlot)], input, old(reportEvent))]
      ensures lastEvents[..] == if old(currentSlot) < MT_MAX_FINGERS && reportEvent && !Enabled(config)
                                then currentEvents[..] else old(lastEvents[..])
    {
      if currentSlot >= MT_MAX_FINGERS { return false; }
      var slot, e := currentSlot, currentEvents[currentSlot];
      match input {
        case SlotCode(value) =>
          currentSlot := value;
          if !reportEvent { currentEvents[slot] := e.(updated := true); }
          reportEvent := false;
        case TrackingId(id) =>
          currentEvents[slot] := e.(id := id);
          reportEvent := false;
        case PositionX(x) =>
          currentEvents[slot] := e.(x := Abs(x));
          reportEvent := false;
        case PositionY(y) =>
          currentEvents[slot] := e.(y := Abs(y));
          reportEvent := false;
        case SynReport =>
          currentEvents[slot] := e.(updated := true);
          reportEvent := true;
        case OtherCode =>
      }
      if reportEvent {
        if !config.touchFd && !config.intr2 && !config.irqEnabled {
          forall i | 0 <= i < MT_MAX_FINGERS { lastEvents[i] := currentEvents[i]; }
          return false;
        }
        return true;
      }
      return false;
    }
  }
}
