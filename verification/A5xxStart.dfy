/** The first commands after an a5xx powers up. */
module A5xxStart {
  import opened Common
  import opened Pm4
  import opened CommandProcessor
  import opened Ringbuffer
  import opened A5xxPackets
  import opened A5xxRingbuffer
  import opened A5xxExecution

  /** Room reserved for the commands. */
  const POST_START_DWORDS: nat := 42

  /** The event that makes performance counters tick. */
  const PIPELINE_STAT: u32 := 0xF

  /** The record the first switch saves to, and a yield to start from. */
  function PreemptionInit(out: seq<Packet>, dev: Device): (ps: seq<Packet>)
    requires AllFit(out)
    ensures AllFit(ps)
  {
    if !dev.preemption then out else
    SaveRecord(out, dev)
    + [Pkt7(CP_PREEMPT_ENABLE_GLOBAL, [0])]
    + [Pkt7(CP_PREEMPT_ENABLE_LOCAL, [1])]
    + [Pkt7(CP_YIELD_ENABLE, [1])]
    + [Pkt7(CP_CONTEXT_SWITCH_YIELD, [0, 0, 0, 1])]
  }

  function StartPackets(dev: Device, a530: bool): (ps: seq<Packet>)
    ensures AllFit(ps)
  {
    PreemptionInit(When([], a530, Pkt7(CP_EVENT_WRITE, [PIPELINE_STAT])), dev)
  }

  method PutPreemptionInit(cmds: array<u32>, index: nat, dev: Device, ghost log: Log)
    returns (next: nat, ghost log': Log)
    requires Holds(log, cmds[..], index) && index + 19 <= log.limit
    modifies cmds
    ensures next == index + (if dev.preemption then 19 else 0)
    ensures log' == log.(out := PreemptionInit(log.out, dev)) && Holds(log', cmds[..], next)
  {
    next, log' := index, log;
    if !dev.preemption { return; }
    next, log' := PutOp(cmds, next, CP_SET_PROTECTED_MODE, 1, [0], log');
    next, log' := PutReg(cmds, next, A5XX_CP_CONTEXT_SWITCH_SAVE_ADDR_LO, 1, [Lo(dev.recordAddr)], log');
    next, log' := PutReg(cmds, next, A5XX_CP_CONTEXT_SWITCH_SAVE_ADDR_HI, 1, [Hi(dev.recordAddr)], log');
    next, log' := PutOp(cmds, next, CP_SET_PROTECTED_MODE, 1, [1], log');
    next, log' := PutOp(cmds, next, CP_PREEMPT_ENABLE_GLOBAL, 1, [0], log');
    next, log' := PutOp(cmds, next, CP_PREEMPT_ENABLE_LOCAL, 1, [1], log');
    next, log' := PutOp(cmds, next, CP_YIELD_ENABLE, 1, [1], log');
    next, log' := PutOp(cmds, next, CP_CONTEXT_SWITCH_YIELD, 4, [0, 0, 0, 1], log');
  }

  /** Fills the reservation at `start` and gives back the rest of it. */
  method FillStart(rb: AdrenoRingbuffer, start: nat, dev: Device, a530: bool)
    requires rb.buffer.Length == KGSL_RB_DWORDS && start + POST_START_DWORDS <= KGSL_RB_DWORDS - 2
    requires rb.pendingWptr == start + POST_START_DWORDS
    modifies rb`pendingWptr, rb.buffer
    ensures Wrote(old(rb.buffer[..]), rb.buffer[..], start, EncodeAll(StartPackets(dev, a530)))
    ensures |EncodeAll(StartPackets(dev, a530))| <= 21
    ensures rb.pendingWptr == start + |EncodeAll(StartPackets(dev, a530))|
  {
    var cmds, index := rb.buffer, start;
    ghost var log := Log(cmds[..], start, [], start + POST_START_DWORDS);
    index, log := PutOpWhen(a530, cmds, index, CP_EVENT_WRITE, 1, [PIPELINE_STAT], log);
    index, log := PutPreemptionInit(cmds, index, dev, log);
    rb.pendingWptr := rb.pendingWptr - (POST_START_DWORDS - (index - start));
  }

  /** Writes the start commands, unpublished.  A report of the read pointer has
      room behind them. */
  method WriteStart(rb: AdrenoRingbuffer, dev: Device, a530: bool, rptr: nat) returns (fits: bool, ghost words: seq<u32>)
    requires rb.Valid() && !rb.legacy && rptr < KGSL_RB_DWORDS
    modifies rb`pendingWptr, rb.buffer
    ensures rb.Valid() && (fits <==> !NoRoom(rptr, old(rb.pendingWptr), POST_START_DWORDS))
    ensures !fits ==> rb.pendingWptr == old(rb.pendingWptr) && rb.buffer[..] == old(rb.buffer[..])
    ensures fits ==>
              && ReadsAs(words, StartPackets(dev, a530)) && !NoRoom(rptr, rb.pendingWptr, 3)
              && Cyclic(rb.buffer[..], rptr, rb.pendingWptr) == old(Cyclic(rb.buffer[..], rptr, rb.pendingWptr)) + words
  {
    words := [];
    ghost var w, orig := rb.pendingWptr, rb.buffer[..];
    var start := rb.AllocSpace(rptr, POST_START_DWORDS);
    if start < 0 { return false, words; }
    ghost var mid, out := rb.buffer[..], StartPackets(dev, a530);
    FillStart(rb, start, dev, a530);
    ghost var now := rb.buffer[..];
    words := Appended(false, orig, mid, now, rptr, rptr, w, start, POST_START_DWORDS, out, rb.pendingWptr, 3);
    return true, words;
  }

  datatype Started = NotNeeded | NoRoomLeft | Submitted

  /** Publishes the start commands; without preemption with a report of the read
      pointer behind them, which always fits. */
  method PostStart(rb: AdrenoRingbuffer, dev: Device, a530: bool, rptr: nat)
    returns (r: Started, ghost words: seq<u32>, ghost report: seq<u32>)
    requires rb.Valid() && !rb.legacy && rptr < KGSL_RB_DWORDS
    modifies rb`pendingWptr, rb`wptr, rb.buffer
    ensures rb.Valid()
    ensures r.NotNeeded? <==> !a530 && !dev.preemption
    ensures r.NoRoomLeft? <==> !r.NotNeeded? && NoRoom(rptr, old(rb.pendingWptr), POST_START_DWORDS)
    ensures !r.Submitted? ==>
              rb.wptr == old(rb.wptr) && rb.pendingWptr == old(rb.pendingWptr) && rb.buffer[..] == old(rb.buffer[..])
    ensures r.Submitted? ==>
              && rb.wptr == rb.pendingWptr && ReadsAs(words, StartPackets(dev, a530))
              && (if dev.preemption then report == [] else ReadsAs(report, [WhereAmI(dev)]))
              && Cyclic(rb.buffer[..], rptr, rb.wptr) == old(Cyclic(rb.buffer[..], rptr, rb.pendingWptr)) + words + report
  {
    words, report := [], [];
    if !a530 && !dev.preemption { return NotNeeded, words, report; }
    var fits;
    fits, words := WriteStart(rb, dev, a530, rptr);
    if !fits { return NoRoomLeft, words, report; }
    var ok;
    ok, report := RingbufferSubmit(rb, dev, !dev.preemption, rptr);
    return Submitted, words, report;
  }

  /** What the start commands make the processor do: performance counters tick, the
      record's address is set with protection off, and the processor yields from the
      ringbuffer level. */
  function StartActs(dev: Device, a530: bool): seq<Act> {
    In(PROTECTED, Maybe(a530, Other(CP_EVENT_WRITE, [0xF])))
    + if dev.preemption then InitActs(dev) else []
  }

  function InitActs(dev: Device): seq<Act> {
    RecordActs(dev)
    + In(PROTECTED, [Other(CP_PREEMPT_ENABLE_GLOBAL, [0]), Other(CP_PREEMPT_ENABLE_LOCAL, [1]), Other(CP_YIELD_ENABLE, [1]),
                     Other(CP_CONTEXT_SWITCH_YIELD, [0, 0, 0, 1])])
  }

  /** That is what they make it do, and the processor is as protected as before. */
  lemma StartExecutes(c: Cp, dev: Device, a530: bool)
    requires c.mode == PROTECTED
    ensures Execute(c, EncodeAll(StartPackets(dev, a530))) == Acted(c, StartActs(dev, a530))
  {
    var stat, ds := Pkt7(CP_EVENT_WRITE, [PIPELINE_STAT]), Maybe(a530, Other(CP_EVENT_WRITE, [PIPELINE_STAT]));
    var out := When([], a530, stat);
    ExecuteEncoded(c, StartPackets(dev, a530));
    DoesNothing(c);
    ExecWhen(c, c, [], [], a530, stat, Other(CP_EVENT_WRITE, [PIPELINE_STAT]));
    assert [] + ds == ds;
    Untabled(c, ds);
    if dev.preemption {
      ExecPreemptionInit(c, out, dev);
      Associate(c.acts, In(PROTECTED, ds), InitActs(dev));
    } else {
      assert In(PROTECTED, ds) + [] == In(PROTECTED, ds);
    }
  }

  lemma ExecPreemptionInit(c: Cp, out: seq<Packet>, dev: Device)
    requires AllFit(out) && ExecAll(c, out).mode == PROTECTED && dev.preemption
    ensures ExecAll(c, PreemptionInit(out, dev)) == Acted(ExecAll(c, out), InitActs(dev))
  {
    var e := ExecAll(c, out);
    ExecRecord(c, out, dev);
    ExecYields(c, SaveRecord(out, dev));
    Associate(e.acts, RecordActs(dev), InitActs(dev)[2..]);
  }

  lemma ExecYields(c: Cp, out: seq<Packet>)
    requires AllFit(out) && ExecAll(c, out).mode == PROTECTED
    ensures ExecAll(c, out + [Pkt7(CP_PREEMPT_ENABLE_GLOBAL, [0])] + [Pkt7(CP_PREEMPT_ENABLE_LOCAL, [1])] + [Pkt7(CP_YIELD_ENABLE, [1])]
                           + [Pkt7(CP_CONTEXT_SWITCH_YIELD, [0, 0, 0, 1])]) ==
              Acted(ExecAll(c, out), In(PROTECTED, [Other(CP_PREEMPT_ENABLE_GLOBAL, [0]), Other(CP_PREEMPT_ENABLE_LOCAL, [1]),
                                                    Other(CP_YIELD_ENABLE, [1]), Other(CP_CONTEXT_SWITCH_YIELD, [0, 0, 0, 1])]))
  {
    var e := ExecAll(c, out);
    var ds := [Other(CP_PREEMPT_ENABLE_GLOBAL, [0]), Other(CP_PREEMPT_ENABLE_LOCAL, [1]), Other(CP_YIELD_ENABLE, [1]),
               Other(CP_CONTEXT_SWITCH_YIELD, [0, 0, 0, 1])];
    ExecFour(c, e, out, Pkt7(CP_PREEMPT_ENABLE_GLOBAL, [0]), Pkt7(CP_PREEMPT_ENABLE_LOCAL, [1]), Pkt7(CP_YIELD_ENABLE, [1]),
             Pkt7(CP_CONTEXT_SWITCH_YIELD, [0, 0, 0, 1]), ds);
    Untabled(e, ds);
  }

  lemma ExecFour(c: Cp, e: Cp, out: seq<Packet>, p1: Packet, p2: Packet, p3: Packet, p4: Packet, ds: seq<Deed>)
    requires e == ExecAll(c, out) && |ds| == 4
    requires DeedOf(p1) == Some(ds[0]) && DeedOf(p2) == Some(ds[1]) && DeedOf(p3) == Some(ds[2]) && DeedOf(p4) == Some(ds[3])
    ensures ExecAll(c, out + [p1] + [p2] + [p3] + [p4]) == DoesAll(e, ds)
  {
    DoesNothing(e);
    ExecMore(c, e, out, [], p1, ds[0]);
    ExecMore(c, e, out + [p1], [] + [ds[0]], p2, ds[1]);
    ExecMore(c, e, out + [p1] + [p2], [] + [ds[0]] + [ds[1]], p3, ds[2]);
    ExecMore(c, e, out + [p1] + [p2] + [p3], [] + [ds[0]] + [ds[1]] + [ds[2]], p4, ds[3]);
    assert [] + [ds[0]] + [ds[1]] + [ds[2]] + [ds[3]] == ds;
  }
}
