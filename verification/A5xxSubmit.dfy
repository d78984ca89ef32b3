/** Submissions to one a5xx ring over time: the driver adds, the processor reads,
    and the write pointer goes around the ring. */
module A5xxSubmit {
  import opened Common
  import opened Pm4
  import opened CommandProcessor
  import opened Ringbuffer
  import opened RingReading
  import opened StreamSizes
  import opened DrawContexts
  import opened CommandLists
  import opened A5xxPackets
  import opened A5xxRingbuffer
  import opened A5xxExecution

  // ---- Whole runs on the ring's words ----

  lemma {:induction false} RingWordsMore(ps: seq<Published>, p: Published)
    ensures RingWords(ps + [p]) == RingWords(ps) + (p.words + p.report)
    decreases |ps|
  {
    if ps == [] {
      assert ps + [p] == [p];
      assert p.words + (p.report + []) == [] + (p.words + p.report);
    } else {
      assert (ps + [p])[1..] == ps[1..] + [p];
      RingWordsMore(ps[1..], p);
      var a, b, x, y := ps[0].words, ps[0].report, RingWords(ps[1..]), p.words + p.report;
      assert a + (b + (x + y)) == a + (b + x) + y;
    }
  }

  lemma {:induction false} TableAfterMore(table: u64, ps: seq<Published>, p: Published)
    ensures TableAfter(table, ps + [p]) == WantedTable(TableAfter(table, ps), p.sent)
    decreases |ps|
  {
    if ps == [] {
      assert ps + [p] == [p] && [p][1..] == [];
    } else {
      assert (ps + [p])[1..] == ps[1..] + [p];
      TableAfterMore(WantedTable(table, ps[0].sent), ps[1..], p);
    }
  }

  /** What was read and what is still to be read are the words of the submissions. */
  ghost predicate Tracks(read: seq<u32>, unread: seq<u32>, sent: seq<Published>) {
    AllPublished(sent) && read + unread == RingWords(sent)
  }

  lemma SentMore(read: seq<u32>, unread: seq<u32>, sent: seq<Published>, p: Published)
    requires Tracks(read, unread, sent) && AllPublished([p])
    ensures Tracks(read, unread + p.words + p.report, sent + [p])
  {
    assert AsPublished([p][0]);
    RingWordsMore(sent, p);
    Associate(unread, p.words, p.report);
    Associate(read, unread, p.words + p.report);
  }

  /** What AddCmds promises of the words is what the ring is said to hold. */
  lemma PublishedAs(job: Job, work: Work, user: seq<Packet>, words: seq<u32>, report: seq<u32>)
    requires WellSent(Sent(job, work)) && user == UserPackets(work)
    requires ReadsAs(words, Submission(job, user))
    requires if job.dev.preemption then report == [] else ReadsAs(report, [WhereAmI(job.dev)])
    ensures AllPublished([Published(Sent(job, work), words, report)])
  {
    assert AsPublished(Published(Sent(job, work), words, report));
  }

  lemma ReadMore(read: seq<u32>, more: seq<u32>, unread: seq<u32>, sent: seq<Published>)
    requires Tracks(read, more + unread, sent)
    ensures Tracks(read + more, unread, sent)
  {
    Associate(read, more, unread);
  }

  // ---- Submissions ----

  /** A context switch from `active` to `to` gets through. */
  predicate SwitchFits(active: Option<DrawContext>, to: DrawContext, defaultTable: u64, at: Place, gpuFault: bool) {
    !gpuFault && !NoRoomAt(at, SwitchRoom(active, to, defaultTable))
  }

  /** The addresses the packets of the ring's submissions write to. */
  datatype Addresses = Addresses(scratch: u64, rbCurrent: u64, globalCurrent: u64)

  /** What one submission is told: device, flags, timestamp, profiling buffers, and
      the value of the unique write. */
  datatype Order = Order(dev: Device, f: Flags, timestamp: u32, preIb: Option<Ib>, postIb: Option<Ib>, sequence: u32)

  function JobOf(o: Order, ctx: Option<Context>, rbTimestamp: u32): Job {
    Job(o.dev, ctx, o.f, o.timestamp, rbTimestamp, o.preIb, o.postIb, o.sequence)
  }

  /** Words on the ring of a submission of `n` words of commands, and of the report
      behind it. */
  function JobWords(job: Job, n: nat): nat {
    A5xxSubmissionWords(job.dev, job.ctx.Some?, job.f, job.preIb.Some?, job.postIb.Some?, n) + if job.dev.preemption then 0 else 3
  }

  function SwitchJob(dev: Device, sequence: u32, rbTimestamp: u32): Job {
    JobOf(Order(dev, SWITCH_FLAGS, 0, None, None, sequence), None, rbTimestamp)
  }

  /** Of a context switch, and of a list. */
  function SwitchTotal(dev: Device, pt: Option<u64>): nat { JobWords(SwitchJob(dev, 0, 0), A5xxSwitchWords(pt)) }

  function ListTotal(to: DrawContext, o: Order, n: nat): nat { JobWords(JobOf(o, Some(to.ctx), 0), n) }

  /** The ring's timestamp, counted up. */
  function Next(timestamp: u32): u32 { (timestamp + 1) % TWO32 }

  /** What the ring was asked for, without the words that say so. */
  function Asked(ps: seq<Published>): (s: seq<Sent>)
    ensures |s| == |ps|
  {
    seq(|ps|, i requires 0 <= i < |ps| => ps[i].sent)
  }

  lemma AskedMore(ps: seq<Published>, p: Published)
    ensures Asked(ps + [p]) == Asked(ps) + [p.sent]
  {
  }

  /** A context switch as it is asked for: an internal command, not protected, with the
      ring's timestamp alone. */
  function SwitchSent(pt: Option<u64>, to: DrawContext, a: Addresses, dev: Device, sequence: u32, rbTimestamp: u32): Sent {
    Sent(Job(dev, None, SWITCH_FLAGS, 0, rbTimestamp, None, None, sequence),
         Switch(pt, to.ctx.id, a.scratch, a.rbCurrent, a.globalCurrent))
  }

  /** A list as it is asked for. */
  function DrawSent(to: DrawContext, list: seq<IbNode>, o: Order, st: Stamps, rbTimestamp: u32): Sent {
    Sent(Job(o.dev, Some(to.ctx), o.f, o.timestamp, rbTimestamp, o.preIb, o.postIb, o.sequence), Draw(list, o.f, st))
  }

  /** The context switch that is asked for before a list of `to`, if there is one. */
  function SwitchAsked(active: Option<DrawContext>, to: DrawContext, defaultTable: u64, a: Addresses, dev: Device,
                       sequence: u32, timestamp: u32, through: bool): seq<Sent> {
    if active == Some(to) || !through then []
    else [SwitchSent(TableToLoad(active, to, defaultTable), to, a, dev, sequence, Next(timestamp))]
  }

  /** The ring's timestamp after it; it counts without room, too. */
  function SwitchTime(active: Option<DrawContext>, to: DrawContext, timestamp: u32, fault: bool): u32 {
    if active == Some(to) || fault then timestamp else Next(timestamp)
  }

  /** Room looked for by a context switch. */
  function SwitchRoom(active: Option<DrawContext>, to: DrawContext, defaultTable: u64): nat {
    A5XX_SUBMIT_MAX + A5xxSwitchWords(TableToLoad(active, to, defaultTable))
  }

  /** Where reading and writing are when room is looked for a list of `to`: a context
      switch went out if one was needed and got through, and the processor has read on
      by `k1` words from the look for its room, and then by `k2`. */
  function BeforeList(active: Option<DrawContext>, to: DrawContext, defaultTable: u64, at: Place, dev: Device,
                      fault: bool, k1: nat, k2: nat): Place {
    ReadOn(AfterSwitch(active, to, defaultTable, at, dev, fault, k1), k2)
  }

  function AfterSwitch(active: Option<DrawContext>, to: DrawContext, defaultTable: u64, at: Place, dev: Device,
                       fault: bool, k: nat): Place {
    if active == Some(to) then at
    else if SwitchFits(active, to, defaultTable, at, fault) then
      Added(at, SwitchRoom(active, to, defaultTable), SwitchTotal(dev, TableToLoad(active, to, defaultTable)), k)
    else ReadOn(at, k)
  }

  /** Where they are after a list of `n` words. */
  function AfterList(to: DrawContext, o: Order, at: Place, n: nat, wentOut: bool, k: nat): Place {
    if wentOut then Added(at, A5XX_SUBMIT_MAX + n, ListTotal(to, o, n), k) else ReadOn(at, k)
  }

  /** AddCmds, and what was published by it. */
  method Publish(rb: AdrenoRingbuffer, job: Job, input: seq<u32>, ghost work: Work, detached: bool, gpuFault: bool,
                 before: nat, rptr: nat)
    returns (status: Status, ghost p: Published)
    requires rb.Valid() && !rb.legacy && rb.wptr == rb.pendingWptr && rptr < KGSL_RB_DWORDS
    requires before < KGSL_RB_DWORDS && Between(before, rptr, rb.wptr)
    requires input == EncodeAll(UserPackets(work)) && WellSent(Sent(job, work))
    requires job.rbTimestamp == (rb.timestamp + 1) % TWO32
    modifies rb`timestamp, rb`pendingWptr, rb`wptr, rb.buffer
    ensures rb.Valid() && rb.wptr == rb.pendingWptr && p.sent == Sent(job, work)
    ensures status.Ok? ==>
              && AllPublished([p])
              && Cyclic(rb.buffer[..], rptr, rb.wptr) == old(Cyclic(rb.buffer[..], rptr, rb.wptr)) + p.words + p.report
    ensures !status.Ok? ==> rb.buffer[..] == old(rb.buffer[..]) && rb.wptr == old(rb.wptr)
    ensures status.Ok? ==> rb.wptr == StartOf(before, old(rb.wptr), A5XX_SUBMIT_MAX + |input|) + JobWords(job, |input|)
    ensures status.Detached? <==> job.ctx.Some? && detached
    ensures status.GpuFault? <==> !status.Detached? && gpuFault
    ensures status.NoSpace? <==>
              !status.Detached? && !gpuFault && NoRoom(before, old(rb.wptr), A5XX_SUBMIT_MAX + |input|)
    ensures rb.timestamp == if status.Detached? || status.GpuFault? then old(rb.timestamp) else job.rbTimestamp
  {
    ghost var user := UserPackets(work);
    ghost var words, report;
    status, words, report := AddCmds(rb, job, input, user, detached, gpuFault, before, rptr);
    p := Published(Sent(job, work), words, report);
    A5xxSubmissionSize(job, user);
    if status.Ok? { PublishedAs(job, work, user, words, report); }
  }

  lemma DrawAdded(table: u64, before: seq<Published>, p: Published, list: seq<IbNode>, f: Flags)
    requires var work := p.sent.work; work.Draw? && work.ibs == list && work.cf == f
    ensures LastDraws(before + [p], list, f) && BeforeLast(before + [p]) == before
    ensures TableAfter(table, before + [p]) == TableAfter(table, before)
  {
    TableAfterMore(table, before, p);
    assert (before + [p])[..|before|] == before;
  }

  class RingQueue {
    const rb: AdrenoRingbuffer
    const addresses: Addresses
    /** The default page table, in use at the start. */
    const defaultTable: u64
    /** The context whose commands were added last. */
    var active: Option<DrawContext>
    /** Where the processor has read to. */
    var rptr: nat
    /** All words it has read, and all submissions made. */
    ghost var read: seq<u32>
    ghost var sent: seq<Published>

    /** What was read and what is still to be read are the words of the submissions. */
    ghost predicate Valid()
      reads this, rb
      reads rb.buffer
    {
      && rb.Valid() && !rb.legacy && rb.wptr == rb.pendingWptr && rptr < KGSL_RB_DWORDS
      && Tracks(read, Cyclic(rb.buffer[..], rptr, rb.wptr), sent)
    }

    /** The page table in use once all submissions are executed. */
    ghost function Table(): u64
      reads this`sent
    {
      TableAfter(defaultTable, sent)
    }

    /** The processor has, or will have, the page table of the active context. */
    ghost predicate InStep()
      reads this
    {
      Table() == TableOf(active, defaultTable)
    }

    function Where(): Place
      reads this`rptr, rb`wptr
    {
      Place(rptr, rb.wptr)
    }

    /** The commands that start the ring up have been read, up to `start`. */
    constructor (addresses: Addresses, defaultTable: u64, start: nat)
      requires start <= KGSL_RB_DWORDS - 2
      ensures Valid() && fresh(rb) && fresh(rb.buffer) && fresh(rb.profileBuffer)
      ensures active == None && Where() == Place(start, start) && read == [] && sent == [] && InStep()
      ensures this.addresses == addresses && this.defaultTable == defaultTable
    {
      rb := new AdrenoRingbuffer(false);
      this.addresses, this.defaultTable := addresses, defaultTable;
      active, rptr, read, sent := None, start, [], [];
      new;
      rb.wptr, rb.pendingWptr := start, start;
    }

    /** In every run, with wrap-around and whatever the processor has read so far:
        what it reads in the end are whole packets, and it does what was asked. */
    lemma RingExecutes(c: Cp)
      requires Valid() && c.mode == PROTECTED
      ensures Decode(read + Cyclic(rb.buffer[..], rptr, rb.wptr)).Packets?
      ensures Execute(c, read + Cyclic(rb.buffer[..], rptr, rb.wptr)) == AfterAll(c, sent)
    {
      EveryRunBrackets(c, sent);
    }

    /** The processor reads on by up to `k` words. */
    method Read(k: nat)
      requires Valid()
      modifies this`rptr, this`read
      ensures Valid() && rptr == ReadTo(old(rptr), rb.wptr, k) && Between(old(rptr), rptr, rb.wptr)
    {
      var next := ReadTo(rptr, rb.wptr, k);
      ReadsOn(rb.buffer[..], rptr, rb.wptr, k, next);
      ghost var more := Cyclic(rb.buffer[..], rptr, next);
      ReadMore(read, more, Cyclic(rb.buffer[..], next, rb.wptr), sent);
      read := read + more;
      rptr := next;
    }

    /** Adds the words of one submission.  Room was looked for with the processor at
        `before`; it has read on since. */
    method Add(job: Job, input: seq<u32>, ghost work: Work, detached: bool, gpuFault: bool, before: nat)
      returns (status: Status, ghost p: Published)
      requires Valid() && before < KGSL_RB_DWORDS && Between(before, rptr, rb.wptr)
      requires input == EncodeAll(UserPackets(work)) && WellSent(Sent(job, work))
      requires job.rbTimestamp == (rb.timestamp + 1) % TWO32
      modifies this`sent, rb`timestamp, rb`pendingWptr, rb`wptr, rb.buffer
      ensures Valid() && p.sent == Sent(job, work)
      ensures status.Detached? <==> job.ctx.Some? && detached
      ensures status.GpuFault? <==> !status.Detached? && gpuFault
      ensures status.NoSpace? <==>
                !status.Detached? && !gpuFault && NoRoom(before, old(rb.wptr), A5XX_SUBMIT_MAX + |input|)
      ensures status.Ok? ==> sent == old(sent) + [p]
      ensures rb.timestamp == if status.Detached? || status.GpuFault? then old(rb.timestamp) else job.rbTimestamp
      ensures status.Ok? ==> rb.wptr == StartOf(before, old(rb.wptr), A5XX_SUBMIT_MAX + |input|) + JobWords(job, |input|)
      ensures !status.Ok? ==> sent == old(sent) && rb.wptr == old(rb.wptr)
    {
      ghost var unread := Cyclic(rb.buffer[..], rptr, rb.wptr);
      status, p := Publish(rb, job, input, work, detached, gpuFault, before, rptr);
      if status.Ok? {
        SentMore(read, unread, sent, p);
        sent := sent + [p];
      }
    }

    /** Adds the words of one submission.  Room is looked for before the processor
        reads on by `k` words. */
    method AddWhileReading(job: Job, input: seq<u32>, ghost work: Work, detached: bool, gpuFault: bool, k: nat)
      returns (status: Status, ghost p: Published)
      requires Valid() && input == EncodeAll(UserPackets(work)) && WellSent(Sent(job, work))
      requires job.rbTimestamp == (rb.timestamp + 1) % TWO32
      modifies this`rptr, this`read, this`sent, rb`timestamp, rb`pendingWptr, rb`wptr, rb.buffer
      ensures Valid() && p.sent == Sent(job, work)
      ensures status.Detached? <==> job.ctx.Some? && detached
      ensures status.GpuFault? <==> !status.Detached? && gpuFault
      ensures status.NoSpace? <==>
                !status.Detached? && !gpuFault && NoRoomAt(old(Where()), A5XX_SUBMIT_MAX + |input|)
      ensures rb.timestamp == if status.Detached? || status.GpuFault? then old(rb.timestamp) else job.rbTimestamp
      ensures status.Ok? ==>
                sent == old(sent) + [p] && Where() == Added(old(Where()), A5XX_SUBMIT_MAX + |input|, JobWords(job, |input|), k)
      ensures !status.Ok? ==> sent == old(sent) && Where() == ReadOn(old(Where()), k)
    {
      var before := rptr;
      Read(k);
      status, p := Add(job, input, work, detached, gpuFault, before);
    }

    /** Adds the commands of a context switch.  Room is looked for before the
        processor reads on by `k` words. */
    method AddSwitch(pt: Option<u64>, to: DrawContext, dev: Device, sequence: u32, fault: bool, k: nat) returns (status: Status)
      requires Valid()
      modifies this`rptr, this`read, this`sent, rb`timestamp, rb`pendingWptr, rb`wptr, rb.buffer
      ensures Valid() && old(sent) <= sent
      ensures status.Ok? <==> !fault && !NoRoomAt(old(Where()), A5XX_SUBMIT_MAX + A5xxSwitchWords(pt))
      ensures rb.timestamp == if fault then old(rb.timestamp) else Next(old(rb.timestamp))
      ensures status.Ok? ==>
                Asked(sent) == old(Asked(sent)) + [SwitchSent(pt, to, addresses, dev, sequence, Next(old(rb.timestamp)))]
      ensures status.Ok? ==>
                && Table() == (if pt.None? then old(Table()) else pt.value)
                && Where() == Added(old(Where()), A5XX_SUBMIT_MAX + A5xxSwitchWords(pt), SwitchTotal(dev, pt), k)
      ensures !status.Ok? ==> sent == old(sent) && Where() == ReadOn(old(Where()), k)
    {
      var words, count := BuildContextSwitch(pt, to.ctx.id, addresses.scratch, addresses.rbCurrent, addresses.globalCurrent);
      ghost var work := Switch(pt, to.ctx.id, addresses.scratch, addresses.rbCurrent, addresses.globalCurrent);
      A5xxSwitchSize(pt, to.ctx.id, addresses.scratch, addresses.rbCurrent, addresses.globalCurrent);
      var job := SwitchJob(dev, sequence, (rb.timestamp + 1) % TWO32);
      ghost var p;
      status, p := AddWhileReading(job, words[..count], work, false, fault, k);
      if status.Ok? {
        TableAfterMore(defaultTable, old(sent), p);
        AskedMore(old(sent), p);
      }
    }

    /** The context switch, with its result ignored. */
    method SwitchContext(to: DrawContext, dev: Device, sequence: u32, fault: bool, k: nat)
      requires Valid() && active != Some(to)
      modifies this`rptr, this`read, this`sent, this`active, rb`timestamp, rb`pendingWptr, rb`wptr, rb.buffer
      ensures Valid() && active == Some(to) && old(sent) <= sent
      ensures Table() == NextTable(old(active), old(Table()), to, defaultTable,
                                   SwitchFits(old(active), to, defaultTable, old(Where()), fault))
      ensures Where() == AfterSwitch(old(active), to, defaultTable, old(Where()), dev, fault, k)
      ensures Asked(sent) == old(Asked(sent)) + SwitchAsked(old(active), to, defaultTable, addresses, dev, sequence, old(rb.timestamp),
                                                            SwitchFits(old(active), to, defaultTable, old(Where()), fault))
      ensures rb.timestamp == SwitchTime(old(active), to, old(rb.timestamp), fault)
    {
      var ignored := AddSwitch(TableToLoad(active, to, defaultTable), to, dev, sequence, fault, k);
      active := Some(to);
    }

    /** Makes `to` the active context, unless it is that already. */
    method DrawctxtSwitch(to: DrawContext, dev: Device, sequence: u32, detached: bool, fault: bool, k: nat) returns (ok: bool)
      requires Valid()
      modifies this`rptr, this`read, this`sent, this`active, rb`timestamp, rb`pendingWptr, rb`wptr, rb.buffer
      ensures Valid() && (ok <==> Attempted(old(active), to, false, detached))
      ensures !ok ==> sent == old(sent) && active == old(active) && Where() == old(Where())
      ensures ok ==>
                && active == Some(to) && old(sent) <= sent
                && Where() == AfterSwitch(old(active), to, defaultTable, old(Where()), dev, fault, k)
      ensures ok ==>
                Table() == NextTable(old(active), old(Table()), to, defaultTable,
                                     SwitchFits(old(active), to, defaultTable, old(Where()), fault))
      ensures ok ==>
                && rb.timestamp == SwitchTime(old(active), to, old(rb.timestamp), fault)
                && Asked(sent) == old(Asked(sent))
                     + SwitchAsked(old(active), to, defaultTable, addresses, dev, sequence, old(rb.timestamp),
                                   SwitchFits(old(active), to, defaultTable, old(Where()), fault))
    {
      if active == Some(to) { return true; }
      if detached { return false; }
      SwitchContext(to, dev, sequence, fault, k);
      return true;
    }

    /** The commands themselves; they leave the page table alone.  The processor
        reads on by `k` words after room was looked for. */
    method AddDraw(to: DrawContext, list: seq<IbNode>, o: Order, input: seq<u32>, ghost st: Stamps,
                   detached: bool, gpuFault: bool, k: nat)
      returns (status: Status)
      requires Valid() && AllVerified(list) && input == EncodeAll(UserPackets(Draw(list, o.f, st)))
      modifies this`rptr, this`read, this`sent, rb`timestamp, rb`pendingWptr, rb`wptr, rb.buffer
      ensures Valid() && Table() == old(Table())
      ensures status.Detached? <==> detached
      ensures status.GpuFault? <==> !detached && gpuFault
      ensures status.NoSpace? <==> !detached && !gpuFault && NoRoomAt(old(Where()), A5XX_SUBMIT_MAX + |input|)
      ensures status.Ok? ==>
                && LastDraws(sent, list, o.f) && BeforeLast(sent) == old(sent)
                && TableAfter(defaultTable, BeforeLast(sent)) == old(Table())
      ensures Where() == AfterList(to, o, old(Where()), |input|, status.Ok?, k)
      ensures status.Ok? ==> Asked(sent) == old(Asked(sent)) + [DrawSent(to, list, o, st, Next(old(rb.timestamp)))]
      ensures !status.Ok? ==> sent == old(sent)
    {
      var job := JobOf(o, Some(to.ctx), (rb.timestamp + 1) % TWO32);
      ghost var p;
      status, p := AddWhileReading(job, input, Draw(list, o.f, st), detached, gpuFault, k);
      if status.Ok? {
        DrawAdded(defaultTable, old(sent), p, list, o.f);
        AskedMore(old(sent), p);
      }
    }

    /** Builds the commands of a list. */
    method Build(list: seq<IbNode>, f: Flags, pr: Profile) returns (input: seq<u32>, st: Stamps)
      requires Valid() && ProfileFits(pr)
      modifies rb`profileIndex, rb.profileBuffer
      ensures Valid() && input == EncodeAll(UserPackets(Draw(list, f, st))) && |input| == ListWords(list, f, pr)
      ensures st == StampsOf(f, pr, old(rb.profileIndex))
      ensures PageAfter(old(rb.profileBuffer[..]), old(rb.profileIndex), f, pr, rb.profileBuffer[..], rb.profileIndex)
    {
      var cmds, index;
      cmds, index, st := BuildCommand(rb, list, f, pr);
      A5xxListSize(Issued(list, f), f, st);
      input := cmds[..index];
    }

    /** The context switch, and the processor reads on. */
    method SwitchAndRead(to: DrawContext, dev: Device, sequence: u32, detached: bool, fault: bool, k1: nat, k2: nat) returns (ok: bool)
      requires Valid()
      modifies this`rptr, this`read, this`sent, this`active, rb`timestamp, rb`pendingWptr, rb`wptr, rb.buffer
      ensures Valid() && (ok <==> Attempted(old(active), to, false, detached))
      ensures !ok ==> sent == old(sent) && active == old(active) && Where() == old(Where())
      ensures ok ==>
                && active == Some(to) && old(sent) <= sent
                && Where() == BeforeList(old(active), to, defaultTable, old(Where()), dev, fault, k1, k2)
      ensures ok ==>
                Table() == NextTable(old(active), old(Table()), to, defaultTable,
                                     SwitchFits(old(active), to, defaultTable, old(Where()), fault))
      ensures ok ==>
                && rb.timestamp == SwitchTime(old(active), to, old(rb.timestamp), fault)
                && Asked(sent) == old(Asked(sent))
                     + SwitchAsked(old(active), to, defaultTable, addresses, dev, sequence, old(rb.timestamp),
                                   SwitchFits(old(active), to, defaultTable, old(Where()), fault))
    {
      ok := DrawctxtSwitch(to, dev, sequence, detached, fault, k1);
      if ok { Read(k2); }
    }

    /** The context switch and the commands. */
    method SwitchAndAdd(to: DrawContext, list: seq<IbNode>, o: Order, input: seq<u32>, ghost st: Stamps, switchSequence: u32,
                        detached: bool, detachedLater: bool, fault: bool, faultLater: bool, k1: nat, k2: nat, k3: nat)
      returns (status: Status)
      requires Valid() && AllVerified(list) && input == EncodeAll(UserPackets(Draw(list, o.f, st)))
      modifies this`rptr, this`read, this`sent, this`active, rb`timestamp, rb`pendingWptr, rb`wptr, rb.buffer
      ensures Valid()
      ensures !Attempted(old(active), to, false, detached) ==>
                sent == old(sent) && active == old(active) && Where() == old(Where())
      ensures status == Detached <==> detachedLater || !Attempted(old(active), to, false, detached)
      ensures status == GpuFault <==> Attempted(old(active), to, false, detached) && !detachedLater && faultLater
      ensures old(sent) <= sent
      ensures status == Ok ==> LastDraws(sent, list, o.f) && old(sent) <= BeforeLast(sent)
      ensures Attempted(old(active), to, false, detached) ==>
                var through := SwitchFits(old(active), to, defaultTable, old(Where()), fault);
                && active == Some(to) && Table() == NextTable(old(active), old(Table()), to, defaultTable, through)
                && (status == Ok ==> TableAfter(defaultTable, BeforeLast(sent)) == Table())
      ensures Attempted(old(active), to, false, detached) ==>
                var at := BeforeList(old(active), to, defaultTable, old(Where()), o.dev, fault, k1, k2);
                && (status == NoSpace <==> !detachedLater && !faultLater && NoRoomAt(at, A5XX_SUBMIT_MAX + |input|))
                && Where() == AfterList(to, o, at, |input|, status == Ok, k3)
      ensures Attempted(old(active), to, false, detached) ==>
                var through := SwitchFits(old(active), to, defaultTable, old(Where()), fault);
                var before := old(Asked(sent))
                  + SwitchAsked(old(active), to, defaultTable, addresses, o.dev, switchSequence, old(rb.timestamp), through);
                Asked(sent) == if status != Ok then before else
                  before + [DrawSent(to, list, o, st, Next(SwitchTime(old(active), to, old(rb.timestamp), fault)))]
    {
      var ok := SwitchAndRead(to, o.dev, switchSequence, detached, fault, k1, k2);
      if !ok { return Detached; }
      status := AddDraw(to, list, o, input, st, detachedLater, faultLater, k3);
    }

    /** Submits a user's command list: a context switch first, if another context
        was active, and then the commands.  The result of the switch is not looked
        at, so a list that goes out may run under another context's page table:
        it runs under its own exactly if that was right before or the switch gets
        through.  The processor reads on by `k1`, `k2` and `k3` words meanwhile. */
    method SubmitCmd(to: DrawContext, list: seq<IbNode>, o: Order, pr: Profile, switchSequence: u32, outOfMemory: bool,
                     detached: bool, detachedLater: bool, fault: bool, faultLater: bool, k1: nat, k2: nat, k3: nat)
      returns (status: Option<Status>)
      requires Valid() && AllVerified(list) && ProfileFits(pr)
      modifies this`rptr, this`read, this`sent, this`active
      modifies rb`timestamp, rb`pendingWptr, rb`wptr, rb`profileIndex, rb.buffer, rb.profileBuffer
      ensures Valid()
      ensures status == None <==> outOfMemory
      ensures !Attempted(old(active), to, outOfMemory, detached) ==>
                sent == old(sent) && active == old(active) && Where() == old(Where())
      ensures status == Some(Detached) <==>
                !outOfMemory && (detachedLater || !Attempted(old(active), to, outOfMemory, detached))
      ensures status == Some(GpuFault) <==>
                Attempted(old(active), to, outOfMemory, detached) && !detachedLater && faultLater
      ensures old(sent) <= sent
      ensures status == Some(Ok) ==> LastDraws(sent, list, o.f) && old(sent) <= BeforeLast(sent)
      ensures Attempted(old(active), to, outOfMemory, detached) ==>
                var through := SwitchFits(old(active), to, defaultTable, old(Where()), fault);
                && active == Some(to) && Table() == NextTable(old(active), old(Table()), to, defaultTable, through)
                && (Table() == to.table <==> TableWillBeRight(old(active), old(Table()), to, defaultTable, through))
                && (status == Some(Ok) ==> TableAfter(defaultTable, BeforeLast(sent)) == Table())
      ensures Attempted(old(active), to, outOfMemory, detached) ==>
                var at := BeforeList(old(active), to, defaultTable, old(Where()), o.dev, fault, k1, k2);
                var n := ListWords(list, o.f, pr);
                && (status == Some(NoSpace) <==> !detachedLater && !faultLater && NoRoomAt(at, A5XX_SUBMIT_MAX + n))
                && Where() == AfterList(to, o, at, n, status == Some(Ok), k3)
      ensures Attempted(old(active), to, outOfMemory, detached) ==>
                var through := SwitchFits(old(active), to, defaultTable, old(Where()), fault);
                var st := StampsOf(o.f, pr, old(rb.profileIndex));
                var before := old(Asked(sent))
                  + SwitchAsked(old(active), to, defaultTable, addresses, o.dev, switchSequence, old(rb.timestamp), through);
                Asked(sent) == if status != Some(Ok) then before else
                  before + [DrawSent(to, list, o, st, Next(SwitchTime(old(active), to, old(rb.timestamp), fault)))]
      ensures if outOfMemory then rb.profileBuffer[..] == old(rb.profileBuffer[..]) && rb.profileIndex == old(rb.profileIndex)
              else PageAfter(old(rb.profileBuffer[..]), old(rb.profileIndex), o.f, pr, rb.profileBuffer[..], rb.profileIndex)
    {
      if outOfMemory { return None; }
      ghost var at, table, asked, was := Where(), Table(), Asked(sent), sent;
      var input, st := Build(list, o.f, pr);
      assert Where() == at && Table() == table && Asked(sent) == asked && sent == was;
      var s := SwitchAndAdd(to, list, o, input, st, switchSequence, detached, detachedLater, fault, faultLater, k1, k2, k3);
      return Some(s);
    }
  }

  /** Words of the commands of a list. */
  function ListWords(list: seq<IbNode>, f: Flags, pr: Profile): nat {
    A5xxListWords(Issued(list, f), f, f.userProfile && pr.page.Some?)
  }

  /** With user profiling, the two calls of a command run slots whose words store the
      counter where the user wants the times of submission and retirement. */
  lemma UserTimesStored(c: Cp, before: seq<u32>, slot: nat, f: Flags, pr: Profile, after: seq<u32>, next: nat)
    requires ProfileFits(pr) && |before| == 4 * PROFILE_IB_SLOTS && slot < PROFILE_IB_SLOTS
    requires f.userProfile && pr.page.Some? && PageAfter(before, slot, f, pr, after, next)
    ensures |after| == |before|
    ensures var st, counter := StampsOf(f, pr, slot), if pr.afterA530 then 0x4008_04D2 else 0x4D2;
            && st.submitIb == Some(Ib(pr.page.value + 16 * slot, 4))
            && st.retireIb == Some(Ib(pr.page.value + 16 * NextSlot(slot), 4))
            && Counts(c, SlotWords(after, slot), counter, pr.userSubmitted)
            && Counts(c, SlotWords(after, NextSlot(slot)), counter, pr.userRetired)
  {
    var counter := CounterReg(pr.afterA530);
    SlotsWritten(before, slot, f, pr, after, next, counter);
    SlotCounts(c, SlotWords(after, slot), counter, pr.userSubmitted);
    SlotCounts(c, SlotWords(after, NextSlot(slot)), counter, pr.userRetired);
  }

  lemma SlotsWritten(before: seq<u32>, slot: nat, f: Flags, pr: Profile, after: seq<u32>, next: nat, counter: u32)
    requires ProfileFits(pr) && |before| == 4 * PROFILE_IB_SLOTS && slot < PROFILE_IB_SLOTS && counter == CounterReg(pr.afterA530)
    requires f.userProfile && pr.page.Some? && PageAfter(before, slot, f, pr, after, next)
    ensures |after| == |before|
    ensures SlotWords(after, slot) == [Type7(CP_REG_TO_MEM, 3), counter, Lo(pr.userSubmitted), Hi(pr.userSubmitted)]
    ensures SlotWords(after, NextSlot(slot)) == [Type7(CP_REG_TO_MEM, 3), counter, Lo(pr.userRetired), Hi(pr.userRetired)]
  {
    SlotsHold(before, slot, counter, pr.userSubmitted, NextSlot(slot), pr.userRetired);
  }

  /** The words store the counter to `addr`, and do nothing else. */
  ghost predicate Counts(c: Cp, words: seq<u32>, counter: u32, addr: u64) {
    Execute(c, words) == Acted(c, In(c.mode, [CountTo(counter, addr)]))
  }

  lemma SlotCounts(c: Cp, words: seq<u32>, counter: u32, addr: u64)
    requires words == [Type7(CP_REG_TO_MEM, 3), counter, Lo(addr), Hi(addr)]
    ensures Counts(c, words, counter, addr)
  {
    var p := Counter(counter, addr);
    assert EncodeAll([p]) == words;
    ExecuteEncoded(c, [p]);
    CounterDeed(counter, addr);
    assert [] + [p] == [p];
    ExecOne(c, [], p, CountTo(counter, addr));
  }

  /** The submission made last runs the buffers of a list. */
  predicate LastDraws(sent: seq<Published>, list: seq<IbNode>, f: Flags) {
    sent != [] && var work := sent[|sent| - 1].sent.work; work.Draw? && work.ibs == list && work.cf == f
  }

  // ---- A run under the wrong page table ----

  predicate PlainList(list: seq<IbNode>) {
    |list| <= KGSL_MAX_NUMIBS && AllVerified(list) && NoneSkipped(list, LIST_FLAGS)
  }

  /** There is room for a list of `n` buffers behind the switch, or without one if it
      gets no room itself. */
  predicate PlainFits(active: Option<DrawContext>, to: DrawContext, defaultTable: u64, at: Place, n: nat, dev: Device, k: nat) {
    !NoRoomAt(BeforeList(active, to, defaultTable, at, dev, false, k, 0), A5XX_SUBMIT_MAX + 12 + 4 * n)
  }

  function AfterPlain(active: Option<DrawContext>, to: DrawContext, defaultTable: u64, at: Place, n: nat, dev: Device, k: nat): Place {
    AfterList(to, PlainOrder(dev), BeforeList(active, to, defaultTable, at, dev, false, k, 0), 12 + 4 * n, true, 0)
  }

  /** Submits such a list with nothing in the way. */
  method SubmitPlain(q: RingQueue, to: DrawContext, list: seq<IbNode>, dev: Device, k: nat) returns (status: Option<Status>)
    requires q.Valid() && PlainList(list)
    requires PlainFits(q.active, to, q.defaultTable, q.Where(), |list|, dev, k)
    modifies q`rptr, q`read, q`sent, q`active
    modifies q.rb`timestamp, q.rb`pendingWptr, q.rb`wptr, q.rb`profileIndex, q.rb.buffer, q.rb.profileBuffer
    ensures q.Valid() && status == Some(Ok) && q.active == Some(to) && LastDraws(q.sent, list, LIST_FLAGS)
    ensures q.Table() == NextTable(old(q.active), old(q.Table()), to, q.defaultTable,
                                   SwitchFits(old(q.active), to, q.defaultTable, old(q.Where()), false))
    ensures TableAfter(q.defaultTable, BeforeLast(q.sent)) == q.Table()
    ensures q.Where() == AfterPlain(old(q.active), to, q.defaultTable, old(q.Where()), |list|, dev, k)
  {
    FullListWords(false, list, LIST_FLAGS);
    status := q.SubmitCmd(to, list, PlainOrder(dev), Profile(0, 0, 0, 0, None, true), 0, false, false, false, false, false, k, 0, 0);
    OneOfFour(status.value);
  }

  /** Two lists that fill the ring. */
  lemma FirstFits(a: DrawContext, defaultTable: u64, start: nat, m: nat, dev: Device)
    requires a.table != defaultTable && start + 4 * m <= 7989
    ensures SwitchFits(None, a, defaultTable, Place(start, start), false)
    ensures PlainFits(None, a, defaultTable, Place(start, start), m, dev, 0)
    ensures var at := AfterPlain(None, a, defaultTable, Place(start, start), m, dev, 0);
            at.rptr == start && start + 4 * m + 91 <= at.wptr <= start + 4 * m + 125
  {
  }

  lemma SecondFits(a: DrawContext, defaultTable: u64, at: Place, n: nat, dev: Device)
    requires at.rptr <= at.wptr < KGSL_RB_DWORDS && at.wptr + 4 * n <= 8114
    ensures PlainFits(Some(a), a, defaultTable, at, n, dev, 0)
    ensures var next := AfterPlain(Some(a), a, defaultTable, at, n, dev, 0);
            next.rptr == at.rptr && at.wptr + 4 * n + 39 <= next.wptr <= at.wptr + 4 * n + 56
  {
  }

  /** No room for a switch, and room for a list once the processor has read on. */
  lemma OnlyListFits(a: DrawContext, b: DrawContext, defaultTable: u64, at: Place, n: nat, dev: Device)
    requires a.table != b.table && b.table != defaultTable
    requires at.rptr <= 94 && 8096 < at.wptr <= 8190 && n <= KGSL_MAX_NUMIBS
    ensures !SwitchFits(Some(a), b, defaultTable, at, false)
    ensures PlainFits(Some(a), b, defaultTable, at, n, dev, KGSL_RB_DWORDS)
  {
  }

  function PlainOrder(dev: Device): Order { Order(dev, LIST_FLAGS, 0, None, None, 0) }

  /** The wrong page table is real.  The ring has been started up, with `start` words,
      and the processor is stalled there.  One context submits two lists, none longer
      than a list may be, that fill the ring; another context submits a list.  There
      is no room for the second switch, the processor reads on, there is room for the
      list, and it goes out with the first context's page table loaded. */
  method WrongTableRun(addresses: Addresses, defaultTable: u64, start: nat, a: DrawContext, b: DrawContext,
                       first: seq<IbNode>, second: seq<IbNode>, own: seq<IbNode>, dev: Device)
    returns (q: RingQueue, status: Option<Status>)
    requires a.table != defaultTable && b.table != defaultTable && a.table != b.table
    requires PlainList(first) && PlainList(second) && PlainList(own)
    requires start <= 94 && 7966 < start + 4 * (|first| + |second|) <= 7989
    ensures fresh(q) && q.Valid() && q.defaultTable == defaultTable
    ensures status == Some(Ok) && q.active == Some(b) && LastDraws(q.sent, own, LIST_FLAGS)
    ensures TableAfter(defaultTable, BeforeLast(q.sent)) == a.table != b.table
  {
    q := new RingQueue(addresses, defaultTable, start);
    FirstFits(a, defaultTable, start, |first|, dev);
    status := SubmitPlain(q, a, first, dev, 0);
    SecondFits(a, defaultTable, q.Where(), |second|, dev);
    status := SubmitPlain(q, a, second, dev, 0);
    OnlyListFits(a, b, defaultTable, q.Where(), |own|, dev);
    status := SubmitPlain(q, b, own, dev, KGSL_RB_DWORDS);
  }
}
