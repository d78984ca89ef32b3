/** Submissions to the a3xx ring over time: the driver adds, the processor reads,
    and the write pointer goes around the ring. */
module A3xxSubmit {
  import opened Common
  import opened Pm4
  import opened CommandProcessor
  import opened Ringbuffer
  import opened RingReading
  import opened StreamSizes
  import opened DrawContexts
  import opened CommandLists
  import opened A5xxPackets
  import opened A3xxRingbuffer
  import opened A3xxExecution
  import A = A3xxPackets

  // ---- Whole runs on the ring's words ----

  lemma {:induction false} RingWordsMore(ss: seq<Sent>, s: Sent)
    ensures RingWords(ss + [s]) == RingWords(ss) + s.words
    decreases |ss|
  {
    if ss == [] {
      assert ss + [s] == [s] && [s][1..] == [];
      assert s.words + [] == [] + s.words;
    } else {
      assert (ss + [s])[1..] == ss[1..] + [s];
      RingWordsMore(ss[1..], s);
      Associate(ss[0].words, RingWords(ss[1..]), s.words);
    }
  }

  /** What was read and what is still to be read are the words of the submissions. */
  ghost predicate Tracks(read: seq<u32>, unread: seq<u32>, sent: seq<Sent>) {
    AllSent(sent) && read + unread == RingWords(sent)
  }

  lemma SentMore(read: seq<u32>, unread: seq<u32>, sent: seq<Sent>, s: Sent)
    requires Tracks(read, unread, sent) && AllSent([s])
    ensures Tracks(read, unread + s.words, sent + [s])
  {
    assert AsSent([s][0]);
    RingWordsMore(sent, s);
    Associate(read, unread, s.words);
  }

  lemma ReadMore(read: seq<u32>, more: seq<u32>, unread: seq<u32>, sent: seq<Sent>)
    requires Tracks(read, more + unread, sent)
    ensures Tracks(read + more, unread, sent)
  {
    Associate(read, more, unread);
  }

  /** What AddCmds promises of the words is what the ring is said to hold. */
  lemma SentAs(job: A.Job, work: Work, user: seq<Packet>, words: seq<u32>)
    requires user == UserPackets(work) && ReadsAs(words, A.Submission(job, user))
    ensures AllSent([Sent(job, work, words)])
  {
    assert AsSent(Sent(job, work, words));
  }

  // ---- Submissions ----

  /** A context switch from `active` to `to` gets through. */
  predicate SwitchFits(active: Option<DrawContext>, to: DrawContext, defaultTable: u64, at: Place, gpuFault: bool) {
    !gpuFault && !NoRoomAt(at, SwitchRoom(active, to, defaultTable))
  }

  /** The addresses the packets of the ring's submissions write to or call. */
  datatype Addresses = Addresses(setstate: u64, rbCurrent: u64, globalCurrent: u64, rbSop: u64, rbEop: u64, fixup: Ib)

  /** What one submission is told: flags, timestamp, and profiling buffers. */
  datatype Order = Order(f: Flags, timestamp: u32, preIb: Option<Ib>, postIb: Option<Ib>)

  function JobOf(o: Order, ctx: Option<Context>, rbTimestamp: u32, a: Addresses): A.Job {
    A.Job(ctx, o.f, o.timestamp, rbTimestamp, a.rbSop, a.rbEop, a.fixup, o.preIb, o.postIb)
  }

  /** Words on the ring of a submission of `n` words of commands. */
  function JobWords(job: A.Job, n: nat): nat {
    A3xxSubmissionWords(job.ctx.Some?, job.f, job.preIb.Some?, job.postIb.Some?, n)
  }

  function SwitchJob(rbTimestamp: u32, a: Addresses): A.Job { JobOf(Order(SWITCH_FLAGS, 0, None, None), None, rbTimestamp, a) }

  /** Of a context switch, and of a list. */
  function SwitchTotal(pt: Option<u64>): nat { A3xxSubmissionWords(false, SWITCH_FLAGS, false, false, A3xxSwitchWords(pt)) }

  function ListTotal(o: Order, n: nat): nat { A3xxSubmissionWords(true, o.f, o.preIb.Some?, o.postIb.Some?, n) }

  /** The ring's timestamp, counted up. */
  function Next(timestamp: u32): u32 { (timestamp + 1) % TWO32 }

  /** A submission as it is asked for, without the words that say so. */
  datatype Ask = Ask(job: A.Job, work: Work)

  function Asked(ss: seq<Sent>): (s: seq<Ask>)
    ensures |s| == |ss|
  {
    seq(|ss|, i requires 0 <= i < |ss| => Ask(ss[i].job, ss[i].work))
  }

  lemma AskedMore(ss: seq<Sent>, s: Sent)
    ensures Asked(ss + [s]) == Asked(ss) + [Ask(s.job, s.work)]
  {
  }

  /** A context switch as it is asked for: an internal command, not protected, with the
      ring's timestamp alone. */
  function SwitchAsk(pt: Option<u64>, to: DrawContext, a: Addresses, rbTimestamp: u32): Ask {
    Ask(A.Job(None, SWITCH_FLAGS, 0, rbTimestamp, a.rbSop, a.rbEop, a.fixup, None, None),
        Switch(pt, a.setstate, to.ctx.id, a.rbCurrent, a.globalCurrent))
  }

  /** A list as it is asked for. */
  function DrawAsk(to: DrawContext, list: seq<IbNode>, o: Order, a: Addresses, rbTimestamp: u32): Ask {
    Ask(A.Job(Some(to.ctx), o.f, o.timestamp, rbTimestamp, a.rbSop, a.rbEop, a.fixup, o.preIb, o.postIb), Draw(list, o.f))
  }

  /** The context switch that is asked for before a list of `to`, if there is one. */
  function SwitchAsked(active: Option<DrawContext>, to: DrawContext, defaultTable: u64, a: Addresses, timestamp: u32, through: bool): seq<Ask> {
    if active == Some(to) || !through then []
    else [SwitchAsk(TableToLoad(active, to, defaultTable), to, a, Next(timestamp))]
  }

  /** The ring's timestamp after it; it counts without room, too. */
  function SwitchTime(active: Option<DrawContext>, to: DrawContext, timestamp: u32, fault: bool): u32 {
    if active == Some(to) || fault then timestamp else Next(timestamp)
  }

  /** Room looked for by a context switch. */
  function SwitchRoom(active: Option<DrawContext>, to: DrawContext, defaultTable: u64): nat {
    A3XX_SUBMIT_MAX + A3xxSwitchWords(TableToLoad(active, to, defaultTable))
  }

  /** Where reading and writing are after the context switch, if one was needed. */
  function AfterSwitch(active: Option<DrawContext>, to: DrawContext, defaultTable: u64, at: Place, fault: bool): Place {
    if active != Some(to) && SwitchFits(active, to, defaultTable, at, fault) then
      Added(at, SwitchRoom(active, to, defaultTable), SwitchTotal(TableToLoad(active, to, defaultTable)), 0)
    else ReadOn(at, 0)
  }

  /** When room is looked for a list of `to`, the processor has read on by `k` words. */
  function BeforeList(active: Option<DrawContext>, to: DrawContext, defaultTable: u64, at: Place, fault: bool, k: nat): Place {
    ReadOn(AfterSwitch(active, to, defaultTable, at, fault), k)
  }

  /** Where they are after a list of `n` words. */
  function AfterList(o: Order, at: Place, n: nat, wentOut: bool): Place {
    if wentOut then Added(at, A3XX_SUBMIT_MAX + n, ListTotal(o, n), 0) else at
  }

  /** AddCmds, and what was published by it. */
  method Publish(rb: AdrenoRingbuffer, job: A.Job, input: seq<u32>, ghost work: Work, detached: bool, gpuFault: bool, rptr: nat)
    returns (status: Status, ghost s: Sent)
    requires rb.Valid() && rb.legacy && rb.wptr == rb.pendingWptr && rptr < KGSL_RB_DWORDS
    requires input == EncodeAll(UserPackets(work)) && job.rbTimestamp == (rb.timestamp + 1) % TWO32
    modifies rb`timestamp, rb`pendingWptr, rb`wptr, rb.buffer
    ensures rb.Valid() && rb.wptr == rb.pendingWptr && s.job == job && s.work == work
    ensures status.Ok? ==>
              && AllSent([s])
              && Cyclic(rb.buffer[..], rptr, rb.wptr) == old(Cyclic(rb.buffer[..], rptr, rb.wptr)) + s.words
    ensures !status.Ok? ==> rb.buffer[..] == old(rb.buffer[..]) && rb.wptr == old(rb.wptr)
    ensures status.Ok? ==> rb.wptr == StartOf(rptr, old(rb.wptr), A3XX_SUBMIT_MAX + |input|) + JobWords(job, |input|)
    ensures status.Detached? <==> job.ctx.Some? && detached
    ensures status.GpuFault? <==> !status.Detached? && gpuFault
    ensures status.NoSpace? <==>
              !status.Detached? && !gpuFault && NoRoom(rptr, old(rb.wptr), A3XX_SUBMIT_MAX + |input|)
    ensures rb.timestamp == if status.Detached? || status.GpuFault? then old(rb.timestamp) else job.rbTimestamp
  {
    ghost var user := UserPackets(work);
    ghost var words;
    status, words := AddCmds(rb, job, input, user, detached, gpuFault, rptr);
    s := Sent(job, work, words);
    A3xxSubmissionSize(job, user);
    if status.Ok? { SentAs(job, work, user, words); }
  }

  lemma DrawAdded(table: u64, before: seq<Sent>, s: Sent, list: seq<IbNode>, f: Flags)
    requires s.work.Draw? && s.work.ibs == list && s.work.cf == f
    ensures LastDraws(before + [s], list, f) && BeforeLast(before + [s]) == before
    ensures TableAfter(table, before + [s]) == TableAfter(table, before)
  {
    TableAfterMore(table, before, s);
    assert (before + [s])[..|before|] == before;
  }

  class RingQueue {
    const rb: AdrenoRingbuffer
    const addresses: Addresses
    /** The default page table, in use at the start. */
    const defaultTable: u64
    /** The context whose commands were added last. */
    var active: Option<DrawContext>
    /** Where the processor has read to. */
    var rptr: nat
    /** All words it has read, and all submissions made. */
    ghost var read: seq<u32>
    ghost var sent: seq<Sent>

    /** What was read and what is still to be read are the words of the submissions. */
    ghost predicate Valid()
      reads this, rb
      reads rb.buffer
    {
      && rb.Valid() && rb.legacy && rb.wptr == rb.pendingWptr && rptr < KGSL_RB_DWORDS
      && Tracks(read, Cyclic(rb.buffer[..], rptr, rb.wptr), sent)
    }

    /** The page table in use once all submissions are executed. */
    ghost function Table(): u64
      reads this`sent
    {
      TableAfter(defaultTable, sent)
    }

    function Where(): Place
      reads this`rptr, rb`wptr
    {
      Place(rptr, rb.wptr)
    }

    /** The commands that start the ring up have been read, up to `start`. */
    constructor (addresses: Addresses, defaultTable: u64, start: nat)
      requires start <= KGSL_RB_DWORDS - 2
      ensures Valid() && fresh(rb) && fresh(rb.buffer) && fresh(rb.profileBuffer)
      ensures active == None && Where() == Place(start, start) && read == [] && sent == []
      ensures this.addresses == addresses && this.defaultTable == defaultTable
    {
      rb := new AdrenoRingbuffer(true);
      this.addresses, this.defaultTable := addresses, defaultTable;
      active, rptr, read, sent := None, start, [], [];
      new;
      rb.wptr, rb.pendingWptr := start, start;
    }

    /** In every run, with wrap-around and whatever the processor has read so far:
        what it reads in the end are whole packets, it does what was asked in the
        mode it finds, and has the page table of the last switch. */
    lemma RingExecutes(c: Cp)
      requires Valid()
      ensures Decode(read + Cyclic(rb.buffer[..], rptr, rb.wptr)).Packets?
      ensures Execute(c, read + Cyclic(rb.buffer[..], rptr, rb.wptr)) == AfterAll(c, sent)
      ensures c.table == defaultTable ==> AfterAll(c, sent).table == Table()
    {
      EveryRunExecutes(c, sent);
      TableFollows(c, sent);
    }

    /** The processor reads on by up to `k` words. */
    method Read(k: nat)
      requires Valid()
      modifies this`rptr, this`read
      ensures Valid() && rptr == ReadTo(old(rptr), rb.wptr, k) && Between(old(rptr), rptr, rb.wptr)
    {
      var next := ReadTo(rptr, rb.wptr, k);
      ReadsOn(rb.buffer[..], rptr, rb.wptr, k, next);
      ghost var more := Cyclic(rb.buffer[..], rptr, next);
      ReadMore(read, more, Cyclic(rb.buffer[..], next, rb.wptr), sent);
      read := read + more;
      rptr := next;
    }

    /** Adds the words of one submission. */
    method Add(job: A.Job, input: seq<u32>, ghost work: Work, detached: bool, gpuFault: bool)
      returns (status: Status, ghost s: Sent)
      requires Valid() && input == EncodeAll(UserPackets(work)) && job.rbTimestamp == (rb.timestamp + 1) % TWO32
      modifies this`sent, rb`timestamp, rb`pendingWptr, rb`wptr, rb.buffer
      ensures Valid() && s.job == job && s.work == work
      ensures status.Detached? <==> job.ctx.Some? && detached
      ensures status.GpuFault? <==> !status.Detached? && gpuFault
      ensures status.NoSpace? <==>
                !status.Detached? && !gpuFault && NoRoomAt(old(Where()), A3XX_SUBMIT_MAX + |input|)
      ensures rb.timestamp == if status.Detached? || status.GpuFault? then old(rb.timestamp) else job.rbTimestamp
      ensures status.Ok? ==>
                sent == old(sent) + [s] && Where() == Added(old(Where()), A3XX_SUBMIT_MAX + |input|, JobWords(job, |input|), 0)
      ensures !status.Ok? ==> sent == old(sent) && Where() == old(Where())
    {
      ghost var unread := Cyclic(rb.buffer[..], rptr, rb.wptr);
      status, s := Publish(rb, job, input, work, detached, gpuFault, rptr);
      if status.Ok? {
        SentMore(read, unread, sent, s);
        sent := sent + [s];
      }
    }

    /** Adds the commands of a context switch. */
    method AddSwitch(pt: Option<u64>, to: DrawContext, fault: bool) returns (status: Status)
      requires Valid()
      modifies this`sent, rb`timestamp, rb`pendingWptr, rb`wptr, rb.buffer
      ensures Valid() && old(sent) <= sent
      ensures status.Ok? <==> !fault && !NoRoomAt(old(Where()), A3XX_SUBMIT_MAX + A3xxSwitchWords(pt))
      ensures rb.timestamp == if fault then old(rb.timestamp) else Next(old(rb.timestamp))
      ensures status.Ok? ==> Asked(sent) == old(Asked(sent)) + [SwitchAsk(pt, to, addresses, Next(old(rb.timestamp)))]
      ensures status.Ok? ==>
                && Table() == (if pt.None? then old(Table()) else pt.value)
                && Where() == Added(old(Where()), A3XX_SUBMIT_MAX + A3xxSwitchWords(pt), SwitchTotal(pt), 0)
      ensures !status.Ok? ==> sent == old(sent) && Where() == old(Where())
    {
      var words, count := BuildContextSwitch(pt, addresses.setstate, to.ctx.id, addresses.rbCurrent, addresses.globalCurrent);
      ghost var work := Switch(pt, addresses.setstate, to.ctx.id, addresses.rbCurrent, addresses.globalCurrent);
      A3xxSwitchSize(pt, addresses.setstate, to.ctx.id, addresses.rbCurrent, addresses.globalCurrent);
      var job := SwitchJob((rb.timestamp + 1) % TWO32, addresses);
      ghost var s;
      status, s := Add(job, words[..count], work, false, fault);
      if status.Ok? {
        TableAfterMore(defaultTable, old(sent), s);
        AskedMore(old(sent), s);
      }
    }

    /** The context switch, with its result ignored. */
    method SwitchContext(to: DrawContext, fault: bool)
      requires Valid() && active != Some(to)
      modifies this`sent, this`active, rb`timestamp, rb`pendingWptr, rb`wptr, rb.buffer
      ensures Valid() && active == Some(to) && old(sent) <= sent
      ensures Table() == NextTable(old(active), old(Table()), to, defaultTable,
                                   SwitchFits(old(active), to, defaultTable, old(Where()), fault))
      ensures Where() == AfterSwitch(old(active), to, defaultTable, old(Where()), fault)
      ensures Asked(sent) == old(Asked(sent)) + SwitchAsked(old(active), to, defaultTable, addresses, old(rb.timestamp),
                                                            SwitchFits(old(active), to, defaultTable, old(Where()), fault))
      ensures rb.timestamp == SwitchTime(old(active), to, old(rb.timestamp), fault)
    {
      var ignored := AddSwitch(TableToLoad(active, to, defaultTable), to, fault);
      active := Some(to);
    }

    /** Makes `to` the active context, unless it is that already. */
    method DrawctxtSwitch(to: DrawContext, detached: bool, fault: bool) returns (ok: bool)
      requires Valid()
      modifies this`sent, this`active, rb`timestamp, rb`pendingWptr, rb`wptr, rb.buffer
      ensures Valid() && (ok <==> Attempted(old(active), to, false, detached))
      ensures !ok ==> sent == old(sent) && active == old(active) && Where() == old(Where())
      ensures ok ==>
                && active == Some(to) && old(sent) <= sent
                && Where() == AfterSwitch(old(active), to, defaultTable, old(Where()), fault)
      ensures ok ==>
                Table() == NextTable(old(active), old(Table()), to, defaultTable,
                                     SwitchFits(old(active), to, defaultTable, old(Where()), fault))
      ensures ok ==>
                && rb.timestamp == SwitchTime(old(active), to, old(rb.timestamp), fault)
                && Asked(sent) == old(Asked(sent)) + SwitchAsked(old(active), to, defaultTable, addresses, old(rb.timestamp),
                                                                 SwitchFits(old(active), to, defaultTable, old(Where()), fault))
    {
      if active == Some(to) { return true; }
      if detached { return false; }
      SwitchContext(to, fault);
      return true;
    }

    /** The commands themselves; they leave the page table alone. */
    method AddDraw(to: DrawContext, list: seq<IbNode>, o: Order, input: seq<u32>, detached: bool, gpuFault: bool)
      returns (status: Status)
      requires Valid() && input == EncodeAll(UserPackets(Draw(list, o.f)))
      modifies this`sent, rb`timestamp, rb`pendingWptr, rb`wptr, rb.buffer
      ensures Valid() && Table() == old(Table())
      ensures status.Detached? <==> detached
      ensures status.GpuFault? <==> !detached && gpuFault
      ensures status.NoSpace? <==> !detached && !gpuFault && NoRoomAt(old(Where()), A3XX_SUBMIT_MAX + |input|)
      ensures status.Ok? ==>
                && LastDraws(sent, list, o.f) && BeforeLast(sent) == old(sent)
                && TableAfter(defaultTable, BeforeLast(sent)) == old(Table())
      ensures Where() == AfterList(o, old(Where()), |input|, status.Ok?)
      ensures status.Ok? ==> Asked(sent) == old(Asked(sent)) + [DrawAsk(to, list, o, addresses, Next(old(rb.timestamp)))]
      ensures !status.Ok? ==> sent == old(sent)
    {
      var job := JobOf(o, Some(to.ctx), (rb.timestamp + 1) % TWO32, addresses);
      ghost var s;
      status, s := Add(job, input, Draw(list, o.f), detached, gpuFault);
      if status.Ok? {
        DrawAdded(defaultTable, old(sent), s, list, o.f);
        AskedMore(old(sent), s);
      }
    }

    /** The context switch, and the processor reads on. */
    method SwitchAndRead(to: DrawContext, detached: bool, fault: bool, k: nat) returns (ok: bool)
      requires Valid()
      modifies this`rptr, this`read, this`sent, this`active, rb`timestamp, rb`pendingWptr, rb`wptr, rb.buffer
      ensures Valid() && (ok <==> Attempted(old(active), to, false, detached))
      ensures !ok ==> sent == old(sent) && active == old(active) && Where() == old(Where())
      ensures ok ==>
                && active == Some(to) && old(sent) <= sent
                && Where() == BeforeList(old(active), to, defaultTable, old(Where()), fault, k)
      ensures ok ==>
                Table() == NextTable(old(active), old(Table()), to, defaultTable,
                                     SwitchFits(old(active), to, defaultTable, old(Where()), fault))
      ensures ok ==>
                && rb.timestamp == SwitchTime(old(active), to, old(rb.timestamp), fault)
                && Asked(sent) == old(Asked(sent)) + SwitchAsked(old(active), to, defaultTable, addresses, old(rb.timestamp),
                                                                 SwitchFits(old(active), to, defaultTable, old(Where()), fault))
    {
      ok := DrawctxtSwitch(to, detached, fault);
      if ok { Read(k); }
    }

    /** The context switch and the commands. */
    method SwitchAndAdd(to: DrawContext, list: seq<IbNode>, o: Order, input: seq<u32>,
                        detached: bool, detachedLater: bool, fault: bool, faultLater: bool, k: nat)
      returns (status: Status)
      requires Valid() && input == EncodeAll(UserPackets(Draw(list, o.f)))
      modifies this`rptr, this`read, this`sent, this`active, rb`timestamp, rb`pendingWptr, rb`wptr, rb.buffer
      ensures Valid()
      ensures !Attempted(old(active), to, false, detached) ==>
                sent == old(sent) && active == old(active) && Where() == old(Where())
      ensures status == Detached <==> detachedLater || !Attempted(old(active), to, false, detached)
      ensures status == GpuFault <==> Attempted(old(active), to, false, detached) && !detachedLater && faultLater
      ensures old(sent) <= sent
      ensures status == Ok ==> LastDraws(sent, list, o.f) && old(sent) <= BeforeLast(sent)
      ensures Attempted(old(active), to, false, detached) ==>
                var through := SwitchFits(old(active), to, defaultTable, old(Where()), fault);
                && active == Some(to) && Table() == NextTable(old(active), old(Table()), to, defaultTable, through)
                && (status == Ok ==> TableAfter(defaultTable, BeforeLast(sent)) == Table())
      ensures Attempted(old(active), to, false, detached) ==>
                var at := BeforeList(old(active), to, defaultTable, old(Where()), fault, k);
                && (status == NoSpace <==> !detachedLater && !faultLater && NoRoomAt(at, A3XX_SUBMIT_MAX + |input|))
                && Where() == AfterList(o, at, |input|, status == Ok)
      ensures Attempted(old(active), to, false, detached) ==>
                var through := SwitchFits(old(active), to, defaultTable, old(Where()), fault);
                var before := old(Asked(sent)) + SwitchAsked(old(active), to, defaultTable, addresses, old(rb.timestamp), through);
                Asked(sent) == if status != Ok then before else
                  before + [DrawAsk(to, list, o, addresses, Next(SwitchTime(old(active), to, old(rb.timestamp), fault)))]
    {
      var ok := SwitchAndRead(to, detached, fault, k);
      if !ok { return Detached; }
      status := AddDraw(to, list, o, input, detachedLater, faultLater);
    }

    /** Submits a user's command list: a context switch first, if another context
        was active, and then the commands.  The result of the switch is not looked
        at, so a list that goes out may run under another context's page table:
        it runs under its own exactly if that was right before or the switch gets
        through.  The processor reads on by `k` words in between. */
    method SubmitCmd(to: DrawContext, list: seq<IbNode>, o: Order, outOfMemory: bool,
                     detached: bool, detachedLater: bool, fault: bool, faultLater: bool, k: nat)
      returns (status: Option<Status>)
      requires Valid()
      modifies this`rptr, this`read, this`sent, this`active, rb`timestamp, rb`pendingWptr, rb`wptr, rb.buffer
      ensures Valid()
      ensures status == None <==> outOfMemory
      ensures !Attempted(old(active), to, outOfMemory, detached) ==>
                sent == old(sent) && active == old(active) && Where() == old(Where())
      ensures status == Some(Detached) <==>
                !outOfMemory && (detachedLater || !Attempted(old(active), to, outOfMemory, detached))
      ensures status == Some(GpuFault) <==> Attempted(old(active), to, outOfMemory, detached) && !detachedLater && faultLater
      ensures old(sent) <= sent
      ensures status == Some(Ok) ==> LastDraws(sent, list, o.f) && old(sent) <= BeforeLast(sent)
      ensures Attempted(old(active), to, outOfMemory, detached) ==>
                var through := SwitchFits(old(active), to, defaultTable, old(Where()), fault);
                && active == Some(to) && Table() == NextTable(old(active), old(Table()), to, defaultTable, through)
                && (Table() == to.table <==> TableWillBeRight(old(active), old(Table()), to, defaultTable, through))
                && (status == Some(Ok) ==> TableAfter(defaultTable, BeforeLast(sent)) == Table())
      ensures Attempted(old(active), to, outOfMemory, detached) ==>
                var at := BeforeList(old(active), to, defaultTable, old(Where()), fault, k);
                var n := A3xxListWords(Issued(list, o.f), o.f);
                && (status == Some(NoSpace) <==> !detachedLater && !faultLater && NoRoomAt(at, A3XX_SUBMIT_MAX + n))
                && Where() == AfterList(o, at, n, status == Some(Ok))
      ensures Attempted(old(active), to, outOfMemory, detached) ==>
                var through := SwitchFits(old(active), to, defaultTable, old(Where()), fault);
                var before := old(Asked(sent)) + SwitchAsked(old(active), to, defaultTable, addresses, old(rb.timestamp), through);
                Asked(sent) == if status != Some(Ok) then before else
                  before + [DrawAsk(to, list, o, addresses, Next(SwitchTime(old(active), to, old(rb.timestamp), fault)))]
    {
      if outOfMemory { return None; }
      var cmds, index := BuildCommand(list, o.f);
      A3xxListSize(Issued(list, o.f), o.f);
      var s := SwitchAndAdd(to, list, o, cmds[..index], detached, detachedLater, fault, faultLater, k);
      return Some(s);
    }
  }

  /** The submission made last runs the buffers of a list. */
  predicate LastDraws(sent: seq<Sent>, list: seq<IbNode>, f: Flags) {
    sent != [] && var work := sent[|sent| - 1].work; work.Draw? && work.ibs == list && work.cf == f
  }

  // ---- A run under the wrong page table ----

  predicate PlainList(list: seq<IbNode>) { |list| <= KGSL_MAX_NUMIBS && NoneSkipped(list, LIST_FLAGS) }

  const PLAIN_ORDER: Order := Order(LIST_FLAGS, 0, None, None)

  /** There is room for a list of `n` buffers behind the switch, or without one if it
      gets no room itself. */
  predicate PlainFits(active: Option<DrawContext>, to: DrawContext, defaultTable: u64, at: Place, n: nat, k: nat) {
    !NoRoomAt(BeforeList(active, to, defaultTable, at, false, k), A3XX_SUBMIT_MAX + 4 + 3 * n)
  }

  function AfterPlain(active: Option<DrawContext>, to: DrawContext, defaultTable: u64, at: Place, n: nat, k: nat): Place {
    AfterList(PLAIN_ORDER, BeforeList(active, to, defaultTable, at, false, k), 4 + 3 * n, true)
  }

  /** Submits such a list with nothing in the way. */
  method SubmitPlain(q: RingQueue, to: DrawContext, list: seq<IbNode>, k: nat) returns (status: Option<Status>)
    requires q.Valid() && PlainList(list)
    requires PlainFits(q.active, to, q.defaultTable, q.Where(), |list|, k)
    modifies q`rptr, q`read, q`sent, q`active, q.rb`timestamp, q.rb`pendingWptr, q.rb`wptr, q.rb.buffer
    ensures q.Valid() && status == Some(Ok) && q.active == Some(to) && LastDraws(q.sent, list, LIST_FLAGS)
    ensures q.Table() == NextTable(old(q.active), old(q.Table()), to, q.defaultTable,
                                   SwitchFits(old(q.active), to, q.defaultTable, old(q.Where()), false))
    ensures TableAfter(q.defaultTable, BeforeLast(q.sent)) == q.Table()
    ensures q.Where() == AfterPlain(old(q.active), to, q.defaultTable, old(q.Where()), |list|, k)
  {
    FullListWords(true, list, LIST_FLAGS);
    status := q.SubmitCmd(to, list, PLAIN_ORDER, false, false, false, false, false, k);
    OneOfFour(status.value);
  }

  /** Two lists that fill the ring. */
  lemma FirstFits(a: DrawContext, defaultTable: u64, start: nat, m: nat)
    requires a.table != defaultTable && start + 3 * m <= 8023
    ensures SwitchFits(None, a, defaultTable, Place(start, start), false)
    ensures PlainFits(None, a, defaultTable, Place(start, start), m, 0)
    ensures AfterPlain(None, a, defaultTable, Place(start, start), m, 0) == Place(start, start + 3 * m + 108)
  {
  }

  lemma SecondFits(a: DrawContext, defaultTable: u64, at: Place, n: nat)
    requires at.rptr <= at.wptr < KGSL_RB_DWORDS && at.wptr + 3 * n <= 8131
    ensures PlainFits(Some(a), a, defaultTable, at, n, 0)
    ensures AfterPlain(Some(a), a, defaultTable, at, n, 0) == Place(at.rptr, at.wptr + 3 * n + 27)
  {
  }

  /** No room for a switch, and room for a list once the processor has read on. */
  lemma OnlyListFits(a: DrawContext, b: DrawContext, defaultTable: u64, at: Place, n: nat)
    requires a.table != b.table && b.table != defaultTable
    requires at.rptr <= 116 && 8074 < at.wptr <= 8190 && n <= KGSL_MAX_NUMIBS
    ensures !SwitchFits(Some(a), b, defaultTable, at, false)
    ensures PlainFits(Some(a), b, defaultTable, at, n, KGSL_RB_DWORDS)
  {
  }

  /** The wrong page table is real on this ring too.  The ring has been started up,
      with `start` words, and the processor is stalled there.  One context submits two
      lists, none longer than a list may be, that fill the ring; another context
      submits a list.  There is no room for the second switch, the processor reads on,
      there is room for the list, and it goes out with the first context's page table
      loaded. */
  method WrongTableRun(addresses: Addresses, defaultTable: u64, start: nat, a: DrawContext, b: DrawContext,
                       first: seq<IbNode>, second: seq<IbNode>, own: seq<IbNode>)
    returns (q: RingQueue, status: Option<Status>)
    requires a.table != defaultTable && b.table != defaultTable && a.table != b.table
    requires PlainList(first) && PlainList(second) && PlainList(own)
    requires start <= 116 && 7939 < start + 3 * (|first| + |second|) <= 8023
    ensures fresh(q) && q.Valid() && q.defaultTable == defaultTable
    ensures status == Some(Ok) && q.active == Some(b) && LastDraws(q.sent, own, LIST_FLAGS)
    ensures TableAfter(defaultTable, BeforeLast(q.sent)) == a.table != b.table
  {
    q := new RingQueue(addresses, defaultTable, start);
    FirstFits(a, defaultTable, start, |first|);
    status := SubmitPlain(q, a, first, 0);
    SecondFits(a, defaultTable, q.Where(), |second|);
    status := SubmitPlain(q, a, second, 0);
    OnlyListFits(a, b, defaultTable, q.Where(), |own|);
    status := SubmitPlain(q, b, own, KGSL_RB_DWORDS);
  }
}
