/** The marks in a stream: NOPs with an identifier, by which a reader of a dump finds
    where submissions, command buffers and context switches start and end. */
module StreamMarks {
  import opened Common
  import opened Pm4
  import opened CommandLists
  import opened A5xxPackets
  import A = A3xxPackets

  /** Packets behind a first one leave it first. */
  predicate SameFirst(a: seq<Packet>, b: seq<Packet>) { a != [] && b != [] && a[0] == b[0] }

  lemma BehindProfile(out: seq<Packet>, ib: Option<Ib>)
    requires AllFit(out) && out != []
    ensures SameFirst(out, ProfileIb(out, ib))
  {
  }

  lemma BehindPreIb(out: seq<Packet>, dev: Device, ctx: Option<Context>)
    requires AllFit(out) && out != []
    ensures SameFirst(out, PreIb(out, dev, ctx))
  {
  }

  lemma BehindStart(out: seq<Packet>, dev: Device, ctx: Option<Context>, timestamp: u32, rbTimestamp: u32)
    requires AllFit(out) && out != []
    ensures SameFirst(out, StartStamps(out, dev, ctx, timestamp, rbTimestamp))
  {
  }

  lemma BehindEnd(out: seq<Packet>, dev: Device, ctx: Option<Context>, timestamp: u32, rbTimestamp: u32)
    requires AllFit(out) && out != []
    ensures SameFirst(out, EndStamps(out, dev, ctx, timestamp, rbTimestamp))
  {
  }

  /** An a5xx submission starts with a mark that tells a context's commands from
      internal ones. */
  lemma SubmissionMarked(job: Job, user: seq<Packet>)
    requires AllFit(user)
    ensures var ps := Submission(job, user);
            ps != [] && ps[0] == Pkt7(CP_NOP, [if job.ctx.Some? then 0x2EEDFACE else 0x2EEDD00D])
  {
    var o1 := [] + [NopPacket(if job.ctx.Some? then CMD_IDENTIFIER else CMD_INTERNAL_IDENTIFIER)];
    BehindPreIb(o1, job.dev, job.ctx);
    var o2 := PreIb(o1, job.dev, job.ctx);
    BehindProfile(o2, job.preIb);
    BehindStart(ProfileIb(o2, job.preIb), job.dev, job.ctx, job.timestamp, job.rbTimestamp);
    var p := Prologue([], job.dev, job.ctx, job.f, job.timestamp, job.rbTimestamp, job.preIb);
    assert SameFirst(o1, p);
    var r1 := When(p + user, job.f.notProtected, Protect(1));
    BehindProfile(r1, job.postIb);
    var r3 := When(ProfileIb(r1, job.postIb), job.dev.haltOnPagefault, Pkt7(CP_WAIT_MEM_WRITES, []))
              + [MemWrite(job.dev.refWaitTs, job.sequence)];
    assert SameFirst(p, r3);
    BehindEnd(r3, job.dev, job.ctx, job.timestamp, job.rbTimestamp);
  }

  lemma {:induction false} BehindEntries(legacy: bool, out: seq<Packet>, ibs: seq<IbNode>, f: Flags)
    requires AllFit(out) && out != []
    ensures SameFirst(out, Entries(legacy, out, ibs, f))
    decreases |ibs|
  {
    if ibs != [] { BehindEntries(legacy, out, ibs[..|ibs| - 1], f); }
  }

  /** An a5xx command buffer starts and ends with its marks. */
  lemma CommandsMarked(ibs: seq<IbNode>, f: Flags, st: Stamps)
    ensures var ps := Commands(ibs, f, st);
            |ps| >= 2 && ps[0] == Pkt7(CP_NOP, [0x2EADEABE]) && ps[|ps| - 1] == Pkt7(CP_NOP, [0x2ABEDEAD])
  {
    var head := CommandHead(f, st.counter, st.started, st.submitIb);
    var o1 := [] + [NopPacket(START_IB_IDENTIFIER)];
    BehindProfile(When(o1, f.kernelProfile, Counter(st.counter, st.started)), st.submitIb);
    assert SameFirst(o1, head);
    BehindEntries(false, head, ibs, f);
    var entries := Entries(false, head, ibs, f);
    var t2 := entries + [Pkt7(CP_SET_RENDER_MODE, [0, 0, 0, 0, 0])] + [Pkt7(CP_YIELD_ENABLE, [1])];
    BehindProfile(When(t2, f.kernelProfile, Counter(st.counter, st.retired)), st.retireIb);
    assert SameFirst(entries, t2);
  }

  /** An a5xx context switch has its mark before it stores the context's id. */
  lemma SwitchMarked(pt: Option<u64>, id: u32, scratch: u64, rbCurrent: u64, globalCurrent: u64)
    ensures var ps := ContextSwitch(pt, id, scratch, rbCurrent, globalCurrent);
            |ps| >= 4 && ps[|ps| - 4] == Pkt7(CP_NOP, [0x2EADBEEF])
  {
  }

  // ---- a3xx ----

  lemma BehindFixup(out: seq<Packet>, job: A.Job)
    requires AllFit(out) && out != []
    ensures SameFirst(out, A.PwronFixup(out, job))
    ensures job.f.pwronFixup ==> A.PwronFixup(out, job)[|out| + 1] == Pkt3(CP_NOP, [0x2AFAFAFA])
  {
  }

  lemma BehindStamps(out: seq<Packet>, job: A.Job)
    requires AllFit(out) && out != []
    ensures SameFirst(out, A.StartStamps(out, job)) && SameFirst(out, A.EndStamps(out, job))
  {
  }

  lemma BehindCall(out: seq<Packet>, ib: Option<Ib>)
    requires AllFit(out) && out != []
    ensures SameFirst(out, A.CallWhen(out, ib))
  {
  }

  /** An a3xx submission starts with the same mark. */
  lemma A3xxSubmissionMarked(job: A.Job, user: seq<Packet>)
    requires AllFit(user)
    ensures var ps := A.Submission(job, user);
            ps != [] && ps[0] == Pkt3(CP_NOP, [if job.ctx.Some? then 0x2EEDFACE else 0x2EEDD00D])
  {
    var o1 := [] + [A.Nop(if job.ctx.Some? then CMD_IDENTIFIER else CMD_INTERNAL_IDENTIFIER)];
    BehindFixup(o1, job);
    var o2 := A.PwronFixup(o1, job);
    BehindCall(o2, job.preIb);
    BehindStamps(A.CallWhen(o2, job.preIb), job);
    var p := A.Prologue([], job);
    assert SameFirst(o1, p);
    var e2 := When(p + user, job.f.notProtected, A.SetProtected(1)) + [Pkt3(CP_EVENT_WRITE, [0x07])] + [A.WaitForIdle()];
    assert SameFirst(p, e2);
    BehindCall(e2, job.postIb);
    BehindStamps(A.CallWhen(e2, job.postIb), job);
  }

  /** An a3xx command buffer and context switch have theirs. */
  lemma A3xxCommandsMarked(ibs: seq<IbNode>, f: Flags)
    ensures var ps := A.Commands(ibs, f);
            |ps| >= 2 && ps[0] == Pkt3(CP_NOP, [0x2EADEABE]) && ps[|ps| - 1] == Pkt3(CP_NOP, [0x2ABEDEAD])
  {
    BehindEntries(true, [] + [A.Nop(START_IB_IDENTIFIER)], ibs, f);
  }

  lemma A3xxSwitchMarked(pt: Option<u64>, setstate: u64, id: u32, rbCurrent: u64, globalCurrent: u64)
    ensures var ps := A.ContextSwitch(pt, setstate, id, rbCurrent, globalCurrent);
            |ps| >= 4 && ps[|ps| - 4] == Pkt3(CP_NOP, [0x2EADBEEF])
  {
  }
}
