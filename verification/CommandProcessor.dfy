/** What the command processor does with packets: it runs indirect buffers, sets
    registers, stores to memory, loads page tables and changes its two modes. */
module CommandProcessor {
  import opened Common
  import opened Pm4

  datatype Mode = Mode(prot: bool, secure: bool)

  /** One thing done.  Addresses are whole on targets whose packets have both halves. */
  datatype Deed =
    | Run(addr: u64, dwords: nat)                     // an indirect buffer
    | Set(reg: nat, values: seq<u32>)                 // registers from `reg` on
    | Modify(reg: nat, mask: u32, value: u32)         // and with the mask, or with the value
    | Store(addr: u64, values: seq<u32>)              // words to memory
    | Stamp(event: u32, addr: u64, value: u32)        // a word to memory at an event
    | CountTo(counter: u32, addr: u64)                // a register to memory
    | ReportTo(addr: u64)                             // the read pointer to memory
    | Load(table: u64, id: u32)                       // a page table
    | Other(op: nat, payload: seq<u32>)               // waits, yields and the like

  /** A deed, and the mode it was done in. */
  datatype Act = Act(deed: Deed, mode: Mode)

  /** The processor: its mode, the page table in use, and what it has done, in order. */
  datatype Cp = Cp(mode: Mode, table: u64, acts: seq<Act>)

  /** The SMMU's translation table base, in the processor's dword addresses. */
  const SMMU_TTBR0: nat := 0x2808

  /** Normal operation between submissions. */
  const PROTECTED: Mode := Mode(true, false)

  function Whole(lo: u32, hi: u32): u64 { lo + hi * TWO32 }

  lemma HalvesWhole(a: u64)
    ensures Whole(Lo(a), Hi(a)) == a
  {
  }

  predicate SetsMode(op: nat, d: seq<u32>) { (op == CP_SET_PROTECTED_MODE || op == CP_SET_SECURE_MODE) && |d| == 1 }

  function Deed7(op: nat, d: seq<u32>): Deed {
    if op == CP_INDIRECT_BUFFER_PFE && |d| == 3 then Run(Whole(d[0], d[1]), d[2])
    else if op == CP_MEM_WRITE && |d| > 2 then Store(Whole(d[0], d[1]), d[2..])
    else if op == CP_EVENT_WRITE && |d| == 4 then Stamp(d[0], Whole(d[1], d[2]), d[3])
    else if op == CP_REG_TO_MEM && |d| == 3 then CountTo(d[0], Whole(d[1], d[2]))
    else if op == CP_WHERE_AM_I && |d| == 2 then ReportTo(Whole(d[0], d[1]))
    else if op == CP_SMMU_TABLE_UPDATE && |d| == 3 then Load(Whole(d[0], d[1]), d[2])
    else Other(op, d)
  }

  function Deed3(op: nat, d: seq<u32>): Deed {
    if op == CP_INDIRECT_BUFFER_PFE && |d| == 2 then Run(d[0], d[1])
    else if op == CP_MEM_WRITE && |d| > 1 then Store(d[0], d[1..])
    else if op == CP_EVENT_WRITE && |d| == 3 then Stamp(d[0], d[1], d[2])
    else if op == CP_REG_WR_NO_CTXT && |d| > 0 then Set(d[0], d[1..])
    else if op == CP_REG_RMW && |d| == 3 then Modify(d[0], d[1], d[2])
    else Other(op, d)
  }

  /** What a packet does, apart from changing the mode.  A NOP does nothing. */
  function DeedOf(p: Packet): Option<Deed> {
    match p
    case Pkt0(reg, d) => Some(Set(reg, d))
    case Pkt4(reg, d) => Some(Set(reg, d))
    case Pkt7(op, d) => if op == CP_NOP || SetsMode(op, d) then None else Some(Deed7(op, d))
    case Pkt3(op, d) => if op == CP_NOP || SetsMode(op, d) then None else Some(Deed3(op, d))
  }

  function NextMode(m: Mode, p: Packet): Mode {
    if (p.Pkt7? || p.Pkt3?) && SetsMode(p.op, p.payload) then
      if p.op == CP_SET_PROTECTED_MODE then m.(prot := p.payload[0] != 0) else m.(secure := p.payload[0] != 0)
    else m
  }

  /** The page table after a deed: of an update, or of the base register's two halves. */
  function DeedTable(table: u64, d: Deed): u64 {
    if d.Load? then d.table
    else if d.Set? && d.reg == SMMU_TTBR0 && |d.values| == 2 then Whole(d.values[0], d.values[1])
    else table
  }

  /** The processor does something, in its mode. */
  function Does(c: Cp, d: Deed): Cp { Cp(c.mode, DeedTable(c.table, d), c.acts + [Act(d, c.mode)]) }

  function Exec(c: Cp, p: Packet): Cp {
    if DeedOf(p).Some? then Does(c, DeedOf(p).value) else c.(mode := NextMode(c.mode, p))
  }

  function ExecAll(c: Cp, ps: seq<Packet>): Cp
    decreases |ps|
  {
    if ps == [] then c else ExecAll(Exec(c, ps[0]), ps[1..])
  }

  /** What the processor does with a stream of words; a malformed one stops it. */
  function Execute(c: Cp, words: seq<u32>): Cp {
    match Decode(words)
    case Malformed => c
    case Packets(ps) => ExecAll(c, ps)
  }

  lemma {:induction false} ExecAppend(c: Cp, a: seq<Packet>, b: seq<Packet>)
    ensures ExecAll(c, a + b) == ExecAll(ExecAll(c, a), b)
    decreases |a|
  {
    if a == [] {
      assert a + b == b;
    } else {
      assert (a + b)[1..] == a[1..] + b;
      ExecAppend(Exec(c, a[0]), a[1..], b);
    }
  }

  lemma ExecSnoc(c: Cp, out: seq<Packet>, p: Packet)
    ensures ExecAll(c, out + [p]) == Exec(ExecAll(c, out), p)
  {
    ExecAppend(c, out, [p]);
    assert ExecAll(ExecAll(c, out), [p]) == Exec(ExecAll(c, out), p);
  }

  /** Executing a printed stream executes its packets. */
  lemma ExecuteEncoded(c: Cp, ps: seq<Packet>)
    requires AllFit(ps)
    ensures Execute(c, EncodeAll(ps)) == ExecAll(c, ps)
  {
    DecodeEncode(ps);
  }

  // ---- Deeds in one mode ----

  function In(m: Mode, ds: seq<Deed>): (acts: seq<Act>)
    ensures |acts| == |ds| && forall k :: 0 <= k < |ds| ==> acts[k] == Act(ds[k], m)
  {
    seq(|ds|, k requires 0 <= k < |ds| => Act(ds[k], m))
  }

  /** The page table after some deeds. */
  function TableBy(table: u64, ds: seq<Deed>): u64 {
    if ds == [] then table else DeedTable(TableBy(table, ds[..|ds| - 1]), ds[|ds| - 1])
  }

  /** The processor after some deeds. */
  function DoesAll(c: Cp, ds: seq<Deed>): Cp { Cp(c.mode, TableBy(c.table, ds), c.acts + In(c.mode, ds)) }

  lemma DoesNothing(c: Cp)
    ensures DoesAll(c, []) == c
  {
  }

  lemma DoesMore(c: Cp, ds: seq<Deed>, d: Deed)
    ensures Does(DoesAll(c, ds), d) == DoesAll(c, ds + [d])
  {
    assert (ds + [d])[..|ds|] == ds;
    assert In(c.mode, ds + [d]) == In(c.mode, ds) + [Act(d, c.mode)];
  }

  lemma {:induction false} TableByMore(table: u64, a: seq<Deed>, b: seq<Deed>)
    ensures TableBy(table, a + b) == TableBy(TableBy(table, a), b)
    decreases |b|
  {
    if b == [] {
      assert a + b == a;
    } else {
      assert (a + b)[..|a + b| - 1] == a + b[..|b| - 1];
      TableByMore(table, a, b[..|b| - 1]);
    }
  }

  lemma DoesBoth(c: Cp, a: seq<Deed>, b: seq<Deed>)
    ensures DoesAll(DoesAll(c, a), b) == DoesAll(c, a + b)
  {
    TableByMore(c.table, a, b);
    assert In(c.mode, a + b) == In(c.mode, a) + In(c.mode, b);
  }

  /** A stream that has done `ds` so far is continued by a packet that does `d`. */
  lemma ExecMore(c: Cp, b: Cp, out: seq<Packet>, ds: seq<Deed>, p: Packet, d: Deed)
    requires ExecAll(c, out) == DoesAll(b, ds) && DeedOf(p) == Some(d)
    ensures ExecAll(c, out + [p]) == DoesAll(b, ds + [d])
  {
    ExecSnoc(c, out, p);
    DoesMore(b, ds, d);
  }

  lemma ExecNop(c: Cp, out: seq<Packet>, p: Packet)
    requires (p.Pkt3? || p.Pkt7?) && p.op == CP_NOP
    ensures ExecAll(c, out + [p]) == ExecAll(c, out)
  {
    ExecSnoc(c, out, p);
  }

  function Maybe(cond: bool, d: Deed): seq<Deed> { if cond then [d] else [] }

  predicate KeepsTable(d: Deed) { !d.Load? && !(d.Set? && d.reg == SMMU_TTBR0 && |d.values| == 2) }

  predicate AllKeepTable(ds: seq<Deed>) { forall i :: 0 <= i < |ds| ==> KeepsTable(ds[i]) }

  function Acted(c: Cp, acts: seq<Act>): Cp { c.(acts := c.acts + acts) }

  lemma {:induction false} Untabled(c: Cp, ds: seq<Deed>)
    requires AllKeepTable(ds)
    ensures DoesAll(c, ds) == Acted(c, In(c.mode, ds))
    decreases |ds|
  {
    if ds != [] { Untabled(c, ds[..|ds| - 1]); }
  }

  lemma ActedTwice(c: Cp, a: seq<Act>, b: seq<Act>)
    ensures Acted(Acted(c, a), b) == Acted(c, a + b)
  {
    Associate(c.acts, a, b);
  }
}
