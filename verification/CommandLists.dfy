/** User command lists: the indirect buffers of a submission, and the packets
    that call or hide them. */
module CommandLists {
  import opened Pm4

  datatype Flags = Flags(notProtected: bool, wfi: bool, pwronFixup: bool, secure: bool, skip: bool,
                         userProfile: bool, kernelProfile: bool, preamble: bool)

  /** An indirect buffer: address and size in dwords. */
  datatype Ib = Ib(addr: u64, dwords: u32)

  /** An entry of a command list. */
  datatype IbNode = IbNode(addr: u64, size: u64, skip: bool, preamble: bool)

  /** Longer command lists are refused. */
  const KGSL_MAX_NUMIBS: nat := 2000

  predicate Skipped(ib: IbNode, f: Flags) {
    ib.skip || (ib.preamble && !f.preamble)
  }

  /** The list that is issued: with F_SKIP none of it. */
  function Issued(ibs: seq<IbNode>, f: Flags): seq<IbNode> { if f.skip then [] else ibs }

  /** An indirect buffer call. */
  function IbPacket(ib: Ib): (p: Packet)
    ensures Fits(p)
  {
    Pkt7(CP_INDIRECT_BUFFER_PFE, [Lo(ib.addr), Hi(ib.addr), ib.dwords])
  }

  /** A call on targets with the legacy packets: 32 bits of address. */
  function CallIb(ib: Ib): (p: Packet)
    ensures Fits(p)
  {
    Pkt3(CP_INDIRECT_BUFFER_PFE, [Lo(ib.addr), ib.dwords])
  }

  /** The size field keeps 20 bits, and 32 with the legacy packets. */
  function NodeIb(legacy: bool, ib: IbNode): Ib {
    Ib(ib.addr, ib.size / 4 % if legacy then TWO32 else 0x10_0000)
  }

  /** A skipped buffer's packet becomes the payload of a NOP. */
  function Entry(legacy: bool, ib: IbNode, f: Flags): (p: Packet)
    ensures Fits(p)
  {
    var call := if legacy then CallIb(NodeIb(true, ib)) else IbPacket(NodeIb(false, ib));
    if !Skipped(ib, f) then call
    else if legacy then Pkt3(CP_NOP, Encode(call)) else Pkt7(CP_NOP, Encode(call))
  }

  /** The entries for a command list, behind `out`. */
  function Entries(legacy: bool, out: seq<Packet>, ibs: seq<IbNode>, f: Flags): (ps: seq<Packet>)
    requires AllFit(out)
    ensures AllFit(ps)
  {
    if ibs == [] then out
    else Entries(legacy, out, ibs[..|ibs| - 1], f) + [Entry(legacy, ibs[|ibs| - 1], f)]
  }
}
