/** PM4 command packets: headers with their bit layout, streams of packets, and
    the reader that stands for the command processor. */
module Pm4 {
  import opened Common

  const TWO32: int := 0x1_0000_0000

  type u32 = x: int | 0 <= x < TWO32
  type u64 = x: int | 0 <= x < TWO32 * TWO32

  function Lo(a: u64): u32 { a % TWO32 }
  function Hi(a: u64): u32 { a / TWO32 }

  // opcodes
  const CP_NOP: nat := 0x10
  const CP_WAIT_MEM_WRITES: nat := 0x12
  const CP_WAIT_FOR_ME: nat := 0x13
  const CP_YIELD_ENABLE: nat := 0x1C
  const CP_REG_RMW: nat := 0x21
  const CP_WAIT_FOR_IDLE: nat := 0x26
  const CP_SET_CONSTANT: nat := 0x2d
  const CP_INVALIDATE_STATE: nat := 0x3b
  const CP_MEM_WRITE: nat := 0x3d
  const CP_REG_TO_MEM: nat := 0x3e
  const CP_INDIRECT_BUFFER_PFE: nat := 0x3F
  const CP_EVENT_WRITE: nat := 0x46
  const CP_WAIT_REG_EQ: nat := 0x52
  const CP_SMMU_TABLE_UPDATE: nat := 0x53
  const CP_SET_PROTECTED_MODE: nat := 0x5f
  const CP_WHERE_AM_I: nat := 0x62
  const CP_SET_SECURE_MODE: nat := 0x66
  const CP_PREEMPT_ENABLE_GLOBAL: nat := 0x69
  const CP_PREEMPT_ENABLE_LOCAL: nat := 0x6A
  const CP_CONTEXT_SWITCH_YIELD: nat := 0x6B
  const CP_SET_RENDER_MODE: nat := 0x6C
  const CP_REG_WR_NO_CTXT: nat := 0x78

  const CACHE_FLUSH_TS: u32 := 4
  /** CACHE_FLUSH_TS | (1 << 31) */
  const CACHE_FLUSH_TS_IRQ: u32 := 0x8000_0004

  /** The bit that makes the number of one bits odd. */
  function OddParity(n: nat): (b: nat)
    ensures b <= 1
    decreases n
  {
    if n == 0 then 1 else (OddParity(n / 2) + n) % 2
  }

  // Packet headers.  The fields of a header do not overlap, so the bitwise or
  // of the fields is their sum.

  function Type0(reg: nat, cnt: nat): u32
    requires 0 < cnt <= 0x4000
  {
    (cnt - 1) * 0x1_0000 + reg % 0x8000
  }

  function Type3(op: nat, cnt: nat): u32
    requires 0 < cnt <= 0x4000
  {
    0xC000_0000 + (cnt - 1) * 0x1_0000 + (op % 0x100) * 0x100
  }

  function Type4(reg: nat, cnt: nat): u32
    requires cnt < 0x80
  {
    0x4000_0000 + OddParity(reg) * 0x800_0000 + (reg % 0x4_0000) * 0x100 + OddParity(cnt) * 0x80 + cnt
  }

  function Type7(op: nat, cnt: nat): u32
    requires cnt < 0x4000
  {
    0x7000_0000 + OddParity(op) * 0x80_0000 + (op % 0x80) * 0x1_0000 + OddParity(cnt) * 0x8000 + cnt
  }

  datatype Packet =
    | Pkt0(reg: nat, payload: seq<u32>)
    | Pkt3(op: nat, payload: seq<u32>)
    | Pkt4(reg: nat, payload: seq<u32>)
    | Pkt7(op: nat, payload: seq<u32>)

  /** The packet fits its header's fields. */
  predicate Fits(p: Packet) {
    match p
    case Pkt0(reg, d) => reg < 0x8000 && 0 < |d| <= 0x4000
    case Pkt3(op, d) => op < 0x80 && 0 < |d| <= 0x4000
    case Pkt4(reg, d) => reg < 0x4_0000 && |d| < 0x80
    case Pkt7(op, d) => op < 0x80 && |d| < 0x4000
  }

  predicate AllFit(ps: seq<Packet>) { forall i :: 0 <= i < |ps| ==> Fits(ps[i]) }

  function Encode(p: Packet): seq<u32>
    requires Fits(p)
  {
    match p
    case Pkt0(reg, d) => [Type0(reg, |d|)] + d
    case Pkt3(op, d) => [Type3(op, |d|)] + d
    case Pkt4(reg, d) => [Type4(reg, |d|)] + d
    case Pkt7(op, d) => [Type7(op, |d|)] + d
  }

  function EncodeAll(ps: seq<Packet>): seq<u32>
    requires AllFit(ps)
  {
    if ps == [] then [] else Encode(ps[0]) + EncodeAll(ps[1..])
  }

  // ---- The reader ----

  datatype Header = BadHeader | Header0(reg: nat, size: nat) | Header3(op: nat, size: nat)
                  | Header4(reg: nat, size: nat) | Header7(op: nat, size: nat)

  /** Kind, opcode or register, and payload size, as the packet checks of
      adreno_pm4types.h read them off a header word. */
  function ReadHeader(w: u32): Header {
    if w / 0x4000_0000 == 0 then Header0(w % 0x8000, w / 0x1_0000 % 0x4000 + 1)
    else if w / 0x4000_0000 == 3 then
      if w % 0x100 / 2 == 0 && w / 0x8000 % 2 == 0
      then Header3(w / 0x100 % 0x100, w / 0x1_0000 % 0x4000 + 1) else BadHeader
    else if w / 0x1000_0000 == 4 then
      if && w / 0x800_0000 % 2 == OddParity(w / 0x100 % 0x8_0000)
         && w / 0x80 % 2 == OddParity(w % 0x80)
      then Header4(w / 0x100 % 0x8_0000, w % 0x80) else BadHeader
    else if w / 0x1000_0000 == 7 then
      if && w / 0x100_0000 % 16 == 0
         && w / 0x80_0000 % 2 == OddParity(w / 0x1_0000 % 0x80)
         && w / 0x8000 % 2 == OddParity(w % 0x4000)
      then Header7(w / 0x1_0000 % 0x80, w % 0x4000) else BadHeader
    else BadHeader
  }

  function MakePacket(h: Header, d: seq<u32>): Packet
    requires !h.BadHeader?
  {
    match h
    case Header0(reg, _) => Pkt0(reg, d)
    case Header3(op, _) => Pkt3(op, d)
    case Header4(reg, _) => Pkt4(reg, d)
    case Header7(op, _) => Pkt7(op, d)
  }

  datatype Parsed = Malformed | Packets(ps: seq<Packet>)

  /** Cuts a stream into whole packets. */
  function Decode(words: seq<u32>): Parsed
    decreases |words|
  {
    if words == [] then Packets([]) else
    var h := ReadHeader(words[0]);
    if h.BadHeader? || |words| < 1 + h.size then Malformed else
    var rest := Decode(words[1 + h.size..]);
    if rest.Malformed? then Malformed else
    Packets([MakePacket(h, words[1..1 + h.size])] + rest.ps)
  }

  /** The fields of a type 0 header. */
  lemma Fields0(w: u32, reg: nat, more: nat)
    requires reg < 0x8000 && more < 0x4000 && w == more * 0x1_0000 + reg
    ensures w / 0x4000_0000 == 0 && w % 0x8000 == reg && w / 0x1_0000 % 0x4000 == more
  {
    assert w / 0x1_0000 == more;
    assert w == (more * 2) * 0x8000 + reg;
  }

  lemma Header0Reads(reg: nat, cnt: nat)
    requires reg < 0x8000 && 0 < cnt <= 0x4000
    ensures ReadHeader(Type0(reg, cnt)) == Header0(reg, cnt)
    ensures var w := Type0(reg, cnt); w / 0x4000_0000 == 0 && w / 0x1_0000 % 0x4000 == cnt - 1 && w % 0x8000 == reg
  {
    Fields0(Type0(reg, cnt), reg, cnt - 1);
  }

  /** The fields of a type 3 header. */
  lemma Fields3(w: u32, op: nat, more: nat)
    requires op < 0x80 && more < 0x4000
    requires w == 0xC000_0000 + more * 0x1_0000 + op * 0x100
    ensures w / 0x4000_0000 == 3 && w % 0x100 == 0 && w / 0x8000 % 2 == 0
    ensures w / 0x100 % 0x100 == op && w / 0x1_0000 % 0x4000 == more
  {
    assert w / 0x100 == 0xC0_0000 + more * 0x100 + op;
    assert w / 0x8000 == 0x1_8000 + more * 2;
    assert w / 0x1_0000 == 0xC000 + more;
  }

  lemma Header3Reads(op: nat, cnt: nat)
    requires op < 0x80 && 0 < cnt <= 0x4000
    ensures ReadHeader(Type3(op, cnt)) == Header3(op, cnt)
    ensures var w := Type3(op, cnt); w / 0x4000_0000 == 3 && w / 0x1_0000 % 0x4000 == cnt - 1 && w / 0x100 % 0x100 == op && w % 0x100 == 0
  {
    Fields3(Type3(op, cnt), op, cnt - 1);
  }

  /** The fields of a type 4 header, with its parity bits `p` and `q`. */
  lemma Fields4(w: u32, p: nat, reg: nat, q: nat, cnt: nat)
    requires p <= 1 && q <= 1 && reg < 0x4_0000 && cnt < 0x80
    requires w == 0x4000_0000 + p * 0x800_0000 + reg * 0x100 + q * 0x80 + cnt
    ensures w / 0x4000_0000 == 1 && w / 0x1000_0000 == 4 && w / 0x800_0000 % 2 == p
    ensures w / 0x100 % 0x8_0000 == reg && w / 0x80 % 2 == q && w % 0x80 == cnt
  {
    assert w / 0x800_0000 == 8 + p;
    assert w / 0x100 == 0x40_0000 + p * 0x8_0000 + reg;
    assert w / 0x80 == 0x80_0000 + p * 0x10_0000 + reg * 2 + q;
  }

  /** The fields of a type 7 header, with its parity bits `p` and `q`. */
  lemma Fields7(w: u32, p: nat, op: nat, q: nat, cnt: nat)
    requires p <= 1 && q <= 1 && op < 0x80 && cnt < 0x4000
    requires w == 0x7000_0000 + p * 0x80_0000 + op * 0x1_0000 + q * 0x8000 + cnt
    ensures w / 0x4000_0000 == 1 && w / 0x1000_0000 == 7 && w / 0x100_0000 % 16 == 0
    ensures w / 0x80_0000 % 2 == p && w / 0x1_0000 % 0x80 == op && w / 0x8000 % 2 == q && w % 0x4000 == cnt
  {
    assert w / 0x100_0000 == 0x70;
    assert w / 0x80_0000 == 0xE0 + p;
    assert w / 0x1_0000 == 0x7000 + p * 0x80 + op;
    assert w / 0x8000 == 0xE000 + p * 0x100 + op * 2 + q;
  }

  lemma Header4Reads(reg: nat, cnt: nat)
    requires reg < 0x4_0000 && cnt < 0x80
    ensures ReadHeader(Type4(reg, cnt)) == Header4(reg, cnt)
  {
    Fields4(Type4(reg, cnt), OddParity(reg), reg, OddParity(cnt), cnt);
  }

  lemma Header7Reads(op: nat, cnt: nat)
    requires op < 0x80 && cnt < 0x4000
    ensures ReadHeader(Type7(op, cnt)) == Header7(op, cnt)
  {
    Fields7(Type7(op, cnt), OddParity(op), op, OddParity(cnt), cnt);
  }

  /** The fields of the headers with parity bits, at their places in the word. */
  lemma Header4Fields(w: u32, reg: nat, cnt: nat)
    requires reg < 0x4_0000 && cnt < 0x80 && w == Type4(reg, cnt)
    ensures w / 0x1000_0000 == 4 && w / 0x800_0000 % 2 == OddParity(reg) && w / 0x100 % 0x8_0000 == reg
    ensures w / 0x80 % 2 == OddParity(cnt) && w % 0x80 == cnt
  {
    Fields4(w, OddParity(reg), reg, OddParity(cnt), cnt);
  }

  lemma Header7Fields(w: u32, op: nat, cnt: nat)
    requires op < 0x80 && cnt < 0x4000 && w == Type7(op, cnt)
    ensures w / 0x1000_0000 == 7 && w / 0x80_0000 % 2 == OddParity(op) && w / 0x1_0000 % 0x80 == op
    ensures w / 0x8000 % 2 == OddParity(cnt) && w % 0x4000 == cnt
  {
    Fields7(w, OddParity(op), op, OddParity(cnt), cnt);
  }

  /** Packets read before what comes of the rest. */
  function Joined(ps: seq<Packet>, rest: Parsed): Parsed {
    if rest.Malformed? then Malformed else Packets(ps + rest.ps)
  }

  lemma DecodeFirst(p: Packet, rest: seq<u32>)
    requires Fits(p)
    ensures Decode(Encode(p) + rest) == Joined([p], Decode(rest))
  {
    var words := Encode(p) + rest;
    match p {
      case Pkt0(reg, d) => Header0Reads(reg, |d|);
      case Pkt3(op, d) => Header3Reads(op, |d|);
      case Pkt4(reg, d) => Header4Reads(reg, |d|);
      case Pkt7(op, d) => Header7Reads(op, |d|);
    }
    assert words[1..1 + |p.payload|] == p.payload;
    assert words[1 + |p.payload|..] == rest;
  }

  /** Reading a printed stream gives back exactly its packets. */
  lemma {:induction false} DecodeEncode(ps: seq<Packet>)
    requires AllFit(ps)
    ensures Decode(EncodeAll(ps)) == Packets(ps)
  {
    if ps != [] {
      DecodeEncode(ps[1..]);
      DecodeFirst(ps[0], EncodeAll(ps[1..]));
    }
  }

  lemma JoinedTwice(p: Packet, ps: seq<Packet>, rest: Parsed)
    ensures Joined([p], Joined(ps, rest)) == Joined([p] + ps, rest)
  {
    if rest.Packets? { assert [p] + (ps + rest.ps) == [p] + ps + rest.ps; }
  }

  /** A printed stream reads as its packets whatever comes after it. */
  lemma {:induction false} DecodeAppend(ps: seq<Packet>, rest: seq<u32>)
    requires AllFit(ps)
    ensures Decode(EncodeAll(ps) + rest) == Joined(ps, Decode(rest))
  {
    if ps == [] {
      assert EncodeAll(ps) + rest == rest;
    } else {
      var p, t := ps[0], ps[1..];
      DecodeAppend(t, rest);
      Associate(Encode(p), EncodeAll(t), rest);
      DecodeFirst(p, EncodeAll(t) + rest);
      JoinedTwice(p, t, Decode(rest));
      assert [p] + t == ps;
    }
  }

  lemma EncodeCons(p: Packet, ps: seq<Packet>)
    requires Fits(p) && AllFit(ps)
    ensures AllFit([p] + ps) && EncodeAll([p] + ps) == Encode(p) + EncodeAll(ps)
  {
    assert ([p] + ps)[1..] == ps;
  }

  lemma {:induction false} EncodeAppend(a: seq<Packet>, b: seq<Packet>)
    requires AllFit(a) && AllFit(b)
    ensures AllFit(a + b) && EncodeAll(a + b) == EncodeAll(a) + EncodeAll(b)
  {
    if a == [] {
      assert a + b == b;
    } else {
      var p, t := a[0], a[1..];
      assert a == [p] + t && a + b == [p] + (t + b);
      EncodeAppend(t, b);
      EncodeCons(p, t + b);
      EncodeCons(p, t);
      Associate(Encode(p), EncodeAll(t), EncodeAll(b));
    }
  }

  lemma EncodeOne(p: Packet)
    requires Fits(p)
    ensures EncodeAll([p]) == Encode(p)
  {
  }
}
