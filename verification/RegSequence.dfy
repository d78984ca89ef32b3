/** The register sequence bytecode: delays and register writes of 32 and 64 bits. */
module RegSequence {
  import opened Common
  import opened Pm4

  datatype Op =
    | Write32(reg: u64, value: u32)
    | Write64(reg: u64, wide: u64)
    | Delay(usec: u32)

  function EncodeOp(op: Op): seq<u32> {
    match op
    case Write32(reg, value) => [1, Lo(reg), Hi(reg), value]
    case Write64(reg, wide) => [2, Lo(reg), Hi(reg), Lo(wide), Hi(wide)]
    case Delay(usec) => [3, usec]
  }

  function EncodeOps(ops: seq<Op>): seq<u32> {
    if ops == [] then [] else EncodeOp(ops[0]) + EncodeOps(ops[1..])
  }

  /** What the device sees: the register accessor takes 32-bit offsets and values. */
  datatype Effect = Wrote(offset: u32, value: u32) | Waited(usec: u32)

  function EffectOf(op: Op): Effect {
    match op
    case Write32(reg, value) => Wrote(Lo(reg), value)
    case Write64(reg, wide) => Wrote(Lo(reg), Lo(wide))
    case Delay(usec) => Waited(usec)
  }

  function EffectsOf(ops: seq<Op>): seq<Effect> {
    seq(|ops|, i requires 0 <= i < |ops| => EffectOf(ops[i]))
  }

  /** The sequence's own meaning of an operation, without any truncation. */
  predicate Meant(op: Op, e: Effect) {
    match op
    case Write32(reg, value) => e.Wrote? && e.offset == reg && e.value == value
    case Write64(reg, wide) => e.Wrote? && e.offset == reg && e.value == wide
    case Delay(usec) => e == Waited(usec)
  }

  /** An operation does what it says exactly when its halves above 32 bits are 0. */
  lemma MeantWhenNarrow(op: Op)
    ensures Meant(op, EffectOf(op)) <==>
              (op.Delay? || op.reg < TWO32) && (op.Write64? ==> op.wide < TWO32)
  {
  }

  function Join(lo: u32, hi: u32): (r: u64)
    ensures Lo(r) == lo && Hi(r) == hi
  {
    hi * TWO32 + lo
  }

  /** The operation at the start of the words, if all its words are there. */
  function FirstOp(w: seq<u32>): (op: Option<Op>)
    ensures op.Some? ==> |EncodeOp(op.value)| <= |w|
  {
    if w == [] then None
    else if w[0] == 1 && |w| >= 4 then Some(Write32(Join(w[1], w[2]), w[3]))
    else if w[0] == 2 && |w| >= 5 then Some(Write64(Join(w[1], w[2]), Join(w[3], w[4])))
    else if w[0] == 3 && |w| >= 2 then Some(Delay(w[1]))
    else None
  }

  /** The operation found is the one whose encoding the words start with. */
  lemma FirstOpExactly(w: seq<u32>, op: Op)
    ensures FirstOp(w) == Some(op) <==> EncodeOp(op) <= w
  {
    var n := |EncodeOp(op)|;
    if EncodeOp(op) <= w {
      assert forall k :: 0 <= k < n ==> w[k] == EncodeOp(op)[k];
      JoinParts(op);
    }
    if FirstOp(w) == Some(op) {
      assert w[..n] == EncodeOp(op);
    }
  }

  lemma JoinParts(op: Op)
    ensures !op.Delay? ==> Join(Lo(op.reg), Hi(op.reg)) == op.reg
    ensures op.Write64? ==> Join(Lo(op.wide), Hi(op.wide)) == op.wide
  {
  }

  /** The operations issued before the interpreter stops, and the words left. */
  datatype Run = Run(ops: seq<Op>, rest: seq<u32>)

  function Interpret(w: seq<u32>): Run
    decreases |w|
  {
    var op := FirstOp(w);
    if op.None? then Run([], w) else
    var r := Interpret(w[|EncodeOp(op.value)|..]);
    Run([op.value] + r.ops, r.rest)
  }

  /** No whole operation starts here. */
  ghost predicate NoOp(rest: seq<u32>) {
    forall op :: !(EncodeOp(op) <= rest)
  }

  /** Whatever the words, what was issued is what they encode up to where the
      interpreter stops, and it stops only where no whole operation starts. */
  lemma {:induction false} InterpretDecodes(w: seq<u32>)
    ensures w == EncodeOps(Interpret(w).ops) + Interpret(w).rest
    ensures NoOp(Interpret(w).rest)
    decreases |w|
  {
    if FirstOp(w).None? {
      forall op ensures !(EncodeOp(op) <= w) { FirstOpExactly(w, op); }
    } else {
      var op := FirstOp(w).value;
      var tail := w[|EncodeOp(op)|..];
      FirstOpExactly(w, op);
      InterpretDecodes(tail);
      var r := Interpret(tail);
      assert ([op] + r.ops)[1..] == r.ops;
      assert EncodeOp(op) + (EncodeOps(r.ops) + r.rest) == EncodeOp(op) + EncodeOps(r.ops) + r.rest;
      assert w == EncodeOp(op) + tail;
    }
  }

  /** Executing the encoding of any operation list issues exactly those operations. */
  lemma {:induction false} InterpretEncoded(ops: seq<Op>)
    ensures Interpret(EncodeOps(ops)) == Run(ops, [])
  {
    if ops != [] {
      var w, n := EncodeOps(ops), |EncodeOp(ops[0])|;
      FirstOpExactly(w, ops[0]);
      assert w[n..] == EncodeOps(ops[1..]);
      assert [ops[0]] + ops[1..] == ops;
      InterpretEncoded(ops[1..]);
    }
  }

  ghost predicate IsEncoding(w: seq<u32>) { exists ops :: w == EncodeOps(ops) }

  /** Success means the words are exactly the encoding of some list. */
  lemma SucceedsExactly(w: seq<u32>)
    ensures Interpret(w).rest == [] <==> IsEncoding(w)
  {
    InterpretDecodes(w);
    if Interpret(w).rest == [] {
      assert w == EncodeOps(Interpret(w).ops);
    }
    if ops :| w == EncodeOps(ops) {
      InterpretEncoded(ops);
    }
  }

  /** The operations in `done` are those issued before position `cur`. */
  predicate Progress(opcode: seq<u32>, cur: nat, done: seq<Op>) {
    && cur <= |opcode|
    && done + Interpret(opcode[cur..]).ops == Interpret(opcode).ops
    && Interpret(opcode[cur..]).rest == Interpret(opcode).rest
  }

  lemma InterpretStep(w: seq<u32>, op: Op, rest: seq<u32>)
    requires FirstOp(w) == Some(op) && |EncodeOp(op)| <= |w| && rest == w[|EncodeOp(op)|..]
    ensures Interpret(w) == Run([op] + Interpret(rest).ops, Interpret(rest).rest)
  {
  }

  lemma RunMore(all: Run, now: Run, next: Run, done: seq<Op>, op: Op)
    requires done + now.ops == all.ops && now.rest == all.rest && now == Run([op] + next.ops, next.rest)
    ensures done + [op] + next.ops == all.ops && next.rest == all.rest
  {
    Associate(done, [op], next.ops);
  }

  lemma Issued(opcode: seq<u32>, cur: nat, done: seq<Op>, op: Op, size: nat)
    requires Progress(opcode, cur, done) && FirstOp(opcode[cur..]) == Some(op) && size == |EncodeOp(op)|
    ensures Progress(opcode, cur + size, done + [op])
  {
    assert opcode[cur..][size..] == opcode[cur + size..];
    InterpretStep(opcode[cur..], op, opcode[cur + size..]);
    RunMore(Interpret(opcode), Interpret(opcode[cur..]), Interpret(opcode[cur + size..]), done, op);
  }

  lemma Effected(before: seq<Effect>, done: seq<Op>, op: Op)
    ensures before + EffectsOf(done) + [EffectOf(op)] == before + EffectsOf(done + [op])
  {
    assert EffectsOf(done + [op]) == EffectsOf(done) + [EffectOf(op)];
    Associate(before, EffectsOf(done), [EffectOf(op)]);
  }

  lemma IssuedWithEffect(opcode: seq<u32>, cur: nat, done: seq<Op>, op: Op, before: seq<Effect>, trace: seq<Effect>)
    requires Progress(opcode, cur, done) && FirstOp(opcode[cur..]) == Some(op) && trace == before + EffectsOf(done)
    ensures Progress(opcode, cur + |EncodeOp(op)|, done + [op])
    ensures trace + [EffectOf(op)] == before + EffectsOf(done + [op])
  {
    Issued(opcode, cur, done, op, |EncodeOp(op)|);
    Effected(before, done, op);
  }

  lemma FirstWrite32(opcode: seq<u32>, cur: nat)
    requires cur + 4 <= |opcode| && opcode[cur] == 1
    ensures FirstOp(opcode[cur..]) == Some(Write32(Join(opcode[cur + 1], opcode[cur + 2]), opcode[cur + 3]))
  {
    var w := opcode[cur..];
    assert w[0] == opcode[cur] && w[1] == opcode[cur + 1] && w[2] == opcode[cur + 2] && w[3] == opcode[cur + 3];
  }

  lemma FirstWrite64(opcode: seq<u32>, cur: nat)
    requires cur + 5 <= |opcode| && opcode[cur] == 2
    ensures FirstOp(opcode[cur..]) ==
              Some(Write64(Join(opcode[cur + 1], opcode[cur + 2]), Join(opcode[cur + 3], opcode[cur + 4])))
  {
    var w := opcode[cur..];
    assert w[0] == opcode[cur] && w[1] == opcode[cur + 1] && w[2] == opcode[cur + 2];
    assert w[3] == opcode[cur + 3] && w[4] == opcode[cur + 4];
  }

  lemma FirstDelay(opcode: seq<u32>, cur: nat)
    requires cur + 2 <= |opcode| && opcode[cur] == 3
    ensures FirstOp(opcode[cur..]) == Some(Delay(opcode[cur + 1]))
  {
    var w := opcode[cur..];
    assert w[0] == opcode[cur] && w[1] == opcode[cur + 1];
  }

  lemma Stopped(opcode: seq<u32>, cur: nat, done: seq<Op>)
    requires Progress(opcode, cur, done) && FirstOp(opcode[cur..]).None?
    ensures done == Interpret(opcode).ops
    ensures IsEncoding(opcode) <==> cur == |opcode|
  {
    SucceedsExactly(opcode);
    assert done + [] == done;
  }

  class SequencedDevice {
    /** Everything done to the device, oldest first. */
    var trace: seq<Effect>

    constructor ()
      ensures trace == []
    {
      trace := [];
    }

    /** `done` was issued before position `cur` and has had its effects. */
    ghost predicate Tracks(opcode: seq<u32>, cur: nat, done: seq<Op>, before: seq<Effect>)
      reads this
    {
      Progress(opcode, cur, done) && trace == before + EffectsOf(done)
    }

    /** One effect on the device, that of the operation at `cur`. */
    method Issue(e: Effect, ghost op: Op, ghost opcode: seq<u32>, ghost cur: nat, ghost done: seq<Op>, ghost before: seq<Effect>)
      returns (ghost now: seq<Op>)
      requires Tracks(opcode, cur, done, before) && FirstOp(opcode[cur..]) == Some(op) && e == EffectOf(op)
      modifies this
      ensures Tracks(opcode, cur + |EncodeOp(op)|, now, before)
    {
      IssuedWithEffect(opcode, cur, done, op, before, trace);
      trace := trace + [e];
      now := done + [op];
    }

    /** Does the operation at `cur`; false if no whole operation starts there. */
    method Step(opcode: seq<u32>, cur: nat, ghost done: seq<Op>, ghost before: seq<Effect>)
      returns (ok: bool, next: nat, ghost now: seq<Op>)
      requires cur < |opcode| && Tracks(opcode, cur, done, before)
      modifies this
      ensures ok ==> cur < next && Tracks(opcode, next, now, before)
      ensures !ok ==> FirstOp(opcode[cur..]).None? && trace == old(trace)
    {
      if opcode[cur] == 1 && |opcode| - cur >= 4 {
        var reg := Join(opcode[cur + 1], opcode[cur + 2]);
        FirstWrite32(opcode, cur);
        now := Issue(Wrote(Lo(reg), opcode[cur + 3]), Write32(reg, opcode[cur + 3]), opcode, cur, done, before);
        return true, cur + 4, now;
      }
      if opcode[cur] == 2 && |opcode| - cur >= 5 {
        var reg := Join(opcode[cur + 1], opcode[cur + 2]);
        var val := Join(opcode[cur + 3], opcode[cur + 4]);
        FirstWrite64(opcode, cur);
        now := Issue(Wrote(Lo(reg), Lo(val)), Write64(reg, val), opcode, cur, done, before);
        return true, cur + 5, now;
      }
      if opcode[cur] == 3 && |opcode| - cur >= 2 {
        FirstDelay(opcode, cur);
        now := Issue(Waited(opcode[cur + 1]), Delay(opcode[cur + 1]), opcode, cur, done, before);
        return true, cur + 2, now;
      }
      return false, cur, done;
    }

    /** Runs a sequence; false if it meets words that are no operation, after
        the operations before them have been done. */
    method ExecuteRegSequence(opcode: seq<u32>) returns (ok: bool)
      modifies this
      ensures trace == old(trace) + EffectsOf(Interpret(opcode).ops)
      ensures ok <==> IsEncoding(opcode)
    {
      var cur := 0;
      ghost var done: seq<Op> := [];
      while cur < |opcode|
        invariant 0 <= cur <= |opcode| && Tracks(opcode, cur, done, old(trace))
      {
        ghost var now;
        var stepped, next;
        stepped, next, now := Step(opcode, cur, done, old(trace));
        if !stepped {
          Stopped(opcode, cur, done);
          return false;
        }
        cur, done := next, now;
      }
      Stopped(opcode, cur, done);
      return true;
    }
  }
}
