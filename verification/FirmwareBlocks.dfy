/** Firmware files: length-prefixed blocks with a header of word pairs, and the
    walk over a register file that records its LM sequence. */
module FirmwareBlocks {
  import opened Common
  import opened Pm4

  const GPMU_FIRMWARE_ID: u32 := 2
  const GPMU_SEQUENCE_ID: u32 := 3
  const HEADER_MAJOR: u32 := 1
  const HEADER_SEQUENCE: u32 := 5
  const MAX_HEADER_SIZE: u32 := 10
  const LM_SEQUENCE_ID: u32 := 1
  const MAX_SEQUENCE_ID: u32 := 3

  // ---- Block headers ----

  /** Where the fields start that are checked one by one. */
  function FirstField(id: u32): nat { if id == GPMU_SEQUENCE_ID then 3 else 1 }

  /** The pair of header words at `i` does not name an older major version. */
  predicate FieldOk(w: seq<u32>, major: u32, i: nat)
    requires i + 1 < |w|
  {
    w[i] == HEADER_MAJOR ==> w[i + 1] == 0 || major <= w[i + 1]
  }

  /** A header: its size in words, then that many words in pairs. */
  predicate HeaderOk(w: seq<u32>, remain: nat, id: u32, major: u32)
    requires w != []
  {
    && 0 < w[0] <= MAX_HEADER_SIZE && w[0] < remain <= |w| && w[0] % 2 == 0
    && (id == GPMU_SEQUENCE_ID ==> w[1] == HEADER_SEQUENCE && w[2] < MAX_SEQUENCE_ID)
    && forall i :: FirstField(id) <= i < w[0] && i % 2 == 1 ==> FieldOk(w, major, i)
  }

  method ReadFw2BlockHeader(header: seq<u32>, remain: nat, id: u32, major: u32) returns (ok: bool)
    requires header != [] && remain <= |header|
    ensures ok <==> HeaderOk(header, remain, id, major)
  {
    var i: nat := 1;
    var size := header[0];
    if size > MAX_HEADER_SIZE || size >= remain || size % 2 != 0 || size == 0 { return false; }
    if id == GPMU_SEQUENCE_ID {
      if header[i] != HEADER_SEQUENCE || header[i + 1] >= MAX_SEQUENCE_ID { return false; }
      i := i + 2;
    }
    while i < size
      invariant FirstField(id) <= i <= size + 1 && i % 2 == 1
      invariant forall k :: FirstField(id) <= k < i && k % 2 == 1 ==> k + 1 < |header| && FieldOk(header, major, k)
    {
      if header[i] == HEADER_MAJOR {
        if major > header[i + 1] && header[i + 1] != 0 {
          assert !FieldOk(header, major, i);
          return false;
        }
      }
      i := i + 2;
    }
    return true;
  }

  // ---- Register files ----

  /** A recorded sequence: position of its first word in the file, and size. */
  datatype Sequence = Sequence(start: nat, size: nat)

  /** A whole block: its length, which does not count itself, then its words. */
  predicate BlockOk(w: seq<u32>, major: u32) {
    && |w| >= 6 && w[0] == |w| - 1 && w[1] == GPMU_SEQUENCE_ID
    && (w[4] == LM_SEQUENCE_ID ==> HeaderOk(w[2..], |w| - 3, GPMU_SEQUENCE_ID, major))
  }

  /** The block starts at `at`; an LM block's words behind its header are the sequence. */
  function Recorded(w: seq<u32>, at: nat, major: u32, before: Option<Sequence>): (r: Option<Sequence>)
    requires BlockOk(w, major)
  {
    if w[4] == LM_SEQUENCE_ID then Some(Sequence(at + w[2] + 3, w[0] - w[2] - 2)) else before
  }

  /** A recorded sequence is not empty, starts right behind its block's header, and
      ends exactly where its block ends: the block is its length, its type, the size
      of the header, the header, and the sequence. */
  lemma RecordedEndsItsBlock(w: seq<u32>, at: nat, major: u32, before: Option<Sequence>)
    requires BlockOk(w, major) && w[4] == LM_SEQUENCE_ID
    ensures Recorded(w, at, major, before).Some? && 3 + w[2] as int < |w|
    ensures var s, header, body := Recorded(w, at, major, before).value, w[3..3 + w[2] as int], w[3 + w[2] as int..];
            && w == [|w| - 1, GPMU_SEQUENCE_ID, |header|] + header + body
            && s.start == at + 3 + |header| && s.size == |body| > 0
            && s.start + s.size == at + |w|
  {
    assert w[2..][0] == w[2];
  }

  /** Where the walk stopped: at the end of the file or at a block it refused. */
  datatype Walk = Walk(finished: bool, lm: Option<Sequence>)

  function Step(fw: seq<u32>, at: nat): (w: seq<u32>)
    requires at < |fw| && at + fw[at] < |fw|
    ensures |w| == fw[at] as int + 1
  {
    fw[at..at + 1 + fw[at]]
  }

  /** The walk from the block at `at` on. */
  function WalkFrom(fw: seq<u32>, at: nat, major: u32, lm: Option<Sequence>): (r: Walk)
    requires at <= |fw|
    decreases |fw| - at
  {
    if at == |fw| then Walk(true, lm)
    else if at + fw[at] >= |fw| then Walk(false, lm)
    else if !BlockOk(Step(fw, at), major) then Walk(false, lm)
    else WalkFrom(fw, at + 1 + fw[at], major, Recorded(Step(fw, at), at, major, lm))
  }

  function Concat(blocks: seq<seq<u32>>): seq<u32> {
    if blocks == [] then [] else blocks[0] + Concat(blocks[1..])
  }

  predicate AllOk(blocks: seq<seq<u32>>, major: u32) {
    forall i :: 0 <= i < |blocks| ==> BlockOk(blocks[i], major)
  }

  /** The sequence of the last LM block. */
  function LastLm(blocks: seq<seq<u32>>, at: nat, major: u32, before: Option<Sequence>): Option<Sequence>
    requires AllOk(blocks, major)
  {
    if blocks == [] then before
    else LastLm(blocks[1..], at + |blocks[0]|, major, Recorded(blocks[0], at, major, before))
  }

  /** A file made of good blocks is walked to its end and the last LM block wins. */
  lemma {:induction false} WalkAccepts(fw: seq<u32>, at: nat, blocks: seq<seq<u32>>, major: u32, lm: Option<Sequence>)
    requires at <= |fw| && fw[at..] == Concat(blocks) && AllOk(blocks, major)
    ensures WalkFrom(fw, at, major, lm) == Walk(true, LastLm(blocks, at, major, lm))
    decreases |blocks|
  {
    if blocks != [] {
      var b := blocks[0];
      FirstBlock(fw, at, b, Concat(blocks[1..]), major);
      WalkAccepts(fw, at + |b|, blocks[1..], major, Recorded(b, at, major, lm));
    }
  }

  lemma FirstBlock(fw: seq<u32>, at: nat, b: seq<u32>, rest: seq<u32>, major: u32)
    requires at <= |fw| && fw[at..] == b + rest && BlockOk(b, major)
    ensures at < |fw| && at + fw[at] < |fw| && Step(fw, at) == b
    ensures at + |b| <= |fw| && fw[at + |b|..] == rest
  {
    assert fw[at..][0] == b[0];
    assert fw[at..][..|b|] == b && fw[at..][|b|..] == rest;
    assert fw[at + |b|..] == fw[at..][|b|..];
  }

  /** No good block starts here. */
  ghost predicate NoBlock(rest: seq<u32>, major: u32) {
    forall w :: w <= rest ==> !BlockOk(w, major)
  }

  lemma PrefixIsStep(fw: seq<u32>, at: nat, w: seq<u32>, major: u32)
    requires at <= |fw| && w <= fw[at..] && BlockOk(w, major)
    ensures at < |fw| && at + fw[at] < |fw| && w == Step(fw, at)
  {
    assert w[0] == fw[at..][0];
  }

  lemma NoneStarts(fw: seq<u32>, at: nat, major: u32)
    requires at <= |fw| && (at == |fw| || at + fw[at] >= |fw| || !BlockOk(Step(fw, at), major))
    ensures NoBlock(fw[at..], major)
  {
    forall w | w <= fw[at..] ensures !BlockOk(w, major) {
      if BlockOk(w, major) { PrefixIsStep(fw, at, w, major); }
    }
  }

  lemma WalkOn(fw: seq<u32>, at: nat, major: u32, lm: Option<Sequence>)
    requires at < |fw| && at + fw[at] < |fw| && BlockOk(Step(fw, at), major)
    ensures WalkFrom(fw, at, major, lm) ==
              WalkFrom(fw, at + |Step(fw, at)|, major, Recorded(Step(fw, at), at, major, lm))
  {
  }

  lemma BlockBefore(fw: seq<u32>, at: nat, b: seq<u32>, more: seq<seq<u32>>, blocks: seq<seq<u32>>, rest: seq<u32>, major: u32)
    requires at + |b| <= |fw| && fw[at..at + |b|] == b && fw[at + |b|..] == Concat(more) + rest
    requires BlockOk(b, major) && AllOk(more, major) && blocks == [b] + more
    ensures AllOk(blocks, major) && blocks[1..] == more && fw[at..] == Concat(blocks) + rest
  {
    assert blocks[1..] == more;
    assert fw[at..] == b + fw[at + |b|..];
    Associate(b, Concat(more), rest);
  }

  lemma CutsOneMore(fw: seq<u32>, at: nat, b: seq<u32>, more: seq<seq<u32>>, blocks: seq<seq<u32>>, rest: seq<u32>,
                    major: u32, lm: Option<Sequence>)
    requires at < |fw| && at + fw[at] < |fw| && b == Step(fw, at) && BlockOk(b, major)
    requires AllOk(more, major) && blocks == [b] + more && fw[at + |b|..] == Concat(more) + rest
    ensures AllOk(blocks, major) && fw[at..] == Concat(blocks) + rest
    ensures WalkFrom(fw, at, major, lm) == WalkFrom(fw, at + |b|, major, Recorded(b, at, major, lm))
    ensures LastLm(blocks, at, major, lm) == LastLm(more, at + |b|, major, Recorded(b, at, major, lm))
  {
    BlockBefore(fw, at, b, more, blocks, rest, major);
    WalkOn(fw, at, major, lm);
  }

  lemma CutsMore(fw: seq<u32>, at: nat, b: seq<u32>, more: seq<seq<u32>>, rest: seq<u32>, major: u32,
                 lm: Option<Sequence>, next: Option<Sequence>)
    returns (blocks: seq<seq<u32>>)
    requires at < |fw| && at + fw[at] < |fw| && b == Step(fw, at) && BlockOk(b, major) && next == Recorded(b, at, major, lm)
    requires AllOk(more, major) && fw[at + |b|..] == Concat(more) + rest
    requires WalkFrom(fw, at + |b|, major, next) == Walk(rest == [], LastLm(more, at + |b|, major, next))
    ensures AllOk(blocks, major) && fw[at..] == Concat(blocks) + rest
    ensures WalkFrom(fw, at, major, lm) == Walk(rest == [], LastLm(blocks, at, major, lm))
  {
    blocks := [b] + more;
    CutsOneMore(fw, at, b, more, blocks, rest, major, lm);
  }

  /** Every walk cuts the file into good blocks up to where it stops, has
      recorded the last LM sequence of those, and stops only at the end or
      where no good block starts. */
  lemma {:induction false} WalkCuts(fw: seq<u32>, at: nat, major: u32, lm: Option<Sequence>)
    returns (blocks: seq<seq<u32>>, rest: seq<u32>)
    requires at <= |fw|
    ensures AllOk(blocks, major) && fw[at..] == Concat(blocks) + rest
    ensures WalkFrom(fw, at, major, lm) == Walk(rest == [], LastLm(blocks, at, major, lm))
    ensures NoBlock(rest, major)
    decreases |fw| - at
  {
    if at == |fw| || at + fw[at] >= |fw| || !BlockOk(Step(fw, at), major) {
      blocks, rest := [], fw[at..];
      NoneStarts(fw, at, major);
      assert Concat([]) + rest == rest;
    } else {
      var b, more := Step(fw, at), [];
      var next := Recorded(b, at, major, lm);
      more, rest := WalkCuts(fw, at + |b|, major, next);
      blocks := CutsMore(fw, at, b, more, rest, major, lm, next);
    }
  }

  /** Some block is an LM block. */
  ghost predicate HasLm(blocks: seq<seq<u32>>) {
    exists b :: b in blocks && |b| >= 6 && b[4] == LM_SEQUENCE_ID
  }

  lemma {:induction false} LastLmFromBlocks(blocks: seq<seq<u32>>, at: nat, major: u32, before: Option<Sequence>)
    requires AllOk(blocks, major)
    ensures LastLm(blocks, at, major, None).Some? <==> HasLm(blocks)
    ensures LastLm(blocks, at, major, before) == if HasLm(blocks) then LastLm(blocks, at, major, None) else before
    decreases |blocks|
  {
    if blocks != [] {
      var b, rest := blocks[0], blocks[1..];
      LastLmFromBlocks(rest, at + |b|, major, Recorded(b, at, major, before));
      LastLmFromBlocks(rest, at + |b|, major, Recorded(b, at, major, None));
      assert HasLm(blocks) <==> b[4] == LM_SEQUENCE_ID || HasLm(rest) by {
        if HasLm(rest) {
          var x :| x in rest && |x| >= 6 && x[4] == LM_SEQUENCE_ID;
          assert x in blocks;
        }
        if b[4] == LM_SEQUENCE_ID { assert b in blocks; }
        if HasLm(blocks) && b[4] != LM_SEQUENCE_ID {
          var x :| x in blocks && |x| >= 6 && x[4] == LM_SEQUENCE_ID;
          assert x in rest;
        }
      }
    }
  }

  /** The good blocks that the file starts with, up to the first that is none, hold an LM block. */
  ghost predicate RecordsLm(fw: seq<u32>, major: u32) {
    exists blocks, rest :: CutOff(fw, major, blocks, rest) && HasLm(blocks)
  }

  ghost predicate CutOff(fw: seq<u32>, major: u32, blocks: seq<seq<u32>>, rest: seq<u32>) {
    AllOk(blocks, major) && fw == Concat(blocks) + rest && NoBlock(rest, major)
  }

  lemma StopsAt(fw: seq<u32>, at: nat, major: u32, lm: Option<Sequence>)
    requires at <= |fw| && NoBlock(fw[at..], major)
    ensures WalkFrom(fw, at, major, lm).lm == lm
  {
    if at < |fw| && at + fw[at] < |fw| { assert Step(fw, at) <= fw[at..]; }
  }

  lemma AllOkTail(blocks: seq<seq<u32>>, major: u32)
    requires blocks != [] && AllOk(blocks, major)
    ensures BlockOk(blocks[0], major) && AllOk(blocks[1..], major)
    ensures Concat(blocks) == blocks[0] + Concat(blocks[1..])
  {
  }

  lemma LastLmTail(blocks: seq<seq<u32>>, at: nat, major: u32, before: Option<Sequence>)
    requires blocks != [] && AllOk(blocks, major)
    ensures BlockOk(blocks[0], major) && AllOk(blocks[1..], major)
    ensures LastLm(blocks, at, major, before) == LastLm(blocks[1..], at + |blocks[0]|, major, Recorded(blocks[0], at, major, before))
  {
  }

  /** One block further. */
  lemma FirstStep(fw: seq<u32>, at: nat, end: nat, b: seq<u32>, more: seq<u32>, major: u32, lm: Option<Sequence>)
    requires at <= end <= |fw| && fw[at..end] == b + more && BlockOk(b, major)
    ensures at + |b| <= end && fw[at + |b|..end] == more
    ensures WalkFrom(fw, at, major, lm) == WalkFrom(fw, at + |b|, major, Recorded(b, at, major, lm))
  {
    assert fw[at..end][..|b|] == b && fw[at..end][|b|..] == more;
    assert fw[at] == b[0] && Step(fw, at) == b;
    WalkOn(fw, at, major, lm);
  }

  /** The walk goes past good blocks, whatever is behind them, and has recorded the last
      LM block of them. */
  lemma {:induction false} WalkPast(fw: seq<u32>, at: nat, end: nat, major: u32, lm: Option<Sequence>, blocks: seq<seq<u32>>)
    requires at <= end <= |fw| && AllOk(blocks, major) && fw[at..end] == Concat(blocks)
    ensures WalkFrom(fw, at, major, lm) == WalkFrom(fw, end, major, LastLm(blocks, at, major, lm))
    decreases |blocks|
  {
    if blocks != [] {
      AllOkTail(blocks, major);
      FirstStep(fw, at, end, blocks[0], Concat(blocks[1..]), major, lm);
      LastLmTail(blocks, at, major, lm);
      WalkPast(fw, at + |blocks[0]|, end, major, Recorded(blocks[0], at, major, lm), blocks[1..]);
    }
  }

  lemma CutOffWalks(fw: seq<u32>, major: u32, lm: Option<Sequence>, blocks: seq<seq<u32>>, rest: seq<u32>)
    requires CutOff(fw, major, blocks, rest)
    ensures WalkFrom(fw, 0, major, lm).lm == LastLm(blocks, 0, major, lm)
  {
    var end := |fw| - |rest|;
    assert fw[0..end] == Concat(blocks) && fw[end..] == rest;
    WalkPast(fw, 0, end, major, lm, blocks);
    StopsAt(fw, end, major, LastLm(blocks, 0, major, lm));
  }

  /** The walk records a sequence of this file exactly if such a block is there;
      otherwise what was recorded before stays. */
  lemma RecordsExactly(fw: seq<u32>, major: u32, before: Option<Sequence>)
    ensures WalkFrom(fw, 0, major, None).lm.Some? <==> RecordsLm(fw, major)
    ensures WalkFrom(fw, 0, major, before).lm == if RecordsLm(fw, major) then WalkFrom(fw, 0, major, None).lm else before
  {
    assert fw[0..] == fw;
    var blocks, rest := WalkCuts(fw, 0, major, before);
    assert CutOff(fw, major, blocks, rest);
    LastLmFromBlocks(blocks, 0, major, before);
    CutOffWalks(fw, major, None, blocks, rest);
    if RecordsLm(fw, major) {
      var bs, r :| CutOff(fw, major, bs, r) && HasLm(bs);
      CutOffWalks(fw, major, None, bs, r);
      LastLmFromBlocks(bs, 0, major, None);
    }
  }

  /** The file is cut into good blocks. */
  ghost predicate WellFormed(fw: seq<u32>, major: u32) {
    exists blocks :: AllOk(blocks, major) && fw == Concat(blocks)
  }

  /** The walk reaches the end exactly of the files that are good blocks in a row. */
  lemma WalkFinishesExactly(fw: seq<u32>, major: u32, lm: Option<Sequence>)
    ensures WalkFrom(fw, 0, major, lm).finished <==> WellFormed(fw, major)
  {
    assert fw[0..] == fw;
    if WalkFrom(fw, 0, major, lm).finished {
      var blocks, rest := WalkCuts(fw, 0, major, lm);
      assert Concat(blocks) + [] == Concat(blocks);
    }
    if WellFormed(fw, major) {
      var blocks :| AllOk(blocks, major) && fw == Concat(blocks);
      WalkAccepts(fw, 0, blocks, major, lm);
    }
  }

  /** The recorded sequence lies in the file, is not empty, and ends at a block's end. */
  predicate InFile(fw: seq<u32>, lm: Option<Sequence>) {
    lm.Some? ==> 0 < lm.value.size && lm.value.start + lm.value.size <= |fw|
  }

  lemma {:induction false} WalkRecordsInFile(fw: seq<u32>, at: nat, major: u32, lm: Option<Sequence>)
    requires at <= |fw| && InFile(fw, lm)
    ensures InFile(fw, WalkFrom(fw, at, major, lm).lm)
    decreases |fw| - at
  {
    if at < |fw| && at + fw[at] < |fw| && BlockOk(Step(fw, at), major) {
      var b := Step(fw, at);
      if b[4] == LM_SEQUENCE_ID { RecordedEndsItsBlock(b, at, major, lm); }
      WalkRecordsInFile(fw, at + |b|, major, Recorded(b, at, major, lm));
    }
  }

  // ---- What is recorded ----

  /** The recorded words. */
  function Words(fw: seq<u32>, lm: Sequence): seq<u32>
    requires lm.start + lm.size <= |fw|
  {
    fw[lm.start..lm.start + lm.size]
  }

  /** Block `i` is the last LM block. */
  predicate LastLmAt(blocks: seq<seq<u32>>, i: nat) {
    && (forall j :: 0 <= j < |blocks| ==> |blocks[j]| >= 6)
    && i < |blocks| && blocks[i][4] == LM_SEQUENCE_ID
    && forall j :: i < j < |blocks| ==> blocks[j][4] != LM_SEQUENCE_ID
  }

  /** The walk of the blocks up to `i` and of those behind it. */
  lemma {:induction false} LastLmIs(blocks: seq<seq<u32>>, at: nat, i: nat, major: u32, before: Option<Sequence>)
    requires AllOk(blocks, major) && LastLmAt(blocks, i)
    ensures LastLm(blocks, at, major, before) == Recorded(blocks[i], at + |Concat(blocks[..i])|, major, None)
    decreases |blocks|
  {
    var b, rest := blocks[0], blocks[1..];
    if i == 0 {
      LastLmFromBlocks(rest, at + |b|, major, Recorded(b, at, major, before));
      assert forall j :: 0 <= j < |rest| ==> rest[j] == blocks[j + 1];
      assert !HasLm(rest);
      assert blocks[..0] == [];
    } else {
      assert forall j :: 0 <= j < |rest| ==> rest[j] == blocks[j + 1];
      LastLmIs(rest, at + |b|, i - 1, major, Recorded(b, at, major, before));
      assert blocks[..i][1..] == rest[..i - 1] && blocks[..i][0] == b;
    }
  }

  lemma {:induction false} ConcatSplits(blocks: seq<seq<u32>>, i: nat)
    requires i < |blocks|
    ensures Concat(blocks) == Concat(blocks[..i]) + blocks[i] + Concat(blocks[i + 1..])
    decreases i
  {
    var b := blocks[0];
    if i == 0 {
      assert blocks[..0] == [] && [] + b == b;
    } else {
      ConcatSplits(blocks[1..], i - 1);
      assert blocks[..i][1..] == blocks[1..][..i - 1] && blocks[1..][i..] == blocks[i + 1..];
      var x, y, z := Concat(blocks[1..][..i - 1]), blocks[i], Concat(blocks[i + 1..]);
      assert b + (x + y + z) == b + x + y + z;
    }
  }

  /** The sequence recorded of a file is all of its last LM block behind the header, among
      the good blocks it starts with. */
  ghost predicate RecordsBody(fw: seq<u32>, blocks: seq<seq<u32>>, i: nat, lm: Option<Sequence>)
    requires LastLmAt(blocks, i)
  {
    var b := blocks[i];
    && lm.Some? && lm.value.start + lm.value.size <= |fw| && 3 + b[2] as int <= |b|
    && lm.value.start == |Concat(blocks[..i])| + 3 + b[2]
    && Words(fw, lm.value) == b[3 + b[2] as int..]
  }

  lemma RecordedLast(fw: seq<u32>, major: u32, before: Option<Sequence>, blocks: seq<seq<u32>>, rest: seq<u32>, i: nat)
    requires CutOff(fw, major, blocks, rest) && LastLmAt(blocks, i)
    ensures WalkFrom(fw, 0, major, before).lm == Recorded(blocks[i], |Concat(blocks[..i])|, major, None)
  {
    assert fw[0..] == fw;
    CutOffWalks(fw, major, before, blocks, rest);
    LastLmIs(blocks, 0, i, major, before);
  }

  lemma RecordsLastBody(fw: seq<u32>, major: u32, before: Option<Sequence>, blocks: seq<seq<u32>>, rest: seq<u32>, i: nat)
    requires CutOff(fw, major, blocks, rest) && LastLmAt(blocks, i)
    ensures RecordsBody(fw, blocks, i, WalkFrom(fw, 0, major, before).lm)
  {
    var lm, b, x := WalkFrom(fw, 0, major, before).lm, blocks[i], Concat(blocks[..i]);
    assert BlockOk(b, major);
    assert lm == Recorded(b, |x|, major, None) by { RecordedLast(fw, major, before, blocks, rest, i); }
    assert fw == x + b + (Concat(blocks[i + 1..]) + rest) by { BlockInFile(fw, blocks, rest, i); }
    BodyRecorded(fw, x, b, Concat(blocks[i + 1..]) + rest, major);
  }

  lemma BlockInFile(fw: seq<u32>, blocks: seq<seq<u32>>, rest: seq<u32>, i: nat)
    requires i < |blocks| && fw == Concat(blocks) + rest
    ensures fw == Concat(blocks[..i]) + blocks[i] + (Concat(blocks[i + 1..]) + rest)
  {
    ConcatSplits(blocks, i);
    Associate(Concat(blocks[..i]) + blocks[i], Concat(blocks[i + 1..]), rest);
  }

  lemma BodyRecorded(fw: seq<u32>, x: seq<u32>, b: seq<u32>, z: seq<u32>, major: u32)
    requires fw == x + b + z && BlockOk(b, major) && b[4] == LM_SEQUENCE_ID
    ensures Recorded(b, |x|, major, None).Some? && 3 + b[2] as int <= |b|
    ensures var s := Recorded(b, |x|, major, None).value;
            && s.start == |x| + 3 + b[2] && s.start + s.size <= |fw| && Words(fw, s) == b[3 + b[2] as int..]
  {
    RecordedEndsItsBlock(b, |x|, major, None);
    InTheMiddle(fw, x, b, z, 3 + b[2]);
  }

  lemma InTheMiddle(fw: seq<u32>, x: seq<u32>, b: seq<u32>, z: seq<u32>, n: nat)
    requires fw == x + b + z && n <= |b|
    ensures fw[|x| + n..|x| + |b|] == b[n..]
  {
  }

  class RegisterFile {
    /** The LM sequence: where it lies in the firmware file. */
    var lm: Option<Sequence>

    constructor ()
      ensures lm == None
    {
      lm := None;
    }

    /** Reads the block at `at`, and records its sequence if it is an LM block. */
    method ReadBlock(fw: seq<u32>, at: nat, major: u32) returns (ok: bool, next: nat)
      requires at < |fw|
      modifies this
      ensures ok ==> at < next <= |fw| && WalkFrom(fw, at, major, old(lm)) == WalkFrom(fw, next, major, lm)
      ensures !ok ==> lm == old(lm) && WalkFrom(fw, at, major, lm) == Walk(false, lm)
    {
      next := at;
      var block := fw[at..];
      var blockSize := block[0];
      if at + blockSize >= |fw| || blockSize < 5 { return false, next; }
      ghost var b := Step(fw, at);
      assert block[..1 + blockSize] == b;
      if block[1] != GPMU_SEQUENCE_ID { return false, next; }
      if block[4] == LM_SEQUENCE_ID {
        assert block[2..blockSize + 1] == b[2..];
        ok := ReadFw2BlockHeader(block[2..blockSize + 1], blockSize - 2, GPMU_SEQUENCE_ID, major);
        if !ok { return; }
        if block[2] > blockSize - 2 { assert false; }
        lm := Some(Sequence(at + block[2] + 3, blockSize - block[2] - 2));
      }
      return true, at + blockSize + 1;
    }

    /** Walks a register file.  True if the file is kept: it was walked to its
        end and a sequence is recorded.  The file is released and a sequence of it
        stays recorded exactly if it records one and is not well formed. */
    method LoadRegfile(fw: seq<u32>, major: u32) returns (kept: bool)
      modifies this
      ensures |fw| < 6 ==> !kept && lm == old(lm)
      ensures |fw| >= 6 ==> lm == WalkFrom(fw, 0, major, old(lm)).lm
      ensures |fw| >= 6 ==> (kept <==> WellFormed(fw, major) && lm.Some?)
      ensures |fw| >= 6 && RecordsLm(fw, major) ==> lm == WalkFrom(fw, 0, major, None).lm && lm.Some?
      ensures |fw| >= 6 && !RecordsLm(fw, major) ==> lm == old(lm)
      ensures |fw| >= 6 ==>
                forall blocks, rest, i {:trigger CutOff(fw, major, blocks, rest), LastLmAt(blocks, i)} ::
                  CutOff(fw, major, blocks, rest) && LastLmAt(blocks, i) ==> RecordsBody(fw, blocks, i, lm)
      ensures |fw| >= 6 && RecordsLm(fw, major) ==> (!kept <==> !WellFormed(fw, major))
    {
      if |fw| < 6 { return false; }
      RecordsExactly(fw, major, lm);
      WalkFinishesExactly(fw, major, lm);
      forall blocks, rest, i {:trigger CutOff(fw, major, blocks, rest), LastLmAt(blocks, i)}
        | CutOff(fw, major, blocks, rest) && LastLmAt(blocks, i) ensures RecordsBody(fw, blocks, i, WalkFrom(fw, 0, major, lm).lm)
      {
        RecordsLastBody(fw, major, lm, blocks, rest, i);
      }
      var blockTotal: nat := 0;
      while blockTotal < |fw|
        invariant blockTotal <= |fw|
        invariant WalkFrom(fw, blockTotal, major, lm) == WalkFrom(fw, 0, major, old(lm))
      {
        var ok;
        ok, blockTotal := ReadBlock(fw, blockTotal, major);
        if !ok { return false; }
      }
      return lm.Some?;
    }
  }
}
