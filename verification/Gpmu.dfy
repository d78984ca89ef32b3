/** Loading the power management firmware: its image, cut into register write
    packets that the command processor executes. */
module Gpmu {
  import opened Common
  import opened Pm4
  import opened CommandProcessor
  import opened Ringbuffer
  import opened A5xxPackets
  import FirmwareBlocks

  const TYPE4_MAX_PAYLOAD: nat := 127
  const GPMU_INST_RAM_BASE: nat := 0x8800
  const GPMU_INST_RAM_SIZE: nat := 0xFFF

  /** The end of the chunk that starts at `offset`. */
  function ChunkEnd(size: nat, offset: nat): (end: nat)
    requires offset < size
    ensures offset < end <= size && end - offset <= TYPE4_MAX_PAYLOAD
  {
    if size - offset >= TYPE4_MAX_PAYLOAD then offset + TYPE4_MAX_PAYLOAD else size
  }

  function Chunk(ucode: seq<u32>, offset: nat): (p: Packet)
    requires offset < |ucode| <= GPMU_INST_RAM_SIZE
    ensures Fits(p)
  {
    Pkt4(GPMU_INST_RAM_BASE + offset, ucode[offset..ChunkEnd(|ucode|, offset)])
  }

  /** The packets that load the image from `offset` on. */
  function Chunks(ucode: seq<u32>, offset: nat): (ps: seq<Packet>)
    requires offset <= |ucode| <= GPMU_INST_RAM_SIZE
    ensures AllFit(ps)
    decreases |ucode| - offset
  {
    if offset == |ucode| then [] else [Chunk(ucode, offset)] + Chunks(ucode, ChunkEnd(|ucode|, offset))
  }

  function LoadPackets(ucode: seq<u32>): (ps: seq<Packet>)
    requires |ucode| <= GPMU_INST_RAM_SIZE
    ensures AllFit(ps)
  {
    [Protect(0)] + Chunks(ucode, 0) + [Protect(1)]
  }

  /** Words needed for the rest of the image: one header a chunk. */
  function WordsLeft(left: nat): nat {
    if left == 0 then 0 else left + (left - 1) / TYPE4_MAX_PAYLOAD + 1
  }

  lemma ChunkTakes(size: nat, offset: nat)
    requires offset < size
    ensures WordsLeft(size - offset) == 1 + ChunkEnd(size, offset) - offset + WordsLeft(size - ChunkEnd(size, offset))
  {
  }

  lemma Grows(out: seq<Packet>, ucode: seq<u32>, offset: nat)
    requires offset < |ucode| <= GPMU_INST_RAM_SIZE
    ensures out + Chunks(ucode, offset) == out + [Chunk(ucode, offset)] + Chunks(ucode, ChunkEnd(|ucode|, offset))
  {
  }

  /** The first block's length lies in the file, and its type is the firmware's. */
  predicate IsGpmuBlock(fw: seq<u32>) {
    fw != [] && 2 <= fw[0] < |fw| && fw[1] == FirmwareBlocks.GPMU_FIRMWARE_ID
  }

  predicate GoodHeader(fw: seq<u32>, major: u32)
    requires IsGpmuBlock(fw)
  {
    FirmwareBlocks.HeaderOk(fw[2..], fw[0] - 2, FirmwareBlocks.GPMU_FIRMWARE_ID, major)
  }

  /** The words behind the header, up to the block's end. */
  function Image(fw: seq<u32>, major: u32): (image: seq<u32>)
    requires IsGpmuBlock(fw) && GoodHeader(fw, major)
    ensures image != [] && fw[..fw[2] as int + 3] + image == fw[..fw[0] as int + 1]
  {
    assert fw[2..][0] == fw[2];
    fw[fw[2] as int + 3..fw[0] as int + 1]
  }

  predicate Oversize(fw: seq<u32>, major: u32)
    requires IsGpmuBlock(fw) && GoodHeader(fw, major)
  {
    |Image(fw, major)| > GPMU_INST_RAM_SIZE
  }

  /** The answer to the request for the firmware file. */
  datatype Request = NotFound | Found(fw: seq<u32>)

  datatype Outcome = Success | NoFile | HeaderRefused | NoMemory

  class GpmuLoader {
    var cmds: array?<u32>
    var cmdsSize: nat

    ghost predicate Valid()
      reads this
    {
      cmds == null <==> cmdsSize == 0
    }

    constructor ()
      ensures Valid() && cmds == null
    {
      cmds, cmdsSize := null, 0;
    }

    /** Builds the stream that loads `ucode`, once. */
    method CreateLoadCmds(ucode: seq<u32>, outOfMemory: bool) returns (r: Outcome)
      requires Valid() && |ucode| <= GPMU_INST_RAM_SIZE
      modifies this
      ensures Valid()
      ensures old(cmds) != null ==> r.Success? && unchanged(this)
      ensures old(cmds) == null && outOfMemory ==> r.NoMemory? && unchanged(this)
      ensures old(cmds) == null && !outOfMemory ==>
                && r.Success? && cmds != null && fresh(cmds)
                && cmds.Length == |ucode| + |ucode| / TYPE4_MAX_PAYLOAD + 1 + 4
                && cmdsSize <= cmds.Length && cmds[..cmdsSize] == EncodeAll(LoadPackets(ucode))
    {
      if cmds != null { return Success; }
      if outOfMemory { return NoMemory; }
      var a := new u32[|ucode| + |ucode| / TYPE4_MAX_PAYLOAD + 1 + 4](_ => 0);
      var count := FillLoadCmds(a, ucode);
      cmds, cmdsSize := a, count;
      return Success;
    }

    /** Loads a firmware file.  A file that starts with no firmware block, and an
        image too large for instruction RAM, are passed over with success. */
    method LoadGpmuFirmware(hasGpmu: bool, named: bool, request: Request, a540: bool, outOfMemory: bool) returns (r: Outcome)
      requires Valid() && (request.Found? ==> request.fw != [])
      modifies this
      ensures Valid()
      ensures !hasGpmu || old(cmds) != null || !named ==> r.Success? && unchanged(this)
      ensures hasGpmu && old(cmds) == null && named ==> var major := if a540 then 3 else 1;
              if request.NotFound? then r.NoFile? && unchanged(this)
              else if !IsGpmuBlock(request.fw) then r.Success? && unchanged(this)
              else if !GoodHeader(request.fw, major) then r.HeaderRefused? && unchanged(this)
              else if Oversize(request.fw, major) then r.Success? && unchanged(this)
              else if outOfMemory then r.NoMemory? && unchanged(this)
              else r.Success? && cmds != null && cmdsSize <= cmds.Length
                   && cmds[..cmdsSize] == EncodeAll(LoadPackets(Image(request.fw, major)))
      ensures hasGpmu && old(cmds) == null && named && r.Success? ==>
                (cmds == null <==> !IsGpmuBlock(request.fw) || Oversize(request.fw, if a540 then 3 else 1))
    {
      if !hasGpmu { return Success; }
      var major: u32 := 1;
      if a540 { major := 3; }
      if cmdsSize != 0 { return Success; }
      if !named { return Success; }
      if request.NotFound? { return NoFile; }
      var fw := request.fw;
      if fw[0] >= |fw| || fw[0] < 2 { return Success; }
      if fw[1] != FirmwareBlocks.GPMU_FIRMWARE_ID { return Success; }
      var ok := FirmwareBlocks.ReadFw2BlockHeader(fw[2..], fw[0] - 2, FirmwareBlocks.GPMU_FIRMWARE_ID, major);
      if !ok { return HeaderRefused; }
      if fw[2] > fw[0] - 2 { assert false; }
      var start: nat, size: nat := fw[2] + 3, fw[0] - fw[2] - 2;
      assert fw[start..start + size] == Image(fw, major);
      if size > GPMU_INST_RAM_SIZE { return Success; }
      r := CreateLoadCmds(fw[start..start + size], outOfMemory);
    }
  }

  /** One packet of the image, from `offset` on. */
  method PutChunk(a: array<u32>, index: nat, ucode: seq<u32>, offset: nat, chunk: nat, ghost log: Log)
    returns (next: nat, ghost log': Log)
    requires offset < |ucode| <= GPMU_INST_RAM_SIZE && offset + chunk == ChunkEnd(|ucode|, offset)
    requires Holds(log, a[..], index) && index + 1 + chunk <= log.limit
    modifies a
    ensures next == index + 1 + chunk && log' == log.(out := log'.out)
    ensures log'.out + Chunks(ucode, offset + chunk) == log.out + Chunks(ucode, offset)
    ensures Holds(log', a[..], next)
  {
    Grows(log.out, ucode, offset);
    next, log' := PutReg(a, index, GPMU_INST_RAM_BASE + offset, chunk, ucode[offset..offset + chunk], log);
  }

  method FillLoadCmds(a: array<u32>, ucode: seq<u32>) returns (count: nat)
    requires |ucode| <= GPMU_INST_RAM_SIZE
    requires a.Length == |ucode| + |ucode| / TYPE4_MAX_PAYLOAD + 1 + 4
    modifies a
    ensures 0 < count <= a.Length && a[..count] == EncodeAll(LoadPackets(ucode))
  {
    ghost var log := Log(a[..], 0, [], a.Length);
    ghost var all := [Protect(0)] + Chunks(ucode, 0);
    count, log := PutOp(a, 0, CP_SET_PROTECTED_MODE, 1, [0], log);
    assert log.out == [Protect(0)];

    var offset: nat, size: nat := 0, |ucode|;
    RoomForAll(size);
    while size > 0
      invariant offset + size == |ucode| && 0 < count
      invariant count + WordsLeft(size) + 2 <= a.Length
      invariant Holds(log, a[..], count) && log.start == 0 && log.limit == a.Length
      invariant log.out + Chunks(ucode, offset) == all
    {
      var chunk := size;
      if size >= TYPE4_MAX_PAYLOAD { chunk := TYPE4_MAX_PAYLOAD; }
      ChunkTakes(|ucode|, offset);
      count, log := PutChunk(a, count, ucode, offset, chunk, log);
      offset := offset + chunk;
      size := size - chunk;
    }
    assert log.out == all;
    count, log := PutOp(a, count, CP_SET_PROTECTED_MODE, 1, [1], log);
    HoldsFromStart(log, a[..], count);
  }

  lemma RoomForAll(size: nat)
    ensures 2 + WordsLeft(size) + 2 <= size + size / TYPE4_MAX_PAYLOAD + 1 + 4
  {
  }

  /** A register written, and the mode it was written in. */
  datatype Written = Written(reg: nat, value: u32, mode: Mode)

  function WrittenBy(a: Act): (w: seq<Written>)
    requires a.deed.Set?
  {
    seq(|a.deed.values|, k requires 0 <= k < |a.deed.values| => Written(a.deed.reg + k, a.deed.values[k], a.mode))
  }

  predicate OnlySets(acts: seq<Act>) { forall i :: 0 <= i < |acts| ==> acts[i].deed.Set? }

  /** The registers written by setting one stretch after another. */
  function AllWritten(acts: seq<Act>): seq<Written>
    requires OnlySets(acts)
  {
    if acts == [] then [] else WrittenBy(acts[0]) + AllWritten(acts[1..])
  }

  /** The image's words from `i` on, each to its word of instruction RAM. */
  function ImageWritten(ucode: seq<u32>, i: nat, m: Mode): (w: seq<Written>)
    requires i <= |ucode|
    ensures |w| == |ucode| - i && forall k :: 0 <= k < |w| ==> w[k] == Written(GPMU_INST_RAM_BASE + i + k, ucode[i + k], m)
  {
    seq(|ucode| - i, k requires 0 <= k < |ucode| - i => Written(GPMU_INST_RAM_BASE + i + k, ucode[i + k], m))
  }

  /** What the packets from `offset` on do. */
  function ChunkActs(ucode: seq<u32>, offset: nat, m: Mode): (acts: seq<Act>)
    requires offset <= |ucode| <= GPMU_INST_RAM_SIZE
    ensures OnlySets(acts)
    decreases |ucode| - offset
  {
    if offset == |ucode| then [] else [Act(DeedOf(Chunk(ucode, offset)).value, m)] + ChunkActs(ucode, ChunkEnd(|ucode|, offset), m)
  }

  lemma ChunksStep(c: Cp, ucode: seq<u32>, offset: nat)
    requires offset < |ucode| <= GPMU_INST_RAM_SIZE
    ensures ExecAll(c, Chunks(ucode, offset)) ==
              ExecAll(Exec(c, Chunk(ucode, offset)), Chunks(ucode, ChunkEnd(|ucode|, offset)))
  {
    assert Chunks(ucode, offset)[1..] == Chunks(ucode, ChunkEnd(|ucode|, offset));
  }

  /** A chunk's registers lie in instruction RAM. */
  lemma ChunkKeepsTable(c: Cp, ucode: seq<u32>, offset: nat)
    requires offset < |ucode| <= GPMU_INST_RAM_SIZE
    ensures Exec(c, Chunk(ucode, offset)) == Acted(c, [Act(DeedOf(Chunk(ucode, offset)).value, c.mode)])
  {
  }

  lemma {:induction false} ChunksAct(c: Cp, ucode: seq<u32>, offset: nat)
    requires offset <= |ucode| <= GPMU_INST_RAM_SIZE
    ensures ExecAll(c, Chunks(ucode, offset)) == Acted(c, ChunkActs(ucode, offset, c.mode))
    decreases |ucode| - offset
  {
    if offset == |ucode| {
      assert c.acts + [] == c.acts;
    } else {
      ChunksStep(c, ucode, offset);
      ChunkKeepsTable(c, ucode, offset);
      ChunksAct(Exec(c, Chunk(ucode, offset)), ucode, ChunkEnd(|ucode|, offset));
      ActedTwice(c, [Act(DeedOf(Chunk(ucode, offset)).value, c.mode)], ChunkActs(ucode, ChunkEnd(|ucode|, offset), c.mode));
    }
  }

  lemma ChunkWritten(ucode: seq<u32>, offset: nat, m: Mode)
    requires offset < |ucode| <= GPMU_INST_RAM_SIZE
    ensures WrittenBy(Act(DeedOf(Chunk(ucode, offset)).value, m)) + ImageWritten(ucode, ChunkEnd(|ucode|, offset), m) ==
              ImageWritten(ucode, offset, m)
  {
  }

  /** Together the packets from an offset on write the rest of the image in place. */
  lemma {:induction false} ChunksWrite(ucode: seq<u32>, offset: nat, m: Mode)
    requires offset <= |ucode| <= GPMU_INST_RAM_SIZE
    ensures AllWritten(ChunkActs(ucode, offset, m)) == ImageWritten(ucode, offset, m)
    decreases |ucode| - offset
  {
    if offset < |ucode| {
      var end := ChunkEnd(|ucode|, offset);
      ChunksWrite(ucode, end, m);
      ChunkWritten(ucode, offset, m);
      assert ChunkActs(ucode, offset, m)[1..] == ChunkActs(ucode, end, m);
    }
  }

  lemma OneProtect(c: Cp, on: u32)
    ensures ExecAll(c, [Protect(on)]) == c.(mode := c.mode.(prot := on != 0))
  {
    assert ExecAll(c, [Protect(on)]) == ExecAll(Exec(c, Protect(on)), []);
  }

  /** The stream does nothing but write word k of the image to the k-th word of
      instruction RAM, for every k in order, with protection off, and leaves the
      processor as protected as it found it. */
  lemma LoadsTheImage(c: Cp, ucode: seq<u32>) returns (acts: seq<Act>)
    requires |ucode| <= GPMU_INST_RAM_SIZE && c.mode.prot
    ensures Execute(c, EncodeAll(LoadPackets(ucode))) == Acted(c, acts)
    ensures OnlySets(acts) && |AllWritten(acts)| == |ucode|
    ensures forall k :: 0 <= k < |ucode| ==> AllWritten(acts)[k] == Written(GPMU_INST_RAM_BASE + k, ucode[k], Mode(false, c.mode.secure))
  {
    ExecuteEncoded(c, LoadPackets(ucode));
    var d := c.(mode := c.mode.(prot := false));
    acts := ChunkActs(ucode, 0, d.mode);
    ExecAppend(c, [Protect(0)] + Chunks(ucode, 0), [Protect(1)]);
    ExecAppend(c, [Protect(0)], Chunks(ucode, 0));
    OneProtect(c, 0);
    ChunksAct(d, ucode, 0);
    ChunksWrite(ucode, 0, d.mode);
    OneProtect(ExecAll(d, Chunks(ucode, 0)), 1);
  }
}
