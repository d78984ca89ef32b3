/** From a register file to the device: what the walk records is what is run. */
module RegisterProgram {
  import opened Common
  import opened Pm4
  import opened FirmwareBlocks
  import opened RegSequence

  /** An LM block with a header and the encoding of some operations. */
  function LmBlock(header: seq<u32>, ops: seq<Op>): seq<nat> {
    [2 + |header| + |EncodeOps(ops)|, GPMU_SEQUENCE_ID, |header|] + header + EncodeOps(ops)
  }

  /** The recorded words of a file whose last LM block holds `ops` are their encoding. */
  lemma RecordedProgram(fw: seq<u32>, blocks: seq<seq<u32>>, i: nat, lm: Option<Sequence>, header: seq<u32>, ops: seq<Op>)
    requires LastLmAt(blocks, i) && RecordsBody(fw, blocks, i, lm) && blocks[i] == LmBlock(header, ops)
    ensures Words(fw, lm.value) == EncodeOps(ops)
  {
    assert blocks[i][3 + |header|..] == EncodeOps(ops);
  }

  /** Runs the recorded sequence of the file `fw` when the power limits are set up.  One
      that is invalid is forgotten, after the operations before that point were done. */
  method LmInit(file: RegisterFile, device: SequencedDevice, fw: seq<u32>, enabled: bool)
    requires InFile(fw, file.lm)
    modifies file, device
    ensures !enabled || old(file.lm).None? ==> file.lm == old(file.lm) && device.trace == old(device.trace)
    ensures enabled && old(file.lm).Some? ==>
              var words := Words(fw, old(file.lm).value);
              && device.trace == old(device.trace) + EffectsOf(Interpret(words).ops)
              && file.lm == if IsEncoding(words) then old(file.lm) else None
  {
    if !enabled || file.lm.None? { return; }
    var ok := device.ExecuteRegSequence(Words(fw, file.lm.value));
    if !ok { file.lm := None; }
  }

  /** A register file is loaded and then run.  If it is good blocks in a row, exactly the
      operations of its last LM block are done, in order, and the sequence stays. */
  method LoadAndRun(file: RegisterFile, device: SequencedDevice, fw: seq<u32>, major: u32,
                    ghost blocks: seq<seq<u32>>, ghost i: nat, ghost header: seq<u32>, ghost ops: seq<Op>)
    returns (kept: bool)
    requires AllOk(blocks, major) && fw == Concat(blocks) && LastLmAt(blocks, i) && blocks[i] == LmBlock(header, ops)
    modifies file, device
    ensures kept && file.lm.Some? && device.trace == old(device.trace) + EffectsOf(ops)
  {
    WholeFile(fw, blocks, major, i);
    kept := file.LoadRegfile(fw, major);
    RecordedProgram(fw, blocks, i, file.lm, header, ops);
    InterpretEncoded(ops);
    assert IsEncoding(EncodeOps(ops));
    assert InFile(fw, file.lm);
    LmInit(file, device, fw, true);
  }

  /** Nothing is left behind good blocks that are the whole file. */
  lemma WholeFile(fw: seq<u32>, blocks: seq<seq<u32>>, major: u32, i: nat)
    requires AllOk(blocks, major) && fw == Concat(blocks) && LastLmAt(blocks, i)
    ensures CutOff(fw, major, blocks, []) && WellFormed(fw, major) && |fw| >= 6
  {
    assert fw == Concat(blocks) + [];
    ConcatSplits(blocks, i);
  }
}
