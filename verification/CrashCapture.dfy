/** A crash dump from the tables to the finished sections: the script is built, the
    dumper runs it, and the snapshot's sections are filled from the data buffer. */
module CrashCapture {
  import opened Pm4
  import opened CrashScript
  import opened CrashLayout
  import opened CrashReadback
  import opened CrashDump
  import opened CrashSnapshot

  /** Bytes of the header that every section has. */
  const SECTION_HEADER_SIZE: nat := 8
  /** Bytes of the header of a shader section's data. */
  const SHADER_HEADER_SIZE: nat := 12

  /** Registers and values in turn; or words of a bank of a shader block. */
  datatype Section =
    | RegisterSection(entries: seq<nat>)
    | ShaderSection(statetype: nat, bank: nat, size: nat, words: seq<nat>)

  /** A snapshot: bytes left, and the sections so far. */
  datatype Snap = Snap(remain: nat, sections: seq<Section>)

  /** A section with `size` bytes of data goes out whole, or not at all. */
  function Add(sn: Snap, size: nat, s: Section): Snap {
    if sn.remain < SECTION_HEADER_SIZE + size then sn
    else Snap(sn.remain - SECTION_HEADER_SIZE - size, sn.sections + [s])
  }

  function AddList(sn: Snap, regs: seq<nat>, vals: seq<u32>): Snap
    requires |regs| == |vals|
  {
    Add(sn, HEADER_SIZE + 8 * |regs|, RegisterSection(Interleave(regs, vals)))
  }

  /** `whole` is the number of ranges of a list that go out: as many as there is room for. */
  predicate LongestRun(rs: seq<Range>, whole: nat, remain: nat) {
    && whole <= |rs|
    && (whole > 0 ==> SECTION_HEADER_SIZE + HEADER_SIZE + 8 * |Registers(rs[..whole])| <= remain)
    && (whole < |rs| ==> SECTION_HEADER_SIZE + HEADER_SIZE + 8 * |Registers(rs[..whole + 1])| > remain)
  }

  // ---- Shader sections ----

  /** Words at the same place of a part. */
  lemma WordInPart(mem: seq<u32>, part: seq<u32>, w: nat, p: nat, q: nat)
    requires w + |part| <= |mem| && mem[w..w + |part|] == part && q + 4 <= 4 * |part| && p == 4 * w + q
    ensures p + 4 <= 4 * |mem| && WordAt(mem, p) == WordAt(part, q)
  {
    var a := q / 4;
    var r := q - 4 * a;
    ByteSplits(a, r);
    assert part[a] == mem[w + a];
    if r > 0 { assert part[a + 1] == mem[w + a + 1]; }
    WordSplits(mem, p, w + a, r);
  }

  lemma CopiedFromPart(mem: seq<u32>, part: seq<u32>, w: nat, p: nat, q: nat, n: nat)
    requires w + |part| <= |mem| && mem[w..w + |part|] == part && q + 4 * n <= 4 * |part| && p == 4 * w + q
    ensures p + 4 * n <= 4 * |mem| && Copied(mem, p, n) == Copied(part, q, n)
  {
    assert p + 4 * n <= 4 * |mem|;
    forall k | 0 <= k < n ensures Copied(mem, p, n)[k] == Copied(part, q, n)[k] {
      WordInPart(mem, part, w, p + 4 * k, q + 4 * k);
    }
  }

  lemma ThreeSkips(sz: nat, j: nat)
    requires j < A5XX_NUM_SHADER_BANKS
    ensures BankSkip(sz, 1) == sz && BankSkip(sz, 0) == 0 && BankSkip(sz, j) <= 3 * sz
  {
    BankSkipNext(sz, 0);
    BankSkipNext(sz, 1);
    BankSkipNext(sz, 2);
  }

  /** The values of the first two banks of a block. */
  function TwoBanks(hw: Hw, b: ShaderBlock): (v: seq<u32>)
    requires ShaderOk(b)
    ensures |v| == 2 * b.sz
  {
    BankValues(hw, b, 0) + BankValues(hw, b, 1)
  }

  /** What the section of bank `j` shows: words of the first two banks, from the byte
      whose number is `j` times the bank's size in words. */
  function BankShown(hw: Hw, b: ShaderBlock, j: nat): Section
    requires ShaderOk(b) && j < A5XX_NUM_SHADER_BANKS
  {
    ThreeSkips(b.sz, j);
    ShaderSection(b.statetype, j, b.sz, Copied(TwoBanks(hw, b), BankSkip(b.sz, j), b.sz))
  }

  lemma TwoBanksDumped(hw: Hw, sel: u64, t: Tables, i: nat, w: nat)
    requires TablesOk(t) && i < |t.shaders| && w == DataWords(BeforeShader(t, i))
    ensures w + 2 * t.shaders[i].sz <= DataWords(Items(t))
    ensures Image(hw, sel, Items(t))[w..w + 2 * t.shaders[i].sz] == TwoBanks(hw, t.shaders[i])
  {
    var sz, mem := t.shaders[i].sz, Image(hw, sel, Items(t));
    BankDumped(hw, sel, t, i, 0);
    BankDumped(hw, sel, t, i, 1);
    ThreeSkips(sz, 1);
    SlicesJoin(mem, w, BankValues(hw, t.shaders[i], 0), BankValues(hw, t.shaders[i], 1));
  }

  lemma SlicesJoin(mem: seq<u32>, w: nat, a: seq<u32>, b: seq<u32>)
    requires w + |a| + |b| <= |mem| && mem[w..w + |a|] == a && mem[w + |a|..w + |a| + |b|] == b
    ensures mem[w..w + |a| + |b|] == a + b
  {
  }

  /** What the snapshot copies for a bank comes from the first two banks: nothing of
      the last two is in any section. */
  lemma BankCopies(hw: Hw, sel: u64, t: Tables, i: nat, j: nat)
    requires TablesOk(t) && i < |t.shaders| && j < A5XX_NUM_SHADER_BANKS
    ensures BankOffset(t, i, j) + 4 * t.shaders[i].sz <= 4 * DataWords(Items(t))
    ensures ShaderSection(t.shaders[i].statetype, j, t.shaders[i].sz,
                          Copied(Image(hw, sel, Items(t)), BankOffset(t, i, j), t.shaders[i].sz)) ==
              BankShown(hw, t.shaders[i], j)
  {
    var b, w := t.shaders[i], DataWords(BeforeShader(t, i));
    OffsetInBuffer(t, i, j);
    TwoBanksDumped(hw, sel, t, i, w);
    ThreeSkips(b.sz, j);
    CopiedFromPart(Image(hw, sel, Items(t)), TwoBanks(hw, b), w, BankOffset(t, i, j), BankSkip(b.sz, j), b.sz);
  }

  /** So what the last two banks hold makes no difference to what is copied. */
  lemma LastBanksLost(hw: Hw, hw': Hw, sel: u64, t: Tables, i: nat, j: nat)
    requires TablesOk(t) && i < |t.shaders| && j < A5XX_NUM_SHADER_BANKS
    requires TwoBanks(hw, t.shaders[i]) == TwoBanks(hw', t.shaders[i])
    ensures BankOffset(t, i, j) + 4 * t.shaders[i].sz <= 4 * DataWords(Items(t))
    ensures Copied(Image(hw, sel, Items(t)), BankOffset(t, i, j), t.shaders[i].sz) ==
              Copied(Image(hw', sel, Items(t)), BankOffset(t, i, j), t.shaders[i].sz)
  {
    BankCopies(hw, sel, t, i, j);
    BankCopies(hw', sel, t, i, j);
  }

  /** The sections of the first `n` banks of a block. */
  function AddBanks(sn: Snap, hw: Hw, b: ShaderBlock, n: nat): Snap
    requires ShaderOk(b) && n <= A5XX_NUM_SHADER_BANKS
  {
    if n == 0 then sn else
    Add(AddBanks(sn, hw, b, n - 1), SHADER_HEADER_SIZE + 4 * b.sz, BankShown(hw, b, n - 1))
  }

  /** The sections of the first `n` blocks. */
  function AddBlocks(sn: Snap, hw: Hw, bs: seq<ShaderBlock>, n: nat): Snap
    requires n <= |bs| && forall i :: 0 <= i < |bs| ==> ShaderOk(bs[i])
  {
    if n == 0 then sn else AddBanks(AddBlocks(sn, hw, bs, n - 1), hw, bs[n - 1], A5XX_NUM_SHADER_BANKS)
  }

  // ---- The snapshot ----

  class Snapshot {
    var remain: nat
    var sections: seq<Section>

    function View(): Snap
      reads this
    {
      Snap(remain, sections)
    }

    /** A section whose data took `size` bytes, none if there was no room. */
    method AddSection(size: nat, s: Section)
      requires size == 0 || SECTION_HEADER_SIZE + size <= remain
      modifies this
      ensures View() == if size == 0 then old(View()) else Add(old(View()), size, s)
    {
      if size == 0 { return; }
      sections := sections + [s];
      remain := remain - (size + SECTION_HEADER_SIZE);
    }

    /** The section of a register list, read from the start of the data buffer. */
    method AddRegisters(rs: seq<Range>, mem: seq<u32>) returns (ghost whole: nat)
      requires (forall i :: 0 <= i < |rs| ==> RangeOk(rs[i])) && |Registers(rs)| <= |mem|
      modifies this
      ensures LongestRun(rs, whole, old(remain)) && |Registers(rs[..whole])| <= |mem|
      ensures View() == AddList(old(View()), Registers(rs[..whole]), mem[..|Registers(rs[..whole])|])
    {
      whole := 0;
      if remain < SECTION_HEADER_SIZE + HEADER_SIZE { return; }
      var data := new nat[remain];
      var size, count;
      size, count, whole := SnapshotRegisters(rs, mem, data, remain - SECTION_HEADER_SIZE);
      AddSection(size, RegisterSection(data[..2 * count]));
    }

    /** The section of the HLSQ, SP and TP sets: it lists every set, or there is no room
        for it. */
    method AddSets(hs: seq<HlsqSet>, offsets: seq<nat>, mem: seq<u32>) returns (ghost entries: seq<nat>)
      requires OffsetsFit(hs, offsets, |mem|)
      modifies this
      ensures |entries| == 2 * SizesBefore(hs, |hs|) && SetsListed(entries, hs, offsets, mem)
      ensures View() == Add(old(View()), HEADER_SIZE + 4 * |entries|, RegisterSection(entries))
    {
      entries := Interleave(AllSetRegs(hs, |hs|), AllSetWords(hs, offsets, mem, |hs|));
      SetsPlaced(hs, |hs|);
      AllSetsListed(entries, hs, offsets, mem);
      if remain < SECTION_HEADER_SIZE { return; }
      var data := new nat[remain];
      var size, count := SnapshotHlsq(hs, offsets, mem, data, remain - SECTION_HEADER_SIZE);
      if size == 0 { return; }
      AddSection(size, RegisterSection(data[..2 * count]));
    }

    /** The section of bank `j` of a block, `sz` words copied from a byte offset. */
    method AddBank(b: ShaderBlock, j: nat, offset: nat, mem: seq<u32>)
      requires offset + 4 * b.sz <= 4 * |mem|
      modifies this
      ensures View() == Add(old(View()), SHADER_HEADER_SIZE + 4 * b.sz,
                            ShaderSection(b.statetype, j, b.sz, Copied(mem, offset, b.sz)))
    {
      if remain < SECTION_HEADER_SIZE || remain - SECTION_HEADER_SIZE < 4 * b.sz + SHADER_HEADER_SIZE { return; }
      AddSection(4 * b.sz + SHADER_HEADER_SIZE, ShaderSection(b.statetype, j, b.sz, Copied(mem, offset, b.sz)));
    }

    /** The sections of a block, from its stored offset. */
    method AddBlock(b: ShaderBlock, offset: nat, mem: seq<u32>, ghost hw: Hw, ghost sel: u64, ghost t: Tables, ghost i: nat)
      requires TablesOk(t) && i < |t.shaders| && b == t.shaders[i] && offset == 4 * DataWords(BeforeShader(t, i))
      requires mem == Image(hw, sel, Items(t))
      modifies this
      ensures View() == AddBanks(old(View()), hw, b, A5XX_NUM_SHADER_BANKS)
    {
      for j := 0 to A5XX_NUM_SHADER_BANKS
        invariant View() == AddBanks(old(View()), hw, b, j)
      {
        BankCopies(hw, sel, t, i, j);
        AddBank(b, j, offset + BankSkip(b.sz, j), mem);
      }
    }

    /** The sections of all shader blocks. */
    method AddShaders(t: Tables, offsets: seq<nat>, mem: seq<u32>, ghost hw: Hw, ghost sel: u64)
      requires TablesOk(t) && offsets == ShaderOffsets(t, |t.shaders|) && mem == Image(hw, sel, Items(t))
      modifies this
      ensures View() == AddBlocks(old(View()), hw, t.shaders, |t.shaders|)
    {
      for i := 0 to |t.shaders|
        invariant View() == AddBlocks(old(View()), hw, t.shaders, i)
      {
        AddBlock(t.shaders[i], offsets[i], mem, hw, sel, t, i);
      }
    }
  }

  // ---- The capture ----

  /** The script that was built leaves every item's values in the buffer, whatever
      was there. */
  lemma ScriptCaptures(hw: Hw, base: nat, d: Dump, t: Tables, script: seq<u64>)
    requires TablesOk(t) && Good(Items(t)) && Fits64(base, DataWords(Items(t)))
    requires script == Script(base, Items(t)) && |d.mem| == DataWords(Items(t))
    ensures RunScript(hw, base, d, script).mem == Image(hw, d.sel, Items(t))
  {
    DumpsEverything(hw, base, d, Items(t));
  }

  /** The registers whose values a list with the numbers `regs` shows: those read
      first, whatever the numbers say. */
  function Shown(t: Tables, regs: seq<nat>): (shown: seq<nat>)
    requires |regs| <= |DirectRegisters(t)|
    ensures |shown| == |regs|
  {
    DirectRegisters(t)[..|regs|]
  }

  /** The start of the buffer holds the values of the registers read directly. */
  lemma StartOfBuffer(hw: Hw, sel: u64, t: Tables, n: nat)
    requires TablesOk(t) && n <= |DirectRegisters(t)|
    ensures |DirectRegisters(t)| <= DataWords(Items(t))
    ensures Image(hw, sel, Items(t))[..n] == ValuesOf(hw, sel, DirectRegisters(t)[..n])
  {
    DirectDumped(hw, sel, t);
    var all, image := ValuesOf(hw, sel, DirectRegisters(t)), Image(hw, sel, Items(t));
    assert image[..|all|][..n] == image[..n];
    assert all[..n] == ValuesOf(hw, sel, DirectRegisters(t)[..n]);
  }

  /** The main list shows its own registers. */
  lemma MainShowsItself(t: Tables, whole: nat)
    requires TablesOk(t) && whole <= |t.regs|
    ensures var regs := Registers(t.regs[..whole]);
            |regs| <= |Registers(t.regs)| && Shown(t, regs) == regs
  {
    RegistersGrow(t.regs, whole);
    RegistersPrefix(t.regs, whole);
  }

  /** The section of the main list or the GPMU list. */
  method CaptureList(snapshot: Snapshot, t: Tables, rs: seq<Range>, mem: seq<u32>, ghost hw: Hw, ghost sel: u64)
    returns (ghost whole: nat)
    requires TablesOk(t) && mem == Image(hw, sel, Items(t)) && (rs == t.regs || (t.hasGpmu && rs == t.gpmu))
    modifies snapshot
    ensures LongestRun(rs, whole, old(snapshot.remain)) && |Registers(rs[..whole])| <= |DirectRegisters(t)|
    ensures var regs := Registers(rs[..whole]);
            snapshot.View() == AddList(old(snapshot.View()), regs, ValuesOf(hw, sel, Shown(t, regs)))
  {
    StartOfBuffer(hw, sel, t, 0);
    whole := snapshot.AddRegisters(rs, mem);
    RegistersGrow(rs, whole);
    StartOfBuffer(hw, sel, t, |Registers(rs[..whole])|);
  }

  /** A snapshot of whom other sections leave at most `left` bytes. */
  function Limit(sn: Snap, left: nat): Snap { if left < sn.remain then sn.(remain := left) else sn }

  /** A section lists every set, behind those before it, with what the aperture showed
      for its statetype. */
  ghost predicate SetsShown(entries: seq<nat>, hw: Hw, hs: seq<HlsqSet>) {
    && |entries| == 2 * SizesBefore(hs, |hs|)
    && forall i :: 0 <= i < |hs| ==>
         && HlsqOk(hs[i])
         && SetListed(entries, hs[i], SizesBefore(hs, i),
                      Values(hw, hs[i].statetype * 0x100, A5XX_HLSQ_DBG_AHB_READ_APERTURE, hs[i].size))
  }

  lemma ShownFromImage(entries: seq<nat>, hw: Hw, sel: u64, t: Tables)
    requires TablesOk(t) && |entries| == 2 * SizesBefore(t.hlsq, |t.hlsq|)
    requires SetsListed(entries, t.hlsq, HlsqOffsets(t, |t.hlsq|), Image(hw, sel, Items(t)))
    ensures SetsShown(entries, hw, t.hlsq)
  {
    var hs, offsets := t.hlsq, HlsqOffsets(t, |t.hlsq|);
    forall i | 0 <= i < |hs|
      ensures HlsqOk(hs[i])
      ensures SetListed(entries, hs[i], SizesBefore(hs, i),
                        Values(hw, hs[i].statetype * 0x100, A5XX_HLSQ_DBG_AHB_READ_APERTURE, hs[i].size))
    {
      SetRight(hw, sel, t, i, offsets[i]);
    }
  }

  /** The sections of the register lists and the sets, from a finished data buffer. */
  method CaptureRegisters(snapshot: Snapshot, t: Tables, offsets: seq<nat>, mem: seq<u32>, ghost hw: Hw, ghost sel: u64)
    returns (ghost whole: nat, ghost wholeGpmu: nat, ghost main: Snap, ghost lists: Snap, ghost sets: seq<nat>)
    requires TablesOk(t) && mem == Image(hw, sel, Items(t)) && offsets == HlsqOffsets(t, |t.hlsq|)
    modifies snapshot
    ensures MainGoesOut(old(snapshot.View()), hw, sel, t, whole, main)
    ensures GpmuGoesOut(main, hw, sel, t, wholeGpmu, lists)
    ensures SetsShown(sets, hw, t.hlsq)
    ensures snapshot.View() == Add(lists, HEADER_SIZE + 4 * |sets|, RegisterSection(sets))
  {
    whole := CaptureList(snapshot, t, t.regs, mem, hw, sel);
    MainShowsItself(t, whole);
    main, wholeGpmu := snapshot.View(), 0;
    if t.hasGpmu { wholeGpmu := CaptureList(snapshot, t, t.gpmu, mem, hw, sel); }
    lists := snapshot.View();
    HlsqOffsetsFit(t);
    sets := snapshot.AddSets(t.hlsq, offsets, mem);
    ShownFromImage(sets, hw, sel, t);
  }

  /** The main list's section: `whole` ranges, as many as there is room for, with the
      values of their registers. */
  ghost predicate MainGoesOut(before: Snap, hw: Hw, sel: u64, t: Tables, whole: nat, after: Snap) {
    && LongestRun(t.regs, whole, before.remain)
    && var regs := Registers(t.regs[..whole]);
    after == AddList(before, regs, ValuesOf(hw, sel, regs))
  }

  /** The GPMU list's section: its own numbers, with the values of the registers read
      first. */
  ghost predicate GpmuGoesOut(before: Snap, hw: Hw, sel: u64, t: Tables, whole: nat, after: Snap) {
    if !t.hasGpmu then after == before
    else
      && LongestRun(t.gpmu, whole, before.remain)
      && var regs := Registers(t.gpmu[..whole]);
      && |regs| <= |DirectRegisters(t)|
      && after == AddList(before, regs, ValuesOf(hw, sel, Shown(t, regs)))
  }

  /** From the tables to the sections, on every device and whatever the buffers held.
      The main list's section lists, for the longest run of whole ranges there is room
      for, each register with its value.  The GPMU list's section lists the GPMU's
      numbers with the values that were read first.  The section of the HLSQ, SP and TP sets
      lists what the aperture showed for each.  Each bank of a shader block has a section, with
      words of the first two banks.  Sections without room are left out.  Before the
      shader sections come others, which leave at most `left` bytes. */
  method Capture(dumper: CrashDumper, t: Tables, base: nat, hw: Hw, d: Dump, snapshot: Snapshot, left: nat)
    returns (ghost whole: nat, ghost wholeGpmu: nat, ghost main: Snap, ghost lists: Snap, ghost sets: seq<nat>)
    requires TablesOk(t) && Fits64(base, DataWords(Items(t))) && |d.mem| == DataWords(Items(t))
    modifies dumper, snapshot
    ensures MainGoesOut(old(snapshot.View()), hw, d.sel, t, whole, main)
    ensures GpmuGoesOut(main, hw, d.sel, t, wholeGpmu, lists)
    ensures SetsShown(sets, hw, t.hlsq)
    ensures var before := Limit(Add(lists, HEADER_SIZE + 4 * |sets|, RegisterSection(sets)), left);
            snapshot.View() == AddBlocks(before, hw, t.shaders, |t.shaders|)
  {
    var script, scriptSize, dataSize := dumper.Init(t, base);
    var mem := RunScript(hw, base, d, script[..]).mem;
    ScriptCaptures(hw, base, d, t, script[..]);
    whole, wholeGpmu, main, lists, sets := CaptureRegisters(snapshot, t, dumper.hlsqOffset, mem, hw, d.sel);
    if left < snapshot.remain { snapshot.remain := left; }
    snapshot.AddShaders(t, dumper.shaderOffset, mem, hw, d.sel);
  }
}
