/** The crash dump's first two passes: sizing its buffers, and writing the script. */
module CrashDump {
  import opened Common
  import opened Pm4
  import opened CrashScript
  import opened CrashLayout

  // ---- Sizes ----

  lemma RangeSizes(out: seq<Item>, rs: seq<Range>, j: nat)
    requires j < |rs|
    ensures RangeItems(out, rs[..j + 1]) == RangeItems(out, rs[..j]) + [RangeItem(rs[j])]
  {
    assert rs[..j + 1][..j] == rs[..j];
  }

  lemma ItemSizes(out: seq<Item>, x: Item)
    ensures DataWords(out + [x]) == DataWords(out) + x.count
    ensures ScriptQwords(out + [x]) == ScriptQwords(out) + ItemQwords(x)
  {
    assert (out + [x])[..|out|] == out;
  }

  /** What `n` direct reads take in the script. */
  lemma {:induction false} RangeScript(out: seq<Item>, rs: seq<Range>)
    ensures ScriptQwords(RangeItems(out, rs)) == ScriptQwords(out) + 2 * |rs|
  {
    if rs != [] {
      RangeScript(out, rs[..|rs| - 1]);
      ItemSizes(RangeItems(out, rs[..|rs| - 1]), RangeItem(rs[|rs| - 1]));
    }
  }

  lemma {:induction false} BankSizes(out: seq<Item>, b: ShaderBlock, n: nat)
    requires ShaderOk(b) && n <= A5XX_NUM_SHADER_BANKS
    ensures DataWords(BankItems(out, b, n)) == DataWords(out) + BankSkip(b.sz, n)
    ensures ScriptQwords(BankItems(out, b, n)) == ScriptQwords(out) + 4 * n
  {
    BankWords(out, b, n);
    if n > 0 {
      BankSizes(out, b, n - 1);
      ItemSizes(BankItems(out, b, n - 1), Bank(b, n - 1));
    }
  }

  /** All banks of the block at `i` join the items. */
  lemma ShaderSizes(out: seq<Item>, bs: seq<ShaderBlock>, i: nat)
    requires i < |bs| && forall k :: 0 <= k < |bs| ==> ShaderOk(bs[k])
    ensures ShaderItems(out, bs[..i + 1]) == BankItems(ShaderItems(out, bs[..i]), bs[i], A5XX_NUM_SHADER_BANKS)
    ensures DataWords(ShaderItems(out, bs[..i + 1])) == DataWords(ShaderItems(out, bs[..i])) + 4 * bs[i].sz
    ensures ScriptQwords(ShaderItems(out, bs[..i + 1])) == ScriptQwords(ShaderItems(out, bs[..i])) + 16
  {
    assert bs[..i + 1][..i] == bs[..i];
    BankSizes(ShaderItems(out, bs[..i]), bs[i], A5XX_NUM_SHADER_BANKS);
  }

  lemma HlsqSizes(out: seq<Item>, hs: seq<HlsqSet>, i: nat)
    requires i < |hs| && forall k :: 0 <= k < |hs| ==> HlsqOk(hs[k])
    ensures HlsqItems(out, hs[..i + 1]) == HlsqItems(out, hs[..i]) + [HlsqItem(hs[i])]
    ensures DataWords(HlsqItems(out, hs[..i + 1])) == DataWords(HlsqItems(out, hs[..i])) + hs[i].size
    ensures ScriptQwords(HlsqItems(out, hs[..i + 1])) == ScriptQwords(HlsqItems(out, hs[..i])) + 4
  {
    assert hs[..i + 1][..i] == hs[..i];
    ItemSizes(HlsqItems(out, hs[..i]), HlsqItem(hs[i]));
  }

  /** Bytes of data for a register list behind the items `out`. */
  method ListSize(rs: seq<Range>, ghost out: seq<Item>) returns (size: nat)
    requires forall i :: 0 <= i < |rs| ==> RangeOk(rs[i])
    ensures size == 4 * DataWords(RangeItems(out, rs)) - 4 * DataWords(out)
  {
    size := 0;
    for j := 0 to |rs|
      invariant size == 4 * DataWords(RangeItems(out, rs[..j])) - 4 * DataWords(out)
    {
      RangeSizes(out, rs, j);
      ItemSizes(RangeItems(out, rs[..j]), RangeItem(rs[j]));
      size := size + (rs[j].last - rs[j].first + 1) * 4;
    }
    assert rs[..|rs|] == rs;
  }

  /** The sizes in bytes of the script, without its end, and of the data. */
  method Sizes(t: Tables) returns (scriptSize: nat, dataSize: nat)
    requires TablesOk(t)
    ensures scriptSize == 8 * ScriptQwords(Items(t))
    ensures dataSize == 4 * DataWords(Items(t))
  {
    scriptSize := |t.regs| * 16;
    dataSize := ListSize(t.regs, []);
    RangeScript([], t.regs);
    ghost var main := RangeItems([], t.regs);
    if t.hasGpmu {
      scriptSize := scriptSize + |t.gpmu| * 16;
      var more := ListSize(t.gpmu, main);
      dataSize := dataSize + more;
      RangeScript(main, t.gpmu);
    }
    ghost var direct := DirectItems(t);
    scriptSize, dataSize := ShaderSize(t, scriptSize, dataSize);
    for i := 0 to |t.hlsq|
      invariant scriptSize == 8 * ScriptQwords(BeforeHlsq(t, i)) && dataSize == 4 * DataWords(BeforeHlsq(t, i))
    {
      HlsqSizes(ShaderItems(direct, t.shaders), t.hlsq, i);
      scriptSize := scriptSize + 32;
      dataSize := dataSize + t.hlsq[i].size * 4;
    }
    assert t.hlsq[..|t.hlsq|] == t.hlsq;
  }

  method ShaderSize(t: Tables, script: nat, data: nat) returns (scriptSize: nat, dataSize: nat)
    requires TablesOk(t) && script == 8 * ScriptQwords(DirectItems(t)) && data == 4 * DataWords(DirectItems(t))
    ensures scriptSize == 8 * ScriptQwords(BeforeHlsq(t, 0)) && dataSize == 4 * DataWords(BeforeHlsq(t, 0))
  {
    scriptSize, dataSize := script, data;
    for i := 0 to |t.shaders|
      invariant scriptSize == 8 * ScriptQwords(BeforeShader(t, i)) && dataSize == 4 * DataWords(BeforeShader(t, i))
    {
      ShaderSizes(DirectItems(t), t.shaders, i);
      scriptSize := scriptSize + 32 * A5XX_NUM_SHADER_BANKS;
      dataSize := dataSize + t.shaders[i].sz * 4 * A5XX_NUM_SHADER_BANKS;
    }
    assert t.shaders[..|t.shaders|] == t.shaders;
    assert t.hlsq[..0] == [];
  }

  // ---- The script ----

  /** The script so far: the commands of the items `done`, `index` words of them,
      and the offset in the data behind their values. */
  ghost predicate Written(s: seq<u64>, index: nat, base: nat, offset: nat, done: seq<Item>) {
    && ItemsOk(done) && Fits64(base, DataWords(done))
    && index == ScriptQwords(done) <= |s| && offset == 4 * DataWords(done)
    && s[..index] == Flat(Commands(base, done))
  }

  method PutPair(a: array<u64>, index: nat, q0: u64, q1: u64, ghost ps: seq<Pair>) returns (next: nat)
    requires index + 2 <= a.Length && a[..index] == Flat(ps)
    modifies a
    ensures next == index + 2 && a[..next] == Flat(ps + [(q0, q1)])
  {
    a[index] := q0;
    a[index + 1] := q1;
    next := index + 2;
    assert (ps + [(q0, q1)])[..|ps|] == ps;
    assert a[..next] == old(a[..index]) + [q0, q1];
  }

  lemma CommandsMore(base: nat, done: seq<Item>, x: Item)
    requires ItemsOk(done) && ItemOk(x) && Fits64(base, DataWords(done) + x.count)
    ensures ItemsOk(done + [x]) && DataWords(done + [x]) == DataWords(done) + x.count
    ensures ScriptQwords(done + [x]) == ScriptQwords(done) + ItemQwords(x)
    ensures Commands(base, done + [x]) == AddItem(Commands(base, done), base + 4 * DataWords(done), x)
  {
    assert (done + [x])[..|done|] == done;
    ItemSizes(done, x);
  }

  /** Two zeros end the script. */
  method PutEnd(a: array<u64>, index: nat)
    requires index + 2 == a.Length
    modifies a
    ensures a[..] == old(a[..index]) + END
  {
    a[index] := 0;
    a[index + 1] := 0;
    assert a[..] == a[..index] + END;
  }

  /** A read of a pair of the register lists. */
  method PutRange(a: array<u64>, index: nat, base: nat, offset: nat, r: Range, ghost done: seq<Item>)
    returns (next: nat, offset': nat)
    requires RangeOk(r) && Written(a[..], index, base, offset, done)
    requires index + 2 <= a.Length && Fits64(base, DataWords(done) + Count(r))
    modifies a
    ensures Written(a[..], next, base, offset', done + [RangeItem(r)])
  {
    ghost var ps := Commands(base, done);
    CommandsMore(base, done, RangeItem(r));
    var count := r.last - r.first + 1;
    next := PutPair(a, index, base + offset, r.first * REG_UNIT + count, ps);
    offset' := offset + count * 4;
  }

  /** A selection of what the aperture shows, and a read of it. */
  method PutAperture(a: array<u64>, index: nat, base: nat, offset: nat, sel: u32, count: nat, ghost done: seq<Item>)
    returns (next: nat, offset': nat)
    requires count < WRITE_BIT && Written(a[..], index, base, offset, done)
    requires index + 4 <= a.Length && Fits64(base, DataWords(done) + count)
    modifies a
    ensures Written(a[..], next, base, offset', done + [Item(Some(sel), A5XX_HLSQ_DBG_AHB_READ_APERTURE, count)])
  {
    ghost var ps := Commands(base, done);
    CommandsMore(base, done, Item(Some(sel), A5XX_HLSQ_DBG_AHB_READ_APERTURE, count));
    next := PutPair(a, index, sel, A5XX_HLSQ_DBG_READ_SEL * REG_UNIT + WRITE_BIT + 1, ps);
    next := PutPair(a, next, base + offset, A5XX_HLSQ_DBG_AHB_READ_APERTURE * REG_UNIT + count, ps + [(sel, SELECT_WORD)]);
    offset' := offset + count * 4;
  }

  method PutBank(a: array<u64>, index: nat, base: nat, offset: nat, b: ShaderBlock, j: nat, ghost done: seq<Item>)
    returns (next: nat, offset': nat)
    requires ShaderOk(b) && j < A5XX_NUM_SHADER_BANKS && Written(a[..], index, base, offset, BankItems(done, b, j))
    requires index + 4 <= a.Length && Fits64(base, DataWords(done) + 4 * b.sz)
    modifies a
    ensures next == index + 4
    ensures Written(a[..], next, base, offset', BankItems(done, b, j + 1))
  {
    BankSizes(done, b, j);
    BankRoom(b.sz, j);
    next, offset' := PutAperture(a, index, base, offset, b.statetype * 0x100 + j, b.sz, BankItems(done, b, j));
    ItemSizes(BankItems(done, b, j), Bank(b, j));
  }

  /** The four banks of a block.  `first` is the offset of the first of them. */
  method InitShader(a: array<u64>, index: nat, base: nat, offset: nat, b: ShaderBlock, ghost done: seq<Item>)
    returns (next: nat, offset': nat, first: nat)
    requires ShaderOk(b) && Written(a[..], index, base, offset, done)
    requires index + 16 <= a.Length && Fits64(base, DataWords(done) + 4 * b.sz)
    modifies a
    ensures first == offset
    ensures Written(a[..], next, base, offset', BankItems(done, b, A5XX_NUM_SHADER_BANKS))
  {
    next, offset', first := index, offset, 0;
    for j := 0 to A5XX_NUM_SHADER_BANKS
      invariant next == index + 4 * j && Written(a[..], next, base, offset', BankItems(done, b, j))
      invariant if j == 0 then offset' == offset else first == offset
    {
      if j == 0 { first := offset'; }
      next, offset' := PutBank(a, next, base, offset', b, j, done);
    }
  }

  lemma BankRoom(sz: nat, j: nat)
    requires j < A5XX_NUM_SHADER_BANKS
    ensures BankSkip(sz, j) + sz <= 4 * sz
  {
    assert j == 0 || j == 1 || j == 2 || j == 3;
  }

  lemma SizesGrow(xs: seq<Item>, ys: seq<Item>)
    requires xs <= ys
    ensures DataWords(xs) <= DataWords(ys) && ScriptQwords(xs) <= ScriptQwords(ys)
    decreases |ys|
  {
    if |xs| < |ys| { SizesGrow(xs, ys[..|ys| - 1]); } else { assert xs == ys; }
  }

  method PutRanges(a: array<u64>, index: nat, base: nat, offset: nat, rs: seq<Range>, ghost out: seq<Item>)
    returns (next: nat, offset': nat)
    requires (forall i :: 0 <= i < |rs| ==> RangeOk(rs[i])) && Written(a[..], index, base, offset, out)
    requires ScriptQwords(RangeItems(out, rs)) <= a.Length && Fits64(base, DataWords(RangeItems(out, rs)))
    modifies a
    ensures Written(a[..], next, base, offset', RangeItems(out, rs))
  {
    next, offset' := index, offset;
    for j := 0 to |rs|
      invariant Written(a[..], next, base, offset', RangeItems(out, rs[..j]))
    {
      RangeSizes(out, rs, j);
      ItemSizes(RangeItems(out, rs[..j]), RangeItem(rs[j]));
      RangesRoom(out, rs, j + 1);
      next, offset' := PutRange(a, next, base, offset', rs[j], RangeItems(out, rs[..j]));
    }
    assert rs[..|rs|] == rs;
  }

  lemma {:induction false} RangesRoom(out: seq<Item>, rs: seq<Range>, n: nat)
    requires n <= |rs|
    ensures DataWords(RangeItems(out, rs[..n])) <= DataWords(RangeItems(out, rs))
    ensures ScriptQwords(RangeItems(out, rs[..n])) <= ScriptQwords(RangeItems(out, rs))
    decreases |rs|
  {
    if n < |rs| {
      assert rs[..|rs| - 1][..n] == rs[..n];
      RangesRoom(out, rs[..|rs| - 1], n);
      ItemSizes(RangeItems(out, rs[..|rs| - 1]), RangeItem(rs[|rs| - 1]));
    } else {
      assert rs[..n] == rs;
    }
  }

  /** Where the first `n` shader blocks start in the data, in bytes. */
  function ShaderOffsets(t: Tables, n: nat): (offsets: seq<nat>)
    requires TablesOk(t) && n <= |t.shaders|
    ensures |offsets| == n && forall i :: 0 <= i < n ==> offsets[i] == 4 * DataWords(BeforeShader(t, i))
  {
    if n == 0 then [] else ShaderOffsets(t, n - 1) + [4 * DataWords(BeforeShader(t, n - 1))]
  }

  /** Where the first `n` HLSQ, SP or TP sets start in the data, in bytes. */
  function HlsqOffsets(t: Tables, n: nat): (offsets: seq<nat>)
    requires TablesOk(t) && n <= |t.hlsq|
    ensures |offsets| == n && forall i :: 0 <= i < n ==> offsets[i] == 4 * DataWords(BeforeHlsq(t, i))
  {
    if n == 0 then [] else HlsqOffsets(t, n - 1) + [4 * DataWords(BeforeHlsq(t, n - 1))]
  }

  lemma NextShader(t: Tables, i: nat)
    requires TablesOk(t) && i < |t.shaders|
    ensures BeforeShader(t, i + 1) == BankItems(BeforeShader(t, i), t.shaders[i], A5XX_NUM_SHADER_BANKS)
    ensures ScriptQwords(BeforeShader(t, i)) + 16 <= ScriptQwords(BeforeHlsq(t, 0))
    ensures DataWords(BeforeShader(t, i)) + 4 * t.shaders[i].sz <= DataWords(BeforeHlsq(t, 0))
  {
    ShaderSizes(DirectItems(t), t.shaders, i);
    ShadersPrefix(DirectItems(t), t.shaders, i + 1);
    assert t.hlsq[..0] == [];
    SizesGrow(BeforeShader(t, i + 1), BeforeHlsq(t, 0));
  }

  lemma ShadersDone(t: Tables)
    requires TablesOk(t)
    ensures BeforeHlsq(t, 0) == BeforeShader(t, |t.shaders|)
  {
    assert t.hlsq[..0] == [] && t.shaders[..|t.shaders|] == t.shaders;
  }

  lemma HlsqDone(t: Tables)
    requires TablesOk(t)
    ensures BeforeHlsq(t, |t.hlsq|) == Items(t)
  {
    assert t.hlsq[..|t.hlsq|] == t.hlsq;
  }

  lemma NextHlsq(t: Tables, i: nat)
    requires TablesOk(t) && i < |t.hlsq|
    ensures BeforeHlsq(t, i + 1) == BeforeHlsq(t, i) + [HlsqItem(t.hlsq[i])]
    ensures ScriptQwords(BeforeHlsq(t, i)) + 4 <= ScriptQwords(Items(t))
    ensures DataWords(BeforeHlsq(t, i)) + t.hlsq[i].size <= DataWords(Items(t))
  {
    var out := ShaderItems(DirectItems(t), t.shaders);
    HlsqSizes(out, t.hlsq, i);
    HlsqPrefix(out, t.hlsq, i + 1);
    SizesGrow(BeforeHlsq(t, i + 1), Items(t));
  }

  method PutNextShader(a: array<u64>, index: nat, base: nat, offset: nat, t: Tables, i: nat)
    returns (next: nat, offset': nat, first: nat)
    requires TablesOk(t) && i < |t.shaders| && Written(a[..], index, base, offset, BeforeShader(t, i))
    requires ScriptQwords(BeforeHlsq(t, 0)) <= a.Length && Fits64(base, DataWords(BeforeHlsq(t, 0)))
    modifies a
    ensures Written(a[..], next, base, offset', BeforeShader(t, i + 1))
    ensures first == 4 * DataWords(BeforeShader(t, i))
  {
    NextShader(t, i);
    next, offset', first := InitShader(a, index, base, offset, t.shaders[i], BeforeShader(t, i));
  }

  method PutNextHlsq(a: array<u64>, index: nat, base: nat, offset: nat, t: Tables, i: nat)
    returns (next: nat, offset': nat, first: nat)
    requires TablesOk(t) && i < |t.hlsq| && Written(a[..], index, base, offset, BeforeHlsq(t, i))
    requires ScriptQwords(Items(t)) <= a.Length && Fits64(base, DataWords(Items(t)))
    modifies a
    ensures Written(a[..], next, base, offset', BeforeHlsq(t, i + 1))
    ensures first == 4 * DataWords(BeforeHlsq(t, i))
  {
    NextHlsq(t, i);
    first := offset;
    next, offset' := PutAperture(a, index, base, offset, t.hlsq[i].statetype * 0x100, t.hlsq[i].size, BeforeHlsq(t, i));
  }

  class CrashDumper {
    /** Where each shader block and each HLSQ, SP or TP set starts in the data. */
    var shaderOffset: seq<nat>
    var hlsqOffset: seq<nat>

    constructor ()
      ensures shaderOffset == [] && hlsqOffset == []
    {
      shaderOffset, hlsqOffset := [], [];
    }

    method PutShaders(a: array<u64>, index: nat, base: nat, offset: nat, t: Tables)
      returns (next: nat, offset': nat)
      requires TablesOk(t) && Written(a[..], index, base, offset, BeforeShader(t, 0))
      requires ScriptQwords(BeforeHlsq(t, 0)) <= a.Length && Fits64(base, DataWords(BeforeHlsq(t, 0)))
      modifies this`shaderOffset, a
      ensures Written(a[..], next, base, offset', BeforeHlsq(t, 0))
      ensures shaderOffset == ShaderOffsets(t, |t.shaders|)
    {
      next, offset' := index, offset;
      shaderOffset := [];
      for i := 0 to |t.shaders|
        invariant Written(a[..], next, base, offset', BeforeShader(t, i))
        invariant shaderOffset == ShaderOffsets(t, i)
      {
        var first;
        next, offset', first := PutNextShader(a, next, base, offset', t, i);
        shaderOffset := shaderOffset + [first];
      }
      ShadersDone(t);
    }

    method PutHlsq(a: array<u64>, index: nat, base: nat, offset: nat, t: Tables)
      returns (next: nat, offset': nat)
      requires TablesOk(t) && Written(a[..], index, base, offset, BeforeHlsq(t, 0))
      requires ScriptQwords(Items(t)) <= a.Length && Fits64(base, DataWords(Items(t)))
      modifies this`hlsqOffset, a
      ensures Written(a[..], next, base, offset', Items(t))
      ensures hlsqOffset == HlsqOffsets(t, |t.hlsq|)
    {
      next, offset' := index, offset;
      hlsqOffset := [];
      for i := 0 to |t.hlsq|
        invariant Written(a[..], next, base, offset', BeforeHlsq(t, i))
        invariant hlsqOffset == HlsqOffsets(t, i)
      {
        var first;
        next, offset', first := PutNextHlsq(a, next, base, offset', t, i);
        hlsqOffset := hlsqOffset + [first];
      }
      HlsqDone(t);
    }

    method PutDirect(a: array<u64>, base: nat, t: Tables) returns (next: nat, offset: nat)
      requires TablesOk(t)
      requires ScriptQwords(DirectItems(t)) <= a.Length && Fits64(base, DataWords(DirectItems(t)))
      modifies a
      ensures Written(a[..], next, base, offset, DirectItems(t))
    {
      next, offset := 0, 0;
      ghost var main := RangeItems([], t.regs);
      RangesPrefix(main, if t.hasGpmu then t.gpmu else []);
      SizesGrow(main, DirectItems(t));
      next, offset := PutRanges(a, next, base, offset, t.regs, []);
      if t.hasGpmu {
        next, offset := PutRanges(a, next, base, offset, t.gpmu, main);
      }
    }

    /** Builds the script for the data buffer at `base`; it takes exactly the
        script size and two words more, and reaches exactly over the data size. */
    method Init(t: Tables, base: nat) returns (a: array<u64>, scriptSize: nat, dataSize: nat)
      requires TablesOk(t) && Fits64(base, DataWords(Items(t)))
      modifies this
      ensures fresh(a) && 8 * a.Length == scriptSize + 16
      ensures dataSize == 4 * DataWords(Items(t))
      ensures Good(Items(t)) && a[..] == Script(base, Items(t))
      ensures shaderOffset == ShaderOffsets(t, |t.shaders|)
      ensures hlsqOffset == HlsqOffsets(t, |t.hlsq|)
    {
      scriptSize, dataSize := Sizes(t);
      a := new u64[scriptSize / 8 + 2](_ => 0);
      var next := Fill(a, t, base);
      PutEnd(a, next);
    }

    method Fill(a: array<u64>, t: Tables, base: nat) returns (next: nat)
      requires TablesOk(t) && Fits64(base, DataWords(Items(t))) && a.Length == ScriptQwords(Items(t)) + 2
      modifies this, a
      ensures next == ScriptQwords(Items(t)) && Good(Items(t)) && a[..next] == Flat(Commands(base, Items(t)))
      ensures shaderOffset == ShaderOffsets(t, |t.shaders|)
      ensures hlsqOffset == HlsqOffsets(t, |t.hlsq|)
    {
      ItemsGood(t);
      DirectPlace(t);
      SizesGrow(DirectItems(t), Items(t));
      HlsqPrefix(ShaderItems(DirectItems(t), t.shaders), t.hlsq, 0);
      SizesGrow(BeforeHlsq(t, 0), Items(t));
      assert t.shaders[..0] == [];
      var offset;
      next, offset := PutDirect(a, base, t);
      next, offset := PutShaders(a, next, base, offset, t);
      next, offset := PutHlsq(a, next, base, offset, t);
    }
  }
}
