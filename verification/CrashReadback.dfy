/** Whether the snapshot finds in the data buffer what the crash dumper stored:
    the register lists, the HLSQ, SP and TP sets, and the shader banks. */
module CrashReadback {
  import opened Common
  import opened Pm4
  import opened CrashScript
  import opened CrashLayout

  // ---- Register lists ----

  function RegsOf(r: Range): (s: seq<nat>)
    ensures |s| == Count(r)
  {
    seq(Count(r), i requires 0 <= i < Count(r) => r.first + i)
  }

  /** The registers of a list, in order. */
  function Registers(rs: seq<Range>): (s: seq<nat>) {
    if rs == [] then [] else Registers(rs[..|rs| - 1]) + RegsOf(rs[|rs| - 1])
  }

  function ValuesOf(hw: Hw, sel: u64, regs: seq<nat>): (v: seq<u32>)
    ensures |v| == |regs| && forall i :: 0 <= i < |regs| ==> v[i] == hw(sel, regs[i])
  {
    seq(|regs|, i requires 0 <= i < |regs| => hw(sel, regs[i]))
  }

  lemma {:induction false} ListDumped(hw: Hw, sel: u64, out: seq<Item>, rs: seq<Range>)
    ensures SelAfter(sel, RangeItems(out, rs)) == SelAfter(sel, out)
    ensures Image(hw, sel, RangeItems(out, rs)) == Image(hw, sel, out) + ValuesOf(hw, SelAfter(sel, out), Registers(rs))
  {
    if rs == [] {
      assert Image(hw, sel, out) + [] == Image(hw, sel, out);
      assert ValuesOf(hw, SelAfter(sel, out), []) == [];
    } else {
      var before, last, s := rs[..|rs| - 1], rs[|rs| - 1], SelAfter(sel, out);
      ListDumped(hw, sel, out, before);
      var items := RangeItems(out, rs);
      assert items[..|items| - 1] == RangeItems(out, before);
      assert ValuesOf(hw, s, Registers(rs)) == ValuesOf(hw, s, Registers(before)) + Values(hw, s, last.first, Count(last));
      Associate(Image(hw, sel, out), ValuesOf(hw, s, Registers(before)), Values(hw, s, last.first, Count(last)));
    }
  }

  /** The registers read directly: the main list, and the GPMU list behind it. */
  function DirectRegisters(t: Tables): seq<nat> {
    Registers(t.regs) + if t.hasGpmu then Registers(t.gpmu) else []
  }

  lemma DirectDumped(hw: Hw, sel: u64, t: Tables)
    requires TablesOk(t)
    ensures ValuesOf(hw, sel, DirectRegisters(t)) <= Image(hw, sel, Items(t))
  {
    ListDumped(hw, sel, [], t.regs);
    ListDumped(hw, sel, RangeItems([], t.regs), if t.hasGpmu then t.gpmu else []);
    assert ValuesOf(hw, sel, DirectRegisters(t)) ==
             [] + ValuesOf(hw, sel, Registers(t.regs)) + ValuesOf(hw, sel, if t.hasGpmu then Registers(t.gpmu) else []);
    DirectPlace(t);
    ImagePrefix(hw, sel, DirectItems(t), Items(t));
  }

  /** Reading a register list from the start of the buffer, as the snapshot does. */
  function ReadList(mem: seq<u32>, regs: seq<nat>): seq<u32>
    requires |regs| <= |mem|
  {
    mem[..|regs|]
  }

  /** The main list reads back the value each register had. */
  lemma MainListReadsBack(hw: Hw, sel: u64, t: Tables)
    requires TablesOk(t)
    ensures |Registers(t.regs)| <= DataWords(Items(t))
    ensures ReadList(Image(hw, sel, Items(t)), Registers(t.regs)) == ValuesOf(hw, sel, Registers(t.regs))
  {
    DirectDumped(hw, sel, t);
    assert ValuesOf(hw, sel, DirectRegisters(t))[..|Registers(t.regs)|] == ValuesOf(hw, sel, Registers(t.regs));
  }

  lemma {:induction false} RegistersSmall(rs: seq<Range>)
    requires forall i :: 0 <= i < |rs| ==> RangeOk(rs[i])
    ensures forall k :: 0 <= k < |Registers(rs)| ==> Registers(rs)[k] < TWO32
  {
    if rs != [] { RegistersSmall(rs[..|rs| - 1]); }
  }

  /** The GPMU list reads back right, on every device. */
  ghost predicate GpmuListReadsBack(sel: u64, t: Tables)
    requires TablesOk(t) && |Registers(t.gpmu)| <= DataWords(Items(t))
  {
    forall hw: Hw :: ReadList(Image(hw, sel, Items(t)), Registers(t.gpmu)) == ValuesOf(hw, sel, Registers(t.gpmu))
  }

  /** The GPMU list is read from the start of the buffer again, where the main
      list is.  So it reads back right exactly when it starts out the same. */
  lemma GpmuListReadsBackExactly(sel: u64, t: Tables)
    requires TablesOk(t) && t.hasGpmu
    ensures |Registers(t.gpmu)| <= DataWords(Items(t))
    ensures GpmuListReadsBack(sel, t) <==> Registers(t.gpmu) <= Registers(t.regs) + Registers(t.gpmu)
  {
    var all, g := DirectRegisters(t), Registers(t.gpmu);
    forall hw: Hw ensures |g| <= DataWords(Items(t)) && ReadList(Image(hw, sel, Items(t)), g) == ValuesOf(hw, sel, all[..|g|]) {
      DirectDumped(hw, sel, t);
      assert ValuesOf(hw, sel, all)[..|g|] == ValuesOf(hw, sel, all[..|g|]);
    }
    var identity: Hw := (s: u64, r: nat) => if r < TWO32 then r else 0;
    assert |g| <= DataWords(Items(t)) by { DirectDumped(identity, sel, t); }
    if GpmuListReadsBack(sel, t) {
      RegistersSmall(t.gpmu);
      RegistersSmall(t.regs);
      var v := ValuesOf(identity, sel, g);
      assert v == ValuesOf(identity, sel, all[..|g|]);
      forall k | 0 <= k < |g| ensures g[k] == all[k] {
        assert v[k] == identity(sel, g[k]) == identity(sel, all[..|g|][k]);
      }
      assert g == all[..|g|];
    }
  }

  // ---- HLSQ, SP and TP sets ----

  /** A set reads back, from its stored offset, what the aperture showed for it. */
  lemma HlsqReadsBack(hw: Hw, sel: u64, t: Tables, i: nat)
    requires TablesOk(t) && i < |t.hlsq|
    ensures var from, h := DataWords(BeforeHlsq(t, i)), t.hlsq[i];
            && from + h.size <= DataWords(Items(t))
            && Image(hw, sel, Items(t))[from..from + h.size] ==
                 Values(hw, h.statetype * 0x100, A5XX_HLSQ_DBG_AHB_READ_APERTURE, h.size)
  {
    HlsqPlace(t, i);
    ReadAt(hw, sel, BeforeHlsq(t, i), HlsqItem(t.hlsq[i]), Items(t));
  }

  // ---- Shader banks ----

  /** 256 to the power `r`. */
  function Scale(r: nat): (s: nat)
    requires r < 4
    ensures s > 0
  {
    if r == 0 then 1 else if r == 1 then 0x100 else if r == 2 then 0x1_0000 else 0x100_0000
  }

  /** The word at byte `r` of two words, least significant byte first. */
  function Straddle(lo: u32, hi: u32, r: nat): nat
    requires 0 < r < 4
  {
    lo / Scale(r) + hi % Scale(r) * Scale(4 - r)
  }

  /** The word at byte `r` of word `w`. */
  function WordIn(mem: seq<u32>, w: nat, r: nat): nat
    requires r < 4 && w < |mem| && (r > 0 ==> w + 1 < |mem|)
  {
    if r == 0 then mem[w] else Straddle(mem[w], mem[w + 1], r)
  }

  /** The word at a byte offset. */
  function WordAt(mem: seq<u32>, p: nat): nat
    requires p + 4 <= 4 * |mem|
  {
    WordIn(mem, p / 4, p % 4)
  }

  /** `n` words copied from a byte offset. */
  function Copied(mem: seq<u32>, p: nat, n: nat): (s: seq<nat>)
    requires p + 4 * n <= 4 * |mem|
    ensures |s| == n
  {
    seq(n, k requires 0 <= k < n => WordAt(mem, p + 4 * k))
  }

  lemma StraddleNotOne(hi: u32, r: nat)
    requires 0 < r < 4 && hi <= 1
    ensures Straddle(0, hi, r) != 1
  {
  }

  lemma ByteSplits(w: nat, r: nat)
    requires r < 4
    ensures (4 * w + r) / 4 == w && (4 * w + r) % 4 == r
  {
  }

  lemma WordSplits(mem: seq<u32>, p: nat, w: nat, r: nat)
    requires p == 4 * w + r && r < 4 && p + 4 <= 4 * |mem|
    ensures w < |mem| && (r > 0 ==> w + 1 < |mem|) && WordAt(mem, p) == WordIn(mem, w, r)
  {
    ByteSplits(w, r);
  }

  lemma MisreadIn(mem: seq<u32>, w: nat, d: nat, q: nat, r: nat)
    requires d == 4 * q + r && r < 4 && q < d && (r > 0 ==> q + 1 <= d)
    requires w + d < |mem| && mem[w + d] == 1
    requires forall k :: w <= k < w + d ==> mem[k] == 0
    ensures WordIn(mem, w + q, r) != 1
  {
    assert mem[w + q] == 0;
    if r != 0 {
      assert mem[w + q + 1] <= 1;
      StraddleNotOne(mem[w + q + 1], r);
    }
  }

  /** With only zeros in the `d` words before word `w + d`, where a 1 is, the
      word at byte `d` behind word `w` is not 1. */
  lemma Misread(mem: seq<u32>, p: nat, w: nat, d: nat)
    requires p == 4 * w + d && p + 4 <= 4 * |mem|
    requires 0 < d && w + d < |mem| && mem[w + d] == 1
    requires forall k :: w <= k < w + d ==> mem[k] == 0
    ensures WordAt(mem, p) != 1
  {
    var q := d / 4;
    var r := d - 4 * q;
    Quarter(d, q);
    MisreadIn(mem, w, d, q, r);
    WordSplits(mem, p, w + q, r);
  }

  lemma Quarter(d: nat, q: nat)
    requires 0 < d && q == d / 4
    ensures 0 <= d - 4 * q < 4 && q < d && (d > 4 * q ==> q + 1 <= d)
  {
  }

  /** The byte offset the snapshot copies bank `j` of block `i` from: the stored
      byte offset of the block, and `j` times its size in words. */
  function BankOffset(t: Tables, i: nat, j: nat): nat
    requires TablesOk(t) && i < |t.shaders|
  {
    4 * DataWords(BeforeShader(t, i)) + BankSkip(t.shaders[i].sz, j)
  }

  /** The values the dumper stored for a bank. */
  function BankValues(hw: Hw, b: ShaderBlock, j: nat): (v: seq<u32>)
    requires ShaderOk(b) && j < A5XX_NUM_SHADER_BANKS
    ensures |v| == b.sz
  {
    Values(hw, b.statetype * 0x100 + j, A5XX_HLSQ_DBG_AHB_READ_APERTURE, b.sz)
  }

  /** A bank's values lie at its word, `j` times the size behind the block's start. */
  lemma BankDumped(hw: Hw, sel: u64, t: Tables, i: nat, j: nat)
    requires TablesOk(t) && i < |t.shaders| && j < A5XX_NUM_SHADER_BANKS
    ensures var from := DataWords(BeforeShader(t, i)) + BankSkip(t.shaders[i].sz, j);
            && from + t.shaders[i].sz <= DataWords(Items(t))
            && Image(hw, sel, Items(t))[from..from + t.shaders[i].sz] == BankValues(hw, t.shaders[i], j)
  {
    ShaderPlace(t, i, j);
    BankWords(BeforeShader(t, i), t.shaders[i], j);
    ReadAt(hw, sel, BankItems(BeforeShader(t, i), t.shaders[i], j), Bank(t.shaders[i], j), Items(t));
  }

  lemma OffsetInBuffer(t: Tables, i: nat, j: nat)
    requires TablesOk(t) && i < |t.shaders| && j < A5XX_NUM_SHADER_BANKS
    ensures 0 <= BankOffset(t, i, j) && BankOffset(t, i, j) + 4 * t.shaders[i].sz <= 4 * DataWords(Items(t))
  {
    BankDumped((s: u64, r: nat) => 0, 0, t, i, j);
  }

  /** The snapshot copies what the dumper stored for the bank, on every device. */
  ghost predicate BankReadsBack(sel: u64, t: Tables, i: nat, j: nat)
    requires TablesOk(t) && i < |t.shaders| && j < A5XX_NUM_SHADER_BANKS
  {
    OffsetInBuffer(t, i, j);
    forall hw: Hw :: Copied(Image(hw, sel, Items(t)), BankOffset(t, i, j), t.shaders[i].sz) == BankValues(hw, t.shaders[i], j)
  }

  lemma CopiedAligned(mem: seq<u32>, p: nat, w: nat, v: seq<u32>)
    requires p == 4 * w && w + |v| <= |mem| && mem[w..w + |v|] == v
    ensures Copied(mem, p, |v|) == v
  {
    forall k | 0 <= k < |v| ensures WordAt(mem, p + 4 * k) == v[k] {
      WordSplits(mem, p + 4 * k, w + k, 0);
      assert v[k] == mem[w..w + |v|][k];
    }
  }

  lemma CopiedWrong(mem: seq<u32>, p: nat, v: seq<u32>)
    requires v != [] && p + 4 * |v| <= 4 * |mem| && WordAt(mem, p) != v[0]
    ensures Copied(mem, p, |v|) != v
  {
    assert Copied(mem, p, |v|)[0] == WordAt(mem, p + 4 * 0);
  }

  lemma FirstBankReadsBack(hw: Hw, sel: u64, t: Tables, i: nat)
    requires TablesOk(t) && i < |t.shaders|
    ensures BankOffset(t, i, 0) + 4 * t.shaders[i].sz <= 4 * DataWords(Items(t))
    ensures Copied(Image(hw, sel, Items(t)), BankOffset(t, i, 0), t.shaders[i].sz) == BankValues(hw, t.shaders[i], 0)
  {
    var w := DataWords(BeforeShader(t, i));
    BankDumped(hw, sel, t, i, 0);
    CopiedAligned(Image(hw, sel, Items(t)), BankOffset(t, i, 0), w, BankValues(hw, t.shaders[i], 0));
  }

  /** A device where only the first word of bank `j` is not 0. */
  function Marked(b: ShaderBlock, j: nat): Hw {
    (s: u64, r: nat) => if s == b.statetype * 0x100 + j && r == A5XX_HLSQ_DBG_AHB_READ_APERTURE then 1 else 0
  }

  /** On the marked device the banks before bank `j` hold only zeros. */
  lemma {:induction false} EarlierBanksZero(sel: u64, out: seq<Item>, b: ShaderBlock, j: nat, n: nat)
    requires ShaderOk(b) && n <= j < A5XX_NUM_SHADER_BANKS
    ensures var xs := BankItems(out, b, n);
            forall k :: DataWords(out) <= k < DataWords(xs) ==> Image(Marked(b, j), sel, xs)[k] == 0
    decreases n
  {
    if n > 0 {
      EarlierBanksZero(sel, out, b, j, n - 1);
      var xs := BankItems(out, b, n);
      assert xs[..|xs| - 1] == BankItems(out, b, n - 1);
    }
  }

  /** What the marked device leaves: a 1 at the start of bank `j`, `d` words
      behind the block's start, and zeros between. */
  lemma MarkedDump(sel: u64, t: Tables, i: nat, j: nat, w: nat, d: nat)
    requires TablesOk(t) && i < |t.shaders| && j < A5XX_NUM_SHADER_BANKS && 0 < t.shaders[i].sz
    requires w == DataWords(BeforeShader(t, i)) && d == BankSkip(t.shaders[i].sz, j)
    ensures w + d < DataWords(Items(t))
    ensures Image(Marked(t.shaders[i], j), sel, Items(t))[w + d] == 1
    ensures forall k :: w <= k < w + d ==> Image(Marked(t.shaders[i], j), sel, Items(t))[k] == 0
  {
    var b, out := t.shaders[i], BeforeShader(t, i);
    var hw, xs := Marked(b, j), BankItems(out, b, j);
    BankDumped(hw, sel, t, i, j);
    assert Image(hw, sel, Items(t))[w + d] == BankValues(hw, b, j)[0];
    BankWords(out, b, j);
    ShaderPlace(t, i, j);
    EarlierBanksZero(sel, out, b, j, j);
    ImagePrefix(hw, sel, xs, Items(t));
  }

  lemma MarkedBankStarts(b: ShaderBlock, j: nat)
    requires ShaderOk(b) && j < A5XX_NUM_SHADER_BANKS && 0 < b.sz
    ensures BankValues(Marked(b, j), b, j)[0] == 1
  {
  }

  lemma LaterBankMisread(sel: u64, t: Tables, i: nat, j: nat, mem: seq<u32>, v: seq<u32>)
    requires TablesOk(t) && i < |t.shaders| && 0 < j < A5XX_NUM_SHADER_BANKS && 0 < t.shaders[i].sz
    requires mem == Image(Marked(t.shaders[i], j), sel, Items(t)) && v == BankValues(Marked(t.shaders[i], j), t.shaders[i], j)
    ensures BankOffset(t, i, j) + 4 * t.shaders[i].sz <= 4 * |mem|
    ensures Copied(mem, BankOffset(t, i, j), t.shaders[i].sz) != v
  {
    var w, d := DataWords(BeforeShader(t, i)), BankSkip(t.shaders[i].sz, j);
    OffsetInBuffer(t, i, j);
    MarkedDump(sel, t, i, j, w, d);
    Misread(mem, BankOffset(t, i, j), w, d);
    MarkedBankStarts(t.shaders[i], j);
    CopiedWrong(mem, BankOffset(t, i, j), v);
  }

  /** The snapshot mixes words and bytes in a bank's offset: bank `j` reads back
      right exactly when that offset is 0. */
  lemma BankReadsBackExactly(sel: u64, t: Tables, i: nat, j: nat)
    requires TablesOk(t) && i < |t.shaders| && j < A5XX_NUM_SHADER_BANKS
    ensures BankReadsBack(sel, t, i, j) <==> j == 0 || t.shaders[i].sz == 0
  {
    OffsetInBuffer(t, i, j);
    if j == 0 {
      forall hw: Hw ensures Copied(Image(hw, sel, Items(t)), BankOffset(t, i, j), t.shaders[i].sz) == BankValues(hw, t.shaders[i], j) {
        FirstBankReadsBack(hw, sel, t, i);
      }
    } else if t.shaders[i].sz > 0 {
      var hw := Marked(t.shaders[i], j);
      LaterBankMisread(sel, t, i, j, Image(hw, sel, Items(t)), BankValues(hw, t.shaders[i], j));
    }
  }
}
