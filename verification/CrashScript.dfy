/** The crash dump: tables of what to capture, the script for the crash dumper,
    and what the dumper leaves in memory. */
module CrashScript {
  import opened Common
  import opened Pm4

  const A5XX_NUM_SHADER_BANKS: nat := 4
  const A5XX_HLSQ_DBG_READ_SEL: nat := 0xBC00
  const A5XX_HLSQ_DBG_AHB_READ_APERTURE: nat := 0xA000

  /** Script words: the register number starts at bit 44, bit 21 means write,
      and the count is below it. */
  const REG_UNIT: int := 0x1000_0000_0000
  const WRITE_BIT: int := 0x20_0000

  // ---- Tables ----

  /** A pair of the register lists: first and last register. */
  datatype Range = Range(first: nat, last: nat)

  datatype ShaderBlock = ShaderBlock(statetype: nat, sz: nat)

  datatype HlsqSet = HlsqSet(statetype: nat, ahbaddr: nat, size: nat)

  datatype Tables = Tables(regs: seq<Range>, hasGpmu: bool, gpmu: seq<Range>,
                           shaders: seq<ShaderBlock>, hlsq: seq<HlsqSet>)

  predicate RangeOk(r: Range) { r.first <= r.last < 0x10_0000 }
  predicate ShaderOk(b: ShaderBlock) { b.statetype < 0x100_0000 && b.sz < WRITE_BIT }
  predicate HlsqOk(h: HlsqSet) { h.statetype < 0x100_0000 && h.size < WRITE_BIT }

  predicate TablesOk(t: Tables) {
    && (forall i :: 0 <= i < |t.regs| ==> RangeOk(t.regs[i]))
    && (forall i :: 0 <= i < |t.gpmu| ==> RangeOk(t.gpmu[i]))
    && (forall i :: 0 <= i < |t.shaders| ==> ShaderOk(t.shaders[i]))
    && (forall i :: 0 <= i < |t.hlsq| ==> HlsqOk(t.hlsq[i]))
  }

  function Count(r: Range): nat { if r.first <= r.last then r.last - r.first + 1 else 0 }

  // ---- What is captured ----

  /** One read: consecutive registers, through the aperture after selecting
      something to appear there, or directly. */
  datatype Item = Item(sel: Option<u32>, reg: nat, count: nat)

  predicate ItemOk(x: Item) { x.reg < 0x10_0000 && x.count < WRITE_BIT && (x.sel.None? ==> 0 < x.count) }

  predicate ItemsOk(xs: seq<Item>) { forall i :: 0 <= i < |xs| ==> ItemOk(xs[i]) }

  /** Every item reads something or is not at register 0, so no command looks like the end. */
  predicate NotEmpty(xs: seq<Item>) { forall i :: 0 <= i < |xs| ==> 0 < xs[i].count || 0 < xs[i].reg }

  predicate Good(xs: seq<Item>) { ItemsOk(xs) && NotEmpty(xs) }

  function RangeItem(r: Range): Item { Item(None, r.first, Count(r)) }

  function Bank(b: ShaderBlock, j: nat): Item
    requires ShaderOk(b) && j < A5XX_NUM_SHADER_BANKS
  {
    Item(Some(b.statetype * 0x100 + j), A5XX_HLSQ_DBG_AHB_READ_APERTURE, b.sz)
  }

  function HlsqItem(h: HlsqSet): Item
    requires HlsqOk(h)
  {
    Item(Some(h.statetype * 0x100), A5XX_HLSQ_DBG_AHB_READ_APERTURE, h.size)
  }

  function RangeItems(out: seq<Item>, rs: seq<Range>): (xs: seq<Item>) {
    if rs == [] then out else RangeItems(out, rs[..|rs| - 1]) + [RangeItem(rs[|rs| - 1])]
  }

  /** The first `n` banks of a block. */
  function BankItems(out: seq<Item>, b: ShaderBlock, n: nat): (xs: seq<Item>)
    requires ShaderOk(b) && n <= A5XX_NUM_SHADER_BANKS
  {
    if n == 0 then out else BankItems(out, b, n - 1) + [Bank(b, n - 1)]
  }

  function ShaderItems(out: seq<Item>, bs: seq<ShaderBlock>): (xs: seq<Item>)
    requires forall i :: 0 <= i < |bs| ==> ShaderOk(bs[i])
  {
    if bs == [] then out
    else BankItems(ShaderItems(out, bs[..|bs| - 1]), bs[|bs| - 1], A5XX_NUM_SHADER_BANKS)
  }

  function HlsqItems(out: seq<Item>, hs: seq<HlsqSet>): (xs: seq<Item>)
    requires forall i :: 0 <= i < |hs| ==> HlsqOk(hs[i])
  {
    if hs == [] then out else HlsqItems(out, hs[..|hs| - 1]) + [HlsqItem(hs[|hs| - 1])]
  }

  function DirectItems(t: Tables): seq<Item> {
    RangeItems(RangeItems([], t.regs), if t.hasGpmu then t.gpmu else [])
  }

  function Items(t: Tables): seq<Item>
    requires TablesOk(t)
  {
    HlsqItems(ShaderItems(DirectItems(t), t.shaders), t.hlsq)
  }

  lemma {:induction false} RangesGood(out: seq<Item>, rs: seq<Range>)
    requires Good(out) && forall i :: 0 <= i < |rs| ==> RangeOk(rs[i])
    ensures Good(RangeItems(out, rs))
  {
    if rs != [] { RangesGood(out, rs[..|rs| - 1]); }
  }

  lemma {:induction false} BanksGood(out: seq<Item>, b: ShaderBlock, n: nat)
    requires Good(out) && ShaderOk(b) && n <= A5XX_NUM_SHADER_BANKS
    ensures Good(BankItems(out, b, n))
  {
    if n > 0 { BanksGood(out, b, n - 1); }
  }

  lemma {:induction false} ShadersGood(out: seq<Item>, bs: seq<ShaderBlock>)
    requires Good(out) && forall i :: 0 <= i < |bs| ==> ShaderOk(bs[i])
    ensures Good(ShaderItems(out, bs))
  {
    if bs != [] {
      ShadersGood(out, bs[..|bs| - 1]);
      BanksGood(ShaderItems(out, bs[..|bs| - 1]), bs[|bs| - 1], A5XX_NUM_SHADER_BANKS);
    }
  }

  lemma {:induction false} HlsqGood(out: seq<Item>, hs: seq<HlsqSet>)
    requires Good(out) && forall i :: 0 <= i < |hs| ==> HlsqOk(hs[i])
    ensures Good(HlsqItems(out, hs))
  {
    if hs != [] { HlsqGood(out, hs[..|hs| - 1]); }
  }

  lemma ItemsGood(t: Tables)
    requires TablesOk(t)
    ensures Good(DirectItems(t)) && Good(Items(t))
  {
    RangesGood([], t.regs);
    RangesGood(RangeItems([], t.regs), if t.hasGpmu then t.gpmu else []);
    ShadersGood(DirectItems(t), t.shaders);
    HlsqGood(ShaderItems(DirectItems(t), t.shaders), t.hlsq);
  }

  // ---- Sizes ----

  function DataWords(xs: seq<Item>): nat {
    if xs == [] then 0 else DataWords(xs[..|xs| - 1]) + xs[|xs| - 1].count
  }

  /** Script words of one item: two for the read, two more to select. */
  function ItemQwords(x: Item): nat { if x.sel.None? then 2 else 4 }

  function ScriptQwords(xs: seq<Item>): nat {
    if xs == [] then 0 else ScriptQwords(xs[..|xs| - 1]) + ItemQwords(xs[|xs| - 1])
  }

  // ---- The script ----

  /** Two words of a script: what to do, and where. */
  type Pair = (u64, u64)

  /** Write one word to the aperture's selection register. */
  const SELECT_WORD: u64 := A5XX_HLSQ_DBG_READ_SEL * REG_UNIT + WRITE_BIT + 1

  function ReadPair(target: u64, x: Item): Pair
    requires ItemOk(x)
  {
    (target, x.reg * REG_UNIT + x.count)
  }

  /** The commands for one item, behind `out`. */
  function AddItem(out: seq<Pair>, target: u64, x: Item): (ps: seq<Pair>)
    requires ItemOk(x)
  {
    (if x.sel.None? then out else out + [(x.sel.value, SELECT_WORD)]) + [ReadPair(target, x)]
  }

  /** The buffer of `words` words at `base` lies in the address space. */
  predicate Fits64(base: nat, words: nat) { base + 4 * words < TWO32 * TWO32 }

  /** The commands for the items; each read goes behind the one before it. */
  function Commands(base: nat, xs: seq<Item>): (ps: seq<Pair>)
    requires ItemsOk(xs) && Fits64(base, DataWords(xs))
    ensures 2 * |ps| == ScriptQwords(xs)
  {
    if xs == [] then [] else
    var before := xs[..|xs| - 1];
    AddItem(Commands(base, before), base + 4 * DataWords(before), xs[|xs| - 1])
  }

  function Flat(ps: seq<Pair>): (s: seq<u64>)
    ensures |s| == 2 * |ps|
  {
    if ps == [] then [] else Flat(ps[..|ps| - 1]) + [ps[|ps| - 1].0, ps[|ps| - 1].1]
  }

  const END: seq<u64> := [0, 0]

  /** The whole script. */
  function Script(base: nat, xs: seq<Item>): (s: seq<u64>)
    requires ItemsOk(xs) && Fits64(base, DataWords(xs))
    ensures |s| == ScriptQwords(xs) + 2
  {
    Flat(Commands(base, xs)) + END
  }

  // ---- The dumper ----

  /** The commands of a script, up to a pair of zeros. */
  function ReadScript(s: seq<u64>): (ps: seq<Pair>)
    decreases |s|
  {
    if |s| < 2 || (s[0] == 0 && s[1] == 0) then [] else [(s[0], s[1])] + ReadScript(s[2..])
  }

  /** The device: the value of a register, given what the aperture shows. */
  type Hw = (u64, nat) -> u32

  /** The aperture's selection, and the words of the data buffer. */
  datatype Dump = Dump(sel: u64, mem: seq<u32>)

  function Values(hw: Hw, sel: u64, reg: nat, count: nat): (v: seq<u32>)
    ensures |v| == count && forall i :: 0 <= i < count ==> v[i] == hw(sel, reg + i)
  {
    seq(count, i requires 0 <= i < count => hw(sel, reg + i))
  }

  /** `v` over the words from `w` on. */
  function Placed(mem: seq<u32>, w: nat, v: seq<u32>): (m: seq<u32>)
    requires w + |v| <= |mem|
    ensures |m| == |mem|
  {
    mem[..w] + v + mem[w + |v|..]
  }

  /** Stores words at byte address `target`; the buffer is all it may touch. */
  function Store(base: nat, mem: seq<u32>, target: nat, v: seq<u32>): (m: seq<u32>)
    ensures |m| == |mem|
  {
    if base <= target && (target - base) % 4 == 0 && (target - base) / 4 + |v| <= |mem|
    then Placed(mem, (target - base) / 4, v) else mem
  }

  predicate Writes(p: Pair) { p.1 / WRITE_BIT % 2 == 1 }

  function Command(hw: Hw, base: nat, d: Dump, p: Pair): Dump {
    if Writes(p) then
      if p.1 / REG_UNIT == A5XX_HLSQ_DBG_READ_SEL then d.(sel := p.0) else d
    else
      d.(mem := Store(base, d.mem, p.0, Values(hw, d.sel, p.1 / REG_UNIT, p.1 % WRITE_BIT)))
  }

  function Exec(hw: Hw, base: nat, d: Dump, ps: seq<Pair>): Dump {
    if ps == [] then d else Command(hw, base, Exec(hw, base, d, ps[..|ps| - 1]), ps[|ps| - 1])
  }

  /** The dumper runs a script. */
  function RunScript(hw: Hw, base: nat, d: Dump, s: seq<u64>): Dump { Exec(hw, base, d, ReadScript(s)) }

  // ---- Scripts read back ----

  predicate NoEnd(ps: seq<Pair>) { forall i :: 0 <= i < |ps| ==> ps[i] != (0, 0) }

  lemma {:induction false} FlatReads(ps: seq<Pair>, rest: seq<u64>)
    requires NoEnd(ps)
    ensures ReadScript(Flat(ps) + rest) == ps + ReadScript(rest)
    decreases |ps|
  {
    if ps == [] {
      assert Flat(ps) + rest == rest && ps + ReadScript(rest) == ReadScript(rest);
    } else {
      var before, p := ps[..|ps| - 1], ps[|ps| - 1];
      Associate(Flat(before), [p.0, p.1], rest);
      FlatReads(before, [p.0, p.1] + rest);
      assert ([p.0, p.1] + rest)[2..] == rest;
      Associate(before, [p], ReadScript(rest));
      assert before + [p] == ps;
    }
  }

  lemma {:induction false} CommandsNoEnd(base: nat, xs: seq<Item>)
    requires ItemsOk(xs) && NotEmpty(xs) && Fits64(base, DataWords(xs))
    ensures NoEnd(Commands(base, xs))
  {
    if xs != [] {
      CommandsNoEnd(base, xs[..|xs| - 1]);
    }
  }

  /** A script reads back as exactly its commands. */
  lemma ScriptReads(base: nat, xs: seq<Item>)
    requires ItemsOk(xs) && NotEmpty(xs) && Fits64(base, DataWords(xs))
    ensures ReadScript(Script(base, xs)) == Commands(base, xs)
  {
    CommandsNoEnd(base, xs);
    FlatReads(Commands(base, xs), END);
    assert Commands(base, xs) + [] == Commands(base, xs);
  }

  lemma ReadFields(x: Item)
    requires ItemOk(x)
    ensures var q := x.reg * REG_UNIT + x.count;
            q / REG_UNIT == x.reg && q / WRITE_BIT % 2 == 0 && q % WRITE_BIT == x.count
  {
    var q := x.reg * REG_UNIT + x.count;
    assert q == (x.reg * 0x80_0000) * WRITE_BIT + x.count;
    assert q / WRITE_BIT == x.reg * 0x80_0000;
  }

  lemma SelectFields()
    ensures SELECT_WORD / REG_UNIT == A5XX_HLSQ_DBG_READ_SEL && SELECT_WORD / WRITE_BIT % 2 == 1
  {
  }

  // ---- What a script leaves in memory ----

  function SelFor(sel: u64, x: Item): u64 { if x.sel.Some? then x.sel.value else sel }

  /** The aperture's selection after the items. */
  function SelAfter(sel: u64, xs: seq<Item>): u64 {
    if xs == [] then sel else SelFor(SelAfter(sel, xs[..|xs| - 1]), xs[|xs| - 1])
  }

  /** The registers' values, item after item. */
  function Image(hw: Hw, sel: u64, xs: seq<Item>): (m: seq<u32>)
    ensures |m| == DataWords(xs)
  {
    if xs == [] then [] else
    var before, last := xs[..|xs| - 1], xs[|xs| - 1];
    Image(hw, sel, before) + Values(hw, SelAfter(sel, xs), last.reg, last.count)
  }

  lemma PlacedBehind(done: seq<u32>, mem: seq<u32>, v: seq<u32>)
    requires |done| + |v| <= |mem|
    ensures Placed(done + mem[|done|..], |done|, v) == done + v + mem[|done + v|..]
  {
    var all := done + mem[|done|..];
    assert all[..|done|] == done && all[|done| + |v|..] == mem[|done| + |v|..];
  }

  lemma StoreBehind(base: nat, target: nat, done: seq<u32>, mem: seq<u32>, v: seq<u32>)
    requires |done| + |v| <= |mem| && target == base + 4 * |done|
    ensures Store(base, done + mem[|done|..], target, v) == done + v + mem[|done + v|..]
  {
    assert (target - base) / 4 == |done| && (target - base) % 4 == 0;
    PlacedBehind(done, mem, v);
  }

  lemma ReadStores(hw: Hw, base: nat, d: Dump, target: u64, x: Item)
    requires ItemOk(x)
    ensures Command(hw, base, d, ReadPair(target, x)) ==
              d.(mem := Store(base, d.mem, target, Values(hw, d.sel, x.reg, x.count)))
  {
    ReadFields(x);
  }

  lemma ItemExecutes(hw: Hw, base: nat, d: Dump, ps: seq<Pair>, target: u64, x: Item)
    requires ItemOk(x)
    ensures Exec(hw, base, d, AddItem(ps, target, x)) ==
              var e, sel := Exec(hw, base, d, ps), SelFor(Exec(hw, base, d, ps).sel, x);
              Dump(sel, Store(base, e.mem, target, Values(hw, sel, x.reg, x.count)))
  {
    var e := Exec(hw, base, d, ps);
    var sel := ps;
    if x.sel.Some? {
      sel := ps + [(x.sel.value, SELECT_WORD)];
      assert sel[..|sel| - 1] == ps;
      SelectFields();
    }
    assert (sel + [ReadPair(target, x)])[..|sel|] == sel;
    ReadStores(hw, base, Exec(hw, base, d, sel), target, x);
  }

  /** One more item behind the words `done`. */
  lemma ItemDumps(hw: Hw, base: nat, d: Dump, ps: seq<Pair>, sel: u64, done: seq<u32>, x: Item)
    requires ItemOk(x) && |done| + x.count <= |d.mem| && Fits64(base, |done|)
    requires Exec(hw, base, d, ps) == Dump(sel, done + d.mem[|done|..])
    ensures var v := Values(hw, SelFor(sel, x), x.reg, x.count);
            Exec(hw, base, d, AddItem(ps, base + 4 * |done|, x)) == Dump(SelFor(sel, x), done + v + d.mem[|done + v|..])
  {
    var target, v := base + 4 * |done|, Values(hw, SelFor(sel, x), x.reg, x.count);
    var stored := Store(base, done + d.mem[|done|..], target, v);
    assert Exec(hw, base, d, AddItem(ps, target, x)) == Dump(SelFor(sel, x), stored) by {
      ItemExecutes(hw, base, d, ps, target, x);
    }
    assert stored == done + v + d.mem[|done + v|..] by { StoreBehind(base, target, done, d.mem, v); }
  }

  lemma ItemDumpsTo(hw: Hw, base: nat, d: Dump, ps: seq<Pair>, more: seq<Pair>, sel: u64, done: seq<u32>, x: Item, after: Dump)
    requires ItemOk(x) && |done| + x.count <= |d.mem| && Fits64(base, |done|)
    requires Exec(hw, base, d, ps) == Dump(sel, done + d.mem[|done|..])
    requires more == AddItem(ps, base + 4 * |done|, x)
    requires var v := Values(hw, SelFor(sel, x), x.reg, x.count);
             after == Dump(SelFor(sel, x), done + v + d.mem[|done + v|..])
    ensures Exec(hw, base, d, more) == after
  {
    ItemDumps(hw, base, d, ps, sel, done, x);
  }

  /** The dumper with the items' values over the start of the buffer. */
  function Dumped(hw: Hw, d: Dump, xs: seq<Item>): Dump
    requires DataWords(xs) <= |d.mem|
  {
    Dump(SelAfter(d.sel, xs), Image(hw, d.sel, xs) + d.mem[|Image(hw, d.sel, xs)|..])
  }

  lemma CommandsStep(base: nat, before: seq<Item>, x: Item, xs: seq<Item>)
    requires xs == before + [x] && ItemsOk(xs) && Fits64(base, DataWords(xs))
    ensures ItemsOk(before) && ItemOk(x) && DataWords(xs) == DataWords(before) + x.count
    ensures Commands(base, xs) == AddItem(Commands(base, before), base + 4 * DataWords(before), x)
  {
    assert xs[..|xs| - 1] == before;
    assert forall i :: 0 <= i < |before| ==> before[i] == xs[i];
    assert xs[|before|] == x;
  }

  lemma DumpedStep(hw: Hw, d: Dump, before: seq<Item>, x: Item, xs: seq<Item>)
    requires xs == before + [x] && DataWords(xs) <= |d.mem|
    ensures var done, sel := Image(hw, d.sel, before), SelFor(SelAfter(d.sel, before), x);
            var v := Values(hw, sel, x.reg, x.count);
            |done + v| == DataWords(xs) && Dumped(hw, d, xs) == Dump(sel, done + v + d.mem[|done + v|..])
  {
    assert xs[..|xs| - 1] == before;
  }

  lemma NothingDumped(hw: Hw, base: nat, d: Dump)
    requires Fits64(base, 0)
    ensures Exec(hw, base, d, Commands(base, [])) == Dumped(hw, d, [])
  {
    assert [] + d.mem[0..] == d.mem;
  }

  /** Executing the items' commands stores their values, one item behind the
      other, over the start of the buffer. */
  lemma {:induction false} CommandsDump(hw: Hw, base: nat, d: Dump, xs: seq<Item>)
    requires ItemsOk(xs) && Fits64(base, DataWords(xs)) && DataWords(xs) <= |d.mem|
    ensures Exec(hw, base, d, Commands(base, xs)) == Dumped(hw, d, xs)
  {
    if xs == [] {
      NothingDumped(hw, base, d);
    } else {
      var before, x := xs[..|xs| - 1], xs[|xs| - 1];
      assert xs == before + [x];
      CommandsStep(base, before, x, xs);
      CommandsDump(hw, base, d, before);
      DumpedStep(hw, d, before, x, xs);
      var done, sel := Image(hw, d.sel, before), SelAfter(d.sel, before);
      ItemDumpsTo(hw, base, d, Commands(base, before), Commands(base, xs), sel, done, x, Dumped(hw, d, xs));
    }
  }

  /** The dumper fills a buffer of just the right size with the values of
      everything listed, and nothing of what was there before is left. */
  lemma DumpsEverything(hw: Hw, base: nat, d: Dump, xs: seq<Item>)
    requires ItemsOk(xs) && NotEmpty(xs) && Fits64(base, DataWords(xs)) && DataWords(xs) == |d.mem|
    ensures RunScript(hw, base, d, Script(base, xs)).mem == Image(hw, d.sel, xs)
  {
    ScriptReads(base, xs);
    CommandsDump(hw, base, d, xs);
  }

  // ---- Tiling ----

  /** Target and size in bytes of every read. */
  function Targets(ps: seq<Pair>): (pieces: seq<(nat, nat)>) {
    if ps == [] then [] else
    var p := ps[|ps| - 1];
    Targets(ps[..|ps| - 1]) + if Writes(p) then [] else [(p.0, 4 * (p.1 % WRITE_BIT))]
  }

  /** The pieces lie one behind the other from `from` to `to`. */
  predicate Tiles(pieces: seq<(nat, nat)>, from: nat, to: nat) {
    if pieces == [] then from == to else
    var p := pieces[|pieces| - 1];
    p.0 + p.1 == to && Tiles(pieces[..|pieces| - 1], from, p.0)
  }

  lemma ItemTargets(ps: seq<Pair>, target: u64, x: Item)
    requires ItemOk(x)
    ensures Targets(AddItem(ps, target, x)) == Targets(ps) + [(target, 4 * x.count)]
  {
    var sel := ps;
    if x.sel.Some? {
      sel := ps + [(x.sel.value, SELECT_WORD)];
      assert sel[..|sel| - 1] == ps;
      SelectFields();
    }
    assert (sel + [ReadPair(target, x)])[..|sel|] == sel;
    ReadFields(x);
  }

  lemma TilesMore(pieces: seq<(nat, nat)>, from: nat, mid: nat, size: nat)
    requires Tiles(pieces, from, mid)
    ensures Tiles(pieces + [(mid, size)], from, mid + size)
  {
    var more := pieces + [(mid, size)];
    assert more[..|more| - 1] == pieces;
  }

  lemma ItemTiles(ps: seq<Pair>, from: nat, target: u64, x: Item)
    requires ItemOk(x) && Tiles(Targets(ps), from, target)
    ensures Tiles(Targets(AddItem(ps, target, x)), from, target + 4 * x.count)
  {
    ItemTargets(ps, target, x);
    TilesMore(Targets(ps), from, target, 4 * x.count);
  }

  lemma ItemTilesTo(ps: seq<Pair>, more: seq<Pair>, from: nat, target: u64, to: nat, x: Item)
    requires ItemOk(x) && Tiles(Targets(ps), from, target)
    requires more == AddItem(ps, target, x) && to == target + 4 * x.count
    ensures Tiles(Targets(more), from, to)
  {
    ItemTiles(ps, from, target, x);
  }

  lemma {:induction false} CommandsTile(base: nat, xs: seq<Item>)
    requires ItemsOk(xs) && Fits64(base, DataWords(xs))
    ensures Tiles(Targets(Commands(base, xs)), base, base + 4 * DataWords(xs))
  {
    if xs != [] {
      var before, x := xs[..|xs| - 1], xs[|xs| - 1];
      assert xs == before + [x];
      CommandsStep(base, before, x, xs);
      CommandsTile(base, before);
      ItemTilesTo(Commands(base, before), Commands(base, xs), base, base + 4 * DataWords(before), base + 4 * DataWords(xs), x);
    }
  }

  /** The reads of a script tile its data buffer without overlap. */
  lemma ReadsTileTheBuffer(base: nat, xs: seq<Item>)
    requires ItemsOk(xs) && NotEmpty(xs) && Fits64(base, DataWords(xs))
    ensures Tiles(Targets(ReadScript(Script(base, xs))), base, base + 4 * DataWords(xs))
  {
    ScriptReads(base, xs);
    CommandsTile(base, xs);
  }
}
