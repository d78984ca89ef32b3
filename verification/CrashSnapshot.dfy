/** Copying registers from the crash dump's data buffer into a snapshot. */
module CrashSnapshot {
  import opened Pm4
  import opened CrashScript
  import opened CrashLayout
  import opened CrashReadback
  import opened CrashDump

  /** Size in bytes of the header of a register section. */
  const HEADER_SIZE: nat := 4

  /** Register numbers and values in turn. */
  function Interleave(regs: seq<nat>, vals: seq<u32>): (s: seq<nat>)
    requires |regs| == |vals|
    ensures |s| == 2 * |regs|
  {
    if regs == [] then [] else
    Interleave(regs[..|regs| - 1], vals[..|vals| - 1]) + [regs[|regs| - 1], vals[|vals| - 1]]
  }

  lemma InterleaveMore(regs: seq<nat>, vals: seq<u32>, r: nat, v: u32)
    requires |regs| == |vals|
    ensures Interleave(regs + [r], vals + [v]) == Interleave(regs, vals) + [r, v]
  {
    assert (regs + [r])[..|regs|] == regs && (vals + [v])[..|vals|] == vals;
  }

  // ---- Register lists ----

  /** The section starts with the registers `regs` and their values. */
  predicate Listed(s: seq<nat>, regs: seq<nat>, vals: seq<u32>) {
    |regs| == |vals| && 2 * |regs| <= |s| && s[..2 * |regs|] == Interleave(regs, vals)
  }

  method PutRegister(data: array<nat>, count: nat, r: nat, v: u32, ghost regs: seq<nat>, ghost vals: seq<u32>)
    requires Listed(data[..], regs, vals) && |regs| == count && 2 * count + 2 <= data.Length
    modifies data
    ensures Listed(data[..], regs + [r], vals + [v])
  {
    InterleaveMore(regs, vals, r, v);
    data[2 * count] := r;
    data[2 * count + 1] := v;
    assert data[..2 * (count + 1)] == old(data[..2 * count]) + [r, v];
  }

  lemma SliceNext<T>(a: seq<T>, b: seq<T>, i: nat)
    requires i < |b|
    ensures a + b[..i] + [b[i]] == a + b[..i + 1]
  {
  }

  /** The registers of one range. */
  method PutRangeRegisters(data: array<nat>, src: seq<u32>, r: Range, count: nat, ghost regs: seq<nat>) returns (next: nat)
    requires RangeOk(r) && |regs| == count && count + Count(r) <= |src|
    requires 2 * (count + Count(r)) <= data.Length
    requires Listed(data[..], regs, src[..count])
    modifies data
    ensures next == count + Count(r)
    ensures Listed(data[..], regs + RegsOf(r), src[..next])
  {
    next := count;
    ghost var now, vals := regs, src[..count];
    var k := r.first;
    assert RegsOf(r)[..0] == [];
    while k <= r.last
      invariant r.first <= k <= r.last + 1 && next == count + (k - r.first)
      invariant now == regs + RegsOf(r)[..k - r.first] && vals == src[..next]
      invariant Listed(data[..], now, vals)
    {
      PutRegister(data, next, k, src[next], now, vals);
      now, vals := NextRegister(r, k, regs, now, src, next);
      next := next + 1;
      k := k + 1;
    }
    assert RegsOf(r)[..Count(r)] == RegsOf(r);
  }

  lemma NextRegister(r: Range, k: nat, regs: seq<nat>, now: seq<nat>, src: seq<u32>, next: nat)
    returns (now': seq<nat>, vals': seq<u32>)
    requires r.first <= k <= r.last && now == regs + RegsOf(r)[..k - r.first] && next < |src|
    ensures now' == now + [k] == regs + RegsOf(r)[..k + 1 - r.first]
    ensures vals' == src[..next] + [src[next]] == src[..next + 1]
  {
    SliceNext(regs, RegsOf(r), k - r.first);
    return now + [k], src[..next + 1];
  }

  lemma RegistersMore(rs: seq<Range>, j: nat)
    requires j < |rs|
    ensures Registers(rs[..j + 1]) == Registers(rs[..j]) + RegsOf(rs[j])
    ensures |Registers(rs[..j + 1])| <= |Registers(rs)|
  {
    assert rs[..j + 1][..j] == rs[..j];
    RegistersGrow(rs, j + 1);
  }

  lemma {:induction false} RegistersGrow(rs: seq<Range>, n: nat)
    requires n <= |rs|
    ensures |Registers(rs[..n])| <= |Registers(rs)|
    decreases |rs|
  {
    if n < |rs| {
      assert rs[..|rs| - 1][..n] == rs[..n];
      RegistersGrow(rs[..|rs| - 1], n);
    } else {
      assert rs[..n] == rs;
    }
  }

  /** Copies a register list from the start of the data buffer, as many whole
      ranges of it as there is room for, and returns the section's size. */
  method SnapshotRegisters(rs: seq<Range>, src: seq<u32>, data: array<nat>, remain: nat)
    returns (size: nat, count: nat, ghost whole: nat)
    requires forall i :: 0 <= i < |rs| ==> RangeOk(rs[i])
    requires |Registers(rs)| <= |src| && remain <= HEADER_SIZE + 4 * data.Length
    modifies data
    ensures remain < HEADER_SIZE ==> size == 0 && data[..] == old(data[..])
    ensures remain >= HEADER_SIZE ==>
              && size == HEADER_SIZE + 8 * count <= remain
              && whole <= |rs| && count == |Registers(rs[..whole])| <= |src|
              && (whole < |rs| ==> HEADER_SIZE + 8 * |Registers(rs[..whole + 1])| > remain)
              && Listed(data[..], Registers(rs[..whole]), src[..count])
  {
    count, whole := 0, 0;
    if remain < HEADER_SIZE { return 0, 0, 0; }
    var left := remain - HEADER_SIZE;
    var j := 0;
    while j < |rs|
      invariant j <= |rs| && count == |Registers(rs[..j])| <= |src|
      invariant left == remain - HEADER_SIZE - 8 * count && left >= 0
      invariant Listed(data[..], Registers(rs[..j]), src[..count])
    {
      var start, end := rs[j].first, rs[j].last;
      RegistersMore(rs, j);
      if left < (end - start + 1) * 8 { break; }
      left := left - (end - start + 1) * 8;
      count := PutRangeRegisters(data, src, rs[j], count, Registers(rs[..j]));
      j := j + 1;
    }
    whole := j;
    size := count * 8 + HEADER_SIZE;
  }

  /** With enough room the main list's section holds every register with the
      value the dumper found in it. */
  lemma MainSectionRight(hw: Hw, sel: u64, t: Tables, whole: nat)
    requires TablesOk(t) && whole <= |t.regs|
    ensures |Registers(t.regs[..whole])| <= DataWords(Items(t))
    ensures var regs := Registers(t.regs[..whole]);
            Interleave(regs, Image(hw, sel, Items(t))[..|regs|]) == Interleave(regs, ValuesOf(hw, sel, regs))
  {
    MainListReadsBack(hw, sel, t);
    RegistersGrow(t.regs, whole);
    RegistersPrefix(t.regs, whole);
    var regs, all := Registers(t.regs[..whole]), Registers(t.regs);
    var image := Image(hw, sel, Items(t));
    assert image[..|all|][..|regs|] == image[..|regs|];
    assert ValuesOf(hw, sel, all)[..|regs|] == ValuesOf(hw, sel, regs);
  }

  lemma {:induction false} RegistersPrefix(rs: seq<Range>, n: nat)
    requires n <= |rs|
    ensures Registers(rs[..n]) <= Registers(rs)
    decreases |rs|
  {
    if n < |rs| {
      assert rs[..|rs| - 1][..n] == rs[..n];
      RegistersPrefix(rs[..|rs| - 1], n);
    } else {
      assert rs[..n] == rs;
    }
  }

  // ---- HLSQ, SP and TP sets ----

  function SetRegs(h: HlsqSet): (s: seq<nat>)
    ensures |s| == h.size
  {
    seq(h.size, k requires 0 <= k < h.size => h.ahbaddr + k)
  }

  /** Registers of the first `n` sets. */
  function AllSetRegs(hs: seq<HlsqSet>, n: nat): (s: seq<nat>)
    requires n <= |hs|
  {
    if n == 0 then [] else AllSetRegs(hs, n - 1) + SetRegs(hs[n - 1])
  }

  /** The set lies in the buffer, at a byte offset that is a word offset. */
  predicate OffsetFits(h: HlsqSet, offset: nat, words: nat) { offset % 4 == 0 && offset / 4 + h.size <= words }

  predicate OffsetsFit(hs: seq<HlsqSet>, offsets: seq<nat>, words: nat) {
    |offsets| == |hs| && forall i :: 0 <= i < |hs| ==> OffsetFits(hs[i], offsets[i], words)
  }

  function SetWords(h: HlsqSet, offset: nat, mem: seq<u32>): (v: seq<u32>)
    requires OffsetFits(h, offset, |mem|)
    ensures |v| == h.size
  {
    mem[offset / 4..offset / 4 + h.size]
  }

  /** The words found at the offsets of the first `n` sets. */
  function AllSetWords(hs: seq<HlsqSet>, offsets: seq<nat>, mem: seq<u32>, n: nat): (v: seq<u32>)
    requires OffsetsFit(hs, offsets, |mem|) && n <= |hs|
    ensures |v| == |AllSetRegs(hs, n)|
  {
    if n == 0 then [] else AllSetWords(hs, offsets, mem, n - 1) + SetWords(hs[n - 1], offsets[n - 1], mem)
  }

  /** The registers of one set, from its offset. */
  method GetHlsqRegisters(h: HlsqSet, src: seq<u32>, data: array<nat>, count: nat, ghost regs: seq<nat>, ghost vals: seq<u32>)
    returns (next: nat)
    requires h.size == |src| && |regs| == count && 2 * (count + h.size) <= data.Length
    requires Listed(data[..], regs, vals)
    modifies data
    ensures next == count + h.size
    ensures Listed(data[..], regs + SetRegs(h), vals + src)
  {
    next := count;
    ghost var own, nowRegs, nowVals := SetRegs(h), regs, vals;
    for i := 0 to h.size
      invariant next == count + i
      invariant nowRegs == regs + own[..i] && nowVals == vals + src[..i]
      invariant Listed(data[..], nowRegs, nowVals)
    {
      PutRegister(data, next, h.ahbaddr + i, src[i], nowRegs, nowVals);
      SliceNext(regs, own, i);
      SliceNext(vals, src, i);
      nowRegs, nowVals := nowRegs + [h.ahbaddr + i], nowVals + [src[i]];
      next := next + 1;
    }
    assert own[..h.size] == own && src[..h.size] == src;
  }

  lemma {:induction false} SetsGrow(hs: seq<HlsqSet>, n: nat, m: nat)
    requires n <= m <= |hs|
    ensures |AllSetRegs(hs, n)| <= |AllSetRegs(hs, m)|
    decreases m
  {
    if n < m { SetsGrow(hs, n, m - 1); }
  }

  /** Sum of the sets' sizes. */
  method CountSets(hs: seq<HlsqSet>) returns (count: nat)
    ensures count == |AllSetRegs(hs, |hs|)|
  {
    count := 0;
    for i := 0 to |hs|
      invariant count == |AllSetRegs(hs, i)|
    {
      count := count + hs[i].size;
    }
  }

  /** The registers of the set at `i`, behind those of the sets before it. */
  method PutSet(hs: seq<HlsqSet>, offsets: seq<nat>, mem: seq<u32>, data: array<nat>, i: nat, count: nat) returns (next: nat)
    requires OffsetsFit(hs, offsets, |mem|) && i < |hs| && count == |AllSetRegs(hs, i)|
    requires 2 * |AllSetRegs(hs, |hs|)| <= data.Length
    requires Listed(data[..], AllSetRegs(hs, i), AllSetWords(hs, offsets, mem, i))
    modifies data
    ensures next == |AllSetRegs(hs, i + 1)|
    ensures Listed(data[..], AllSetRegs(hs, i + 1), AllSetWords(hs, offsets, mem, i + 1))
  {
    SetsGrow(hs, i + 1, |hs|);
    assert OffsetFits(hs[i], offsets[i], |mem|);
    next := GetHlsqRegisters(hs[i], SetWords(hs[i], offsets[i], mem), data, count,
                             AllSetRegs(hs, i), AllSetWords(hs, offsets, mem, i));
  }

  method PutSets(hs: seq<HlsqSet>, offsets: seq<nat>, mem: seq<u32>, data: array<nat>)
    requires OffsetsFit(hs, offsets, |mem|) && 2 * |AllSetRegs(hs, |hs|)| <= data.Length
    modifies data
    ensures Listed(data[..], AllSetRegs(hs, |hs|), AllSetWords(hs, offsets, mem, |hs|))
  {
    var next := 0;
    for i := 0 to |hs|
      invariant next == |AllSetRegs(hs, i)|
      invariant Listed(data[..], AllSetRegs(hs, i), AllSetWords(hs, offsets, mem, i))
    {
      next := PutSet(hs, offsets, mem, data, i, next);
    }
  }

  /** The number and the value of a section's entry. */
  function NumberAt(s: seq<nat>, j: nat): nat
    requires 2 * j + 1 < |s|
  {
    s[2 * j]
  }

  function ValueAt(s: seq<nat>, j: nat): nat
    requires 2 * j + 1 < |s|
  {
    s[2 * j + 1]
  }

  lemma {:induction false} InterleavedAt(regs: seq<nat>, vals: seq<u32>, j: nat)
    requires |regs| == |vals| && j < |regs|
    ensures NumberAt(Interleave(regs, vals), j) == regs[j] && ValueAt(Interleave(regs, vals), j) == vals[j]
    decreases |regs|
  {
    if j < |regs| - 1 { InterleavedAt(regs[..|regs| - 1], vals[..|vals| - 1], j); }
  }

  /** Sizes of the first `n` sets together. */
  function SizesBefore(hs: seq<HlsqSet>, n: nat): nat
    requires n <= |hs|
  {
    if n == 0 then 0 else SizesBefore(hs, n - 1) + hs[n - 1].size
  }

  /** From entry `n` on, a section lists the registers of a set, the first its
      address, with the words `vals`. */
  predicate SetListed(s: seq<nat>, h: HlsqSet, n: nat, vals: seq<u32>) {
    && |vals| == h.size && 2 * (n + h.size) <= |s|
    && forall j :: n <= j < n + h.size ==> NumberAt(s, j) == h.ahbaddr + (j - n) && ValueAt(s, j) == vals[j - n]
  }

  lemma {:induction false} SetsPlaced(hs: seq<HlsqSet>, n: nat)
    requires n <= |hs|
    ensures |AllSetRegs(hs, n)| == SizesBefore(hs, n)
  {
    if n > 0 { SetsPlaced(hs, n - 1); }
  }

  /** Where set `i` is among the registers and words of the first `n`. */
  lemma {:induction false} SetPlaced(hs: seq<HlsqSet>, offsets: seq<nat>, mem: seq<u32>, i: nat, n: nat)
    requires OffsetsFit(hs, offsets, |mem|) && i < n <= |hs|
    ensures OffsetFits(hs[i], offsets[i], |mem|)
    ensures SetAt(AllSetRegs(hs, n), AllSetWords(hs, offsets, mem, n), hs[i], SizesBefore(hs, i), SetWords(hs[i], offsets[i], mem))
    decreases n
  {
    SetsPlaced(hs, n - 1);
    var regs, vals := AllSetRegs(hs, n - 1), AllSetWords(hs, offsets, mem, n - 1);
    if i < n - 1 {
      SetPlaced(hs, offsets, mem, i, n - 1);
      SetStaysAt(regs, vals, hs[i], SizesBefore(hs, i), SetWords(hs[i], offsets[i], mem),
                 SetRegs(hs[n - 1]), SetWords(hs[n - 1], offsets[n - 1], mem));
    } else {
      SetComesAt(regs, vals, hs[i], SetWords(hs[i], offsets[i], mem));
    }
  }

  /** From entry `n` on, registers and words are those of a set. */
  predicate SetAt(regs: seq<nat>, vals: seq<u32>, h: HlsqSet, n: nat, own: seq<u32>) {
    && |regs| == |vals| && |own| == h.size && n + h.size <= |regs|
    && forall j :: n <= j < n + h.size ==> regs[j] == h.ahbaddr + (j - n) && vals[j] == own[j - n]
  }

  lemma SetStaysAt(regs: seq<nat>, vals: seq<u32>, h: HlsqSet, n: nat, own: seq<u32>, moreRegs: seq<nat>, moreVals: seq<u32>)
    requires SetAt(regs, vals, h, n, own) && |moreRegs| == |moreVals|
    ensures SetAt(regs + moreRegs, vals + moreVals, h, n, own)
  {
  }

  lemma SetComesAt(regs: seq<nat>, vals: seq<u32>, h: HlsqSet, own: seq<u32>)
    requires |regs| == |vals| && |own| == h.size
    ensures SetAt(regs + SetRegs(h), vals + own, h, |regs|, own)
  {
  }

  lemma EntryListed(s: seq<nat>, regs: seq<nat>, vals: seq<u32>, j: nat)
    requires Listed(s, regs, vals) && j < |regs|
    ensures NumberAt(s, j) == regs[j] && ValueAt(s, j) == vals[j]
  {
    InterleavedAt(regs, vals, j);
    assert s[2 * j] == s[..2 * |regs|][2 * j] && s[2 * j + 1] == s[..2 * |regs|][2 * j + 1];
  }

  /** Registers and words from entry `n` on that are those of a set list it. */
  lemma ListedThere(s: seq<nat>, regs: seq<nat>, vals: seq<u32>, h: HlsqSet, n: nat, own: seq<u32>)
    requires Listed(s, regs, vals) && SetAt(regs, vals, h, n, own)
    ensures SetListed(s, h, n, own)
  {
    forall j | n <= j < n + h.size ensures NumberAt(s, j) == h.ahbaddr + (j - n) && ValueAt(s, j) == own[j - n] {
      EntryListed(s, regs, vals, j);
    }
  }

  lemma SetIsListed(s: seq<nat>, hs: seq<HlsqSet>, offsets: seq<nat>, mem: seq<u32>, i: nat)
    requires OffsetsFit(hs, offsets, |mem|) && i < |hs|
    requires Listed(s, AllSetRegs(hs, |hs|), AllSetWords(hs, offsets, mem, |hs|))
    ensures OffsetFits(hs[i], offsets[i], |mem|)
    ensures SetListed(s, hs[i], SizesBefore(hs, i), SetWords(hs[i], offsets[i], mem))
  {
    SetPlaced(hs, offsets, mem, i, |hs|);
    ListedThere(s, AllSetRegs(hs, |hs|), AllSetWords(hs, offsets, mem, |hs|), hs[i], SizesBefore(hs, i),
                SetWords(hs[i], offsets[i], mem));
  }

  /** A section lists every set, behind those before it, with the words at its offset. */
  ghost predicate SetsListed(s: seq<nat>, hs: seq<HlsqSet>, offsets: seq<nat>, mem: seq<u32>) {
    OffsetsFit(hs, offsets, |mem|) &&
    forall i :: 0 <= i < |hs| ==>
      OffsetFits(hs[i], offsets[i], |mem|) && SetListed(s, hs[i], SizesBefore(hs, i), SetWords(hs[i], offsets[i], mem))
  }

  lemma AllSetsListed(s: seq<nat>, hs: seq<HlsqSet>, offsets: seq<nat>, mem: seq<u32>)
    requires OffsetsFit(hs, offsets, |mem|) && Listed(s, AllSetRegs(hs, |hs|), AllSetWords(hs, offsets, mem, |hs|))
    ensures SetsListed(s, hs, offsets, mem)
  {
    forall i | 0 <= i < |hs|
      ensures OffsetFits(hs[i], offsets[i], |mem|) && SetListed(s, hs[i], SizesBefore(hs, i), SetWords(hs[i], offsets[i], mem))
    {
      SetIsListed(s, hs, offsets, mem, i);
    }
  }

  /** The section of all HLSQ, SP and TP sets, if there is room for it. */
  method SnapshotHlsq(hs: seq<HlsqSet>, offsets: seq<nat>, mem: seq<u32>, data: array<nat>, remain: nat)
    returns (size: nat, count: nat)
    requires OffsetsFit(hs, offsets, |mem|) && remain <= HEADER_SIZE + 4 * data.Length
    modifies data
    ensures count == |AllSetRegs(hs, |hs|)| == SizesBefore(hs, |hs|)
    ensures size == if remain < 8 * count + HEADER_SIZE then 0 else 8 * count + HEADER_SIZE
    ensures size == 0 ==> data[..] == old(data[..])
    ensures size > 0 ==> Listed(data[..], AllSetRegs(hs, |hs|), AllSetWords(hs, offsets, mem, |hs|))
    ensures size > 0 ==> SetsListed(data[..], hs, offsets, mem)
  {
    count := CountSets(hs);
    SetsPlaced(hs, |hs|);
    size := 0;
    if remain < count * 8 + HEADER_SIZE { return; }
    PutSets(hs, offsets, mem, data);
    AllSetsListed(data[..], hs, offsets, mem);
    size := count * 8 + HEADER_SIZE;
  }

  /** What the aperture shows for the first `n` sets, set after set. */
  function AllSetValues(hw: Hw, hs: seq<HlsqSet>, n: nat): (v: seq<u32>)
    requires n <= |hs| && forall i :: 0 <= i < |hs| ==> HlsqOk(hs[i])
  {
    if n == 0 then [] else
    var h := hs[n - 1];
    assert HlsqOk(h);
    AllSetValues(hw, hs, n - 1) + Values(hw, h.statetype * 0x100, A5XX_HLSQ_DBG_AHB_READ_APERTURE, h.size)
  }

  lemma OffsetFitsAt(h: HlsqSet, offset: nat, w: nat, words: nat)
    requires offset == 4 * w && w + h.size <= words
    ensures OffsetFits(h, offset, words) && offset / 4 == w
  {
  }

  lemma HlsqOffsetsFit(t: Tables)
    requires TablesOk(t)
    ensures OffsetsFit(t.hlsq, HlsqOffsets(t, |t.hlsq|), DataWords(Items(t)))
  {
    var offsets := HlsqOffsets(t, |t.hlsq|);
    forall i | 0 <= i < |t.hlsq| ensures OffsetFits(t.hlsq[i], offsets[i], DataWords(Items(t))) {
      NextHlsq(t, i);
      OffsetFitsAt(t.hlsq[i], offsets[i], DataWords(BeforeHlsq(t, i)), DataWords(Items(t)));
    }
  }

  /** With the offsets the script builder stored, the section holds for every set
      what the dumper read for it. */
  lemma {:induction false} HlsqSectionRight(hw: Hw, sel: u64, t: Tables, n: nat)
    requires TablesOk(t) && n <= |t.hlsq|
    ensures OffsetsFit(t.hlsq, HlsqOffsets(t, |t.hlsq|), DataWords(Items(t)))
    ensures AllSetWords(t.hlsq, HlsqOffsets(t, |t.hlsq|), Image(hw, sel, Items(t)), n) == AllSetValues(hw, t.hlsq, n)
  {
    HlsqOffsetsFit(t);
    if n > 0 {
      HlsqSectionRight(hw, sel, t, n - 1);
      SetRight(hw, sel, t, n - 1, HlsqOffsets(t, |t.hlsq|)[n - 1]);
    }
  }

  lemma SetRight(hw: Hw, sel: u64, t: Tables, i: nat, offset: nat)
    requires TablesOk(t) && i < |t.hlsq| && offset == 4 * DataWords(BeforeHlsq(t, i))
    ensures OffsetFits(t.hlsq[i], offset, DataWords(Items(t)))
    ensures SetWords(t.hlsq[i], offset, Image(hw, sel, Items(t))) ==
              Values(hw, t.hlsq[i].statetype * 0x100, A5XX_HLSQ_DBG_AHB_READ_APERTURE, t.hlsq[i].size)
  {
    HlsqReadsBack(hw, sel, t, i);
    OffsetFitsAt(t.hlsq[i], offset, DataWords(BeforeHlsq(t, i)), DataWords(Items(t)));
  }
}
