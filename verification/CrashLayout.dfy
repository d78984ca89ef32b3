/** Where the items of a crash dump lie in its data buffer. */
module CrashLayout {
  import opened Pm4
  import opened CrashScript

  lemma {:induction false} ImagePrefix(hw: Hw, sel: u64, xs: seq<Item>, ys: seq<Item>)
    requires xs <= ys
    ensures Image(hw, sel, xs) <= Image(hw, sel, ys)
    decreases |ys|
  {
    if |xs| < |ys| {
      ImagePrefix(hw, sel, xs, ys[..|ys| - 1]);
    } else {
      assert xs == ys;
    }
  }

  /** An item's values lie behind those of the items before it. */
  lemma ReadAt(hw: Hw, sel: u64, before: seq<Item>, x: Item, all: seq<Item>)
    requires before + [x] <= all
    ensures DataWords(before) + x.count <= DataWords(all)
    ensures Image(hw, sel, all)[DataWords(before)..DataWords(before) + x.count] ==
              Values(hw, SelFor(SelAfter(sel, before), x), x.reg, x.count)
  {
    var xs := before + [x];
    assert xs[..|xs| - 1] == before;
    ImagePrefix(hw, sel, xs, all);
    assert Image(hw, sel, all)[..DataWords(xs)] == Image(hw, sel, xs);
  }

  lemma {:induction false} RangesPrefix(out: seq<Item>, rs: seq<Range>)
    ensures out <= RangeItems(out, rs)
  {
    if rs != [] { RangesPrefix(out, rs[..|rs| - 1]); }
  }

  lemma {:induction false} HlsqPrefix(out: seq<Item>, hs: seq<HlsqSet>, n: nat)
    requires n <= |hs| && forall i :: 0 <= i < |hs| ==> HlsqOk(hs[i])
    ensures HlsqItems(out, hs[..n]) <= HlsqItems(out, hs)
    decreases |hs|
  {
    if n < |hs| {
      assert hs[..|hs| - 1][..n] == hs[..n];
      HlsqPrefix(out, hs[..|hs| - 1], n);
    } else {
      assert hs[..n] == hs;
    }
  }

  lemma {:induction false} BanksPrefix(out: seq<Item>, b: ShaderBlock, n: nat, m: nat)
    requires ShaderOk(b) && n <= m <= A5XX_NUM_SHADER_BANKS
    ensures out <= BankItems(out, b, n) <= BankItems(out, b, m)
    decreases m
  {
    if n < m {
      BanksPrefix(out, b, n, m - 1);
    } else if n > 0 {
      BanksPrefix(out, b, n - 1, n - 1);
    }
  }

  lemma {:induction false} ShadersPrefix(out: seq<Item>, bs: seq<ShaderBlock>, n: nat)
    requires n <= |bs| && forall i :: 0 <= i < |bs| ==> ShaderOk(bs[i])
    ensures ShaderItems(out, bs[..n]) <= ShaderItems(out, bs)
    decreases |bs|
  {
    if n < |bs| {
      assert bs[..|bs| - 1][..n] == bs[..n];
      ShadersPrefix(out, bs[..|bs| - 1], n);
      BanksPrefix(ShaderItems(out, bs[..|bs| - 1]), bs[|bs| - 1], 0, A5XX_NUM_SHADER_BANKS);
    } else {
      assert bs[..n] == bs;
    }
  }

  /** The items before an HLSQ, SP or TP set. */
  function BeforeHlsq(t: Tables, i: nat): seq<Item>
    requires TablesOk(t) && i <= |t.hlsq|
  {
    HlsqItems(ShaderItems(DirectItems(t), t.shaders), t.hlsq[..i])
  }

  /** The items before a shader block. */
  function BeforeShader(t: Tables, i: nat): seq<Item>
    requires TablesOk(t) && i <= |t.shaders|
  {
    ShaderItems(DirectItems(t), t.shaders[..i])
  }

  lemma HlsqPlace(t: Tables, i: nat)
    requires TablesOk(t) && i < |t.hlsq|
    ensures BeforeHlsq(t, i) + [HlsqItem(t.hlsq[i])] <= Items(t)
  {
    var out := ShaderItems(DirectItems(t), t.shaders);
    HlsqPrefix(out, t.hlsq, i + 1);
    assert t.hlsq[..i + 1][..i] == t.hlsq[..i];
  }

  lemma BankInBlocks(t: Tables, i: nat, j: nat)
    requires TablesOk(t) && i < |t.shaders| && j < A5XX_NUM_SHADER_BANKS
    ensures BankItems(BeforeShader(t, i), t.shaders[i], j) + [Bank(t.shaders[i], j)] <= BeforeShader(t, i + 1)
  {
    BanksPrefix(BeforeShader(t, i), t.shaders[i], j + 1, A5XX_NUM_SHADER_BANKS);
    assert t.shaders[..i + 1][..i] == t.shaders[..i];
  }

  lemma ShadersInItems(t: Tables)
    requires TablesOk(t)
    ensures ShaderItems(DirectItems(t), t.shaders) <= Items(t)
  {
    HlsqPrefix(ShaderItems(DirectItems(t), t.shaders), t.hlsq, 0);
    assert t.hlsq[..0] == [];
  }

  lemma ShaderPlace(t: Tables, i: nat, j: nat)
    requires TablesOk(t) && i < |t.shaders| && j < A5XX_NUM_SHADER_BANKS
    ensures BankItems(BeforeShader(t, i), t.shaders[i], j) + [Bank(t.shaders[i], j)] <= Items(t)
  {
    var now := BankItems(BeforeShader(t, i), t.shaders[i], j) + [Bank(t.shaders[i], j)];
    BankInBlocks(t, i, j);
    ShadersInItems(t);
    ShadersPrefix(DirectItems(t), t.shaders, i + 1);
    PrefixTwice(now, BeforeShader(t, i + 1), ShaderItems(DirectItems(t), t.shaders));
    PrefixTwice(now, ShaderItems(DirectItems(t), t.shaders), Items(t));
  }

  lemma PrefixTwice(x: seq<Item>, y: seq<Item>, z: seq<Item>)
    requires x <= y <= z
    ensures x <= z
  {
  }

  lemma DirectPlace(t: Tables)
    requires TablesOk(t)
    ensures DirectItems(t) <= Items(t)
  {
    assert t.shaders[..0] == [] && t.hlsq[..0] == [];
    ShadersPrefix(DirectItems(t), t.shaders, 0);
    HlsqPrefix(ShaderItems(DirectItems(t), t.shaders), t.hlsq, 0);
  }

  /** `j` times a bank's size. */
  function BankSkip(sz: nat, j: nat): (r: nat)
    ensures r == 0 <==> j == 0 || sz == 0
  {
    j * sz
  }

  lemma BankSkipNext(sz: nat, j: nat)
    ensures BankSkip(sz, j + 1) == BankSkip(sz, j) + sz
  {
  }

  lemma {:induction false} BankWords(out: seq<Item>, b: ShaderBlock, n: nat)
    requires ShaderOk(b) && n <= A5XX_NUM_SHADER_BANKS
    ensures DataWords(BankItems(out, b, n)) == DataWords(out) + BankSkip(b.sz, n)
  {
    if n > 0 {
      BankWords(out, b, n - 1);
      var xs := BankItems(out, b, n);
      assert xs[..|xs| - 1] == BankItems(out, b, n - 1);
      BankSkipNext(b.sz, n - 1);
    }
  }
}
