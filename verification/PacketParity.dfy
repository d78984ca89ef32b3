/** The parity bit of packet headers: the driver folds the nibbles of a value
    together and looks the bit up in a 16-bit table. */
module PacketParity {
  import opened Pm4

  const PARITY_TABLE: nat := 0x9669

  /** Bit `k` of the table: `table` shifted right by `k`. */
  function TableBit(table: nat, k: nat): nat {
    if k == 0 then table % 2 else TableBit(table / 2, k - 1)
  }

  /** Exclusive or of the lowest `width` bits. */
  function Xor(a: nat, b: nat, width: nat): (x: nat)
    decreases width
  {
    if width == 0 then 0 else
    (if a % 2 == b % 2 then 0 else 1) + 2 * Xor(a / 2, b / 2, width - 1)
  }

  /** The lowest nibbles of a value, folded together. */
  function Fold(n: nat, nibbles: nat): nat
    decreases nibbles
  {
    if nibbles == 0 then 0 else Xor(n % 16, Fold(n / 16, nibbles - 1), 4)
  }

  /** The driver's computation for a 32-bit value. */
  function FastOddParity(n: u32): nat { TableBit(PARITY_TABLE, Fold(n, 8)) }

  /** The number of one bits is odd. */
  predicate OddOnes(n: nat) {
    if n == 0 then false else OddOnes(n / 2) != (n % 2 == 1)
  }

  lemma OnesStep(n: nat)
    ensures OddOnes(n) == (OddOnes(n / 2) != (n % 2 == 1))
  {
  }

  lemma ParityStep(n: nat, half: nat)
    requires n > 0 && half == n / 2
    ensures OddParity(n) == if n % 2 == 0 then OddParity(half) else 1 - OddParity(half)
  {
    var p := OddParity(half);
    assert OddParity(n) == (p + n) % 2;
    assert n == 2 * half + n % 2;
  }

  lemma {:induction false} ParityOfOnes(n: nat)
    ensures OddParity(n) == if OddOnes(n) then 0 else 1
  {
    if n > 0 {
      ParityOfOnes(n / 2);
      ParityStep(n, n / 2);
      OnesStep(n);
    }
  }

  /** A number below `2^width`. */
  predicate Below(n: nat, width: nat) {
    if width == 0 then n == 0 else Below(n / 2, width - 1)
  }

  lemma {:induction false} XorOnes(a: nat, b: nat, width: nat)
    requires Below(a, width) && Below(b, width)
    ensures Below(Xor(a, b, width), width)
    ensures OddOnes(Xor(a, b, width)) == (OddOnes(a) != OddOnes(b))
    decreases width
  {
    if width > 0 {
      var rest, bit := Xor(a / 2, b / 2, width - 1), if a % 2 == b % 2 then 0 else 1;
      var x := bit + 2 * rest;
      assert x / 2 == rest && x % 2 == bit;
      XorOnes(a / 2, b / 2, width - 1);
      OnesStep(x);
      OnesStep(a);
      OnesStep(b);
    }
  }

  /** The ones of a value are those of its low part and its high part, if that
      holds of its half. */
  lemma SplitStep(n: nat, low: nat, high: nat)
    requires low % 2 == n % 2
    requires OddOnes(n / 2) == (OddOnes(low / 2) != OddOnes(high))
    ensures OddOnes(n) == (OddOnes(low) != OddOnes(high))
  {
    OnesStep(n);
    OnesStep(low);
  }

  lemma SplitNibble(n: nat)
    ensures OddOnes(n) == (OddOnes(n % 16) != OddOnes(n / 16))
  {
    var h, r := n / 16, n % 16;
    var a, b, c := n / 2, n / 4, n / 8;
    assert a / 2 == b && b / 2 == c && c / 2 == h;
    var r1, r2, r3 := r / 2, r / 4, r / 8;
    assert r1 / 2 == r2 && r2 / 2 == r3 && r3 / 2 == 0;
    assert n == 16 * h + r;
    SplitStep(c, r3, h);
    SplitStep(b, r2, h);
    SplitStep(a, r1, h);
    SplitStep(n, r, h);
  }

  lemma NibbleBelow(n: nat)
    ensures Below(n % 16, 4)
  {
    var r := n % 16;
    assert r / 2 / 2 / 2 / 2 == 0;
    assert Below(r / 2 / 2 / 2, 1);
    assert Below(r / 2 / 2, 2);
    assert Below(r / 2, 3);
  }

  lemma FoldSmall(n: nat, nibbles: nat)
    ensures Below(Fold(n, nibbles), 4)
    decreases nibbles
  {
    if nibbles == 0 {
      NibbleBelow(0);
    } else {
      FoldSmall(n / 16, nibbles - 1);
      NibbleBelow(n);
      XorOnes(n % 16, Fold(n / 16, nibbles - 1), 4);
    }
  }

  function Pow16(k: nat): nat { if k == 0 then 1 else 16 * Pow16(k - 1) }

  lemma {:induction false} FoldOnes(n: nat, nibbles: nat)
    requires n < Pow16(nibbles)
    ensures OddOnes(n) == OddOnes(Fold(n, nibbles))
    decreases nibbles
  {
    if nibbles > 0 {
      FoldOnes(n / 16, nibbles - 1);
      FoldSmall(n / 16, nibbles - 1);
      SplitNibble(n);
      NibbleBelow(n);
      XorOnes(n % 16, Fold(n / 16, nibbles - 1), 4);
    }
  }

  /** Reading the table bit by bit: it is 1 where a nibble has an even number of ones. */
  lemma TableRight(k: nat)
    requires Below(k, 4)
    ensures TableBit(PARITY_TABLE, k) == if OddOnes(k) then 0 else 1
  {
    NibbleSmall(k);
    if k < 8 { TableLow(k); } else { TableHigh(k); }
  }

  lemma NibbleSmall(k: nat)
    requires Below(k, 4)
    ensures k < 16
  {
    var a, b, c := k / 2, k / 2 / 2, k / 2 / 2 / 2;
    assert Below(a, 3) && Below(b, 2) && Below(c, 1) && Below(c / 2, 0);
  }

  lemma NextBit(table: nat, k: nat, half: nat)
    requires 0 < k && half == table / 2
    ensures TableBit(table, k) == TableBit(half, k - 1)
  {
  }

  /** Four bits further on. */
  lemma NextNibble(table: nat, k: nat, half: nat, quarter: nat, eighth: nat, rest: nat)
    requires 4 <= k && half == table / 2 && quarter == half / 2 && eighth == quarter / 2 && rest == eighth / 2
    ensures TableBit(table, k) == TableBit(rest, k - 4)
  {
    NextBit(table, k, half);
    NextBit(half, k - 1, quarter);
    NextBit(quarter, k - 2, eighth);
    NextBit(eighth, k - 3, rest);
  }

  /** The lowest four bits of a table. */
  lemma NibbleBits(table: nat, half: nat, quarter: nat, eighth: nat, m: nat)
    requires m < 4 && half == table / 2 && quarter == half / 2 && eighth == quarter / 2
    ensures TableBit(table, m) ==
              if m == 0 then table % 2 else if m == 1 then half % 2 else if m == 2 then quarter % 2 else eighth % 2
  {
    if m > 0 { NextBit(table, m, half); }
    if m > 1 { NextBit(half, m - 1, quarter); }
    if m > 2 { NextBit(quarter, m - 2, eighth); }
  }

  /** Ones of a nibble made of two pairs of bits. */
  lemma NibbleOnes(high: nat, m: nat)
    requires high < 4 && m < 4
    ensures OddOnes(4 * high + m) == ((high == 1 || high == 2) != (m == 1 || m == 2))
  {
    var k, h := 4 * high + m, 2 * high + m / 2;
    assert k / 2 == h && k % 2 == m % 2 && h / 2 == high && h % 2 == m / 2;
    OnesStep(k);
    OnesStep(h);
    OnesStep(high);
    OnesStep(high / 2);
  }

  lemma TableLow(k: nat)
    requires k < 8
    ensures TableBit(PARITY_TABLE, k) == if OddOnes(k) then 0 else 1
  {
    if k < 4 {
      NibbleBits(0x9669, 0x4B34, 0x259A, 0x12CD, k);
      NibbleOnes(0, k);
    } else {
      NextNibble(0x9669, k, 0x4B34, 0x259A, 0x12CD, 0x966);
      NibbleBits(0x966, 0x4B3, 0x259, 0x12C, k - 4);
      NibbleOnes(1, k - 4);
    }
  }

  lemma TableHigh(k: nat)
    requires 8 <= k < 16
    ensures TableBit(PARITY_TABLE, k) == if OddOnes(k) then 0 else 1
  {
    NextNibble(0x9669, k, 0x4B34, 0x259A, 0x12CD, 0x966);
    NextNibble(0x966, k - 4, 0x4B3, 0x259, 0x12C, 0x96);
    if k < 12 {
      NibbleBits(0x96, 0x4B, 0x25, 0x12, k - 8);
      NibbleOnes(2, k - 8);
    } else {
      NextNibble(0x96, k - 8, 0x4B, 0x25, 0x12, 9);
      NibbleBits(9, 4, 2, 1, k - 12);
      NibbleOnes(3, k - 12);
    }
  }

  /** For every 32-bit value the driver's bit is the one that makes the number of
      one bits odd. */
  lemma FastParityRight(n: u32)
    ensures FastOddParity(n) == OddParity(n)
  {
    assert Pow16(8) == TWO32;
    FoldOnes(n, 8);
    FoldSmall(n, 8);
    TableRight(Fold(n, 8));
    ParityOfOnes(n);
  }
}
