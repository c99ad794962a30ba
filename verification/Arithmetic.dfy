/** Cursor arithmetic shared by both channel modes: ring capacities are powers of
    two, a slot index is a position masked by `N - 1`, and cursors are 64-bit. */
module Arithmetic {

  const TWO_64: nat := 0x1_0000_0000_0000_0000

  function Pow2(k: nat): (p: nat)
    ensures p >= 1
  {
    if k == 0 then 1 else 2 * Pow2(k - 1)
  }

  /** A quarter of the capacity, but never zero. */
  function BurstAmount(n: nat): (b: nat)
    ensures 1 <= b
    ensures n >= 1 ==> b <= n
    ensures n < 4 ==> b == 1
    ensures n >= 4 ==> 4 * b <= n < 4 * b + 4
  {
    var x := n / 4;
    if x == 0 then 1 else x
  }

  /** The slot of position `p` in a ring of `n` slots. */
  function Slot(n: nat, p: nat): (i: nat)
    requires n >= 1
    ensures i < n
  {
    p % n
  }

  lemma SlotsDistinct(n: nat, p: nat, q: nat)
    requires n >= 1 && p < q < p + n
    ensures Slot(n, p) != Slot(n, q)
  {
    var d, r := p / n, p % n;
    assert p == n * d + r;
    if r + (q - p) < n {
      ModUnique(n, q, d, r + (q - p));
    } else {
      ModUnique(n, q, d + 1, r + (q - p) - n);
    }
  }

  lemma SlotPeriodic(n: nat, p: nat)
    requires n >= 1
    ensures Slot(n, p + n) == Slot(n, p)
  {
    ModUnique(n, p + n, p / n + 1, p % n);
  }

  /** Quotient and remainder are determined by the equation they satisfy. */
  lemma ModUnique(n: nat, x: nat, d: int, r: nat)
    requires n >= 1 && r < n && x == n * d + r
    ensures x % n == r && x / n == d
  {
    var e: int := x / n - d;
    assert x == n * (x / n) + x % n;
    assert n * e == r - x % n;
  }

  // ---------------------------------------------------------------- bit masks

  /** Bitwise `&` on naturals. */
  function And(x: nat, y: nat): (z: nat)
    ensures z <= x && z <= y
  {
    if x == 0 || y == 0 then 0
    else 2 * And(x / 2, y / 2) + (if x % 2 == 1 && y % 2 == 1 then 1 else 0)
  }

  /** Doubling the modulus: the remainder keeps the low bit and halves above it. */
  lemma HalveMod(p: nat, x: nat)
    requires p >= 1
    ensures x % (2 * p) == 2 * ((x / 2) % p) + x % 2
  {
    var d, r := (x / 2) / p, (x / 2) % p;
    assert x / 2 == p * d + r;
    assert x == (2 * p) * d + (2 * r + x % 2);
    ModUnique(2 * p, x, d, 2 * r + x % 2);
  }

  lemma AndHalves(x: nat, y: nat)
    ensures And(x, y) == 2 * And(x / 2, y / 2) + (if x % 2 == 1 && y % 2 == 1 then 1 else 0)
  {
  }

  /** `x & (2^k - 1) == x mod 2^k`: masking a cursor is taking its slot. */
  lemma {:induction false} MaskIsSlot(k: nat, x: nat)
    ensures And(x, Pow2(k) - 1) == Slot(Pow2(k), x)
  {
    if k == 0 {
      ModUnique(1, x, x, 0);
    } else {
      var p, y := Pow2(k - 1), Pow2(k) - 1;
      MaskIsSlot(k - 1, x / 2);
      HalveMod(p, x);
      AndHalves(x, y);
      assert y / 2 == p - 1 && y % 2 == 1;
    }
  }

  /** The buffer index the code computes: `position & (N - 1)`. */
  method MaskedIndex(k: nat, position: nat) returns (index: nat)
    ensures index == Slot(Pow2(k), position) == position % Pow2(k)
  {
    MaskIsSlot(k, position);
    index := And(position, Pow2(k) - 1);
  }

  lemma {:induction false} Pow2Monotone(k: nat, m: nat)
    requires k <= m
    ensures Pow2(k) <= Pow2(m)
  {
    if k < m {
      Pow2Monotone(k, m - 1);
    }
  }

  /** One bit of rounding down: a mask with a zero low bit drops the low bit of `x`. */
  lemma RoundDownStep(p: nat, x: nat, h: nat)
    requires p >= 1 && And(x / 2, h) == x / 2 - (x / 2) % p
    ensures And(x, 2 * h) == x - x % (2 * p)
  {
    var y := 2 * h;
    assert y / 2 == h && y % 2 == 0;
    HalveMod(p, x);
    AndHalves(x, y);
  }

  lemma AllOnesKeeps(m: nat, x: nat)
    requires x < Pow2(m)
    ensures And(x, Pow2(m) - 1) == x
  {
    MaskIsSlot(m, x);
    ModUnique(Pow2(m), x, 0, x);
  }

  /** The `m`-bit complement of `2^k - 1`, bit by bit. */
  function HighMask(k: nat, m: nat): nat
    requires k <= m
  {
    if k == 0 then Pow2(m) - 1 else 2 * HighMask(k - 1, m - 1)
  }

  lemma {:induction false} HighMaskIsComplement(k: nat, m: nat)
    requires k <= m
    ensures HighMask(k, m) == Pow2(m) - Pow2(k)
  {
    if k > 0 {
      HighMaskIsComplement(k - 1, m - 1);
    }
  }

  /** Masking with that complement rounds down to a multiple of `2^k`. */
  lemma {:induction false} HighMaskRoundsDown(k: nat, m: nat, x: nat)
    requires k <= m && x < Pow2(m)
    ensures And(x, HighMask(k, m)) == x - x % Pow2(k)
  {
    if k == 0 {
      AllOnesKeeps(m, x);
      assert x % Pow2(k) == 0 by {
        ModUnique(1, x, x, 0);
      }
    } else {
      var p, h := Pow2(k - 1), HighMask(k - 1, m - 1);
      assert And(x / 2, h) == x / 2 - (x / 2) % p by {
        HighMaskRoundsDown(k - 1, m - 1, x / 2);
      }
      RoundDownStep(p, x, h);
      assert Pow2(k) == 2 * p && HighMask(k, m) == 2 * h;
    }
  }

  // ------------------------------------------------------------ residue steps

  /** The code's formula for the next position with residue `target` modulo `interval`. */
  function NextModulo(head: nat, target: nat, interval: nat): (r: nat)
    requires target < interval
  {
    head + (target + interval - head % interval) % interval
  }

  /** It is the least position at or after `head` with that residue. */
  lemma NextModuloIsLeast(head: nat, target: nat, interval: nat)
    requires target < interval
    ensures var r := NextModulo(head, target, interval);
            && head <= r < head + interval
            && r % interval == target
            && forall q :: head <= q < r ==> q % interval != target
  {
    var m := head % interval;
    var r := NextModulo(head, target, interval);
    assert head == interval * (head / interval) + m;
    if m <= target {
      ModUnique(interval, target + interval - m, if m == 0 then 1 else if target >= m then 1 else 0, target - m);
      assert r == head + (target - m);
      ModUnique(interval, r, head / interval, target);
    } else {
      ModUnique(interval, target + interval - m, 0, target + interval - m);
      assert r == interval * (head / interval) + interval + target;
      assert interval * (head / interval) + interval == interval * (head / interval + 1);
      ModUnique(interval, r, head / interval + 1, target);
    }
    forall q | head <= q < r
      ensures q % interval != target
    {
      SlotsDistinct(interval, q, r);
    }
  }

  /** A position of the same residue strictly past `h` is at least one interval past it. */
  lemma SameResidueGap(interval: nat, h: nat, q: nat)
    requires interval >= 1 && h < q && h % interval == q % interval
    ensures h + interval <= q
  {
    if q < h + interval {
      SlotsDistinct(interval, h, q);
    }
  }

  lemma ResidueStep(interval: nat, h: nat)
    requires interval >= 1
    ensures (h + interval) % interval == h % interval
  {
    SlotPeriodic(interval, h);
  }

  // ------------------------------------------------------------ 64-bit cursors

  function WrapAdd(x: nat, y: nat): (z: nat)
    ensures z < TWO_64
  {
    (x + y) % TWO_64
  }

  function WrapSub(x: nat, y: nat): (z: nat)
    requires y <= TWO_64
    ensures z < TWO_64
  {
    (x + TWO_64 - y) % TWO_64
  }

  /** With cursors kept modulo 2^64, the equality-only full test stays exact for ever ... */
  lemma FullTestSurvivesWrap(tail: nat, head: nat, n: nat)
    requires head <= tail <= head + n && n < TWO_64
    ensures tail % TWO_64 == WrapAdd(head % TWO_64, n) <==> tail == head + n
    ensures WrapSub(tail % TWO_64, head % TWO_64) == tail - head
  {
    var w := TWO_64;
    var hd, hr := head / w, head % w;
    var d := tail - head;
    if hr + d < w {
      ModUnique(w, tail, hd, hr + d);
      ModUnique(w, hr + d + w - hr, 1, d);
    } else {
      ModUnique(w, tail, hd + 1, hr + d - w);
      ModUnique(w, (hr + d - w) + w - hr, 0, d);
    }
    if hr + n < w {
      ModUnique(w, hr + n, 0, hr + n);
    } else {
      ModUnique(w, hr + n, 1, hr + n - w);
    }
  }

  /** ... but the ordered test `tail <= head` of `pop` is right exactly while both
      cursors lie in the same 2^64 block: one step past it reports a caught-up reader. */
  lemma CaughtUpTestUnderWrap(tail: nat, head: nat, n: nat)
    requires head <= tail <= head + n && n < TWO_64
    ensures (tail % TWO_64 <= head % TWO_64 <==> tail <= head) <==> tail / TWO_64 == head / TWO_64
  {
    var w := TWO_64;
    var hd, hr := head / w, head % w;
    var d := tail - head;
    if hr + d < w {
      ModUnique(w, tail, hd, hr + d);
    } else {
      ModUnique(w, tail, hd + 1, hr + d - w);
    }
  }
}
