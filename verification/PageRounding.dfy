/** Rounding a region up to whole pages: the Rust division form and the C mask form. */
module PageRounding {
  import opened Arithmetic

  function DivCeil(size: nat, page: nat): nat
    requires page >= 1
  {
    var d, r := size / page, size % page;
    if r > 0 then d + 1 else d
  }

  /** `get_upligned_size`, in unbounded arithmetic. */
  function UplignedSize(page: nat, size: nat): nat
    requires page >= 1
  {
    page * DivCeil(size, page)
  }

  datatype PageSize = Standard | Huge | Gigantic

  /** `PageSize::mem_size`; `standard` is the page size the system reports. */
  function MemSize(pages: PageSize, standard: nat, size: nat): nat
    requires standard >= 1
  {
    match pages
    case Standard => UplignedSize(standard, size)
    case Huge => UplignedSize(0x20_0000, size)
    case Gigantic => UplignedSize(0x4000_0000, size)
  }

  /** `align_to_page_size`: `(size + page - 1) & ~(page - 1)` on 64-bit words. */
  function AlignToPageSize(size: nat, page: nat): nat
    requires size < TWO_64 && 1 <= page <= TWO_64
  {
    And(WrapSub(WrapAdd(size, page), 1), TWO_64 - 1 - (page - 1))
  }

  predicate LeastMultipleAtLeast(m: nat, page: nat, size: nat)
    requires page >= 1
  {
    && m % page == 0
    && size <= m < size + page
  }

  /** Only one multiple of `page` lies in `[size, size + page)`. */
  lemma LeastMultipleUnique(m: nat, m': nat, page: nat, size: nat)
    requires page >= 1
    requires LeastMultipleAtLeast(m, page, size) && LeastMultipleAtLeast(m', page, size)
    ensures m == m'
  {
    if m < m' {
      SlotsDistinct(page, m, m');
    } else if m' < m {
      SlotsDistinct(page, m', m);
    }
  }

  lemma UplignedIsLeast(page: nat, size: nat)
    requires page >= 1
    ensures LeastMultipleAtLeast(UplignedSize(page, size), page, size)
  {
    var c := DivCeil(size, page);
    assert size == page * (size / page) + size % page;
    assert size % page > 0 ==> page * c == page * (size / page) + page;
    ModUnique(page, page * c, c, 0);
  }

  /** Every region size is whole pages of the requested kind, with less than one to spare. */
  lemma MemSizeIsLeast(pages: PageSize, standard: nat, size: nat)
    requires standard >= 1
    ensures var page := match pages case Standard => standard case Huge => 0x20_0000 case Gigantic => 0x4000_0000;
            LeastMultipleAtLeast(MemSize(pages, standard, size), page, size)
  {
    UplignedIsLeast(standard, size);
    UplignedIsLeast(0x20_0000, size);
    UplignedIsLeast(0x4000_0000, size);
  }

  lemma {:induction false} Pow2Add(a: nat, b: nat)
    ensures Pow2(a + b) == Pow2(a) * Pow2(b)
  {
    if a > 0 {
      Pow2Add(a - 1, b);
      assert Pow2(a) * Pow2(b) == 2 * (Pow2(a - 1) * Pow2(b));
    }
  }

  lemma Pow2Of64()
    ensures Pow2(64) == TWO_64
  {
    assert Pow2(2) == 2 * Pow2(1) == 4;
    assert Pow2(4) == 2 * Pow2(3) == 16;
    Pow2Add(4, 4);
    Pow2Add(8, 8);
    Pow2Add(16, 16);
    Pow2Add(32, 32);
  }

  /** Subtracting its remainder from `x` leaves a multiple less than `p` below it. */
  lemma RoundDownIsMultiple(p: nat, x: nat)
    requires p >= 1
    ensures (x - x % p) % p == 0 && x - p < x - x % p <= x
  {
    assert x == p * (x / p) + x % p;
    ModUnique(p, x - x % p, x / p, 0);
  }

  /** Rounding the wrapped sum down agrees with the division form, whichever way the sum went. */
  lemma WrappedRoundDown(p: nat, size: nat)
    requires 1 <= p <= TWO_64 && TWO_64 % p == 0 && size < TWO_64
    ensures var y := WrapSub(WrapAdd(size, p), 1);
            y - y % p == UplignedSize(p, size) % TWO_64
    ensures UplignedSize(p, size) < TWO_64 <==> size + p - 1 < TWO_64
  {
    var u := UplignedSize(p, size);
    UplignedIsLeast(p, size);
    if size + p - 1 < TWO_64 {
      var y := size + p - 1;
      WrapSmall(size, p);
      RoundDownIsMultiple(p, y);
      LeastMultipleUnique(y - y % p, u, p, size);
      ModUnique(TWO_64, u, 0, u);
    } else {
      WrapLarge(size, p);
      var y := size + p - 1 - TWO_64;
      ModUnique(p, y, 0, y);
      LeastMultipleUnique(TWO_64, u, p, size);
      ModUnique(TWO_64, u, 1, 0);
    }
  }

  lemma WordPage(k: nat)
    requires k <= 63
    ensures 2 * Pow2(k) <= TWO_64 && TWO_64 % Pow2(k) == 0
  {
    Pow2Of64();
    Pow2Monotone(k, 63);
    PageDividesWord(k, 64);
  }

  /** For every power-of-two page the C mask form is the Rust division form reduced
      modulo 2^64, overflow included. */
  lemma AlignIsUplign(k: nat, size: nat)
    requires k <= 63 && size < TWO_64
    ensures Pow2(k) <= TWO_64
    ensures AlignToPageSize(size, Pow2(k)) == UplignedSize(Pow2(k), size) % TWO_64
  {
    WordPage(k);
    WrappedRoundDown(Pow2(k), size);
    Pow2Of64();
    HighMaskIsComplement(k, 64);
    HighMaskRoundsDown(k, 64, WrapSub(WrapAdd(size, Pow2(k)), 1));
  }

  /** So the C form is the least multiple of the page exactly when the sum does not overflow. */
  lemma AlignIsLeastIffFits(k: nat, size: nat)
    requires k <= 63 && size < TWO_64
    ensures Pow2(k) <= TWO_64
    ensures LeastMultipleAtLeast(AlignToPageSize(size, Pow2(k)), Pow2(k), size)
            <==> size + Pow2(k) - 1 < TWO_64
  {
    var p := Pow2(k);
    AlignIsUplign(k, size);
    WordPage(k);
    WrappedRoundDown(p, size);
    UplignedIsLeast(p, size);
    var u := UplignedSize(p, size);
    if size + p - 1 < TWO_64 {
      ModUnique(TWO_64, u, 0, u);
    } else {
      ModUnique(TWO_64, u % TWO_64, 0, u % TWO_64);
    }
  }

  lemma {:induction false} PageDividesWord(k: nat, m: nat)
    requires k <= m
    ensures Pow2(m) % Pow2(k) == 0
  {
    if k == 0 {
      ModUnique(1, Pow2(m), Pow2(m), 0);
    } else {
      PageDividesWord(k - 1, m - 1);
      HalveMod(Pow2(k - 1), Pow2(m));
    }
  }

  lemma WrapSmall(size: nat, p: nat)
    requires p >= 1 && size + p - 1 < TWO_64
    ensures WrapSub(WrapAdd(size, p), 1) == size + p - 1
  {
    var s := size + p;
    if s < TWO_64 {
      ModUnique(TWO_64, s, 0, s);
      ModUnique(TWO_64, s + TWO_64 - 1, 1, s - 1);
    } else {
      ModUnique(TWO_64, s, 1, 0);
      ModUnique(TWO_64, TWO_64 - 1, 0, TWO_64 - 1);
    }
  }

  lemma WrapLarge(size: nat, p: nat)
    requires 1 <= p <= TWO_64 && size < TWO_64 <= size + p - 1
    ensures WrapSub(WrapAdd(size, p), 1) == size + p - 1 - TWO_64
  {
    var s := size + p - TWO_64;
    ModUnique(TWO_64, size + p, 1, s);
    ModUnique(TWO_64, s + TWO_64 - 1, 1, s - 1);
  }
}
