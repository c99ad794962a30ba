/** Copying a run of values into a ring, one position after the other or as the one or two
    contiguous block copies the code makes. */
module RingCopy {
  import opened Arithmetic

  /** `vs` stored at positions `p`, `p + 1`, ... of a ring. */
  function Scatter<T>(n: nat, slots: seq<T>, p: nat, vs: seq<T>): (r: seq<T>)
    requires n >= 1 && |slots| == n
    ensures |r| == n
    decreases |vs|
  {
    if vs == [] then slots else Scatter(n, slots[Slot(n, p) := vs[0]], p + 1, vs[1..])
  }

  /** `vs` stored at consecutive indices from `i`. */
  function Block<T>(slots: seq<T>, i: nat, vs: seq<T>): (r: seq<T>)
    requires i + |vs| <= |slots|
    ensures |r| == |slots|
  {
    slots[..i] + vs + slots[i + |vs|..]
  }

  lemma {:induction false} ScatterConcat<T>(n: nat, slots: seq<T>, p: nat, xs: seq<T>, ys: seq<T>)
    requires n >= 1 && |slots| == n
    ensures Scatter(n, slots, p, xs + ys) == Scatter(n, Scatter(n, slots, p, xs), p + |xs|, ys)
    decreases |xs|
  {
    if xs == [] {
      assert xs + ys == ys;
    } else {
      ScatterConcat(n, slots[Slot(n, p) := xs[0]], p + 1, xs[1..], ys);
      assert (xs + ys)[1..] == xs[1..] + ys;
    }
  }

  lemma SlotSucc(n: nat, p: nat)
    requires n >= 1
    ensures Slot(n, p) + 1 < n ==> Slot(n, p + 1) == Slot(n, p) + 1
    ensures Slot(n, p) + 1 == n ==> Slot(n, p + 1) == 0
  {
    var d, r := p / n, p % n;
    assert p == n * d + r;
    if r + 1 < n {
      ModUnique(n, p + 1, d, r + 1);
    } else {
      ModUnique(n, p + 1, d + 1, 0);
    }
  }

  lemma BlockStep<T>(slots: seq<T>, i: nat, vs: seq<T>)
    requires vs != [] && i + |vs| <= |slots|
    ensures Block(slots, i, vs) == Block(slots[i := vs[0]], i + 1, vs[1..])
  {
  }

  /** Up to the end of the ring the positions are one block. */
  lemma {:induction false} ScatterIsBlock<T>(n: nat, slots: seq<T>, p: nat, vs: seq<T>)
    requires n >= 1 && |slots| == n && Slot(n, p) + |vs| <= n
    ensures Scatter(n, slots, p, vs) == Block(slots, Slot(n, p), vs)
    decreases |vs|
  {
    if vs == [] {
      assert Block(slots, Slot(n, p), vs) == slots;
    } else {
      BlockStep(slots, Slot(n, p), vs);
      if |vs| == 1 {
        assert Block(slots[Slot(n, p) := vs[0]], Slot(n, p) + 1, vs[1..]) == slots[Slot(n, p) := vs[0]];
      } else {
        SlotSucc(n, p);
        ScatterIsBlock(n, slots[Slot(n, p) := vs[0]], p + 1, vs[1..]);
      }
    }
  }

  lemma {:induction false} SlotAdvance(n: nat, p: nat, k: nat)
    requires n >= 1 && Slot(n, p) + k <= n
    ensures Slot(n, p + k) == if Slot(n, p) + k == n then 0 else Slot(n, p) + k
  {
    if k > 0 {
      SlotAdvance(n, p, k - 1);
      SlotSucc(n, p + (k - 1));
    }
  }

  /** Once `xs` have been stored, what remains is to store `ys` after them. */
  lemma ScatterRest<T>(n: nat, slots: seq<T>, filled: seq<T>, p: nat, q: nat, xs: seq<T>, ys: seq<T>)
    requires n >= 1 && |slots| == n == |filled| && q == p + |xs|
    requires Scatter(n, slots, p, xs) == filled
    ensures Scatter(n, slots, p, xs + ys) == Scatter(n, filled, q, ys)
  {
    ScatterConcat(n, slots, p, xs, ys);
  }

  lemma ScatterFromStart<T>(n: nat, filled: seq<T>, q: nat, ys: seq<T>)
    requires n >= 1 && |filled| == n && |ys| <= n && Slot(n, q) == 0
    ensures Scatter(n, filled, q, ys) == Block(filled, 0, ys)
  {
    ScatterIsBlock(n, filled, q, ys);
  }

  /** Past the end it is two blocks: the rest of the ring, then its beginning. */
  lemma ScatterIsTwoBlocks<T>(n: nat, slots: seq<T>, p: nat, xs: seq<T>, ys: seq<T>)
    requires n >= 1 && |slots| == n && |ys| <= n && Slot(n, p) + |xs| == n
    ensures Scatter(n, slots, p, xs + ys) == Block(Block(slots, Slot(n, p), xs), 0, ys)
  {
    var filled, q := Block(slots, Slot(n, p), xs), p + |xs|;
    ScatterIsBlock(n, slots, p, xs);
    SlotAdvance(n, p, |xs|);
    ScatterRest(n, slots, filled, p, q, xs, ys);
    ScatterFromStart(n, filled, q, ys);
  }

  lemma BlockSnoc<T>(slots: seq<T>, i: nat, vs: seq<T>, k: nat)
    requires k < |vs| && i + |vs| <= |slots|
    ensures Block(slots, i, vs[..k])[i + k := vs[k]] == Block(slots, i, vs[..k + 1])
  {
  }

  /** `copy_nonoverlapping`: the values land at `dst` and nothing else moves. */
  method CopyBlock<T>(buffer: array<T>, dst: nat, values: seq<T>)
    requires dst + |values| <= buffer.Length
    modifies buffer
    ensures buffer[..] == Block(old(buffer[..]), dst, values)
  {
    for i := 0 to |values|
      invariant buffer[..] == Block(old(buffer[..]), dst, values[..i])
    {
      BlockSnoc(old(buffer[..]), dst, values, i);
      ghost var before := buffer[..];
      buffer[dst + i] := values[i];
      assert buffer[..] == before[dst + i := values[i]];
    }
    assert values[..|values|] == values;
  }

  /** The one- or two-copy store of `write_all` is the position-by-position one. */
  method CopyIntoRing<T>(k: nat, buffer: array<T>, p: nat, values: seq<T>)
    requires buffer.Length == Pow2(k) && |values| <= Pow2(k)
    modifies buffer
    ensures buffer[..] == Scatter(Pow2(k), old(buffer[..]), p, values)
  {
    var n := Pow2(k);
    var startIndex := MaskedIndex(k, p);
    var endIndex := startIndex + |values|;
    if endIndex <= n {
      ScatterIsBlock(n, buffer[..], p, values);
      CopyBlock(buffer, startIndex, values);
    } else {
      var firstPartLen := n - startIndex;
      assert values == values[..firstPartLen] + values[firstPartLen..];
      ScatterIsTwoBlocks(n, buffer[..], p, values[..firstPartLen], values[firstPartLen..]);
      CopyBlock(buffer, startIndex, values[..firstPartLen]);
      CopyBlock(buffer, 0, values[firstPartLen..]);
    }
  }
}
