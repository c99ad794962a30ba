/** Whole calls as uninterrupted runs of the lossless machine, every load fresh, and what a
    full channel means. `LosslessSchedules` is about calls among the other party's steps. */
module LosslessCalls {
  import opened Arithmetic
  import opened Words
  import opened LosslessMachine
  import opened LosslessSafety
  import opened LosslessFifo

  // ------------------------------------------------------------- slot stores

  /** The remaining words of a slot store, by `push` or by a reservation alike. */
  lemma {:induction false} WriteWords(c: Config, s: State, a: Action, k: nat)
    requires RingOf(c.n, c.words, s.slots)
    requires (s.prod.pc.Writing? && a == PushWord) || (s.prod.pc.Filling? && a == FillWord)
    requires |s.prod.pc.value| == c.words
    requires s.prod.pc.done + k == c.words
    ensures ValidRun(c, s, Repeat(a, k))
    ensures var i, v, d := Slot(c.n, WriteCursor(s.prod)), s.prod.pc.value, s.prod.pc.done;
            Exec(c, s, Repeat(a, k))
            == s.(slots := s.slots[i := s.slots[i][..d] + v[d..]],
                  prod := s.prod.(pc := s.prod.pc.(done := c.words)))
    decreases k
  {
    var i, v, d := Slot(c.n, WriteCursor(s.prod)), s.prod.pc.value, s.prod.pc.done;
    if k == 0 {
      assert s.slots[i][..d] + v[d..] == s.slots[i];
      assert s.slots[i := s.slots[i]] == s.slots;
    } else {
      var t := AfterWriteWord(c, s);
      WriteWords(c, t, a, k - 1);
      assert Repeat(a, k)[1..] == Repeat(a, k - 1);
      WordStored(s.slots[i], v, d);
      UpdateTwice(s.slots, i, t.slots[i], s.slots[i][..d] + v[d..]);
    }
  }

  // -------------------------------------------------------------------- push

  /** The effect of one whole `push` with a fresh head load. */
  function PushCall(c: Config, s: State, v: Element): State
    requires c.n >= 1 && |s.slots| == c.n
  {
    if TestsFull(c, s, s.head) then s.(prod := s.prod.(seen := s.head))
    else s.(slots := s.slots[Slot(c.n, s.prod.tail) := v],
            prod := Producer(s.prod.tail + 1, s.prod.written + 1, Ready, s.head),
            staged := s.staged + [v])
  }

  function PushActs(c: Config, s: State, v: Element): seq<Action> {
    if TestsFull(c, s, s.head) then [PushLoad(v, s.head)]
    else [PushLoad(v, s.head)] + (Repeat(PushWord, c.words) + [PushEnd])
  }

  lemma PushIsRun(c: Config, s: State, v: Element)
    requires RingOf(c.n, c.words, s.slots) && s.prod.pc.Ready? && |v| == c.words && s.prod.seen <= s.head
    ensures ValidRun(c, s, PushActs(c, s, v)) && Exec(c, s, PushActs(c, s, v)) == PushCall(c, s, v)
    ensures RingOf(c.n, c.words, PushCall(c, s, v).slots)
  {
    RunOne(c, s, PushLoad(v, s.head));
    if !TestsFull(c, s, s.head) {
      var t := Step(c, s, PushLoad(v, s.head));
      var i := Slot(c.n, t.prod.tail);
      WriteWords(c, t, PushWord, c.words);
      assert t.slots[i][..0] + v[0..] == v;
      var u := Exec(c, t, Repeat(PushWord, c.words));
      RunOne(c, u, PushEnd);
      RunConcat(c, t, Repeat(PushWord, c.words), [PushEnd]);
      RunConcat(c, s, [PushLoad(v, s.head)], Repeat(PushWord, c.words) + [PushEnd]);
    }
  }

  // --------------------------------------------------------------------- pop

  /** The effect of one whole `pop`. */
  function PopCall(c: Config, s: State): State
    requires c.n >= 1 && |s.slots| == c.n
  {
    if TestsEmpty(s) then s else Advance(c, s, s.slots[Slot(c.n, s.cons.head)])
  }

  function PopActs(c: Config, s: State): seq<Action> {
    if TestsEmpty(s) then [PopLoad] else [PopLoad] + (Repeat(PopRead, c.words) + [PopEnd])
  }

  lemma {:induction false} ReadWords(c: Config, s: State, k: nat)
    requires RingOf(c.n, c.words, s.slots) && s.cons.pc.Reading? && |s.cons.pc.buf| + k == c.words
    requires s.cons.pc.buf == s.slots[Slot(c.n, s.cons.head)][..|s.cons.pc.buf|]
    ensures ValidRun(c, s, Repeat(PopRead, k))
    ensures Exec(c, s, Repeat(PopRead, k)) == s.(cons := s.cons.(pc := Reading(s.slots[Slot(c.n, s.cons.head)])))
    decreases k
  {
    if k == 0 {
      assert s.cons.pc.buf == s.slots[Slot(c.n, s.cons.head)];
    } else {
      ReadWords(c, Step(c, s, PopRead), k - 1);
      assert Repeat(PopRead, k)[1..] == Repeat(PopRead, k - 1);
    }
  }

  lemma PopIsRun(c: Config, s: State)
    requires RingOf(c.n, c.words, s.slots) && s.cons.pc.Idle?
    ensures ValidRun(c, s, PopActs(c, s)) && Exec(c, s, PopActs(c, s)) == PopCall(c, s)
  {
    RunOne(c, s, PopLoad);
    if !TestsEmpty(s) {
      var t := Step(c, s, PopLoad);
      ReadWords(c, t, c.words);
      var u := Exec(c, t, Repeat(PopRead, c.words));
      RunOne(c, u, PopEnd);
      RunConcat(c, t, Repeat(PopRead, c.words), [PopEnd]);
      RunConcat(c, s, [PopLoad], Repeat(PopRead, c.words) + [PopEnd]);
    }
  }

  /** A pop that finds something hands out the value published at its head. */
  lemma PopCallKeepsInv(c: Config, s: State)
    requires Inv(c, s) && s.cons.pc.Idle?
    ensures Inv(c, PopCall(c, s))
    ensures !TestsEmpty(s) ==> PopCall(c, s) == Advance(c, s, s.log[s.cons.head])
  {
    PopIsRun(c, s);
    RunKeepsInv(c, s, PopActs(c, s));
    if !TestsEmpty(s) {
      assert s.slots[Slot(c.n, s.cons.head)] == Expected(s, s.cons.head);
    }
  }

  // ------------------------------------------------------------ reservations

  /** One value written into a live reservation, by `write_next` or as part of `write_all`. */
  function FillCall(c: Config, s: State, v: Element): State
    requires c.n >= 1 && |s.slots| == c.n && s.prod.pc.Reserved?
  {
    s.(slots := s.slots[Slot(c.n, s.prod.tail + |s.prod.pc.vals|) := v],
       prod := s.prod.(pc := Reserved(s.prod.pc.count, s.prod.pc.vals + [v])))
  }

  function FillActs(c: Config, v: Element): seq<Action> {
    [FillStart(v)] + (Repeat(FillWord, c.words) + [FillEnd])
  }

  lemma FillIsRun(c: Config, s: State, v: Element)
    requires RingOf(c.n, c.words, s.slots) && |v| == c.words
    requires s.prod.pc.Reserved? && |s.prod.pc.vals| < s.prod.pc.count
    ensures ValidRun(c, s, FillActs(c, v)) && Exec(c, s, FillActs(c, v)) == FillCall(c, s, v)
    ensures RingOf(c.n, c.words, FillCall(c, s, v).slots)
  {
    RunOne(c, s, FillStart(v));
    var t := Step(c, s, FillStart(v));
    var i := Slot(c.n, WriteCursor(t.prod));
    WriteWords(c, t, FillWord, c.words);
    assert t.slots[i][..0] + v[0..] == v;
    var u := Exec(c, t, Repeat(FillWord, c.words));
    assert u == t.(slots := FillCall(c, s, v).slots,
                    prod := s.prod.(pc := Filling(s.prod.pc.count, s.prod.pc.vals, v, c.words)));
    RunOne(c, u, FillEnd);
    RunConcat(c, t, Repeat(FillWord, c.words), [FillEnd]);
    RunConcat(c, s, [FillStart(v)], Repeat(FillWord, c.words) + [FillEnd]);
  }

  lemma FillCallKeepsInv(c: Config, s: State, v: Element)
    requires Inv(c, s) && s.prod.pc.Reserved? && |s.prod.pc.vals| < s.prod.pc.count && |v| == c.words
    ensures Inv(c, FillCall(c, s, v))
  {
    FillIsRun(c, s, v);
    RunKeepsInv(c, s, FillActs(c, v));
  }

  function FillAll(c: Config, s: State, vs: seq<Element>): (t: State)
    requires c.n >= 1 && |s.slots| == c.n && s.prod.pc.Reserved?
    ensures |t.slots| == c.n && t.prod.pc.Reserved?
    decreases |vs|
  {
    if vs == [] then s else FillAll(c, FillCall(c, s, vs[0]), vs[1..])
  }

  lemma {:induction false} FilledValues(c: Config, s: State, vs: seq<Element>)
    requires c.n >= 1 && |s.slots| == c.n && s.prod.pc.Reserved?
    ensures var t := FillAll(c, s, vs);
            && t == s.(slots := t.slots, prod := s.prod.(pc := Reserved(s.prod.pc.count, s.prod.pc.vals + vs)))
    decreases |vs|
  {
    if vs == [] {
      assert s.prod.pc.vals + [] == s.prod.pc.vals;
    } else {
      FilledValues(c, FillCall(c, s, vs[0]), vs[1..]);
      assert s.prod.pc.vals + [vs[0]] + vs[1..] == s.prod.pc.vals + vs;
    }
  }

  lemma {:induction false} FillAllKeepsInv(c: Config, s: State, vs: seq<Element>)
    requires Inv(c, s) && s.prod.pc.Reserved? && |s.prod.pc.vals| + |vs| <= s.prod.pc.count && Sized(c.words, vs)
    ensures Inv(c, FillAll(c, s, vs))
    decreases |vs|
  {
    if vs != [] {
      FillCallKeepsInv(c, s, vs[0]);
      FillAllKeepsInv(c, FillCall(c, s, vs[0]), vs[1..]);
    }
  }

  // ---------------------------------------------------------------- fullness

  /** When a push with a fresh head load reports `Full` while the consumer is between
      calls, at least `n - burst + 1` pushed values really are unpopped. */
  lemma FullIsHonest(c: Config, s: State)
    requires Inv(c, s) && s.cons.pc.Idle? && TestsFull(c, s, s.head)
    ensures var f := Abstract(s); |f.queue| + |f.staged| >= c.n - c.burst + 1
    ensures s.prod.tail - s.cons.head == c.n - s.cons.items
  {
  }

  /** After any run: with the consumer between calls, `Full` on a fresh load is honest, and
      nothing is popped from an empty queue. */
  lemma AnswersAreAlwaysHonest(c: Config, s: State, acts: seq<Action>)
    requires c.Valid() && Init(c, s) && ValidRun(c, s, acts)
    ensures var t := Exec(c, s, acts);
            Inv(c, t) && (t.cons.pc.Idle? ==>
              var f := Abstract(t);
              && (TestsFull(c, t, t.head) ==> |f.queue| + |f.staged| >= c.n - c.burst + 1)
              && (TestsEmpty(t) <==> f.queue == []))
  {
    var t := Exec(c, s, acts);
    InitInv(c, s);
    RunKeepsInv(c, s, acts);
    if t.cons.pc.Idle? {
      NoneIffQueueEmpty(c, t);
      if TestsFull(c, t, t.head) {
        FullIsHonest(c, t);
      }
    }
  }

  /** The state after `j` whole pops and nothing else. */
  function AfterPops(c: Config, s: State, j: nat): (t: State)
    requires c.n >= 1 && |s.slots| == c.n
    ensures |t.slots| == c.n
    decreases j
  {
    if j == 0 then s else AfterPops(c, PopCall(c, s), j - 1)
  }

  /** `t` is `s` after the consumer has taken the next `j` published values. */
  ghost predicate TookNext(c: Config, s: State, t: State, j: nat) {
    && Inv(c, t) && t.cons.pc.Idle? && t.prod == s.prod && t.log == s.log && t.tail == s.tail
    && t.cons.head == s.cons.head + j <= |s.log|
    && t.cons.out == s.cons.out + s.log[s.cons.head..s.cons.head + j]
  }

  lemma PopTakesNext(c: Config, s: State, t: State, j: nat)
    requires TookNext(c, s, t, j) && !TestsEmpty(t)
    ensures TookNext(c, s, PopCall(c, t), j + 1)
    ensures PopCall(c, t).cons.items == (if t.cons.items + 1 >= c.burst then 0 else t.cons.items + 1)
  {
    var h := s.cons.head;
    PopCallKeepsInv(c, t);
    assert s.log[h..h + (j + 1)] == s.log[h..h + j] + [s.log[h + j]];
    assert s.cons.out + s.log[h..h + j] + [s.log[h + j]] == s.cons.out + s.log[h..h + (j + 1)];
  }

  /** How far the consumer's publication of its head has got after `j` of the due pops. */
  ghost predicate DueAfter(c: Config, s: State, t: State, j: nat) {
    if j < c.burst - s.cons.items then t.head == s.head && t.cons.items == s.cons.items + j
    else t.head == s.cons.head + j && t.cons.items == 0
  }

  lemma PopIsDue(c: Config, s: State, t: State, j: nat)
    requires Inv(c, s) && Inv(c, t) && t.cons.pc.Idle? && !TestsEmpty(t) && t.cons.head == s.cons.head + j
    requires DueAfter(c, s, t, j) && j + 1 <= c.burst - s.cons.items
    ensures DueAfter(c, s, PopCall(c, t), j + 1)
  {
  }

  lemma NextPop(c: Config, s: State, t: State, i: nat)
    requires Inv(c, s) && s.cons.head + i < s.tail && i < c.burst - s.cons.items
    requires TookNext(c, s, t, i) && DueAfter(c, s, t, i)
    ensures TookNext(c, s, PopCall(c, t), i + 1) && DueAfter(c, s, PopCall(c, t), i + 1)
  {
    PopTakesNext(c, s, t, i);
    PopIsDue(c, s, t, i);
  }

  /** After `i` of the `j` due pops the other `k` do as the first. */
  lemma {:induction false} PopsTakeNext(c: Config, s: State, t: State, i: nat, k: nat, j: nat)
    requires Inv(c, s) && i + k == j <= c.burst - s.cons.items && s.cons.head + j <= s.tail
    requires TookNext(c, s, t, i) && DueAfter(c, s, t, i)
    ensures TookNext(c, s, AfterPops(c, t, k), j) && DueAfter(c, s, AfterPops(c, t, k), j)
    decreases k
  {
    if k > 0 {
      NextPop(c, s, t, i);
      PopsTakeNext(c, s, PopCall(c, t), i + 1, k - 1, j);
    }
  }

  lemma NoPops(c: Config, s: State)
    requires Inv(c, s) && s.cons.pc.Idle?
    ensures TookNext(c, s, s, 0) && DueAfter(c, s, s, 0)
  {
    assert s.cons.out + s.log[s.cons.head..s.cons.head] == s.cons.out;
  }

  /** Fullness clears in bounded time: if the producer has also synced, the next
      `burst - items` pops all hand something out, none before the last of them makes
      room, and the last one does. */
  lemma FullClears(c: Config, s: State, j: nat)
    requires Inv(c, s) && s.cons.pc.Idle? && TestsFull(c, s, s.head) && s.prod.written == 0
    requires j <= c.burst - s.cons.items
    ensures var t := AfterPops(c, s, j);
            && TookNext(c, s, t, j)
            && (j < c.burst - s.cons.items ==> !TestsEmpty(t) && TestsFull(c, t, t.head))
            && (j == c.burst - s.cons.items ==> !TestsFull(c, t, t.head) && t.cons.items == 0)
  {
    NoPops(c, s);
    PopsTakeNext(c, s, s, 0, j, j);
  }
}
