/** A lossless session on memory that something else left behind: another mode, or an
    initialisation that does not store the head. The consumer-first order is always sound;
    the producer-first order is sound exactly when the left-over cursors are near. */
module LosslessHandOver {
  import opened Arithmetic
  import opened Words
  import opened LosslessMachine
  import opened LosslessSafety
  import opened LosslessFifo
  import opened LosslessCalls

  /** From whatever another mode left behind (any tail, any head, any slots, any local
      state) a consumer join and then a producer join start an empty lossless session.
      The session's history of head loads begins at the hand-over. */
  lemma HandOver(c: Config, s: State)
    requires c.Valid() && |s.slots| == c.n && Sized(c.words, s.slots)
    requires |s.log| == s.tail == s.syncSeen && Sized(c.words, s.log)
    ensures ValidRun(c, s, [JoinLoad, JoinStore, Restart(s.tail)])
    ensures var t := Exec(c, s, [JoinLoad, JoinStore, Restart(s.tail)]);
            && Inv(c, t) && t.cons.pc.Idle? && Abstract(t) == Fifo([], [], [])
            && t.tail == t.head == s.tail && t.slots == s.slots
  {
    var s1 := Step(c, s, JoinLoad);
    var s2 := Step(c, s1, JoinStore);
    var s3 := Step(c, s2, Restart(s.tail));
    RunOne(c, s2, Restart(s.tail));
    var acts := [JoinLoad, JoinStore, Restart(s.tail)];
    assert acts[1..] == [JoinStore, Restart(s.tail)];
    assert acts[1..][1..] == [Restart(s.tail)];
    assert Exec(c, s, acts) == s3;
    assert s3.log[s3.cons.start..s3.cons.head] == [];
  }

  // ------------------------------------------------------------- producer first

  /** The producer has joined first, on whatever tail, head and slots it found; there has
      been no consumer yet. `log` is what was published before, were it of interest. */
  function ProducerFirst(tail: nat, head: nat, slots: seq<Element>, log: seq<Element>): State {
    State(tail, head, slots, Producer(tail, 0, Ready, head), Consumer(head, 0, Absent, head, []), log, [], head)
  }

  /** The current consumer session has taken exactly the published values from its join on. */
  ghost predicate TookPublished(s: State) {
    var from, to := s.cons.start, s.cons.start + |s.cons.out|;
    && s.cons.head == to
    && (s.cons.out == [] || (to <= |s.log| && s.cons.out == s.log[from..to]))
  }

  ghost predicate AlwaysTakesPublished(c: Config, s: State) {
    forall acts :: ValidRun(c, s, acts) ==> TookPublished(Exec(c, s, acts))
  }

  // The good half. What was published before the join is never read again, so the past may
  // be taken to be what the slots happen to hold, and then the invariant holds.

  /** The same state with another past. */
  function WithPast(s: State, past: seq<Element>): State
    requires |past| <= |s.log|
  {
    s.(log := past + s.log[|past|..])
  }

  lemma ConsumerStepIgnoresPast(c: Config, s: State, past: seq<Element>, a: Action)
    requires |past| <= |s.log| && Enabled(c, s, a) && IsConsumerAction(a)
    ensures Enabled(c, WithPast(s, past), a) && Step(c, s, a).log == s.log
    ensures Step(c, WithPast(s, past), a) == WithPast(Step(c, s, a), past)
  {
  }

  lemma StepIgnoresPast(c: Config, s: State, past: seq<Element>, a: Action)
    requires |past| <= |s.log| && Enabled(c, s, a)
    ensures Enabled(c, WithPast(s, past), a) && |past| <= |Step(c, s, a).log|
    ensures Step(c, WithPast(s, past), a) == WithPast(Step(c, s, a), past)
  {
    if IsConsumerAction(a) {
      ConsumerStepIgnoresPast(c, s, past, a);
    }
  }

  lemma {:induction false} RunIgnoresPast(c: Config, s: State, past: seq<Element>, acts: seq<Action>)
    requires |past| <= |s.log| && ValidRun(c, s, acts)
    ensures ValidRun(c, WithPast(s, past), acts) && |past| <= |Exec(c, s, acts).log|
    ensures Exec(c, WithPast(s, past), acts) == WithPast(Exec(c, s, acts), past)
    decreases |acts|
  {
    if acts != [] {
      StepIgnoresPast(c, s, past, acts[0]);
      RunIgnoresPast(c, Step(c, s, acts[0]), past, acts[1..]);
    }
  }

  /** A consumer that joins after position `p` never looks below it. */
  ghost predicate JoinsAfter(s: State, p: nat) {
    && p <= s.tail
    && (s.cons.pc.Joining? ==> p <= s.cons.pc.newHead)
    && (s.cons.out == [] || p <= s.cons.start)
    && (s.cons.pc.Absent? || s.cons.pc.Joining? || p <= s.cons.start)
  }

  lemma StepJoinsAfter(c: Config, s: State, p: nat, a: Action)
    requires Inv(c, s) && JoinsAfter(s, p) && Enabled(c, s, a)
    ensures JoinsAfter(Step(c, s, a), p)
  {
  }

  lemma {:induction false} RunJoinsAfter(c: Config, s: State, p: nat, acts: seq<Action>)
    requires Inv(c, s) && JoinsAfter(s, p) && ValidRun(c, s, acts)
    ensures JoinsAfter(Exec(c, s, acts), p)
    decreases |acts|
  {
    if acts != [] {
      StepJoinsAfter(c, s, p, acts[0]);
      StepKeepsInv(c, s, acts[0]);
      RunJoinsAfter(c, Step(c, s, acts[0]), p, acts[1..]);
    }
  }

  lemma PastIsNotRead(t: State, past: seq<Element>)
    requires |past| <= |t.log| && TookPublished(WithPast(t, past))
    requires t.cons.out == [] || |past| <= t.cons.start
    ensures TookPublished(t)
  {
    var w, from, to := WithPast(t, past), t.cons.start, t.cons.start + |t.cons.out|;
    if t.cons.out != [] {
      assert w.log[from..to] == t.log[from..to];
    }
  }

  lemma RunTakesPublished(c: Config, s: State, acts: seq<Action>)
    requires Inv(c, s) && ValidRun(c, s, acts)
    ensures TookPublished(Exec(c, s, acts))
  {
    RunKeepsInv(c, s, acts);
  }

  /** What the slots hold for each of the first `tail` positions. */
  function SlotPast(n: nat, slots: seq<Element>, tail: nat): (past: seq<Element>)
    requires n >= 1 && |slots| == n
    ensures |past| == tail && forall q: nat :: q < tail ==> past[q] == slots[Slot(n, q)]
  {
    seq(tail, q requires 0 <= q < tail => slots[Slot(n, q)])
  }

  lemma NearHeadHasInv(c: Config, tail: nat, head: nat, slots: seq<Element>)
    requires c.Valid() && RingOf(c.n, c.words, slots) && head <= tail <= head + c.n
    ensures Inv(c, ProducerFirst(tail, head, slots, SlotPast(c.n, slots, tail)))
  {
  }

  lemma NearHeadIsSound(c: Config, tail: nat, head: nat, slots: seq<Element>, log: seq<Element>, acts: seq<Action>)
    requires c.Valid() && RingOf(c.n, c.words, slots) && |log| == tail
    requires head <= tail <= head + c.n
    requires ValidRun(c, ProducerFirst(tail, head, slots, log), acts)
    ensures TookPublished(Exec(c, ProducerFirst(tail, head, slots, log), acts))
  {
    var s := ProducerFirst(tail, head, slots, log);
    var past := SlotPast(c.n, slots, tail);
    var s1 := ProducerFirst(tail, head, slots, past);
    assert past + log[tail..] == past;
    NearHeadHasInv(c, tail, head, slots);
    RunIgnoresPast(c, s, past, acts);
    RunTakesPublished(c, s1, acts);
    RunJoinsAfter(c, s1, tail, acts);
    PastIsNotRead(Exec(c, s, acts), past);
  }

  // The bad half. The full test compares for equality, so it never fires before the ring
  // has been overrun.

  /** `m` pushes that stay on one side of the position where the full test fires. */
  lemma {:induction false} PushUnchecked(c: Config, s: State, v: Element, m: nat) returns (acts: seq<Action>)
    requires RingOf(c.n, c.words, s.slots) && s.prod.pc.Ready? && s.prod.seen <= s.head && |v| == c.words
    requires s.prod.tail + m <= s.head + c.n || s.head + c.n < s.prod.tail
    ensures ValidRun(c, s, acts)
    ensures var t := Exec(c, s, acts);
            && RingOf(c.n, c.words, t.slots) && t.prod.pc.Ready? && t.prod.seen <= t.head
            && t.prod.tail == s.prod.tail + m && |t.staged| == |s.staged| + m && t.staged[..|s.staged|] == s.staged
            && t.cons == s.cons && t.head == s.head && t.tail == s.tail && t.log == s.log
            && (m > 0 ==> t.slots[Slot(c.n, t.prod.tail - 1)] == v && t.staged[|t.staged| - 1] == v)
    decreases m
  {
    if m == 0 {
      acts := [];
    } else {
      var first := PushUnchecked(c, s, v, m - 1);
      var t := Exec(c, s, first);
      PushIsRun(c, t, v);
      acts := first + PushActs(c, t, v);
      RunConcat(c, s, first, PushActs(c, t, v));
    }
  }

  /** The consumer joins, the producer syncs, and one value is popped. */
  lemma JoinSyncPop(c: Config, s: State) returns (acts: seq<Action>)
    requires RingOf(c.n, c.words, s.slots) && s.prod.pc.Ready? && s.tail < s.prod.tail
    ensures ValidRun(c, s, acts)
    ensures var t := Exec(c, s, acts);
            && t.cons.start == s.tail && t.cons.out == [s.slots[Slot(c.n, s.tail)]]
            && t.log == s.log + s.staged
  {
    var s1 := Step(c, s, JoinLoad);
    var s2 := Step(c, s1, JoinStore);
    var s3 := Step(c, s2, Sync);
    RunOne(c, s, JoinLoad);
    RunOne(c, s1, JoinStore);
    RunOne(c, s2, Sync);
    PopIsRun(c, s3);
    RunConcat(c, s, [JoinLoad], [JoinStore]);
    RunConcat(c, s, [JoinLoad] + [JoinStore], [Sync]);
    RunConcat(c, s, [JoinLoad] + [JoinStore] + [Sync], PopActs(c, s3));
    acts := [JoinLoad] + [JoinStore] + [Sync] + PopActs(c, s3);
  }

  /** One value, then `n` others: the last of them lands in the slot of the first, which the
      consumer then takes for the first. */
  lemma FarHeadLosesData(c: Config, tail: nat, head: nat, slots: seq<Element>, log: seq<Element>)
      returns (acts: seq<Action>)
    requires c.Valid() && RingOf(c.n, c.words, slots) && |log| == tail
    requires tail < head || head + c.n < tail
    ensures ValidRun(c, ProducerFirst(tail, head, slots, log), acts)
    ensures !TookPublished(Exec(c, ProducerFirst(tail, head, slots, log), acts))
  {
    var s := ProducerFirst(tail, head, slots, log);
    var first, second := Filled(c.words, 1), Filled(c.words, 2);
    var xs := PushUnchecked(c, s, first, 1);
    var s1 := Exec(c, s, xs);
    var ys := PushUnchecked(c, s1, second, c.n);
    var s2 := Exec(c, s1, ys);
    SlotPeriodic(c.n, tail);
    var zs := JoinSyncPop(c, s2);
    RunConcat(c, s, xs, ys);
    RunConcat(c, s, xs + ys, zs);
    acts := xs + ys + zs;
    var t := Exec(c, s, acts);
    assert s2.staged[0] == s2.staged[..1][0] == first;
    assert t.log[tail] == first && t.cons.out[0] == second;
    assert t.cons.out != t.log[tail..tail + 1];
  }

  /** A producer may join before the consumer if and only if the left-over tail is at or
      after the left-over head by at most one ring. Then every later run is faithful, on any
      slot contents; otherwise some run hands out a value that was not published there. */
  lemma ProducerFirstIsExact(c: Config, tail: nat, head: nat, slots: seq<Element>, log: seq<Element>)
    requires c.Valid() && RingOf(c.n, c.words, slots) && |log| == tail
    ensures AlwaysTakesPublished(c, ProducerFirst(tail, head, slots, log)) <==> head <= tail <= head + c.n
  {
    var s := ProducerFirst(tail, head, slots, log);
    if head <= tail <= head + c.n {
      forall acts | ValidRun(c, s, acts)
        ensures TookPublished(Exec(c, s, acts))
      {
        NearHeadIsSound(c, tail, head, slots, log, acts);
      }
    } else {
      var acts := FarHeadLosesData(c, tail, head, slots, log);
    }
  }
}
