/** The margin is exact. A headless configuration delivers only published values in every
    run if and only if the consumer's window and the producer's unsynced writes together
    fit the ring (or the window is empty and nothing is ever delivered). */
module HeadlessMargin {
  import opened Arithmetic
  import opened Words
  import opened HeadlessMachine
  import opened HeadlessSafety
  import opened HeadlessCalls

  ghost predicate AllFaithful(s: State) {
    forall id :: 0 <= id < |s.cons| ==> Faithful(s.log, s.cons[id])
  }

  /** No interleaving from any session start ever hands out a torn, stale or lapped value. */
  ghost predicate DeliversOnlyPublished(c: Config) {
    forall s, acts :: Init(c, s) && ValidRun(c, s, acts) ==> AllFaithful(Exec(c, s, acts))
  }

  /** With an empty window no consumer ever gets past the first tail load. */
  ghost predicate Mute(s: State) {
    forall id :: 0 <= id < |s.cons| ==> s.cons[id].out == [] && !s.cons[id].pc.Reading?
  }

  lemma {:induction false} EmptyWindowIsMute(c: Config, s: State, acts: seq<Action>)
    requires c.margin == 0 && Mute(s) && ValidRun(c, s, acts)
    ensures Mute(Exec(c, s, acts))
    decreases |acts|
  {
    if acts != [] {
      assert Mute(Step(c, s, acts[0]));
      EmptyWindowIsMute(c, Step(c, s, acts[0]), acts[1..]);
    }
  }

  lemma MarginSuffices(c: Config)
    requires c.Valid() && (c.margin == 0 || c.margin + c.limit <= c.n)
    ensures DeliversOnlyPublished(c)
  {
    forall s, acts | Init(c, s) && ValidRun(c, s, acts)
      ensures AllFaithful(Exec(c, s, acts))
    {
      if c.margin == 0 {
        EmptyWindowIsMute(c, s, acts);
      } else {
        InitSafe(c, s);
        RunKeepsSafe(c, s, acts);
      }
    }
  }

  // -------------------------------------------------- the run that breaks the rest

  /** `j` values pushed and synced one by one. */
  lemma {:induction false} PublishMany(c: Config, s: State, v: Element, j: nat) returns (acts: seq<Action>)
    requires c.Valid() && RingOf(c.n, c.words, s.slots) && s.prod == Producer(s.tail, 0, Ready) && |v| == c.words
    requires |s.log| == s.tail && s.staged == []
    ensures ValidRun(c, s, acts)
    ensures var t := Exec(c, s, acts);
            && RingOf(c.n, c.words, t.slots) && t.prod == Producer(t.tail, 0, Ready) && t.staged == []
            && t.tail == |t.log| == s.tail + j && s.log <= t.log && t.cons == s.cons
            && forall q :: s.tail <= q < t.tail ==> t.log[q] == v
    decreases j
  {
    if j == 0 {
      acts := [];
    } else {
      var t := PushCall(c, s, v);
      PushIsRun(c, s, v);
      RunOne(c, t, Sync);
      RunConcat(c, s, PushActs(c, v), [Sync]);
      var u := Step(c, t, Sync);
      var rest := PublishMany(c, u, v, j - 1);
      acts := PushActs(c, v) + [Sync] + rest;
      RunConcat(c, s, PushActs(c, v) + [Sync], rest);
    }
  }

  /** `u` values pushed without reaching the limit stay unpublished but overwrite slots. */
  lemma {:induction false} StageMany(c: Config, s: State, v: Element, u: nat) returns (acts: seq<Action>)
    requires c.Valid() && RingOf(c.n, c.words, s.slots) && s.prod.pc.Ready? && |v| == c.words
    requires s.prod.written + u <= c.limit
    ensures ValidRun(c, s, acts)
    ensures var t := Exec(c, s, acts);
            && RingOf(c.n, c.words, t.slots) && t.prod == Producer(s.prod.tail + u, s.prod.written + u, Ready)
            && t.tail == s.tail && t.log == s.log && t.cons == s.cons
            && (u > 0 ==> t.slots[Slot(c.n, t.prod.tail - 1)] == v)
    decreases u
  {
    if u == 0 {
      acts := [];
    } else {
      var first := StageMany(c, s, v, u - 1);
      var t := Exec(c, s, first);
      PushIsRun(c, t, v);
      acts := first + PushActs(c, v);
      RunConcat(c, s, first, PushActs(c, v));
    }
  }

  function FreshState(c: Config): State {
    State(0, seq(c.n, _ => Filled(c.words, 0)), Producer(0, 0, Ready), [], 0, [], [], 0, 0)
  }

  /** A consumer has begun to read position 0 after `j` values were published. */
  lemma BeginReadingZero(c: Config, v: Element, j: nat) returns (acts: seq<Action>)
    requires c.Valid() && 1 <= j <= c.margin && |v| == c.words
    ensures ValidRun(c, FreshState(c), acts)
    ensures var t := Exec(c, FreshState(c), acts);
            && RingOf(c.n, c.words, t.slots) && t.prod == Producer(j, 0, Ready)
            && t.tail == |t.log| == j && t.log[0] == v
            && |t.cons| == 1 && t.cons[0].index == 0 && t.cons[0].interval == 1
            && t.cons[0].head == 0 && t.cons[0].out == [] && t.cons[0].pc == Reading([])
  {
    var s0 := FreshState(c);
    var s1 := Step(c, s0, Join(0, 1));
    RunOne(c, s0, Join(0, 1));
    NextModuloIsLeast(0, 0, 1);
    var xs := PublishMany(c, s1, v, j);
    RunConcat(c, s0, [Join(0, 1)], xs);
    RunOne(c, Exec(c, s1, xs), Load(0));
    acts := [Join(0, 1)] + xs + [Load(0)];
    RunConcat(c, s0, [Join(0, 1)] + xs, [Load(0)]);
  }

  /** One consumer begins to read position 0 inside its window; the producer, still within
      its unsynced limit, writes position `n` into the same slot; the recheck accepts. */
  lemma OversizedMarginFails(c: Config) returns (acts: seq<Action>)
    requires c.Valid() && c.margin >= 1 && c.margin + c.limit > c.n
    ensures Init(c, FreshState(c)) && ValidRun(c, FreshState(c), acts)
    ensures !AllFaithful(Exec(c, FreshState(c), acts))
  {
    var s0 := FreshState(c);
    var first, second := Filled(c.words, 1), Filled(c.words, 2);
    var published := if c.limit > c.n then 1 else c.n + 1 - c.limit;
    var xs := BeginReadingZero(c, first, published);
    var s1 := Exec(c, s0, xs);
    var ys := StageMany(c, s1, second, c.n + 1 - published);
    var s2 := Exec(c, s1, ys);
    RunConcat(c, s0, xs, ys);
    ModUnique(c.n, 0, 0, 0);
    ModUnique(c.n, c.n, 1, 0);
    ReadAndAccept(c, s2, 0);
    var zs := Repeat(Read(0), c.words) + [Check(0)];
    acts := xs + ys + zs;
    RunConcat(c, s0, xs + ys, zs);
    var d := Exec(c, s0, acts).cons[0].out;
    assert d[0] == Delivery(0, second);
  }

  /** Neither side is correct alone: `margin + limit <= n` is necessary and sufficient. */
  lemma MarginIsExact(c: Config)
    requires c.Valid()
    ensures DeliversOnlyPublished(c) <==> c.margin == 0 || c.margin + c.limit <= c.n
  {
    if c.margin == 0 || c.margin + c.limit <= c.n {
      MarginSuffices(c);
    } else {
      var acts := OversizedMarginFails(c);
      assert !DeliversOnlyPublished(c);
    }
  }

  /** The code's bounds sit exactly on that line for every capacity, so its reads are
      never torn or stale, and widening either bound by one would break it. */
  lemma CodeMarginIsTight(k: nat, words: nat)
    requires words >= 1
    ensures var c := CodeConfig(k, words);
            && c.Valid() && c.n == Pow2(k) && c.words == words
            && c.limit == (if c.n < 4 then 1 else c.n / 4) && c.margin == c.n - c.limit
            && DeliversOnlyPublished(c)
            && !DeliversOnlyPublished(c.(margin := c.margin + 1))
            && (k > 0 ==> !DeliversOnlyPublished(c.(limit := c.limit + 1)))
  {
    var c := CodeConfig(k, words);
    MarginIsExact(c);
    MarginIsExact(c.(margin := c.margin + 1));
    MarginIsExact(c.(limit := c.limit + 1));
    assert k > 0 ==> Pow2(k) >= 2;
  }

  /** The slot of position `tail + limit - n - 1` can really be lost: a reachable state has
      published it and overwritten its slot by unsynced pushes. One position later the
      window of `WindowIntactAlways` begins. */
  lemma WindowIsTight(k: nat, words: nat) returns (acts: seq<Action>)
    requires words >= 1
    ensures var c := CodeConfig(k, words); var s0 := FreshState(c);
            && Init(c, s0) && ValidRun(c, s0, acts)
            && var s := Exec(c, s0, acts);
               && |s.log| == s.tail == c.n + 1 - c.limit
               && s.tail + c.limit - c.n - 1 == 0
               && |s.slots| == c.n && s.prod.tail - s.tail == s.prod.written == c.limit
               && s.slots[Slot(c.n, 0)] != s.log[0]
  {
    var c := CodeConfig(k, words);
    var s0 := FreshState(c);
    var first, second := Filled(c.words, 1), Filled(c.words, 2);
    var xs := PublishMany(c, s0, first, c.n + 1 - c.limit);
    var s1 := Exec(c, s0, xs);
    var ys := StageMany(c, s1, second, c.limit);
    acts := xs + ys;
    RunConcat(c, s0, xs, ys);
    ModUnique(c.n, 0, 0, 0);
    ModUnique(c.n, c.n, 1, 0);
  }
}
