/** What the producer's calls do does not depend on the schedule: however the consumer's
    steps fall between theirs, and however stale their head loads are, the producer's side
    of the channel afterwards is determined by the calls alone. */
module LosslessSchedules {
  import opened Arithmetic
  import opened Words
  import opened LosslessMachine
  import opened LosslessSafety
  import opened LosslessFifo
  import opened LosslessCalls

  /** The producer's side of a state: its cursors, the tail and the logs, but neither the
      slots nor anything of the consumer's. */
  function Side(s: State): State {
    s.(head := 0, slots := [], cons := Consumer(0, 0, Absent, 0, []))
  }

  /** The producer's own guards. */
  predicate SideEnabled(c: Config, p: State, a: Action) {
    match a
    case PushLoad(v, _) => p.prod.pc.Ready? && |v| == c.words
    case PushWord => p.prod.pc.Writing? && p.prod.pc.done < c.words
    case PushEnd => p.prod.pc.Writing? && p.prod.pc.done == c.words
    case Sync => p.prod.pc.Ready?
    case Reserve(_, _) => p.prod.pc.Ready?
    case FillStart(v) => p.prod.pc.Reserved? && |p.prod.pc.vals| < p.prod.pc.count && |v| == c.words
    case FillWord => p.prod.pc.Filling? && p.prod.pc.done < c.words
    case FillEnd => p.prod.pc.Filling? && p.prod.pc.done == c.words
    case Commit(_) => p.prod.pc.Reserved?
    case Cancel => p.prod.pc.Reserved?
    case Restart(_) => true
    case _ => false
  }

  function WordDone(p: State): State
    requires p.prod.pc.Writing? || p.prod.pc.Filling?
  {
    p.(prod := p.prod.(pc := p.prod.pc.(done := p.prod.pc.done + 1)))
  }

  function SideStep(c: Config, p: State, a: Action): State
    requires SideEnabled(c, p, a)
  {
    match a
    case PushLoad(v, obs) => AfterPushLoad(c, p, v, obs)
    case PushEnd => AfterPushEnd(p)
    case Sync => AfterSync(p)
    case Reserve(count, obs) => AfterReserve(c, p, count, obs)
    case FillStart(v) => p.(prod := p.prod.(pc := Filling(p.prod.pc.count, p.prod.pc.vals, v, 0)))
    case FillEnd => p.(prod := p.prod.(pc := Reserved(p.prod.pc.count, p.prod.pc.vals + [p.prod.pc.value])))
    case Commit(always) => AfterCommit(c, p, always)
    case Cancel => p.(prod := p.prod.(pc := Ready))
    case Restart(obs) => AfterRestart(p, obs)
    case PushWord => WordDone(p)
    case FillWord => WordDone(p)
    case _ => p
  }

  predicate SideRun(c: Config, p: State, acts: seq<Action>)
    decreases |acts|
  {
    acts == [] || (SideEnabled(c, p, acts[0]) && SideRun(c, SideStep(c, p, acts[0]), acts[1..]))
  }

  function SideExec(c: Config, p: State, acts: seq<Action>): State
    requires SideRun(c, p, acts)
    decreases |acts|
  {
    if acts == [] then p else SideExec(c, SideStep(c, p, acts[0]), acts[1..])
  }

  /** The step, if it is the named party's. */
  function Mine(consumer: bool, a: Action): seq<Action> {
    if IsConsumerAction(a) == consumer then [a] else []
  }

  /** The steps one of the two parties takes in a schedule. */
  function ActsOf(consumer: bool, acts: seq<Action>): seq<Action> {
    if acts == [] then [] else Mine(consumer, acts[0]) + ActsOf(consumer, acts[1..])
  }

  lemma ConsumerStepKeepsSide(c: Config, s: State, a: Action)
    requires Enabled(c, s, a) && IsConsumerAction(a)
    ensures Side(Step(c, s, a)) == Side(s)
  {
  }

  lemma ProducerStepIsSideStep(c: Config, s: State, a: Action)
    requires Enabled(c, s, a) && !IsConsumerAction(a)
    ensures SideEnabled(c, Side(s), a) && Side(Step(c, s, a)) == SideStep(c, Side(s), a)
  {
  }

  /** In every schedule the producer's side moves as if the producer were alone. */
  lemma {:induction false} ScheduleIsIrrelevant(c: Config, s: State, acts: seq<Action>)
    requires ValidRun(c, s, acts)
    ensures SideRun(c, Side(s), ActsOf(false, acts))
    ensures SideExec(c, Side(s), ActsOf(false, acts)) == Side(Exec(c, s, acts))
    decreases |acts|
  {
    if acts != [] {
      var t := Step(c, s, acts[0]);
      ScheduleIsIrrelevant(c, t, acts[1..]);
      var rest := ActsOf(false, acts[1..]);
      if IsConsumerAction(acts[0]) {
        assert ActsOf(false, acts) == rest;
        ConsumerStepKeepsSide(c, s, acts[0]);
      } else {
        ProducerStepIsSideStep(c, s, acts[0]);
        assert ActsOf(false, acts) == [acts[0]] + rest && ActsOf(false, acts)[1..] == rest;
      }
    }
  }

  lemma {:induction false} SideSplit(c: Config, p: State, xs: seq<Action>, ys: seq<Action>)
    requires SideRun(c, p, xs + ys)
    ensures SideRun(c, p, xs) && SideRun(c, SideExec(c, p, xs), ys)
    ensures SideExec(c, p, xs + ys) == SideExec(c, SideExec(c, p, xs), ys)
    decreases |xs|
  {
    if xs == [] {
      assert xs + ys == ys;
    } else {
      assert (xs + ys)[1..] == xs[1..] + ys;
      SideSplit(c, SideStep(c, p, xs[0]), xs[1..], ys);
    }
  }

  lemma SideOne(c: Config, p: State, a: Action)
    requires SideRun(c, p, [a])
    ensures SideEnabled(c, p, a) && SideExec(c, p, [a]) == SideStep(c, p, a)
  {
    assert [a][1..] == [];
  }

  lemma {:induction false} SideWords(c: Config, p: State, a: Action, k: nat)
    requires (p.prod.pc.Writing? && a == PushWord) || (p.prod.pc.Filling? && a == FillWord)
    requires SideRun(c, p, Repeat(a, k))
    ensures SideExec(c, p, Repeat(a, k)) == p.(prod := p.prod.(pc := p.prod.pc.(done := p.prod.pc.done + k)))
    decreases k
  {
    if k > 0 {
      assert Repeat(a, k)[1..] == Repeat(a, k - 1);
      SideWords(c, SideStep(c, p, a), a, k - 1);
    }
  }

  // ------------------------------------------------------------------- pushes

  /** The side after successful pushes of `vs`, the last of which loaded the head `seen`. */
  function Pushed(p: State, vs: seq<Element>, seen: nat): State {
    p.(prod := Producer(p.prod.tail + |vs|, p.prod.written + |vs|, Ready, seen), staged := p.staged + vs)
  }

  function OnePush(c: Config, v: Element, obs: nat): seq<Action> {
    [PushLoad(v, obs)] + Repeat(PushWord, c.words) + [PushEnd]
  }

  lemma PushSide(c: Config, p: State, v: Element, obs: nat)
    requires SideRun(c, p, OnePush(c, v, obs))
    ensures SideExec(c, p, OnePush(c, v, obs)) == Pushed(p, [v], obs)
  {
    var words := Repeat(PushWord, c.words);
    SideSplit(c, p, [PushLoad(v, obs)] + words, [PushEnd]);
    SideSplit(c, p, [PushLoad(v, obs)], words);
    SideOne(c, p, PushLoad(v, obs));
    var p1 := SideStep(c, p, PushLoad(v, obs));
    var p2 := SideExec(c, p1, words);
    SideOne(c, p2, PushEnd);
    SideWords(c, p1, PushWord, c.words);
  }

  /** The steps of successful pushes, each with the head it happened to load. */
  function Pushes(c: Config, vs: seq<Element>, obs: seq<nat>): seq<Action>
    requires |vs| == |obs|
  {
    if vs == [] then []
    else Pushes(c, vs[..|vs| - 1], obs[..|vs| - 1]) + OnePush(c, vs[|vs| - 1], obs[|vs| - 1])
  }

  function LastSeen(p: State, obs: seq<nat>): nat {
    if obs == [] then p.prod.seen else obs[|obs| - 1]
  }

  lemma {:induction false} PushesSide(c: Config, p: State, vs: seq<Element>, obs: seq<nat>)
    requires |vs| == |obs| && p.prod.pc.Ready? && SideRun(c, p, Pushes(c, vs, obs))
    ensures SideExec(c, p, Pushes(c, vs, obs)) == Pushed(p, vs, LastSeen(p, obs))
    decreases |vs|
  {
    if vs == [] {
      assert p.staged + [] == p.staged;
    } else {
      var k := |vs| - 1;
      SideSplit(c, p, Pushes(c, vs[..k], obs[..k]), OnePush(c, vs[k], obs[k]));
      PushesSide(c, p, vs[..k], obs[..k]);
      PushSide(c, Pushed(p, vs[..k], LastSeen(p, obs[..k])), vs[k], obs[k]);
      assert p.staged + vs[..k] + [vs[k]] == p.staged + vs;
    }
  }

  // ------------------------------------------------------------- reservations

  function Fills(c: Config, vs: seq<Element>): seq<Action> {
    if vs == [] then [] else Fills(c, vs[..|vs| - 1]) + FillActs(c, vs[|vs| - 1])
  }

  function WithFilled(p: State, vs: seq<Element>): State
    requires p.prod.pc.Reserved?
  {
    p.(prod := p.prod.(pc := Reserved(p.prod.pc.count, p.prod.pc.vals + vs)))
  }

  lemma FillSide(c: Config, p: State, v: Element)
    requires SideRun(c, p, FillActs(c, v))
    ensures p.prod.pc.Reserved? && |p.prod.pc.vals| < p.prod.pc.count
    ensures SideExec(c, p, FillActs(c, v)) == WithFilled(p, [v])
  {
    var words := Repeat(FillWord, c.words);
    SideSplit(c, p, [FillStart(v)], words + [FillEnd]);
    SideOne(c, p, FillStart(v));
    var p1 := SideStep(c, p, FillStart(v));
    SideSplit(c, p1, words, [FillEnd]);
    SideWords(c, p1, FillWord, c.words);
    SideOne(c, SideExec(c, p1, words), FillEnd);
  }

  lemma {:induction false} FillsSide(c: Config, p: State, vs: seq<Element>)
    requires p.prod.pc.Reserved? && |p.prod.pc.vals| <= p.prod.pc.count && SideRun(c, p, Fills(c, vs))
    ensures SideExec(c, p, Fills(c, vs)) == WithFilled(p, vs)
    ensures |p.prod.pc.vals| + |vs| <= p.prod.pc.count
    decreases |vs|
  {
    if vs == [] {
      assert p.prod.pc.vals + [] == p.prod.pc.vals;
    } else {
      var k := |vs| - 1;
      SideSplit(c, p, Fills(c, vs[..k]), FillActs(c, vs[k]));
      FillsSide(c, p, vs[..k]);
      FillSide(c, WithFilled(p, vs[..k]), vs[k]);
      assert p.prod.pc.vals + vs[..k] + [vs[k]] == p.prod.pc.vals + vs;
    }
  }

  /** A reservation of `count` slots into which `vs` are written, up to its `last` step. */
  function ReservationSteps(c: Config, count: nat, obs: nat, vs: seq<Element>, last: Action): seq<Action> {
    [Reserve(count, obs)] + Fills(c, vs) + [last]
  }

  lemma ReservationSide(c: Config, p: State, count: nat, obs: nat, vs: seq<Element>, last: Action)
    requires last.Commit? || last.Cancel?
    requires SideRun(c, p, ReservationSteps(c, count, obs, vs, last))
    ensures |vs| <= count <= Available(c, p, obs) && p.prod.pc.Ready?
    ensures SideExec(c, p, ReservationSteps(c, count, obs, vs, last))
            == if last.Cancel? then p.(prod := p.prod.(seen := obs))
               else
                 var q := Pushed(p, vs, obs);
                 if last.always || q.prod.written >= c.burst then AfterSync(q) else q
  {
    SideSplit(c, p, [Reserve(count, obs)] + Fills(c, vs), [last]);
    SideSplit(c, p, [Reserve(count, obs)], Fills(c, vs));
    SideOne(c, p, Reserve(count, obs));
    var r := AfterReserve(c, p, count, obs);
    SideOne(c, SideExec(c, r, Fills(c, vs)), last);
    StaysReserved(c, r, vs);
    FillsSide(c, r, vs);
    assert [] + vs == vs;
  }

  /** Fills and what ends a reservation need one. */
  lemma StaysReserved(c: Config, r: State, vs: seq<Element>)
    requires SideRun(c, r, Fills(c, vs)) && SideExec(c, r, Fills(c, vs)).prod.pc.Reserved?
    ensures r.prod.pc.Reserved?
    decreases |vs|
  {
    if vs != [] {
      var k := |vs| - 1;
      SideSplit(c, r, Fills(c, vs[..k]), FillActs(c, vs[k]));
      FillSide(c, SideExec(c, r, Fills(c, vs[..k])), vs[k]);
      StaysReserved(c, r, vs[..k]);
    }
  }

  // ------------------------------------------------------------- any schedule

  /** Two states agree on everything a producer's calls are for: what is published, what is
      staged, and where the producer stands. Only the heads it happened to see may differ. */
  ghost predicate SameProduce(s: State, t: State) {
    && s.tail == t.tail && s.log == t.log && s.staged == t.staged
    && s.prod.(seen := t.prod.seen) == t.prod
  }

  /** They agree on every slot still to be read, except one its borrower may have written to. */
  ghost predicate SameUnread(c: Config, s: State, t: State) {
    && c.n >= 1 && |s.slots| == |t.slots| == c.n
    && forall q: nat :: Live(s) <= q < s.prod.tail && Live(t) <= q
         && !(s.cons.pc.Borrowed? && q == s.cons.head) && !(t.cons.pc.Borrowed? && q == t.cons.head)
         ==> s.slots[Slot(c.n, q)] == t.slots[Slot(c.n, q)]
  }

  lemma SameProduceSameUnread(c: Config, s: State, t: State)
    requires Inv(c, s) && Inv(c, t) && SameProduce(s, t) && s.prod.pc.Ready?
    ensures SameUnread(c, s, t)
  {
    forall q: nat | Live(s) <= q < s.prod.tail && Live(t) <= q
                    && !(s.cons.pc.Borrowed? && q == s.cons.head) && !(t.cons.pc.Borrowed? && q == t.cons.head)
      ensures s.slots[Slot(c.n, q)] == t.slots[Slot(c.n, q)]
    {
      assert s.slots[Slot(c.n, q)] == Expected(s, q);
      assert t.slots[Slot(c.n, q)] == Expected(t, q);
    }
  }

  /** Pushes that succeed stage their values in order, in every schedule. */
  lemma PushesInAnySchedule(c: Config, s: State, acts: seq<Action>, vs: seq<Element>, obs: seq<nat>)
    requires Inv(c, s) && s.prod.pc.Ready? && ValidRun(c, s, acts)
    requires |vs| == |obs| && ActsOf(false, acts) == Pushes(c, vs, obs)
    ensures var t := Exec(c, s, acts);
            Inv(c, t) && Side(t) == Pushed(Side(s), vs, LastSeen(s, obs))
  {
    RunKeepsInv(c, s, acts);
    ScheduleIsIrrelevant(c, s, acts);
    PushesSide(c, Side(s), vs, obs);
  }

  /** A reservation that is committed stages its values in order and publishes when due,
      in every schedule. */
  lemma ReservationInAnySchedule(
      c: Config, s: State, acts: seq<Action>, count: nat, obs: nat, vs: seq<Element>, always: bool)
    requires Inv(c, s) && ValidRun(c, s, acts)
    requires ActsOf(false, acts) == ReservationSteps(c, count, obs, vs, Commit(always))
    ensures |vs| <= count <= Available(c, s, obs)
    ensures var t, q := Exec(c, s, acts), Pushed(Side(s), vs, obs);
            Inv(c, t) && Side(t) == if always || q.prod.written >= c.burst then AfterSync(q) else q
  {
    RunKeepsInv(c, s, acts);
    ScheduleIsIrrelevant(c, s, acts);
    ReservationSide(c, Side(s), count, obs, vs, Commit(always));
  }

  /** So a committed reservation is the pushes of its values, followed by a sync if one is
      due, whatever the consumer does during either and whatever heads they loaded. */
  lemma ReservationIsPushesInAnySchedule(
      c: Config, s: State, acts: seq<Action>, count: nat, head: nat, always: bool,
      pushes: seq<Action>, vs: seq<Element>, obs: seq<nat>)
    requires Inv(c, s) && s.prod.pc.Ready? && ValidRun(c, s, acts) && ValidRun(c, s, pushes)
    requires ActsOf(false, acts) == ReservationSteps(c, count, head, vs, Commit(always))
    requires |vs| == |obs| && ActsOf(false, pushes) == Pushes(c, vs, obs)
    ensures var t, u := Exec(c, s, acts), Exec(c, s, pushes);
            var synced := if always || u.prod.written >= c.burst then AfterSync(u) else u;
            Inv(c, t) && Inv(c, synced) && SameProduce(t, synced) && SameUnread(c, t, synced)
  {
    var t, u := Exec(c, s, acts), Exec(c, s, pushes);
    ReservationInAnySchedule(c, s, acts, count, head, vs, always);
    PushesInAnySchedule(c, s, pushes, vs, obs);
    var synced := if always || u.prod.written >= c.burst then AfterSync(u) else u;
    assert Inv(c, synced) by {
      StepKeepsInv(c, u, Sync);
    }
    SameProduceSameUnread(c, t, synced);
  }

  /** The pushes a reservation stands for would succeed: while fewer than `count` have been
      made, in any schedule, no head loaded since the reservation's makes one find the
      channel full. */
  lemma ReservedPushFindsRoom(
      c: Config, s: State, count: nat, obs: nat, pushes: seq<Action>, vs: seq<Element>, heads: seq<nat>, later: nat)
    requires Inv(c, s) && s.prod.pc.Ready? && count <= Available(c, s, obs)
    requires ValidRun(c, s, pushes) && |vs| == |heads| < count && ActsOf(false, pushes) == Pushes(c, vs, heads)
    requires obs <= later
    ensures !TestsFull(c, Exec(c, s, pushes), later) && Exec(c, s, pushes).prod.pc.Ready?
  {
    PushesInAnySchedule(c, s, pushes, vs, heads);
  }

  lemma {:induction false} OwnOnly(a: Action, k: nat)
    requires !IsConsumerAction(a)
    ensures ActsOf(false, Repeat(a, k)) == Repeat(a, k)
  {
    if k > 0 {
      OwnOnly(a, k - 1);
      assert Repeat(a, k)[1..] == Repeat(a, k - 1);
    }
  }

  lemma OnePushIsOwn(c: Config, v: Element, obs: nat)
    ensures ActsOf(false, OnePush(c, v, obs)) == OnePush(c, v, obs)
  {
    var words := Repeat(PushWord, c.words);
    OwnOnly(PushWord, c.words);
    ActsOfConcat(false, [PushLoad(v, obs)] + words, [PushEnd]);
    ActsOfConcat(false, [PushLoad(v, obs)], words);
    assert [PushLoad(v, obs)][1..] == [] && [PushEnd][1..] == [];
  }

  /** A run may be followed by a push that finds room. */
  lemma AppendPush(c: Config, s: State, first: seq<Action>, v: Element)
    requires Inv(c, s) && ValidRun(c, s, first) && |v| == c.words
    requires Exec(c, s, first).prod.pc.Ready? && !TestsFull(c, Exec(c, s, first), Exec(c, s, first).head)
    ensures var t := Exec(c, s, first);
            var acts := first + OnePush(c, v, t.head);
            && ValidRun(c, s, acts) && Exec(c, s, acts).head == t.head
            && ActsOf(false, acts) == ActsOf(false, first) + OnePush(c, v, t.head)
  {
    var t := Exec(c, s, first);
    RunKeepsInv(c, s, first);
    PushIsRun(c, t, v);
    assert PushActs(c, t, v) == OnePush(c, v, t.head);
    RunConcat(c, s, first, OnePush(c, v, t.head));
    ActsOfConcat(false, first, OnePush(c, v, t.head));
    OnePushIsOwn(c, v, t.head);
  }

  /** So they can be made one after the other, each loading the head as it is. */
  lemma {:induction false} ReservedPushesSucceed(c: Config, s: State, count: nat, obs: nat, vs: seq<Element>)
      returns (pushes: seq<Action>, heads: seq<nat>)
    requires Inv(c, s) && s.prod.pc.Ready? && s.prod.seen <= obs <= s.head && count <= Available(c, s, obs)
    requires |vs| <= count && Sized(c.words, vs)
    ensures ValidRun(c, s, pushes) && |heads| == |vs| && ActsOf(false, pushes) == Pushes(c, vs, heads)
    ensures Exec(c, s, pushes).head == s.head
    decreases |vs|
  {
    if vs == [] {
      pushes, heads := [], [];
    } else {
      var k := |vs| - 1;
      var first, before := ReservedPushesSucceed(c, s, count, obs, vs[..k]);
      ReservedPushFindsRoom(c, s, count, obs, first, vs[..k], before, s.head);
      AppendPush(c, s, first, vs[k]);
      pushes, heads := first + OnePush(c, vs[k], s.head), before + [s.head];
      assert heads[..k] == before && heads[k] == s.head;
    }
  }

  /** A reservation that is cancelled or dropped leaves no trace, in every schedule. */
  lemma CancelInAnySchedule(c: Config, s: State, acts: seq<Action>, count: nat, obs: nat, vs: seq<Element>)
    requires Inv(c, s) && ValidRun(c, s, acts)
    requires ActsOf(false, acts) == ReservationSteps(c, count, obs, vs, Cancel)
    ensures var t := Exec(c, s, acts);
            Inv(c, t) && SameProduce(s, t) && SameUnread(c, s, t)
  {
    var t := Exec(c, s, acts);
    RunKeepsInv(c, s, acts);
    ScheduleIsIrrelevant(c, s, acts);
    ReservationSide(c, Side(s), count, obs, vs, Cancel);
    SameProduceSameUnread(c, s, t);
  }

  // ------------------------------------------------- one party among the other's steps

  /** Some schedule leads from `s` to `t` in which the consumer (or else the producer) has
      taken just the steps `own`. */
  ghost predicate Ran(c: Config, s: State, t: State, consumer: bool, own: seq<Action>) {
    exists acts :: ValidRun(c, s, acts) && Exec(c, s, acts) == t && ActsOf(consumer, acts) == own
  }

  lemma RanNothing(c: Config, s: State, consumer: bool)
    ensures Ran(c, s, s, consumer, [])
  {
    assert ValidRun(c, s, []) && Exec(c, s, []) == s && ActsOf(consumer, []) == [];
  }

  lemma ActsOfCons(consumer: bool, a: Action, rest: seq<Action>)
    ensures ActsOf(consumer, [a] + rest) == Mine(consumer, a) + ActsOf(consumer, rest)
  {
    assert ([a] + rest)[0] == a && ([a] + rest)[1..] == rest;
  }

  lemma Associative(a: seq<Action>, b: seq<Action>, d: seq<Action>)
    ensures a + b + d == a + (b + d)
  {
  }

  lemma {:induction false} ActsOfConcat(consumer: bool, xs: seq<Action>, ys: seq<Action>)
    ensures ActsOf(consumer, xs + ys) == ActsOf(consumer, xs) + ActsOf(consumer, ys)
    decreases |xs|
  {
    if xs == [] {
      assert xs + ys == ys;
    } else {
      var a, rest := xs[0], xs[1..];
      assert xs == [a] + rest;
      Associative([a], rest, ys);
      ActsOfCons(consumer, a, rest + ys);
      ActsOfConcat(consumer, rest, ys);
      Associative(Mine(consumer, a), ActsOf(consumer, rest), ActsOf(consumer, ys));
    }
  }

  lemma RanConcat(c: Config, s: State, t: State, u: State, consumer: bool, xs: seq<Action>, ys: seq<Action>)
    requires Ran(c, s, t, consumer, xs) && Ran(c, t, u, consumer, ys)
    ensures Ran(c, s, u, consumer, xs + ys)
  {
    var a :| ValidRun(c, s, a) && Exec(c, s, a) == t && ActsOf(consumer, a) == xs;
    var b :| ValidRun(c, t, b) && Exec(c, t, b) == u && ActsOf(consumer, b) == ys;
    RunConcat(c, s, a, b);
    ActsOfConcat(consumer, a, b);
  }

  /** One more step of the party's own. */
  lemma RanStep(c: Config, s: State, t: State, consumer: bool, own: seq<Action>, a: Action)
    requires Ran(c, s, t, consumer, own) && Inv(c, t) && Enabled(c, t, a) && IsConsumerAction(a) == consumer
    ensures Ran(c, s, Step(c, t, a), consumer, own + [a]) && Inv(c, Step(c, t, a))
  {
    RunOne(c, t, a);
    assert [a][1..] == [] && ActsOf(consumer, [a]) == [a];
    assert Ran(c, t, Step(c, t, a), consumer, [a]);
    RanConcat(c, s, t, Step(c, t, a), consumer, own, [a]);
    StepKeepsInv(c, t, a);
  }

  lemma StepRises(c: Config, s: State, a: Action)
    requires Inv(c, s) && Enabled(c, s, a)
    ensures s.head <= Step(c, s, a).head && s.log <= Step(c, s, a).log
  {
  }

  lemma {:induction false} RunRises(c: Config, s: State, acts: seq<Action>)
    requires Inv(c, s) && ValidRun(c, s, acts)
    ensures var t := Exec(c, s, acts); s.head <= t.head && s.log <= t.log
    decreases |acts|
  {
    if acts != [] {
      StepRises(c, s, acts[0]);
      StepKeepsInv(c, s, acts[0]);
      RunRises(c, Step(c, s, acts[0]), acts[1..]);
    }
  }

  lemma RanRises(c: Config, s: State, t: State, consumer: bool, own: seq<Action>)
    requires Inv(c, s) && Ran(c, s, t, consumer, own)
    ensures s.head <= t.head && s.log <= t.log
  {
    var acts :| ValidRun(c, s, acts) && Exec(c, s, acts) == t && ActsOf(consumer, acts) == own;
    RunRises(c, s, acts);
  }

  lemma RanIsSideRun(c: Config, s: State, t: State, own: seq<Action>)
    requires Ran(c, s, t, false, own)
    ensures SideRun(c, Side(s), own) && SideExec(c, Side(s), own) == Side(t)
  {
    var acts :| ValidRun(c, s, acts) && Exec(c, s, acts) == t && ActsOf(false, acts) == own;
    ScheduleIsIrrelevant(c, s, acts);
  }

  lemma OthersKeepSide(c: Config, s: State, t: State)
    requires Ran(c, s, t, false, [])
    ensures Side(t) == Side(s)
  {
    RanIsSideRun(c, s, t, []);
  }

  lemma {:induction false} ProducerKeepsConsumer(c: Config, s: State, acts: seq<Action>)
    requires ValidRun(c, s, acts) && ActsOf(true, acts) == []
    ensures Exec(c, s, acts).cons == s.cons && Exec(c, s, acts).head == s.head
    decreases |acts|
  {
    if acts != [] {
      ProducerKeepsConsumer(c, Step(c, s, acts[0]), acts[1..]);
    }
  }

  lemma OthersKeepConsumer(c: Config, s: State, t: State)
    requires Ran(c, s, t, true, [])
    ensures t.cons == s.cons && t.head == s.head
  {
    var acts :| ValidRun(c, s, acts) && Exec(c, s, acts) == t && ActsOf(true, acts) == [];
    ProducerKeepsConsumer(c, s, acts);
  }
}
