/** When can batched producer and popping consumer block each other for good? The driver
    retries every push of a batch until it succeeds and syncs once after the batch; the
    consumer keeps popping. All interleavings of their steps are considered. */
module LosslessStall {
  import opened Arithmetic
  import opened Words
  import opened LosslessMachine
  import opened LosslessSafety
  import opened LosslessFifo
  import opened LosslessCalls

  /** `left` pushes of the current batch have not succeeded yet. */
  datatype Driver = Driver(ch: State, left: nat)

  datatype Move = StartBatch(size: nat) | Do(a: Action)

  /** Batches have at most `bound` values and are synced exactly when complete. */
  predicate CanMove(c: Config, bound: nat, d: Driver, x: Move) {
    match x
    case StartBatch(size) =>
      d.left == 0 && d.ch.prod.pc.Ready? && d.ch.prod.written == 0 && 1 <= size <= bound
    case Do(a) =>
      Enabled(c, d.ch, a) &&
      match a
      case PushLoad(_, obs) => d.left >= 1 && obs == d.ch.head
      case PushWord => true
      case PushEnd => d.left >= 1
      case Sync => d.left == 0 && d.ch.prod.written > 0
      case PopLoad => true
      case PopRead => true
      case PopEnd => true
      case _ => false
  }

  function Moved(c: Config, bound: nat, d: Driver, x: Move): Driver
    requires CanMove(c, bound, d, x)
  {
    match x
    case StartBatch(size) => Driver(d.ch, size)
    case Do(a) => Driver(Step(c, d.ch, a), if a.PushEnd? then d.left - 1 else d.left)
  }

  predicate CanRun(c: Config, bound: nat, d: Driver, xs: seq<Move>)
    decreases |xs|
  {
    xs == [] || (CanMove(c, bound, d, xs[0]) && CanRun(c, bound, Moved(c, bound, d, xs[0]), xs[1..]))
  }

  function RunTo(c: Config, bound: nat, d: Driver, xs: seq<Move>): Driver
    requires CanRun(c, bound, d, xs)
    decreases |xs|
  {
    if xs == [] then d else RunTo(c, bound, Moved(c, bound, d, xs[0]), xs[1..])
  }

  /** Both sides at rest, a push still to be made that finds the channel full, and a pop
      that finds it empty. */
  predicate Stuck(c: Config, d: Driver) {
    && d.left >= 1 && d.ch.prod.pc.Ready? && TestsFull(c, d.ch, d.ch.head)
    && d.ch.cons.pc.Idle? && TestsEmpty(d.ch)
  }

  /** The driver starts between batches on any session in progress. */
  ghost predicate Starts(c: Config, d: Driver) {
    && Inv(c, d.ch) && d.left == 0
    && d.ch.prod.pc.Ready? && d.ch.prod.written == 0 && d.ch.cons.pc.Idle?
  }

  ghost predicate DriverInv(c: Config, bound: nat, d: Driver) {
    && Inv(c, d.ch)
    && d.ch.prod.written + d.left <= bound
    && (d.ch.prod.pc.Ready? || d.ch.prod.pc.Writing?)
    && (d.ch.prod.pc.Writing? ==> d.left >= 1)
    && (d.ch.cons.pc.Idle? || d.ch.cons.pc.Reading?)
  }

  lemma MoveKeepsDriverInv(c: Config, bound: nat, d: Driver, x: Move)
    requires DriverInv(c, bound, d) && CanMove(c, bound, d, x)
    ensures DriverInv(c, bound, Moved(c, bound, d, x))
  {
    if x.Do? {
      StepKeepsInv(c, d.ch, x.a);
    }
  }

  lemma {:induction false} RunKeepsDriverInv(c: Config, bound: nat, d: Driver, xs: seq<Move>)
    requires DriverInv(c, bound, d) && CanRun(c, bound, d, xs)
    ensures DriverInv(c, bound, RunTo(c, bound, d, xs))
    decreases |xs|
  {
    if xs != [] {
      MoveKeepsDriverInv(c, bound, d, xs[0]);
      RunKeepsDriverInv(c, bound, Moved(c, bound, d, xs[0]), xs[1..]);
    }
  }

  /** Once stuck, no move of either side changes anything but the producer's load history. */
  lemma StuckForEver(c: Config, bound: nat, d: Driver, x: Move)
    requires Stuck(c, d) && CanMove(c, bound, d, x)
    ensures var e := Moved(c, bound, d, x);
            && Stuck(c, e) && e.left == d.left
            && e.ch == d.ch.(prod := d.ch.prod.(seen := e.ch.prod.seen))
  {
  }

  /** A stuck driver has left at least `n - burst + 1` values of its batch unsynced. */
  lemma StuckNeedsLargeBatch(c: Config, bound: nat, d: Driver)
    requires DriverInv(c, bound, d) && Stuck(c, d)
    ensures bound >= c.n - c.burst + 2
  {
  }

  // ------------------------------------------------------- the run that gets stuck

  lemma {:induction false} JoinRuns(c: Config, bound: nat, d: Driver, xs: seq<Move>, ys: seq<Move>)
    requires CanRun(c, bound, d, xs) && CanRun(c, bound, RunTo(c, bound, d, xs), ys)
    ensures CanRun(c, bound, d, xs + ys)
    ensures RunTo(c, bound, d, xs + ys) == RunTo(c, bound, RunTo(c, bound, d, xs), ys)
    decreases |xs|
  {
    if xs == [] {
      assert xs + ys == ys;
    } else {
      JoinRuns(c, bound, Moved(c, bound, d, xs[0]), xs[1..], ys);
      assert (xs + ys)[1..] == xs[1..] + ys;
    }
  }

  lemma {:induction false} RunKeepsChannelInv(c: Config, bound: nat, d: Driver, xs: seq<Move>)
    requires Inv(c, d.ch) && CanRun(c, bound, d, xs)
    ensures Inv(c, RunTo(c, bound, d, xs).ch)
    decreases |xs|
  {
    if xs != [] {
      if xs[0].Do? {
        StepKeepsInv(c, d.ch, xs[0].a);
      }
      RunKeepsChannelInv(c, bound, Moved(c, bound, d, xs[0]), xs[1..]);
    }
  }

  predicate NoBatchStarts(xs: seq<Move>) {
    forall j :: 0 <= j < |xs| ==> xs[j].Do?
  }

  /** How many steps `k` calls take at most. */
  function CallMoves(c: Config, k: nat): nat {
    if k == 0 then 0 else c.words + 2 + CallMoves(c, k - 1)
  }

  lemma OneMove(c: Config, bound: nat, d: Driver, x: Move)
    requires CanMove(c, bound, d, x)
    ensures CanRun(c, bound, d, [x]) && RunTo(c, bound, d, [x]) == Moved(c, bound, d, x)
  {
    assert [x][1..] == [];
    assert CanRun(c, bound, Moved(c, bound, d, x), []);
  }

  predicate Neutral(a: Action) {
    a.PushWord? || a.PopLoad? || a.PopRead? || a.PopEnd?
  }

  function DoAll(acts: seq<Action>): seq<Move> {
    if acts == [] then [] else [Do(acts[0])] + DoAll(acts[1..])
  }

  /** Machine steps that neither end a push nor sync are driver moves as they stand. */
  lemma {:induction false} LiftRun(c: Config, bound: nat, d: Driver, acts: seq<Action>)
    requires ValidRun(c, d.ch, acts) && forall j :: 0 <= j < |acts| ==> Neutral(acts[j])
    ensures CanRun(c, bound, d, DoAll(acts))
    ensures RunTo(c, bound, d, DoAll(acts)) == Driver(Exec(c, d.ch, acts), d.left)
    ensures NoBatchStarts(DoAll(acts)) && |DoAll(acts)| == |acts|
    decreases |acts|
  {
    if acts != [] {
      assert Neutral(acts[0]);
      LiftRun(c, bound, Driver(Step(c, d.ch, acts[0]), d.left), acts[1..]);
      assert DoAll(acts)[1..] == DoAll(acts[1..]);
    }
  }

  /** The rest of a push that has found room. */
  lemma DrivePushEnd(c: Config, bound: nat, d: Driver) returns (xs: seq<Move>)
    requires Inv(c, d.ch) && d.ch.prod.pc.Writing? && d.left >= 1
    ensures CanRun(c, bound, d, xs) && NoBatchStarts(xs) && |xs| <= c.words + 1
    ensures var e := RunTo(c, bound, d, xs);
            && e.left == d.left - 1
            && e.ch.prod == Producer(d.ch.prod.tail + 1, d.ch.prod.written + 1, Ready, d.ch.prod.seen)
            && e.ch.cons == d.ch.cons && e.ch.head == d.ch.head && e.ch.tail == d.ch.tail
  {
    var words := Repeat(PushWord, c.words - d.ch.prod.pc.done);
    WriteWords(c, d.ch, PushWord, c.words - d.ch.prod.pc.done);
    RepeatElems(PushWord, c.words - d.ch.prod.pc.done);
    LiftRun(c, bound, d, words);
    var e := Driver(Exec(c, d.ch, words), d.left);
    OneMove(c, bound, e, Do(PushEnd));
    JoinRuns(c, bound, d, DoAll(words), [Do(PushEnd)]);
    xs := DoAll(words) + [Do(PushEnd)];
  }

  /** One successful push of the current batch. */
  lemma DrivePush(c: Config, bound: nat, d: Driver, v: Element) returns (xs: seq<Move>)
    requires Inv(c, d.ch) && d.ch.prod.pc.Ready? && |v| == c.words && d.left >= 1
    requires !TestsFull(c, d.ch, d.ch.head)
    ensures CanRun(c, bound, d, xs) && NoBatchStarts(xs) && |xs| <= c.words + 2
    ensures var e := RunTo(c, bound, d, xs);
            && Inv(c, e.ch) && e.left == d.left - 1
            && e.ch.prod == Producer(d.ch.prod.tail + 1, d.ch.prod.written + 1, Ready, d.ch.head)
            && e.ch.cons == d.ch.cons && e.ch.head == d.ch.head && e.ch.tail == d.ch.tail
  {
    var load := Do(PushLoad(v, d.ch.head));
    OneMove(c, bound, d, load);
    StepKeepsInv(c, d.ch, load.a);
    var rest := DrivePushEnd(c, bound, Moved(c, bound, d, load));
    JoinRuns(c, bound, d, [load], rest);
    xs := [load] + rest;
    RunKeepsChannelInv(c, bound, d, xs);
  }

  /** `u` successful pushes of the current batch. */
  lemma {:induction false} DrivePushes(c: Config, bound: nat, d: Driver, v: Element, u: nat) returns (xs: seq<Move>)
    requires Inv(c, d.ch) && d.ch.prod.pc.Ready? && |v| == c.words && d.left >= u
    requires d.ch.prod.tail + u <= d.ch.head + c.n
    ensures CanRun(c, bound, d, xs) && NoBatchStarts(xs) && |xs| <= CallMoves(c, u)
    ensures var e := RunTo(c, bound, d, xs);
            && Inv(c, e.ch) && e.left == d.left - u && e.ch.prod.pc.Ready?
            && e.ch.cons == d.ch.cons && e.ch.head == d.ch.head && e.ch.tail == d.ch.tail
            && e.ch.prod.tail == d.ch.prod.tail + u && e.ch.prod.written == d.ch.prod.written + u
    decreases u
  {
    if u == 0 {
      xs := [];
    } else {
      var first := DrivePush(c, bound, d, v);
      var e := RunTo(c, bound, d, first);
      var rest := DrivePushes(c, bound, e, v, u - 1);
      xs := first + rest;
      JoinRuns(c, bound, d, first, rest);
      assert CallMoves(c, u) == c.words + 2 + CallMoves(c, u - 1);
    }
  }

  /** One pop of a consumer that may already be reading. */
  lemma DrivePop(c: Config, bound: nat, d: Driver) returns (xs: seq<Move>)
    requires Inv(c, d.ch) && !TestsEmpty(d.ch) && (d.ch.cons.pc.Idle? || d.ch.cons.pc.Reading?)
    ensures CanRun(c, bound, d, xs) && NoBatchStarts(xs) && |xs| <= c.words + 2
    ensures var e := RunTo(c, bound, d, xs);
            && Inv(c, e.ch) && e.left == d.left && e.ch.prod == d.ch.prod && e.ch.tail == d.ch.tail
            && e.ch == Advance(c, d.ch, d.ch.log[d.ch.cons.head])
  {
    var s := d.ch;
    var h := Slot(c.n, s.cons.head);
    assert s.slots[h] == Expected(s, s.cons.head) == s.log[s.cons.head];
    if s.cons.pc.Idle? {
      PopIsRun(c, s);
      NeutralPop(c, s);
      LiftRun(c, bound, d, PopActs(c, s));
      xs := DoAll(PopActs(c, s));
    } else {
      var words := Repeat(PopRead, c.words - |s.cons.pc.buf|);
      ReadWords(c, s, |words|);
      RunOne(c, Exec(c, s, words), PopEnd);
      RunConcat(c, s, words, [PopEnd]);
      RepeatElems(PopRead, |words|);
      LiftRun(c, bound, d, words + [PopEnd]);
      xs := DoAll(words + [PopEnd]);
    }
    RunKeepsChannelInv(c, bound, d, xs);
  }

  lemma NeutralPop(c: Config, s: State)
    ensures forall j :: 0 <= j < |PopActs(c, s)| ==> Neutral(PopActs(c, s)[j])
  {
    RepeatElems(PopRead, c.words);
  }

  /** One batch of a single value, pushed, synced and popped. */
  lemma DriveOne(c: Config, bound: nat, d: Driver, v: Element) returns (xs: seq<Move>)
    requires Starts(c, d) && TestsEmpty(d.ch) && |v| == c.words && bound >= 1
    requires !TestsFull(c, d.ch, d.ch.head) && d.ch.cons.items + 1 < c.burst
    ensures CanRun(c, bound, d, xs)
    ensures var e := RunTo(c, bound, d, xs);
            && Starts(c, e) && TestsEmpty(e.ch)
            && e.ch.head == d.ch.head && e.ch.cons.items == d.ch.cons.items + 1
  {
    OneMove(c, bound, d, StartBatch(1));
    var d1 := Driver(d.ch, 1);
    var ps := DrivePush(c, bound, d1, v);
    JoinRuns(c, bound, d, [StartBatch(1)], ps);
    var d2 := RunTo(c, bound, d1, ps);
    OneMove(c, bound, d2, Do(Sync));
    StepKeepsInv(c, d2.ch, Sync);
    JoinRuns(c, bound, d, [StartBatch(1)] + ps, [Do(Sync)]);
    var d3 := Moved(c, bound, d2, Do(Sync));
    var qs := DrivePop(c, bound, d3);
    xs := [StartBatch(1)] + ps + [Do(Sync)] + qs;
    JoinRuns(c, bound, d, [StartBatch(1)] + ps + [Do(Sync)], qs);
  }

  /** Single-value batches until the consumer holds back as many pops as it can. */
  lemma {:induction false} DriveOnes(c: Config, bound: nat, d: Driver, v: Element, j: nat) returns (xs: seq<Move>)
    requires Starts(c, d) && TestsEmpty(d.ch) && |v| == c.words && bound >= 1
    requires d.ch.cons.items + j < c.burst
    ensures CanRun(c, bound, d, xs)
    ensures var e := RunTo(c, bound, d, xs);
            && Starts(c, e) && TestsEmpty(e.ch)
            && e.ch.head == d.ch.head && e.ch.cons.items == d.ch.cons.items + j
    decreases j
  {
    if j == 0 {
      xs := [];
    } else {
      var first := DriveOne(c, bound, d, v);
      var rest := DriveOnes(c, bound, RunTo(c, bound, d, first), v, j - 1);
      xs := first + rest;
      JoinRuns(c, bound, d, first, rest);
    }
  }

  /** A batch one larger than `n - burst + 1`, begun when `burst - 1` pops are held back,
      fills the ring before it can be synced. */
  lemma LargeBatchGetsStuck(c: Config, bound: nat, d: Driver, v: Element) returns (xs: seq<Move>)
    requires Starts(c, d) && TestsEmpty(d.ch) && d.ch.cons.items == 0 && |v| == c.words
    requires bound >= c.n - c.burst + 2
    ensures CanRun(c, bound, d, xs) && Stuck(c, RunTo(c, bound, d, xs))
  {
    var ones := DriveOnes(c, bound, d, v, c.burst - 1);
    var d1 := RunTo(c, bound, d, ones);
    var size := c.n - c.burst + 2;
    OneMove(c, bound, d1, StartBatch(size));
    JoinRuns(c, bound, d, ones, [StartBatch(size)]);
    var d2 := Driver(d1.ch, size);
    var ps := DrivePushes(c, bound, d2, v, size - 1);
    xs := ones + [StartBatch(size)] + ps;
    JoinRuns(c, bound, d, ones + [StartBatch(size)], ps);
  }

  // --------------------------------------------------------- small batches complete

  /** There is room for what is left of the batch. */
  predicate HasRoom(c: Config, d: Driver) {
    d.ch.prod.tail + d.left <= d.ch.head + c.n
  }

  lemma CaughtUpHasRoom(c: Config, bound: nat, d: Driver)
    requires DriverInv(c, bound, d) && TestsEmpty(d.ch) && bound <= c.n - c.burst + 1
    ensures HasRoom(c, d)
  {
  }

  lemma MoveKeepsRoom(c: Config, bound: nat, d: Driver, x: Move)
    requires DriverInv(c, bound, d) && HasRoom(c, d) && CanMove(c, bound, d, x) && x.Do?
    ensures HasRoom(c, Moved(c, bound, d, x))
  {
  }

  /** The pops completed in a run. */
  function PopEnds(xs: seq<Move>): nat {
    if xs == [] then 0 else (if xs[0] == Do(PopEnd) then 1 else 0) + PopEnds(xs[1..])
  }

  lemma {:induction false} PopsUntilRoom(c: Config, bound: nat, d: Driver, xs: seq<Move>)
    requires DriverInv(c, bound, d) && CanRun(c, bound, d, xs) && NoBatchStarts(xs)
    ensures var e := RunTo(c, bound, d, xs);
            && DriverInv(c, bound, e)
            && (HasRoom(c, e) ||
                (!HasRoom(c, d) && e.ch.tail == d.ch.tail && e.ch.cons.head == d.ch.cons.head + PopEnds(xs)))
    decreases |xs|
  {
    if xs != [] {
      var d1 := Moved(c, bound, d, xs[0]);
      MoveKeepsDriverInv(c, bound, d, xs[0]);
      if HasRoom(c, d) {
        MoveKeepsRoom(c, bound, d, xs[0]);
      }
      PopsUntilRoom(c, bound, d1, xs[1..]);
    }
  }

  /** Batches of up to `n - burst + 1` values wait for one ring at most: in every schedule,
      once the consumer has completed as many pops as there were values published and not
      taken, no further push of the batch finds the channel full. */
  lemma SmallBatchWaitsForOneRing(c: Config, bound: nat, d: Driver, xs: seq<Move>)
    requires DriverInv(c, bound, d) && bound <= c.n - c.burst + 1
    requires CanRun(c, bound, d, xs) && NoBatchStarts(xs)
    requires PopEnds(xs) >= d.ch.tail - d.ch.cons.head
    ensures d.ch.tail - d.ch.cons.head <= c.n
    ensures var e := RunTo(c, bound, d, xs);
            && HasRoom(c, e)
            && (e.left >= 1 && e.ch.prod.pc.Ready? ==> !TestsFull(c, e.ch, e.ch.head))
  {
    PopsUntilRoom(c, bound, d, xs);
    var e := RunTo(c, bound, d, xs);
    if !HasRoom(c, e) {
      CaughtUpHasRoom(c, bound, e);
    }
  }

  /** The consumer pops until it has caught up. */
  lemma {:induction false} DriveDrain(c: Config, bound: nat, d: Driver, k: nat) returns (xs: seq<Move>)
    requires DriverInv(c, bound, d) && k == d.ch.tail - d.ch.cons.head
    ensures CanRun(c, bound, d, xs) && NoBatchStarts(xs) && |xs| <= CallMoves(c, k)
    ensures var e := RunTo(c, bound, d, xs);
            DriverInv(c, bound, e) && e.left == d.left && e.ch.prod == d.ch.prod && TestsEmpty(e.ch)
    decreases k
  {
    if k == 0 {
      xs := [];
    } else {
      var first := DrivePop(c, bound, d);
      RunKeepsDriverInv(c, bound, d, first);
      var rest := DriveDrain(c, bound, RunTo(c, bound, d, first), k - 1);
      xs := first + rest;
      JoinRuns(c, bound, d, first, rest);
    }
  }

  /** The rest of a batch for which there is room, and its sync. */
  lemma DriveRest(c: Config, bound: nat, d: Driver) returns (xs: seq<Move>)
    requires DriverInv(c, bound, d) && HasRoom(c, d)
    ensures CanRun(c, bound, d, xs) && NoBatchStarts(xs) && |xs| <= CallMoves(c, bound) + 1
    ensures Completed(RunTo(c, bound, d, xs))
  {
    xs := [];
    if d.ch.prod.pc.Writing? {
      xs := DrivePushEnd(c, bound, d);
      RunKeepsDriverInv(c, bound, d, xs);
    }
    var d1 := RunTo(c, bound, d, xs);
    assert |xs| <= CallMoves(c, d.left - d1.left);
    var rest := DrivePushesAndSync(c, bound, d1);
    JoinRuns(c, bound, d, xs, rest);
    CallMovesAdd(c, d.left - d1.left, d1.left);
    CallMovesAdd(c, d.left, bound - d.left);
    xs := xs + rest;
  }

  lemma DrivePushesAndSync(c: Config, bound: nat, d: Driver) returns (xs: seq<Move>)
    requires Inv(c, d.ch) && d.ch.prod.pc.Ready? && HasRoom(c, d)
    ensures CanRun(c, bound, d, xs) && NoBatchStarts(xs) && |xs| <= CallMoves(c, d.left) + 1
    ensures Completed(RunTo(c, bound, d, xs))
  {
    xs := DrivePushes(c, bound, d, Filled(c.words, 0), d.left);
    var e := RunTo(c, bound, d, xs);
    if e.ch.prod.written > 0 {
      OneMove(c, bound, e, Do(Sync));
      JoinRuns(c, bound, d, xs, [Do(Sync)]);
      xs := xs + [Do(Sync)];
    }
  }

  /** The batch has been pushed and published. */
  predicate Completed(d: Driver) {
    d.left == 0 && d.ch.prod.pc.Ready? && d.ch.prod.written == 0
  }

  /** The current batch can be completed within one ring of pops, its own pushes and a sync. */
  ghost predicate CanComplete(c: Config, bound: nat, d: Driver) {
    exists ys :: CanRun(c, bound, d, ys) && NoBatchStarts(ys) && Completed(RunTo(c, bound, d, ys))
                 && |ys| <= (c.n + bound) * (c.words + 2) + 1
  }

  lemma DriveToCompletion(c: Config, bound: nat, d: Driver) returns (ys: seq<Move>)
    requires DriverInv(c, bound, d) && bound <= c.n - c.burst + 1
    ensures CanRun(c, bound, d, ys) && NoBatchStarts(ys) && Completed(RunTo(c, bound, d, ys))
    ensures |ys| <= CallMoves(c, d.ch.tail - d.ch.cons.head) + CallMoves(c, bound) + 1
  {
    var xs := DriveDrain(c, bound, d, d.ch.tail - d.ch.cons.head);
    var d1 := RunTo(c, bound, d, xs);
    CaughtUpHasRoom(c, bound, d1);
    var rest := DriveRest(c, bound, d1);
    JoinRuns(c, bound, d, xs, rest);
    ys := xs + rest;
  }

  lemma SmallBatchCompletes(c: Config, bound: nat, d: Driver)
    requires DriverInv(c, bound, d) && bound <= c.n - c.burst + 1
    ensures CanComplete(c, bound, d)
  {
    var ys := DriveToCompletion(c, bound, d);
    RingOfPops(c, d.ch, bound);
  }

  lemma RingOfPops(c: Config, s: State, bound: nat)
    requires Inv(c, s)
    ensures CallMoves(c, s.tail - s.cons.head) + CallMoves(c, bound) <= (c.n + bound) * (c.words + 2)
  {
    var k := s.tail - s.cons.head;
    CallMovesAdd(c, k, bound);
    CallMovesAdd(c, c.n - k, k + bound);
    CallMovesProduct(c, c.n + bound);
  }

  lemma {:induction false} CallMovesProduct(c: Config, k: nat)
    ensures CallMoves(c, k) == k * (c.words + 2)
  {
    if k > 0 {
      CallMovesProduct(c, k - 1);
      assert k * (c.words + 2) == (k - 1) * (c.words + 2) + (c.words + 2);
    }
  }

  lemma {:induction false} CallMovesAdd(c: Config, a: nat, b: nat)
    ensures CallMoves(c, a + b) == CallMoves(c, a) + CallMoves(c, b)
  {
    if a > 0 {
      CallMovesAdd(c, a - 1, b);
    }
  }

  lemma {:induction false} StuckNeverCompletes(c: Config, bound: nat, d: Driver, ys: seq<Move>)
    requires Stuck(c, d) && CanRun(c, bound, d, ys)
    ensures !Completed(RunTo(c, bound, d, ys))
    decreases |ys|
  {
    if ys != [] {
      StuckForEver(c, bound, d, ys[0]);
      StuckNeverCompletes(c, bound, Moved(c, bound, d, ys[0]), ys[1..]);
    }
  }

  /** The driver can stall, from some start and under some schedule. */
  ghost predicate CanStall(c: Config, bound: nat) {
    exists d, xs :: Starts(c, d) && CanRun(c, bound, d, xs) && Stuck(c, RunTo(c, bound, d, xs))
  }

  /** Whatever the schedule so far, the current batch can still be completed. */
  ghost predicate AlwaysCompletes(c: Config, bound: nat) {
    forall d, xs :: Starts(c, d) && CanRun(c, bound, d, xs) ==> CanComplete(c, bound, RunTo(c, bound, d, xs))
  }

  /** What `lossless_pair` hands out. */
  function FreshPair(c: Config): State {
    State(0, 0, seq(c.n, _ => Filled(c.words, 0)), Producer(0, 0, Ready, 0), Consumer(0, 0, Idle, 0, []), [], [], 0)
  }

  /** The stall bound is exact, for every capacity and every schedule: batches of up to
      `bound` values can block for ever if and only if `bound` exceeds `n - burst + 1`. */
  lemma StallBoundIsExact(c: Config, bound: nat)
    requires c.Valid()
    ensures CanStall(c, bound) <==> bound >= c.n - c.burst + 2
  {
    if bound >= c.n - c.burst + 2 {
      var xs := StallingRun(c, bound);
    } else {
      forall d, xs | Starts(c, d) && CanRun(c, bound, d, xs)
        ensures !Stuck(c, RunTo(c, bound, d, xs))
      {
        RunKeepsDriverInv(c, bound, d, xs);
        var e := RunTo(c, bound, d, xs);
        if Stuck(c, e) {
          StuckNeedsLargeBatch(c, bound, e);
        }
      }
    }
  }

  /** And otherwise every batch can be completed, from wherever the schedule has got to. */
  lemma CompletionBoundIsExact(c: Config, bound: nat)
    requires c.Valid()
    ensures AlwaysCompletes(c, bound) <==> bound <= c.n - c.burst + 1
  {
    if bound <= c.n - c.burst + 1 {
      forall d, xs | Starts(c, d) && CanRun(c, bound, d, xs)
        ensures CanComplete(c, bound, RunTo(c, bound, d, xs))
      {
        RunKeepsDriverInv(c, bound, d, xs);
        SmallBatchCompletes(c, bound, RunTo(c, bound, d, xs));
      }
    } else {
      var xs := StallingRun(c, bound);
      var e := RunTo(c, bound, Driver(FreshPair(c), 0), xs);
      forall ys | CanRun(c, bound, e, ys)
        ensures !Completed(RunTo(c, bound, e, ys))
      {
        StuckNeverCompletes(c, bound, e, ys);
      }
    }
  }

  lemma StallingRun(c: Config, bound: nat) returns (xs: seq<Move>)
    requires c.Valid() && bound >= c.n - c.burst + 2
    ensures var d := Driver(FreshPair(c), 0);
            Starts(c, d) && CanRun(c, bound, d, xs) && Stuck(c, RunTo(c, bound, d, xs))
  {
    xs := LargeBatchGetsStuck(c, bound, Driver(FreshPair(c), 0), Filled(c.words, 0));
  }

  // ------------------------------------------------------------------ the code's bounds

  /** For the code, of capacity `n = 2^k` from four slots on, the bound is `n - n/4 + 1`. */
  lemma CodeStallBound(k: nat, words: nat, bound: nat)
    requires words >= 1 && k >= 2
    ensures var c, n := CodeConfig(k, words), Pow2(k);
            && c.Valid() && c.n == n && c.words == words
            && (CanStall(c, bound) <==> bound >= n - n / 4 + 2)
            && (AlwaysCompletes(c, bound) <==> bound <= n - n / 4 + 1)
  {
    QuarterFits(k);
    StallBoundIsExact(CodeConfig(k, words), bound);
    CompletionBoundIsExact(CodeConfig(k, words), bound);
  }

  /** With one or two slots every batch that fits the ring completes, and no larger one. */
  lemma CodeStallBoundSmall(k: nat, words: nat, bound: nat)
    requires words >= 1 && k < 2
    ensures var c, n := CodeConfig(k, words), Pow2(k);
            && c.Valid() && c.n == n
            && (CanStall(c, bound) <==> bound >= n + 1)
            && (AlwaysCompletes(c, bound) <==> bound <= n)
  {
    assert Pow2(k) == if k == 0 then 1 else 2 * Pow2(0);
    StallBoundIsExact(CodeConfig(k, words), bound);
    CompletionBoundIsExact(CodeConfig(k, words), bound);
  }

  /** For the code `Full` on a fresh load, with the consumer between calls, means at least
      `n - n/4 + 1` unpopped values, and once synced it clears at the pop that makes the
      pops since the last published head a quarter of the ring. */
  lemma CodeFullMeans(k: nat, words: nat, s: State)
    requires k >= 2 && Inv(CodeConfig(k, words), s) && s.cons.pc.Idle?
    requires s.prod.tail == s.head + Pow2(k)
    ensures s.prod.tail - s.cons.head >= Pow2(k) - Pow2(k) / 4 + 1
    ensures s.cons.items < Pow2(k) / 4
    ensures s.prod.written == 0 ==>
              forall j: nat :: j <= Pow2(k) / 4 - s.cons.items ==>
                var t := AfterPops(CodeConfig(k, words), s, j);
                && TookNext(CodeConfig(k, words), s, t, j)
                && (t.prod.tail != t.head + Pow2(k) <==> j == Pow2(k) / 4 - s.cons.items)
  {
    var c := CodeConfig(k, words);
    QuarterFits(k);
    FullIsHonest(c, s);
    if s.prod.written == 0 {
      forall j: nat | j <= Pow2(k) / 4 - s.cons.items
        ensures var t := AfterPops(c, s, j);
                TookNext(c, s, t, j) && (t.prod.tail != t.head + Pow2(k) <==> j == Pow2(k) / 4 - s.cons.items)
      {
        FullClears(c, s, j);
      }
    }
  }

  lemma QuarterFits(k: nat)
    requires k >= 2
    ensures Pow2(k) >= 4 && BurstAmount(Pow2(k)) == Pow2(k) / 4
  {
    assert Pow2(k) == 2 * Pow2(k - 1) && Pow2(k - 1) == 2 * Pow2(k - 2);
  }
}
