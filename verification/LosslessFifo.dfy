/** The lossless channel refines a two-stage bounded FIFO, and the slot under the reader's
    hands is never the slot under the writer's. */
module LosslessFifo {
  import opened Arithmetic
  import opened Words
  import opened LosslessMachine
  import opened LosslessSafety

  /** What the channel is for: staged values become visible all at once, in order, and
      leave in order. `got` is what the current consumer session has taken. */
  datatype Fifo = Fifo(queue: seq<Element>, staged: seq<Element>, got: seq<Element>)

  ghost predicate Stages(n: nat, f: Fifo, g: Fifo, vs: seq<Element>) {
    && |f.queue| + |f.staged| + |vs| <= n
    && g == f.(staged := f.staged + vs)
  }

  ghost predicate Publishes(f: Fifo, g: Fifo) {
    g == f.(queue := f.queue + f.staged, staged := [])
  }

  ghost predicate Dequeues(f: Fifo, g: Fifo) {
    && f.queue != []
    && g == f.(queue := f.queue[1..], got := f.got + [f.queue[0]])
  }

  /** The producer's restart forgets what it had not synced. */
  ghost predicate DropsStaged(f: Fifo, g: Fifo) {
    g == f.(staged := [])
  }

  /** A consumer join starts over at the tail. */
  ghost predicate Flushes(f: Fifo, g: Fifo) {
    g == f.(queue := [], got := [])
  }

  ghost function Abstract(s: State): Fifo
    requires |s.log| == s.tail && Live(s) <= s.tail
  {
    Fifo(s.log[Live(s)..], s.staged, if s.cons.pc.Joining? then [] else s.cons.out)
  }

  /** What each action does to the abstract channel; all others leave it as it is. */
  ghost predicate Refines(c: Config, s: State, a: Action, f: Fifo, g: Fifo) {
    match a
    case PushEnd => s.prod.pc.Writing? && Stages(c.n, f, g, [s.prod.pc.value])
    case Sync => Publishes(f, g)
    case Commit(always) =>
      s.prod.pc.Reserved? &&
      exists mid ::
        && Stages(c.n, f, mid, s.prod.pc.vals)
        && (if always || |mid.staged| >= c.burst then Publishes(mid, g) else g == mid)
    case Restart(_) => DropsStaged(f, g)
    case PopEnd => Dequeues(f, g)
    case Release => Dequeues(f, g)
    case JoinLoad => Flushes(f, g)
    case _ => f == g
  }

  lemma AbstractBound(c: Config, s: State)
    requires Inv(c, s)
    ensures var f := Abstract(s); |f.queue| + |f.staged| + Granted(s.prod) <= c.n
  {
  }

  lemma AdvanceRefines(c: Config, s: State, v: Element)
    requires Inv(c, s) && (s.cons.pc.Reading? || s.cons.pc.Borrowed?)
    requires v == s.log[s.cons.head] && Inv(c, Advance(c, s, v))
    ensures Dequeues(Abstract(s), Abstract(Advance(c, s, v)))
  {
    assert s.log[s.cons.head..][1..] == s.log[s.cons.head + 1..];
  }

  lemma CommitRefines(c: Config, s: State, always: bool)
    requires Inv(c, s) && s.prod.pc.Reserved? && Inv(c, AfterCommit(c, s, always))
    ensures Refines(c, s, Commit(always), Abstract(s), Abstract(AfterCommit(c, s, always)))
  {
    var f := Abstract(s);
    AbstractBound(c, s);
    var mid := f.(staged := f.staged + s.prod.pc.vals);
    assert Stages(c.n, f, mid, s.prod.pc.vals);
    var t := AfterCommit(c, s, always);
    if always || |mid.staged| >= c.burst {
      assert t.log[Live(t)..] == s.log[Live(s)..] + mid.staged;
      assert Publishes(mid, Abstract(t));
    } else {
      assert Abstract(t) == mid;
    }
  }

  lemma ConsumerStepRefines(c: Config, s: State, a: Action)
    requires Inv(c, s) && Enabled(c, s, a) && IsConsumerAction(a) && Inv(c, Step(c, s, a))
    ensures Refines(c, s, a, Abstract(s), Abstract(Step(c, s, a)))
  {
    if a.PopEnd? {
      assert s.cons.pc.buf == s.log[s.cons.head];
      AdvanceRefines(c, s, s.cons.pc.buf);
    } else if a.Release? {
      AdvanceRefines(c, s, s.cons.pc.taken);
    }
  }

  lemma ProducerStepRefines(c: Config, s: State, a: Action)
    requires Inv(c, s) && Enabled(c, s, a) && !IsConsumerAction(a) && Inv(c, Step(c, s, a))
    ensures Refines(c, s, a, Abstract(s), Abstract(Step(c, s, a)))
  {
    AbstractBound(c, s);
    if a.Commit? {
      CommitRefines(c, s, a.always);
    } else if a.Sync? {
      var t := Step(c, s, a);
      assert t.log[Live(t)..] == s.log[Live(s)..] + s.staged;
    }
  }

  /** Every step of every reachable state is the FIFO operation its action stands for. */
  lemma StepRefinesFifo(c: Config, s: State, a: Action)
    requires Inv(c, s) && Enabled(c, s, a)
    ensures Inv(c, Step(c, s, a))
    ensures Refines(c, s, a, Abstract(s), Abstract(Step(c, s, a)))
  {
    StepKeepsInv(c, s, a);
    if IsConsumerAction(a) {
      ConsumerStepRefines(c, s, a);
    } else {
      ProducerStepRefines(c, s, a);
    }
  }

  /** Over any run from the start of a session, what the current consumer session has
      taken is exactly the published sequence from its join to its head: nothing lost,
      repeated, reordered or made up. */
  lemma SessionTakesPublished(c: Config, s: State, acts: seq<Action>)
    requires c.Valid() && Init(c, s) && ValidRun(c, s, acts)
    ensures var t := Exec(c, s, acts);
            && t.cons.start <= t.cons.head <= |t.log| == t.tail
            && t.cons.out == t.log[t.cons.start..t.cons.head]
  {
    InitInv(c, s);
    RunKeepsInv(c, s, acts);
  }

  /** What has been accepted and not forgotten, oldest first. */
  ghost function Contents(f: Fifo): seq<Element> {
    f.got + f.queue + f.staged
  }

  /** The values a run makes the channel accept, read off the arguments of its actions alone:
      that of each push completed and those written into each reservation committed. `open`
      is what the call in progress has been given so far. */
  function AcceptedBy(acts: seq<Action>, open: seq<Element>): seq<Element>
    decreases |acts|
  {
    if acts == [] then []
    else
      var rest := acts[1..];
      match acts[0]
      case PushLoad(v, _) => AcceptedBy(rest, [v])
      case Reserve(_, _) => AcceptedBy(rest, [])
      case FillStart(v) => AcceptedBy(rest, open + [v])
      case PushEnd => open + AcceptedBy(rest, [])
      case Commit(_) => open + AcceptedBy(rest, [])
      case _ => AcceptedBy(rest, open)
  }

  /** The call in progress has been given just the values `open`. */
  predicate Given(pc: ProducerPc, open: seq<Element>) {
    match pc
    case Ready => true
    case Writing(v, _) => open == [v]
    case Reserved(_, vals) => open == vals
    case Filling(_, vals, v, _) => open == vals + [v]
  }

  function GivenNext(a: Action, open: seq<Element>): seq<Element> {
    match a
    case PushLoad(v, _) => [v]
    case Reserve(_, _) => []
    case FillStart(v) => open + [v]
    case PushEnd => []
    case Commit(_) => []
    case _ => open
  }

  function AcceptedNow(a: Action, open: seq<Element>): seq<Element> {
    if a.PushEnd? || a.Commit? then open else []
  }

  lemma AcceptedUnfold(acts: seq<Action>, open: seq<Element>)
    requires acts != []
    ensures AcceptedBy(acts, open) == AcceptedNow(acts[0], open) + AcceptedBy(acts[1..], GivenNext(acts[0], open))
  {
  }

  lemma StepKeepsGiven(c: Config, s: State, a: Action, open: seq<Element>)
    requires Enabled(c, s, a) && Given(s.prod.pc, open)
    ensures Given(Step(c, s, a).prod.pc, GivenNext(a, open))
  {
  }

  /** Neither side restarts. */
  predicate InSession(acts: seq<Action>) {
    forall j :: 0 <= j < |acts| ==> !acts[j].Restart? && !acts[j].JoinLoad? && !acts[j].JoinStore?
  }

  lemma StageConserves(n: nat, f: Fifo, g: Fifo, vs: seq<Element>)
    requires Stages(n, f, g, vs)
    ensures Contents(g) == Contents(f) + vs
  {
  }

  lemma PublishConserves(f: Fifo, g: Fifo)
    requires Publishes(f, g)
    ensures Contents(g) == Contents(f)
  {
  }

  lemma DequeueConserves(f: Fifo, g: Fifo)
    requires Dequeues(f, g)
    ensures Contents(g) == Contents(f)
  {
    assert f.queue == [f.queue[0]] + f.queue[1..];
  }

  /** Every FIFO operation but a restart or a join keeps the contents and appends what it accepts. */
  lemma RefinedConserves(c: Config, s: State, a: Action, f: Fifo, g: Fifo, open: seq<Element>)
    requires Refines(c, s, a, f, g) && !a.Restart? && !a.JoinLoad? && Given(s.prod.pc, open)
    ensures Contents(g) == Contents(f) + AcceptedNow(a, open)
  {
    match a
    case PushEnd => StageConserves(c.n, f, g, [s.prod.pc.value]);
    case Sync => PublishConserves(f, g);
    case PopEnd => DequeueConserves(f, g);
    case Release => DequeueConserves(f, g);
    case Commit(always) =>
      var mid :| Stages(c.n, f, mid, s.prod.pc.vals)
                 && (if always || |mid.staged| >= c.burst then Publishes(mid, g) else g == mid);
      StageConserves(c.n, f, mid, s.prod.pc.vals);
      if always || |mid.staged| >= c.burst {
        PublishConserves(mid, g);
      }
    case _ =>
  }

  lemma Reassociate(a: seq<Element>, b: seq<Element>, d: seq<Element>)
    ensures (a + b) + d == a + (b + d)
  {
  }

  /** Conservation over every schedule: as long as neither side restarts, what the consumer
      has taken, then the queue, then the staged values are together exactly what was
      there before followed by the arguments of everything accepted since, in order. */
  lemma {:induction false} RunConserves(c: Config, s: State, acts: seq<Action>, open: seq<Element>)
    requires Inv(c, s) && ValidRun(c, s, acts) && InSession(acts) && Given(s.prod.pc, open)
    ensures Inv(c, Exec(c, s, acts))
    ensures Contents(Abstract(Exec(c, s, acts))) == Contents(Abstract(s)) + AcceptedBy(acts, open)
    decreases |acts|
  {
    if acts == [] {
      assert Contents(Abstract(s)) + [] == Contents(Abstract(s));
    } else {
      var a, t := acts[0], Step(c, s, acts[0]);
      StepRefinesFifo(c, s, a);
      RefinedConserves(c, s, a, Abstract(s), Abstract(t), open);
      StepKeepsGiven(c, s, a, open);
      RunConserves(c, t, acts[1..], GivenNext(a, open));
      AcceptedUnfold(acts, open);
      Reassociate(Contents(Abstract(s)), AcceptedNow(a, open), AcceptedBy(acts[1..], GivenNext(a, open)));
    }
  }

  /** A pop comes back empty-handed exactly when the published queue is empty at its load. */
  lemma NoneIffQueueEmpty(c: Config, s: State)
    requires Inv(c, s) && s.cons.pc.Idle?
    ensures TestsEmpty(s) <==> Abstract(s).queue == []
    ensures Step(c, s, PopLoad).cons.pc.Idle? <==> Abstract(s).queue == []
  {
  }

  // ------------------------------------------------------------ slot ownership

  /** In no reachable state does the producer write the slot that is being read or is
      borrowed, nor the slot of any published value still to be read. */
  lemma WriterNeverTouchesUnread(c: Config, s: State)
    requires Inv(c, s) && (s.prod.pc.Writing? || s.prod.pc.Filling?)
    ensures s.cons.pc.Reading? || s.cons.pc.Borrowed? ==>
              Slot(c.n, WriteCursor(s.prod)) != Slot(c.n, s.cons.head)
    ensures forall q: nat :: Live(s) <= q < s.tail ==> Slot(c.n, q) != Slot(c.n, WriteCursor(s.prod))
  {
    forall q: nat | Live(s) <= q < s.tail
      ensures Slot(c.n, q) != Slot(c.n, WriteCursor(s.prod))
    {
      WriteSlotIsFree(c, s, q);
    }
  }

  /** The producer's write cursor is apart from every unread slot. */
  ghost predicate WriterIsApart(c: Config, s: State) {
    && c.n >= 1
    && (s.prod.pc.Writing? || s.prod.pc.Filling? ==>
         && (s.cons.pc.Reading? || s.cons.pc.Borrowed? ==>
              Slot(c.n, WriteCursor(s.prod)) != Slot(c.n, s.cons.head))
         && forall q: nat :: Live(s) <= q < s.tail ==> Slot(c.n, q) != Slot(c.n, WriteCursor(s.prod)))
  }

  /** Slot ownership over whole runs: pushes, reservations and either side's restarts in
      any order, with head loads as stale as the machine admits. */
  lemma WriterIsAlwaysApart(c: Config, s: State, acts: seq<Action>)
    requires c.Valid() && Init(c, s) && ValidRun(c, s, acts)
    ensures WriterIsApart(c, Exec(c, s, acts))
  {
    var t := Exec(c, s, acts);
    InitInv(c, s);
    RunKeepsInv(c, s, acts);
    if t.prod.pc.Writing? || t.prod.pc.Filling? {
      WriterNeverTouchesUnread(c, t);
    }
  }

  /** Mutating through a borrowed element changes one word of that element alone: its other
      words and every other unread, staged or reserved value keep their contents, and the
      logs do not move. */
  lemma MutationIsPrivate(c: Config, s: State, j: nat, w: Word)
    requires Inv(c, s) && Enabled(c, s, Mutate(j, w))
    ensures var t := Step(c, s, Mutate(j, w));
            && t.log == s.log && t.staged == s.staged && t.prod == s.prod
            && (var now, was := t.slots[Slot(c.n, s.cons.head)], s.slots[Slot(c.n, s.cons.head)];
                && |now| == |was| == c.words && now[j] == w
                && forall i :: 0 <= i < |was| && i != j ==> now[i] == was[i])
            && forall q: nat :: s.cons.head < q < WriteCursor(s.prod) ==>
                 t.slots[Slot(c.n, q)] == s.slots[Slot(c.n, q)]
  {
    forall q: nat | s.cons.head < q < WriteCursor(s.prod)
      ensures Slot(c.n, q) != Slot(c.n, s.cons.head)
    {
      BorrowedSlotIsAlone(c, s, q);
    }
  }

  /** A borrowed element stays what it was handed out as, until its holder changes it. */
  lemma BorrowIsStable(c: Config, s: State, a: Action)
    requires Inv(c, s) && Enabled(c, s, a) && s.cons.pc.Borrowed? && !IsConsumerAction(a)
    ensures var t := Step(c, s, a);
            && t.cons == s.cons
            && |t.slots| == c.n && t.slots[Slot(c.n, s.cons.head)] == s.slots[Slot(c.n, s.cons.head)] == s.cons.pc.now
            && s.cons.pc.taken == s.log[s.cons.head]
  {
    assert s.slots[Slot(c.n, s.cons.head)] == Expected(s, s.cons.head);
    if s.prod.pc.Writing? || s.prod.pc.Filling? {
      WriteSlotIsFree(c, s, s.cons.head);
    }
  }

  // -------------------------------------------------------- head-load arithmetic

  /** Whatever admissible head a load returns, the equality-only test of `push` is the
      test for no room, and the room `reserve` computes never underflows; a fresh load
      also never exceeds what is really free. */
  lemma HeadLoadsAreSound(c: Config, s: State, obs: nat)
    requires Inv(c, s) && s.prod.seen <= obs <= s.head
    ensures 0 <= Available(c, s, obs) <= c.n
    ensures TestsFull(c, s, obs) <==> Available(c, s, obs) == 0
    ensures !TestsFull(c, s, obs) <==> s.prod.tail < obs + c.n
    ensures Available(c, s, obs) <= c.n - (s.prod.tail - Live(s))
  {
  }
}
