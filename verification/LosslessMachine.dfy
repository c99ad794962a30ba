/** The lossless channel as an interleaved machine of one producer and one consumer.

    Every action is one shared load, one shared store or one word of a slot copy. Either
    side may crash anywhere and join again; the consumer's join is two separate actions.
    The producer's head loads may even be stale: they return any value between the head
    it has last seen and the current one (a sequentially consistent load is the latter). */
module LosslessMachine {
  import opened Arithmetic
  import opened Words

  datatype Config = Config(n: nat, words: nat, burst: nat) {
    ghost predicate Valid() {
      n >= 1 && words >= 1 && 1 <= burst <= n
    }
  }

  function CodeConfig(k: nat, words: nat): Config {
    Config(Pow2(k), words, BurstAmount(Pow2(k)))
  }

  datatype ProducerPc =
    | Ready
    | Writing(value: Element, done: nat)                 // inside `push`
    | Reserved(count: nat, vals: seq<Element>)           // a live reservation
    | Filling(count: nat, vals: seq<Element>, value: Element, done: nat) // inside one of its writes

  /** `seen` is history: the newest head the producer has loaded. */
  datatype Producer = Producer(tail: nat, written: nat, pc: ProducerPc, seen: nat)

  datatype ConsumerPc =
    | Absent                                // never joined
    | Idle
    | Reading(buf: seq<Word>)               // inside `pop`
    | Borrowed(taken: Element, now: Element) // a live zero-copy element: as handed out, as mutated
    | Joining(newHead: nat)                 // between the tail load and the head store of `join`

  /** `start` and `out` are history: where the session joined and what it has taken. */
  datatype Consumer = Consumer(head: nat, items: nat, pc: ConsumerPc, start: nat, out: seq<Element>)

  /** `log` holds the published value of every position below the tail, `staged` the
      pushed and unsynced ones, `syncSeen` the head the last tail store was based on. */
  datatype State = State(
    tail: nat, head: nat, slots: seq<Element>, prod: Producer, cons: Consumer,
    log: seq<Element>, staged: seq<Element>, syncSeen: nat)

  datatype Action =
    | PushLoad(value: Element, obs: nat)  // head load and full test
    | PushWord
    | PushEnd
    | Sync
    | Reserve(count: nat, obs: nat)
    | FillStart(value: Element)
    | FillWord
    | FillEnd
    | Commit(always: bool)                // `always`: the C twin syncs unconditionally
    | Cancel
    | Restart(obs: nat)
    | PopLoad
    | PopRead
    | PopEnd
    | Borrow                              // `pop_zerocopy`
    | Mutate(j: nat, w: Word)             // one word written through the element
    | Release                             // the element is dropped
    | JoinLoad
    | JoinStore

  // ----------------------------------------------------------- producer steps

  function AfterSync(s: State): State {
    s.(tail := s.prod.tail, prod := s.prod.(written := 0),
       log := s.log + s.staged, staged := [], syncSeen := s.prod.seen)
  }

  /** The equality-only full test of `push`. */
  predicate TestsFull(c: Config, s: State, obs: nat) {
    s.prod.tail == obs + c.n
  }

  function AfterPushLoad(c: Config, s: State, v: Element, obs: nat): State {
    var s1 := s.(prod := s.prod.(seen := obs));
    if TestsFull(c, s, obs) then s1 else s1.(prod := s1.prod.(pc := Writing(v, 0)))
  }

  function AfterPushEnd(s: State): State
    requires s.prod.pc.Writing?
  {
    s.(prod := Producer(s.prod.tail + 1, s.prod.written + 1, Ready, s.prod.seen),
       staged := s.staged + [s.prod.pc.value])
  }

  /** `N - (tail - head)`, the room `reserve` computes. */
  function Available(c: Config, s: State, obs: nat): int {
    c.n - (s.prod.tail - obs)
  }

  function AfterReserve(c: Config, s: State, count: nat, obs: nat): State {
    if count == 0 || count > c.n then s
    else
      var s1 := s.(prod := s.prod.(seen := obs));
      if count > Available(c, s, obs) then s1
      else s1.(prod := s1.prod.(pc := Reserved(count, [])))
  }

  /** The position the producer is writing, or will write next. */
  function WriteCursor(p: Producer): nat {
    match p.pc
    case Reserved(_, vals) => p.tail + |vals|
    case Filling(_, vals, _, _) => p.tail + |vals|
    case _ => p.tail
  }

  function AfterWriteWord(c: Config, s: State): State
    requires c.n >= 1 && |s.slots| == c.n && (s.prod.pc.Writing? || s.prod.pc.Filling?)
  {
    var i, j := Slot(c.n, WriteCursor(s.prod)), s.prod.pc.done;
    s.(slots := s.slots[i := WithWord(s.slots[i], j, WordAt(s.prod.pc.value, j))],
       prod := s.prod.(pc := s.prod.pc.(done := j + 1)))
  }

  function AfterCommit(c: Config, s: State, always: bool): State
    requires s.prod.pc.Reserved?
  {
    var w := |s.prod.pc.vals|;
    var s1 := s.(prod := Producer(s.prod.tail + w, s.prod.written + w, Ready, s.prod.seen),
                 staged := s.staged + s.prod.pc.vals);
    if always || s1.prod.written >= c.burst then AfterSync(s1) else s1
  }

  function AfterRestart(s: State, obs: nat): State {
    s.(prod := Producer(s.tail, 0, Ready, obs), staged := [])
  }

  // ----------------------------------------------------------- consumer steps

  /** `pop` and `pop_zerocopy` return nothing. */
  predicate TestsEmpty(s: State) {
    s.tail <= s.cons.head
  }

  /** Local head and counter go up; the head is published once `burst` items are due. */
  function Advance(c: Config, s: State, v: Element): State {
    var con := s.cons;
    var due := con.items + 1 >= c.burst;
    s.(head := if due then con.head + 1 else s.head,
       cons := Consumer(con.head + 1, if due then 0 else con.items + 1, Idle, con.start, con.out + [v]))
  }

  function AfterPopRead(c: Config, s: State): State
    requires c.n >= 1 && |s.slots| == c.n && s.cons.pc.Reading?
  {
    var buf := s.cons.pc.buf;
    s.(cons := s.cons.(pc := Reading(buf + [WordAt(s.slots[Slot(c.n, s.cons.head)], |buf|)])))
  }

  function AfterBorrow(c: Config, s: State): State
    requires c.n >= 1 && |s.slots| == c.n
  {
    var e := s.slots[Slot(c.n, s.cons.head)];
    if TestsEmpty(s) then s else s.(cons := s.cons.(pc := Borrowed(e, e)))
  }

  function AfterMutate(c: Config, s: State, j: nat, w: Word): State
    requires c.n >= 1 && |s.slots| == c.n && s.cons.pc.Borrowed?
  {
    var i := Slot(c.n, s.cons.head);
    s.(slots := s.slots[i := WithWord(s.slots[i], j, w)],
       cons := s.cons.(pc := Borrowed(s.cons.pc.taken, WithWord(s.cons.pc.now, j, w))))
  }

  function AfterJoinStore(s: State): State
    requires s.cons.pc.Joining?
  {
    var h := s.cons.pc.newHead;
    s.(head := h, cons := Consumer(h, 0, Idle, h, []))
  }

  // --------------------------------------------------------------------- runs

  predicate Enabled(c: Config, s: State, a: Action) {
    && c.n >= 1 && |s.slots| == c.n
    && match a
       case PushLoad(v, obs) => s.prod.pc.Ready? && |v| == c.words && s.prod.seen <= obs <= s.head
       case PushWord => s.prod.pc.Writing? && s.prod.pc.done < c.words
       case PushEnd => s.prod.pc.Writing? && s.prod.pc.done == c.words
       case Sync => s.prod.pc.Ready?
       case Reserve(_, obs) => s.prod.pc.Ready? && s.prod.seen <= obs <= s.head
       case FillStart(v) => s.prod.pc.Reserved? && |s.prod.pc.vals| < s.prod.pc.count && |v| == c.words
       case FillWord => s.prod.pc.Filling? && s.prod.pc.done < c.words
       case FillEnd => s.prod.pc.Filling? && s.prod.pc.done == c.words
       case Commit(_) => s.prod.pc.Reserved?
       case Cancel => s.prod.pc.Reserved?
       case Restart(obs) => s.syncSeen <= obs <= s.head
       case PopLoad => s.cons.pc.Idle?
       case PopRead => s.cons.pc.Reading? && |s.cons.pc.buf| < c.words
       case PopEnd => s.cons.pc.Reading? && |s.cons.pc.buf| == c.words
       case Borrow => s.cons.pc.Idle?
       case Mutate(j, _) => s.cons.pc.Borrowed? && j < c.words
       case Release => s.cons.pc.Borrowed?
       case JoinLoad => true
       case JoinStore => s.cons.pc.Joining?
  }

  function Step(c: Config, s: State, a: Action): State
    requires Enabled(c, s, a)
  {
    match a
    case PushLoad(v, obs) => AfterPushLoad(c, s, v, obs)
    case PushWord => AfterWriteWord(c, s)
    case PushEnd => AfterPushEnd(s)
    case Sync => AfterSync(s)
    case Reserve(count, obs) => AfterReserve(c, s, count, obs)
    case FillStart(v) => s.(prod := s.prod.(pc := Filling(s.prod.pc.count, s.prod.pc.vals, v, 0)))
    case FillWord => AfterWriteWord(c, s)
    case FillEnd => s.(prod := s.prod.(pc := Reserved(s.prod.pc.count, s.prod.pc.vals + [s.prod.pc.value])))
    case Commit(always) => AfterCommit(c, s, always)
    case Cancel => s.(prod := s.prod.(pc := Ready))
    case Restart(obs) => AfterRestart(s, obs)
    case PopLoad => if TestsEmpty(s) then s else s.(cons := s.cons.(pc := Reading([])))
    case PopRead => AfterPopRead(c, s)
    case PopEnd => Advance(c, s, s.cons.pc.buf)
    case Borrow => AfterBorrow(c, s)
    case Mutate(j, w) => AfterMutate(c, s, j, w)
    case Release => Advance(c, s, s.cons.pc.taken)
    case JoinLoad => s.(cons := s.cons.(pc := Joining(s.tail)))
    case JoinStore => AfterJoinStore(s)
  }

  predicate ValidRun(c: Config, s: State, acts: seq<Action>)
    decreases |acts|
  {
    acts == [] || (Enabled(c, s, acts[0]) && ValidRun(c, Step(c, s, acts[0]), acts[1..]))
  }

  function Exec(c: Config, s: State, acts: seq<Action>): State
    requires ValidRun(c, s, acts)
    decreases |acts|
  {
    if acts == [] then s else Exec(c, Step(c, s, acts[0]), acts[1..])
  }

  /** An empty channel at an arbitrary position, a producer just joined, no consumer yet;
      the slots hold anything. */
  ghost predicate Init(c: Config, s: State) {
    && |s.slots| == c.n && Sized(c.words, s.slots)
    && Sized(c.words, s.log)
    && |s.log| == s.tail == s.head == s.syncSeen
    && s.prod == Producer(s.tail, 0, Ready, s.head) && s.staged == []
    && s.cons == Consumer(s.head, 0, Absent, s.head, [])
  }

  lemma {:induction false} RunConcat(c: Config, s: State, xs: seq<Action>, ys: seq<Action>)
    requires ValidRun(c, s, xs) && ValidRun(c, Exec(c, s, xs), ys)
    ensures ValidRun(c, s, xs + ys) && Exec(c, s, xs + ys) == Exec(c, Exec(c, s, xs), ys)
    decreases |xs|
  {
    if xs == [] {
      assert xs + ys == ys;
    } else {
      RunConcat(c, Step(c, s, xs[0]), xs[1..], ys);
      assert (xs + ys)[1..] == xs[1..] + ys;
    }
  }

  lemma RunOne(c: Config, s: State, a: Action)
    requires Enabled(c, s, a)
    ensures ValidRun(c, s, [a]) && Exec(c, s, [a]) == Step(c, s, a)
  {
    assert [a][1..] == [];
    assert ValidRun(c, Step(c, s, a), []);
  }
}
