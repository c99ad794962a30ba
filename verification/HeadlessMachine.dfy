/** The lossy (headless) channel as an interleaved machine.

    Every action is one shared load, one shared store or one word of a slot copy, so a
    run is an arbitrary interleaving of one producer and any number of consumers under
    sequential consistency. The producer may crash at any point, also half-way through a
    slot, and be restarted from the shared tail.

    The machine is parametrised by the two bounds whose interplay makes it safe: the
    number of unsynced writes after which `push` syncs by itself (`limit`) and the window
    of positions a consumer trusts (`margin`). The code uses `burst` and `N - burst`. */
module HeadlessMachine {
  import opened Arithmetic
  import opened Words

  datatype Config = Config(n: nat, words: nat, limit: nat, margin: nat) {
    ghost predicate Valid() {
      n >= 1 && words >= 1 && limit >= 1
    }
  }

  /** The configuration the code compiles to for capacity `2^k`. */
  function CodeConfig(k: nat, words: nat): Config {
    var n := Pow2(k);
    Config(n, words, BurstAmount(n), n - BurstAmount(n))
  }

  datatype ProducerPc =
    | Ready
    | Writing(value: Element, done: nat)  // the first `done` words are in the slot

  datatype Producer = Producer(tail: nat, written: nat, pc: ProducerPc)

  datatype ConsumerPc =
    | Idle                      // between calls
    | Looping                   // inside `pop`, after a `continue`
    | Reading(buf: seq<Word>)   // inside `pop`, copying the slot at `head`

  datatype Delivery = Delivery(pos: nat, value: Element)

  /** History of the running `pop` call: how often it continued, the publication count
      when it began, and what the last `continue` had observed. */
  datatype CallLog = CallLog(retries: nat, epoch: nat, seenTail: nat, seenEpoch: nat)

  /** A strided consumer. `start`, `out`, `skipped` (position to the tail that pushed it
      out) and `call` are history; the code never reads them. */
  datatype Consumer = Consumer(
    index: nat, interval: nat, head: nat, pc: ConsumerPc,
    start: nat, out: seq<Delivery>, skipped: map<nat, nat>, call: CallLog)

  /** `log` holds the published value of every position below the shared tail; positions
      below `base` are from before the session and their slots are arbitrary. `staged`
      holds the pushed, unsynced values, `high` is one past the highest position whose
      slot was ever written, `epochs` counts the tail stores that raised the tail. */
  datatype State = State(
    tail: nat, slots: seq<Element>, prod: Producer, cons: seq<Consumer>,
    base: nat, log: seq<Element>, staged: seq<Element>, high: nat, epochs: nat)

  datatype Action =
    | PushStart(value: Element)  // `push`: sync first if at the limit, then begin the slot
    | PushWord                   // one word of the slot store
    | PushEnd                    // local cursor increments
    | Sync
    | Restart                    // crash, then join: reload the shared tail
    | Join(index: nat, interval: nat)
    | Load(id: nat)              // first tail load of a `pop` iteration
    | Read(id: nat)              // one word of the slot copy
    | Check(id: nat)             // second tail load of the iteration

  // ----------------------------------------------------------- producer steps

  function Max(x: nat, y: nat): nat {
    if x < y then y else x
  }

  /** `sync`: the tail store publishes everything staged. */
  function AfterSync(s: State): State {
    s.(tail := s.prod.tail, prod := s.prod.(written := 0),
       log := s.log + s.staged, staged := [],
       epochs := if s.prod.tail > s.tail then s.epochs + 1 else s.epochs)
  }

  function AfterPushStart(c: Config, s: State, v: Element): State {
    var s1 := if s.prod.written == c.limit then AfterSync(s) else s;
    s1.(prod := s1.prod.(pc := Writing(v, 0)), high := Max(s1.high, s1.prod.tail + 1))
  }

  function AfterPushWord(c: Config, s: State): State
    requires c.n >= 1 && |s.slots| == c.n && s.prod.pc.Writing?
  {
    var i, j := Slot(c.n, s.prod.tail), s.prod.pc.done;
    s.(slots := s.slots[i := WithWord(s.slots[i], j, WordAt(s.prod.pc.value, j))],
       prod := s.prod.(pc := Writing(s.prod.pc.value, j + 1)))
  }

  function AfterPushEnd(s: State): State
    requires s.prod.pc.Writing?
  {
    s.(prod := Producer(s.prod.tail + 1, s.prod.written + 1, Ready),
       staged := s.staged + [s.prod.pc.value])
  }

  function AfterRestart(s: State): State {
    s.(prod := Producer(s.tail, 0, Ready), staged := [])
  }

  // ----------------------------------------------------------- consumer steps

  datatype Decision = CaughtUp | Overrun(next: nat) | InWindow

  /** What `pop` decides from a tail load. */
  function Decide(tail: nat, head: nat, margin: nat, index: nat, interval: nat): Decision
    requires index < interval
  {
    if tail <= head then CaughtUp
    else if tail <= head + margin then InWindow
    else Overrun(NextModulo(tail - margin, index, interval))
  }

  function Joined(tail: nat, epochs: nat, index: nat, interval: nat): Consumer
    requires index < interval
  {
    Consumer(index, interval, NextModulo(tail, index, interval), Idle,
             tail, [], map[], CallLog(0, epochs, tail, epochs))
  }

  /** The positions of this consumer's residue in `[from, to)`. */
  function Strided(con: Consumer, from: nat, to: nat): set<nat>
    requires con.interval >= 1
  {
    set q: nat | from <= q < to && q % con.interval == con.index
  }

  /** The `continue` branch: jump to the next own position inside the window. */
  function Jump(con: Consumer, tail: nat, epochs: nat, next: nat): Consumer
    requires con.interval >= 1
  {
    con.(head := next, pc := Looping,
         skipped := con.skipped + (map q | q in Strided(con, con.head, next) :: tail),
         call := CallLog(con.call.retries + 1, con.call.epoch, tail, epochs))
  }

  function AfterLoad(c: Config, tail: nat, epochs: nat, con: Consumer): Consumer
    requires con.index < con.interval
  {
    var con1 := if con.pc.Idle? then con.(call := CallLog(0, epochs, tail, epochs)) else con;
    match Decide(tail, con.head, c.margin, con.index, con.interval)
    case CaughtUp => con1.(pc := Idle)
    case InWindow => con1.(pc := Reading([]))
    case Overrun(next) => Jump(con1, tail, epochs, next)
  }

  function AfterRead(c: Config, slots: seq<Element>, con: Consumer): Consumer
    requires c.n >= 1 && |slots| == c.n && con.pc.Reading?
  {
    con.(pc := Reading(con.pc.buf + [WordAt(slots[Slot(c.n, con.head)], |con.pc.buf|)]))
  }

  /** The copied value is returned and the head moves on by one stride. */
  function Delivered(con: Consumer): Consumer
    requires con.pc.Reading?
  {
    con.(head := con.head + con.interval, pc := Idle,
         out := con.out + [Delivery(con.head, con.pc.buf)])
  }

  function AfterCheck(c: Config, tail: nat, epochs: nat, con: Consumer): Consumer
    requires con.index < con.interval && con.pc.Reading?
  {
    if tail <= con.head + c.margin then Delivered(con)
    else
      Jump(con, tail, epochs, NextModulo(tail - c.margin, con.index, con.interval))
  }

  // --------------------------------------------------------------------- runs

  predicate Enabled(c: Config, s: State, a: Action) {
    && c.n >= 1 && |s.slots| == c.n
    && match a
       case PushStart(v) => s.prod.pc.Ready? && |v| == c.words
       case PushWord => s.prod.pc.Writing? && s.prod.pc.done < c.words
       case PushEnd => s.prod.pc.Writing? && s.prod.pc.done == c.words
       case Sync => s.prod.pc.Ready?
       case Restart => true
       case Join(index, interval) => index < interval <= 64
       case Load(id) => id < |s.cons| && s.cons[id].index < s.cons[id].interval && !s.cons[id].pc.Reading?
       case Read(id) => id < |s.cons| && s.cons[id].pc.Reading? && |s.cons[id].pc.buf| < c.words
       case Check(id) => id < |s.cons| && s.cons[id].index < s.cons[id].interval
                         && s.cons[id].pc.Reading? && |s.cons[id].pc.buf| == c.words
  }

  function Step(c: Config, s: State, a: Action): State
    requires Enabled(c, s, a)
  {
    match a
    case PushStart(v) => AfterPushStart(c, s, v)
    case PushWord => AfterPushWord(c, s)
    case PushEnd => AfterPushEnd(s)
    case Sync => AfterSync(s)
    case Restart => AfterRestart(s)
    case Join(index, interval) => s.(cons := s.cons + [Joined(s.tail, s.epochs, index, interval)])
    case Load(id) => s.(cons := s.cons[id := AfterLoad(c, s.tail, s.epochs, s.cons[id])])
    case Read(id) => s.(cons := s.cons[id := AfterRead(c, s.slots, s.cons[id])])
    case Check(id) => s.(cons := s.cons[id := AfterCheck(c, s.tail, s.epochs, s.cons[id])])
  }

  predicate ValidRun(c: Config, s: State, acts: seq<Action>)
    decreases |acts|
  {
    acts == [] || (Enabled(c, s, acts[0]) && ValidRun(c, Step(c, s, acts[0]), acts[1..]))
  }

  function Exec(c: Config, s: State, acts: seq<Action>): State
    requires ValidRun(c, s, acts)
    decreases |acts|
  {
    if acts == [] then s else Exec(c, Step(c, s, acts[0]), acts[1..])
  }

  /** The start of a session on the given memory. */
  function Beginning(c: Config, tail: nat, slots: seq<Element>, log: seq<Element>): State {
    State(tail, slots, Producer(tail, 0, Ready), [], tail, log, [], tail, 0)
  }

  /** A session begins with a freshly joined producer on a channel whose tail, slot
      contents and earlier history are arbitrary. */
  ghost predicate Init(c: Config, s: State) {
    && |s.slots| == c.n && Sized(c.words, s.slots)
    && |s.log| == s.tail == s.base == s.high
    && Sized(c.words, s.log)
    && s.prod == Producer(s.tail, 0, Ready)
    && s.staged == [] && s.cons == []
  }

  lemma {:induction false} RunConcat(c: Config, s: State, xs: seq<Action>, ys: seq<Action>)
    requires ValidRun(c, s, xs) && ValidRun(c, Exec(c, s, xs), ys)
    ensures ValidRun(c, s, xs + ys) && Exec(c, s, xs + ys) == Exec(c, Exec(c, s, xs), ys)
    decreases |xs|
  {
    if xs == [] {
      assert xs + ys == ys;
    } else {
      RunConcat(c, Step(c, s, xs[0]), xs[1..], ys);
      assert (xs + ys)[1..] == xs[1..] + ys;
    }
  }

  lemma RunOne(c: Config, s: State, a: Action)
    requires Enabled(c, s, a)
    ensures ValidRun(c, s, [a]) && Exec(c, s, [a]) == Step(c, s, a)
  {
    assert [a][1..] == [];
    assert ValidRun(c, Step(c, s, a), []);
  }

  /** `t` is reached from `s` by some interleaving. */
  ghost predicate Reaches(c: Config, s: State, t: State) {
    exists acts :: ValidRun(c, s, acts) && Exec(c, s, acts) == t
  }

  lemma ReachesSelf(c: Config, s: State)
    ensures Reaches(c, s, s)
  {
    assert ValidRun(c, s, []) && Exec(c, s, []) == s;
  }

  lemma ReachesStep(c: Config, s: State, a: Action)
    requires Enabled(c, s, a)
    ensures Reaches(c, s, Step(c, s, a))
  {
    RunOne(c, s, a);
  }

  lemma ReachesTrans(c: Config, s: State, t: State, u: State)
    requires Reaches(c, s, t) && Reaches(c, t, u)
    ensures Reaches(c, s, u)
  {
    var xs :| ValidRun(c, s, xs) && Exec(c, s, xs) == t;
    var ys :| ValidRun(c, t, ys) && Exec(c, t, ys) == u;
    RunConcat(c, s, xs, ys);
  }
}
