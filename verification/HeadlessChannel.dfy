/** The headless producer and consumers as objects over one shared channel. Every method
    is proved to be a run of the machine, so what holds of all runs holds of the objects.

    Other parties run between two shared accesses of a call: `Interference` stands for any
    number of their steps and promises no more than that it was a run. */
module HeadlessChannel {
  import opened Arithmetic
  import opened Words
  import opened Que
  import opened HeadlessMachine
  import opened HeadlessSafety
  import opened HeadlessCalls
  import opened HeadlessDelivery

  class Channel {
    const k: nat       // the capacity is `2^k`
    const words: nat   // words per element
    var tail: nat
    var capacity: nat
    var magic: nat
    const buffer: array<Element>
    ghost var m: State // the machine state this memory is in

    ghost const c: Config := CodeConfig(k, words)

    constructor (k: nat, words: nat, zero: Element)
      requires words >= 1 && |zero| == words
      ensures Zeroed() && fresh(buffer)
      ensures this.k == k && this.words == words
    {
      this.k := k;
      this.words := words;
      tail, capacity, magic := 0, 0, 0;
      buffer := new Element[Pow2(k)](_ => zero);
      m := State(0, [], HeadlessMachine.Producer(0, 0, Ready), [], 0, [], [], 0, 0);
    }

    ghost predicate Shaped()
      reads this, buffer
    {
      && words >= 1 && buffer.Length == Pow2(k)
      && forall i :: 0 <= i < buffer.Length ==> |buffer[i]| == words
    }

    ghost predicate Zeroed()
      reads this, buffer
    {
      Shaped() && tail == 0 && capacity == 0 && magic == 0
    }

    ghost predicate Initialised()
      reads this
    {
      magic == MAGIC && capacity == Pow2(k)
    }

    /** The memory is that of machine state `m`, which is reachable in a safe session. */
    ghost predicate Valid()
      reads this, buffer
    {
      && words >= 1 && buffer.Length == Pow2(k) && Initialised()
      && tail == m.tail && buffer[..] == m.slots
      && Safe(c, m)
    }

    ghost predicate RunOf(s: State)
      reads this
    {
      Reaches(c, s, m)
    }

    /** Memory that something else left behind, a lossless session say, is the start of a
        headless session: any tail and any slots will do. */
    ghost method BeginSession()
      requires Shaped() && Initialised()
      modifies this`m
      ensures Valid() && Init(c, m)
    {
      var any := buffer[0];
      m := Beginning(c, tail, buffer[..], seq(tail, _ => any));
      InitSafe(c, m);
    }

    /** Any run of the other parties that leaves consumer `id` alone; `horizon` bounds the
        publications that ever happen. */
    method Interference(ghost id: nat, ghost horizon: nat, ghost m0: State)
      requires Valid() && RunOf(m0) && id < |m.cons| && m.epochs <= horizon
      modifies this`tail, this`m, buffer
      ensures Valid() && RunOf(m0) && RunOf(old(m)) && old(m.epochs) <= m.epochs <= horizon
      ensures id < |m.cons| && m.cons[id] == old(m.cons[id])
    {
      ReachesSelf(c, m);
    }

    /** `ptr::read` of slot `i`, one word at a time. */
    method ReadSlot(i: nat, ghost id: nat, ghost horizon: nat, ghost m0: State) returns (buf: Element)
      requires Valid() && RunOf(m0) && id < |m.cons| && m.epochs <= horizon
      requires m.cons[id].pc == Reading([]) && i == Slot(Pow2(k), m.cons[id].head)
      modifies this`tail, this`m, buffer
      ensures Valid() && RunOf(m0) && old(m.epochs) <= m.epochs <= horizon && |buf| == words
      ensures id < |m.cons| && m.cons[id] == old(m.cons[id]).(pc := Reading(buf))
    {
      buf := [];
      ghost var con := m.cons[id];
      while |buf| < words
        invariant Valid() && RunOf(m0) && old(m.epochs) <= m.epochs <= horizon && |buf| <= words
        invariant id < |m.cons| && m.cons[id] == con.(pc := Reading(buf))
      {
        Interference(id, horizon, m0);
        buf := buf + [buffer[i][|buf|]];
        Advance(Read(id), m0);
      }
    }

    /** One consumer step of the machine, taken by a load that has just happened. */
    ghost method Advance(a: Action, m0: State)
      requires Valid() && RunOf(m0) && Enabled(c, m, a) && (a.Load? || a.Read? || a.Check?)
      modifies this`m
      ensures Valid() && RunOf(m0) && m == Step(c, old(m), a)
    {
      StepKeepsSafe(c, m, a);
      ReachesStep(c, m, a);
      ReachesTrans(c, m0, m, Step(c, m, a));
      m := Step(c, m, a);
    }
  }

  class Producer {
    const ch: Channel
    var tail: nat
    var written: nat

    constructor (ch: Channel, tail: nat)
      ensures this.ch == ch && this.tail == tail && written == 0
    {
      this.ch, this.tail, written := ch, tail, 0;
    }

    ghost predicate Valid()
      reads this, ch, ch.buffer
    {
      ch.Valid() && ch.m.prod == HeadlessMachine.Producer(tail, written, Ready)
    }

    /** `join_`: the producer continues at the shared tail, whatever its predecessor had
        pushed but not synced. */
    static method Join(ch: Channel) returns (r: Result<Producer>)
      requires ch.Shaped()
      modifies ch`m
      ensures r.Err? <==> !ch.Initialised()
      ensures ch.magic == 0 ==> r == Err(Uninitialized)
      ensures ch.magic != 0 && ch.magic != MAGIC ==> r == Err(CorruptionDetected)
      ensures ch.magic == MAGIC && ch.capacity != Pow2(ch.k) ==> r == Err(IncorrectCapacity(ch.capacity))
      ensures r.Err? ==> ch.m == old(ch.m)
      ensures r.Ok? ==> fresh(r.value) && r.value.ch == ch && r.value.Valid()
      ensures r.Ok? ==> r.value.tail == ch.tail && r.value.written == 0 && ch.m.staged == []
      ensures r.Ok? && old(ch.Valid()) ==> ch.m.log == old(ch.m.log) && ch.m.cons == old(ch.m.cons)
      ensures r.Ok? && old(ch.Valid()) ==> ch.m == AfterRestart(old(ch.m)) && ch.RunOf(old(ch.m))
      ensures r.Ok? && !old(ch.Valid()) ==> Init(ch.c, ch.m)
    {
      var magic := ch.magic;
      var capacity := ch.capacity;
      var e := JoinCheck(magic, capacity, Pow2(ch.k));
      if e.Some? {
        return Err(e.value);
      }
      if !ch.Valid() {
        ch.BeginSession();
      }
      StepKeepsSafe(ch.c, ch.m, Restart);
      ReachesStep(ch.c, ch.m, Restart);
      ch.m := AfterRestart(ch.m);
      var p := new Producer(ch, ch.tail);
      r := Ok(p);
    }

    /** `join_or_initialize_in_`: zeroed memory becomes the start of a session. */
    static method JoinOrInitialize(ch: Channel) returns (r: Result<Producer>)
      requires ch.Shaped()
      modifies ch
      ensures r.Ok? <==> old(ch.Initialised()) || old(ch.magic) == 0
      ensures r.Ok? ==> fresh(r.value) && r.value.ch == ch && r.value.Valid()
      ensures old(ch.Valid()) ==> ch.m == AfterRestart(old(ch.m)) && ch.RunOf(old(ch.m))
      ensures old(ch.Initialised()) && !old(ch.Valid()) ==> Init(ch.c, ch.m) && ch.tail == old(ch.tail)
      ensures old(ch.magic) == 0 ==> Init(ch.c, ch.m) && ch.tail == 0
      ensures r.Ok? ==> r.value.tail == ch.tail && r.value.written == 0 && ch.m.staged == []
      ensures old(ch.Valid()) ==> ch.m.log == old(ch.m.log) && ch.m.cons == old(ch.m.cons) && ch.tail == old(ch.tail)
      ensures ch.buffer[..] == old(ch.buffer[..])
      ensures old(ch.magic) != 0 && old(ch.magic) != MAGIC ==> r == Err(CorruptionDetected)
      ensures old(ch.magic) == MAGIC && old(ch.capacity) != Pow2(ch.k) ==> r == Err(IncorrectCapacity(old(ch.capacity)))
      ensures r.Err? ==> ch.m == old(ch.m)
    {
      if ch.magic == 0 {
        ch.tail := 0;
        ch.capacity := Pow2(ch.k);
        ch.magic := MAGIC;
        ch.m := State(0, ch.buffer[..], HeadlessMachine.Producer(0, 0, Ready), [], 0, [], [], 0, 0);
        InitSafe(ch.c, ch.m);
        var p := new Producer(ch, 0);
        r := Ok(p);
      } else {
        r := Join(ch);
      }
    }

    method Sync()
      requires Valid()
      modifies this`written, ch`tail, ch`m
      ensures Valid() && ch.tail == tail == old(tail) && written == 0
      ensures ch.m.log == old(ch.m.log + ch.m.staged) && ch.m.staged == [] && ch.m.cons == old(ch.m.cons)
      ensures ch.m == AfterSync(old(ch.m)) && ch.RunOf(old(ch.m))
    {
      StepKeepsSafe(ch.c, ch.m, HeadlessMachine.Sync);
      ReachesStep(ch.c, ch.m, HeadlessMachine.Sync);
      written := 0;
      ch.tail := tail;
      ch.m := AfterSync(ch.m);
    }

    /** A push never fails; it syncs by itself once `burst` values are unsynced. */
    method Push(value: Element)
      requires Valid() && |value| == ch.words
      modifies this`tail, this`written, ch`tail, ch`m, ch.buffer
      ensures Valid() && tail == old(tail) + 1
      ensures written == (if old(written) == BurstAmount(Pow2(ch.k)) then 1 else old(written) + 1)
      ensures ch.m.log + ch.m.staged == old(ch.m.log + ch.m.staged) + [value]
      ensures if old(written) == BurstAmount(Pow2(ch.k)) then
                ch.tail == old(tail) && ch.m.log == old(ch.m.log + ch.m.staged)
              else
                ch.tail == old(ch.tail) && ch.m.log == old(ch.m.log)
      ensures ch.m == PushCall(ch.c, old(ch.m), value) && ch.RunOf(old(ch.m))
    {
      ghost var m0 := ch.m;
      PushIsRun(ch.c, m0, value);
      PushStagesValue(ch.c, m0, value);
      RunKeepsSafe(ch.c, m0, PushActs(ch.c, value));
      if written == BurstAmount(Pow2(ch.k)) {
        Sync();
      }
      var index := MaskedIndex(ch.k, tail);
      ch.buffer[index] := value;
      tail := tail + 1;
      written := written + 1;
      ch.m := PushCall(ch.c, m0, value);
    }
  }

  class Consumer {
    const ch: Channel
    var head: nat
    const interval: nat
    const index: nat
    ghost const id: nat // which consumer of the machine this is

    constructor (ch: Channel, head: nat, index: nat, interval: nat, ghost id: nat)
      ensures this.ch == ch && this.head == head && this.index == index && this.interval == interval && this.id == id
    {
      this.ch, this.head, this.index, this.interval, this.id := ch, head, index, interval, id;
    }

    ghost function Model(): HeadlessMachine.Consumer
      reads ch
      requires id < |ch.m.cons|
    {
      ch.m.cons[id]
    }

    /** The object's cursor is that of its machine consumer. */
    ghost predicate Cursor()
      reads this, ch
    {
      && id < |ch.m.cons|
      && Model().head == head && Model().index == index < interval == Model().interval
    }

    ghost predicate Tracks()
      reads this, ch, ch.buffer
    {
      ch.Valid() && Cursor()
    }

    ghost predicate Valid()
      reads this, ch, ch.buffer
    {
      Tracks() && Model().pc.Idle?
    }

    /** `join_multi_`: the consumer starts at the first own position from the tail on. */
    static method JoinMulti(ch: Channel, index: nat, consumers: nat) returns (r: Result<Consumer>)
      requires ch.Shaped() && index < consumers <= 64
      modifies ch`m
      ensures r.Err? <==> !ch.Initialised()
      ensures ch.magic == 0 ==> r == Err(Uninitialized)
      ensures ch.magic != 0 && ch.magic != MAGIC ==> r == Err(CorruptionDetected)
      ensures ch.magic == MAGIC && ch.capacity != Pow2(ch.k) ==> r == Err(IncorrectCapacity(ch.capacity))
      ensures r.Err? ==> ch.m == old(ch.m)
      ensures r.Ok? ==> fresh(r.value) && r.value.ch == ch && r.value.Valid()
      ensures r.Ok? ==> r.value.index == index && r.value.interval == consumers
      ensures r.Ok? ==>
                |ch.m.cons| == r.value.id + 1 && r.value.Model() == Joined(ch.tail, ch.m.epochs, index, consumers)
      ensures r.Ok? && old(ch.Valid()) ==>
                ch.m == Step(ch.c, old(ch.m), HeadlessMachine.Join(index, consumers)) && ch.RunOf(old(ch.m))
      ensures r.Ok? && !old(ch.Valid()) ==> r.value.id == 0 && Init(ch.c, ch.m.(cons := []))
      ensures r.Ok? ==> r.value.Model().out == [] && r.value.Model().start == ch.tail
      ensures r.Ok? ==> FirstOwn(r.value.head, ch.tail, index, consumers)
    {
      var magic := ch.magic;
      var capacity := ch.capacity;
      var e := JoinCheck(magic, capacity, Pow2(ch.k));
      if e.Some? {
        return Err(e.value);
      }
      if !ch.Valid() {
        ch.BeginSession();
      }
      var head := ch.tail;
      NextModuloIsLeast(head, index, consumers);
      ghost var a := HeadlessMachine.Join(index, consumers);
      StepKeepsSafe(ch.c, ch.m, a);
      ReachesStep(ch.c, ch.m, a);
      var con := new Consumer(ch, NextModulo(head, index, consumers), index, consumers, |ch.m.cons|);
      ch.m := Step(ch.c, ch.m, a);
      r := Ok(con);
    }

    /** How many more `continue`s this call can make. */
    ghost function Rank(horizon: nat): int
      reads ch
      requires id < |ch.m.cons|
    {
      if Model().pc.Idle? || Model().call.retries == 0 then horizon + 1 - ch.m.epochs
      else horizon - Model().call.seenEpoch
    }

    /** The first tail load of an iteration, with others running before it. */
    method LoadTail(ghost horizon: nat, ghost m0: State) returns (t: nat)
      requires Tracks() && ch.RunOf(m0) && ch.m.epochs <= horizon
      requires !Model().pc.Reading? && (Model().pc.Looping? ==> Model().call.retries > 0)
      modifies ch`tail, ch`m, ch.buffer
      ensures ch.Valid() && ch.RunOf(m0) && ch.m.epochs <= horizon && t == ch.tail
      ensures id < |ch.m.cons| && Model().out == old(Model().out)
      ensures t <= head + ch.c.margin ==> Cursor() && Model().pc == if t <= head then Idle else Reading([])
      ensures head < t <= head + ch.c.margin ==> Rank(horizon) <= old(Rank(horizon))
      ensures t > head + ch.c.margin ==>
                Jumped(t, horizon) && Rank(horizon) < old(Rank(horizon))
    {
      ch.Interference(id, horizon, m0);
      t := ch.tail;
      ghost var s := ch.m;
      LoadCases(ch.c, t, s.epochs, s.cons[id]);
      if t > head + ch.c.margin {
        ContinueRaisesEpoch(s, Load(id), id);
      }
      ch.Advance(Load(id), m0);
    }

    /** The second tail load, after the slot copy `value`. */
    method RecheckTail(value: Element, ghost horizon: nat, ghost m0: State) returns (t: nat)
      requires Tracks() && ch.RunOf(m0) && ch.m.epochs <= horizon
      requires Model().pc == Reading(value) && |value| == ch.words
      modifies ch`tail, ch`m, ch.buffer
      ensures ch.Valid() && ch.RunOf(m0) && ch.m.epochs <= horizon && t == ch.tail
      ensures id < |ch.m.cons|
      ensures t <= head + ch.c.margin ==>
                Model() == Delivered(old(Model())) && head < |ch.m.log| && value == ch.m.log[head]
      ensures t > head + ch.c.margin ==>
                Jumped(t, horizon) && Rank(horizon) < old(Rank(horizon)) && Model().out == old(Model().out)
    {
      ch.Interference(id, horizon, m0);
      t := ch.tail;
      if t <= head + ch.c.margin {
        AcceptStep(value, m0);
      } else {
        JumpStep(value, horizon, m0);
      }
    }

    /** The machine's accepting recheck. */
    ghost method AcceptStep(value: Element, m0: State)
      requires Tracks() && ch.RunOf(m0) && Model().pc == Reading(value) && |value| == ch.words
      requires ch.tail <= head + ch.c.margin
      modifies ch`m
      ensures ch.Valid() && ch.RunOf(m0) && ch.m.epochs == old(ch.m.epochs)
      ensures id < |ch.m.cons| && Model() == Delivered(old(Model()))
      ensures head < |ch.m.log| && value == ch.m.log[head]
    {
      ReadingIsPublished(ch.c, ch.m, id);
      ch.Advance(Check(id), m0);
    }

    /** The machine's rejecting recheck. */
    ghost method JumpStep(value: Element, horizon: nat, m0: State)
      requires Tracks() && ch.RunOf(m0) && Model().pc == Reading(value) && |value| == ch.words
      requires ch.tail > head + ch.c.margin && ch.m.epochs <= horizon
      modifies ch`m
      ensures ch.Valid() && ch.RunOf(m0) && ch.m.epochs == old(ch.m.epochs) && id < |ch.m.cons|
      ensures Jumped(ch.tail, horizon) && Rank(horizon) < old(Rank(horizon)) && Model().out == old(Model().out)
    {
      ContinueRaisesEpoch(ch.m, Check(id), id);
      ch.Advance(Check(id), m0);
    }

    /** The machine consumer has continued past an overrun that the tail `t` revealed. */
    ghost predicate Jumped(t: nat, horizon: nat)
      reads this, ch
    {
      && id < |ch.m.cons| && ch.c.margin <= t && index < interval
      && Model().index == index && Model().interval == interval
      && Model().head == NextModulo(t - ch.c.margin, index, interval) > head
      && Model().pc.Looping? && Model().call.retries > 0
    }

    /** The slot copy and the second tail load. */
    method CopyAndRecheck(ghost horizon: nat, ghost m0: State) returns (value: Element, t: nat)
      requires Tracks() && ch.RunOf(m0) && ch.m.epochs <= horizon && Model().pc == Reading([])
      modifies ch`tail, ch`m, ch.buffer
      ensures ch.Valid() && ch.RunOf(m0) && ch.m.epochs <= horizon && t == ch.tail && id < |ch.m.cons|
      ensures t <= head + ch.c.margin ==>
                && Model() == Delivered(old(Model()).(pc := Reading(value)))
                && head < |ch.m.log| && value == ch.m.log[head]
      ensures t > head + ch.c.margin ==>
                Jumped(t, horizon) && Rank(horizon) < old(Rank(horizon)) && Model().out == old(Model().out)
    {
      var headIndex := MaskedIndex(ch.k, head);
      value := ch.ReadSlot(headIndex, id, horizon, m0);
      t := RecheckTail(value, horizon, m0);
    }

    /** Reads the slot, then checks that it was still inside the window: if not, the head
        moves on and the call has to try again. */
    method ReadOptimistically(ghost horizon: nat, ghost m0: State) returns (r: Option<Element>)
      requires Tracks() && ch.RunOf(m0) && ch.m.epochs <= horizon
      requires Model().pc == Reading([])
      modifies this`head, ch`tail, ch`m, ch.buffer
      ensures Tracks() && ch.RunOf(m0) && ch.m.epochs <= horizon && old(head) < head
      ensures r.None? ==>
                && Model().pc.Looping? && Model().call.retries > 0
                && Model().out == old(Model().out) && Rank(horizon) < old(Rank(horizon))
      ensures r.Some? ==>
                && Model().pc.Idle? && head == old(head) + interval
                && old(head) < |ch.m.log| && r.value == ch.m.log[old(head)] && ch.tail <= old(head) + ch.c.margin
                && Model().out == old(Model().out) + [Delivery(old(head), r.value)]
    {
      var window := Pow2(ch.k) - BurstAmount(Pow2(ch.k));
      assert window == ch.c.margin;
      var value, currentTail := CopyAndRecheck(horizon, m0);
      if !(currentTail <= head + window) {
        head := NextModulo(currentTail - window, index, interval);
        return None;
      }
      head := head + interval;
      return Some(value);
    }

    /** The optimistic read loop. Under every interference with finitely many
        publications it ends, having made one machine run; a value it returns is the
        published value of the next own position inside the window, and it returns nothing
        only when caught up with the tail it loaded. */
    method Pop(ghost horizon: nat) returns (r: Option<Element>)
      requires Valid() && ch.m.epochs <= horizon
      modifies this`head, ch`tail, ch`m, ch.buffer
      ensures Valid() && ch.RunOf(old(ch.m)) && ch.m.epochs <= horizon
      ensures r.None? ==> Model().out == old(Model().out) && ch.tail <= head && old(head) <= head
      ensures r.Some? ==>
                && |Model().out| == |old(Model().out)| + 1
                && var d := Model().out[|old(Model().out)|];
                   && Model().out == old(Model().out) + [d]
                   && d.pos < |ch.m.log| && r.value == d.value == ch.m.log[d.pos]
                   && old(head) <= d.pos && head == d.pos + interval
                   && NextTrusted(ch.c, ch.tail, old(Model()), Model(), d.pos)
    {
      ghost var m0 := ch.m;
      ReachesSelf(ch.c, m0);
      var window := Pow2(ch.k) - BurstAmount(Pow2(ch.k));
      assert window == ch.c.margin;
      while true
        invariant Tracks() && ch.RunOf(m0) && ch.m.epochs <= horizon
        invariant !Model().pc.Reading? && Model().out == m0.cons[id].out && old(head) <= head
        invariant Model().pc.Looping? ==> Model().call.retries > 0
        decreases Rank(horizon)
      {
        var initialTail := LoadTail(horizon, m0);
        if initialTail <= head {
          return None;
        }
        if !(initialTail <= head + window) {
          head := NextModulo(initialTail - window, index, interval);
          assert head == Model().head;
          continue;
        }
        ghost var p := head;
        r := ReadOptimistically(horizon, m0);
        if r.Some? {
          DeliveredNextTrusted(ch.c, m0, ch.m, id, p, r.value);
          return;
        }
      }
    }

    lemma ContinueRaisesEpoch(s: State, a: Action, id: nat)
      requires ch.c.Valid() && Book(ch.c, s) && Enabled(ch.c, s, a) && id < |s.cons|
      requires (a.Load? || a.Check?) && a.id == id && Step(ch.c, s, a).cons[id].pc.Looping?
      ensures var con, con1 := s.cons[id], Step(ch.c, s, a).cons[id];
              && con1.head > con.head && con1.call.retries > 0 && con1.call.seenEpoch == s.epochs
              && con1.out == con.out && con1.index == con.index < con.interval == con1.interval
              && ch.c.margin <= s.tail && con1.head == NextModulo(s.tail - ch.c.margin, con.index, con.interval)
              && (!con.pc.Idle? && con.call.retries > 0 ==> con.call.seenEpoch < s.epochs)
    {
      ContinueNeedsLargerTail(ch.c, s, a, id);
      assert ConsumerBook(ch.c, s.base, s.tail, s.epochs, s.cons[id]);
    }

    static lemma ReadingIsPublished(c: Config, s: State, id: nat)
      requires c.margin + c.limit <= c.n && Safe(c, s) && id < |s.cons|
      requires s.cons[id].pc.Reading? && |s.cons[id].pc.buf| == c.words && s.tail <= s.cons[id].head + c.margin
      ensures s.cons[id].head < |s.log| && s.cons[id].pc.buf == s.log[s.cons[id].head]
    {
      assert ConsumerBook(c, s.base, s.tail, s.epochs, s.cons[id]);
      assert ConsumerSafe(c, s.log, s.high, s.cons[id]);
      CheckDeliversPublished(c, s, s.cons[id]);
    }
  }

  /** `r` is the first position from `from` on of residue `i` modulo `k`. */
  ghost predicate FirstOwn(r: nat, from: nat, i: nat, k: nat)
    requires k >= 1
  {
    from <= r < from + k && r % k == i
  }

  /** `headless_multi`: a fresh, empty channel, its producer and `n` strided consumers. */
  method HeadlessMulti(k: nat, words: nat, zero: Element, n: nat) returns (p: Producer, cs: seq<Consumer>)
    requires words >= 1 && |zero| == words && n <= 64
    ensures fresh(p) && p.Valid() && p.ch.k == k && p.ch.words == words
    ensures p.ch.tail == p.tail == p.written == 0 && p.ch.m.log == [] && p.ch.m.staged == []
    ensures |cs| == n == |p.ch.m.cons|
    ensures forall i :: 0 <= i < n ==> Member(p.ch, n, cs[i], i, 0) && cs[i].head == i
  {
    var ch := new Channel(k, words, zero);
    var r := Producer.JoinOrInitialize(ch);
    p := r.value;
    cs := JoinTeam(ch, n);
    forall i | 0 <= i < n
      ensures cs[i].head == i
    {
      FirstFromZero(cs[i].head, i, n);
    }
  }

  lemma FirstFromZero(r: nat, i: nat, k: nat)
    requires i < k && FirstOwn(r, 0, i, k)
    ensures r == i
  {
    ModUnique(k, r, 0, r);
  }

  /** Mode hand-over: whatever tail and slots a lossless session left in the channel, a
      producer and `n` strided consumers that join open a headless session at that tail. */
  method Reopen(ch: Channel, n: nat) returns (p: Producer, cs: seq<Consumer>)
    requires ch.Shaped() && ch.Initialised() && n <= 64
    modifies ch`m
    ensures fresh(p) && p.Valid() && p.ch == ch && p.tail == ch.tail && p.written == 0 && ch.m.staged == []
    ensures ch.m.base == |ch.m.log| == ch.tail && ch.buffer[..] == old(ch.buffer[..])
    ensures |cs| == n == |ch.m.cons|
    ensures forall i :: 0 <= i < n ==> Member(ch, n, cs[i], i, ch.tail)
  {
    ch.BeginSession();
    var r := Producer.Join(ch);
    p := r.value;
    cs := JoinTeam(ch, n);
  }

  method JoinTeam(ch: Channel, n: nat) returns (cs: seq<Consumer>)
    requires ch.Valid() && ch.m.cons == [] && n <= 64
    modifies ch`m
    ensures ch.Valid() && ch.m.(cons := []) == old(ch.m) && |cs| == n == |ch.m.cons|
    ensures forall i :: 0 <= i < n ==> Member(ch, n, cs[i], i, ch.tail)
  {
    cs := [];
    for i := 0 to n
      invariant ch.Valid() && ch.m.(cons := []) == old(ch.m)
      invariant |cs| == i == |ch.m.cons|
      invariant forall j :: 0 <= j < i ==> Member(ch, n, cs[j], j, ch.tail)
    {
      ghost var before := ch.m.cons;
      var c := Consumer.JoinMulti(ch, i, n);
      assert forall j :: 0 <= j < i ==> ch.m.cons[j] == before[j];
      assert Member(ch, n, c.value, i, ch.tail);
      cs := cs + [c.value];
    }
  }

  /** A whole team of consumers is the `Team` whose partition is proved of the machine. */
  lemma MembersFormTeam(ch: Channel, n: nat, cs: seq<Consumer>, start: nat)
    requires n >= 1 && |cs| == n == |ch.m.cons|
    requires forall i :: 0 <= i < n ==> Member(ch, n, cs[i], i, start)
    ensures Team(ch.m, n, start)
  {
    forall i | 0 <= i < n
      ensures ch.m.cons[i].index == i && ch.m.cons[i].interval == n && ch.m.cons[i].start == start
    {
      assert Member(ch, n, cs[i], i, start);
    }
  }

  /** Consumer `j` of a team of `n` that joined at tail `start` and has not popped yet. */
  ghost predicate Member(ch: Channel, n: nat, con: Consumer, j: nat, start: nat)
    reads ch, con
  {
    && con.ch == ch && con.id == j && con.index == j && con.interval == n
    && con.Cursor() && ch.m.cons[j].pc.Idle? && ch.m.cons[j].start == start
    && ch.m.cons[j].out == [] && n >= 1 && FirstOwn(con.head, start, j, n)
  }
}
