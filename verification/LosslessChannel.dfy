/** The lossless producer, its reservations and the consumer as objects over one shared
    channel. Every method is proved to be a run of the machine, so the machine's invariant
    holds between calls. Pushes, reserving and both pops run with arbitrary steps of the
    other party between their shared accesses (`OtherSteps`). */
module LosslessChannel {
  import opened Arithmetic
  import opened Words
  import opened Que
  import opened RingCopy
  import opened LosslessMachine
  import opened LosslessSafety
  import opened LosslessFifo
  import opened LosslessCalls
  import opened LosslessHandOver
  import opened LosslessSchedules

  class Channel {
    const k: nat       // the capacity is `2^k`
    const words: nat   // words per element
    var tail: nat
    var head: nat
    var capacity: nat
    var magic: nat
    const buffer: array<Element>
    ghost var m: State // the machine state this memory is in

    ghost const c: Config := CodeConfig(k, words)

    constructor (k: nat, words: nat, zero: Element)
      requires words >= 1 && |zero| == words
      ensures Shaped() && fresh(buffer)
      ensures tail == head == capacity == magic == 0
      ensures this.k == k && this.words == words
    {
      this.k := k;
      this.words := words;
      tail, head, capacity, magic := 0, 0, 0, 0;
      buffer := new Element[Pow2(k)](_ => zero);
      m := State(0, 0, [], LosslessMachine.Producer(0, 0, Ready, 0),
                 LosslessMachine.Consumer(0, 0, Absent, 0, []), [], [], 0);
    }

    ghost predicate Shaped()
      reads this, buffer
    {
      && words >= 1 && buffer.Length == Pow2(k)
      && forall i :: 0 <= i < buffer.Length ==> |buffer[i]| == words
    }

    ghost predicate Initialised()
      reads this
    {
      magic == MAGIC && capacity == Pow2(k)
    }

    /** The memory holds what the machine state says. */
    ghost predicate Coupled()
      reads this, buffer
    {
      && words >= 1 && buffer.Length == Pow2(k)
      && tail == m.tail && head == m.head && buffer[..] == m.slots
    }

    ghost predicate Valid()
      reads this, buffer
    {
      Initialised() && Coupled() && Inv(c, m)
    }

    /** The machine has come from `m0` by a schedule in which the calling party took the
        steps `own`. */
    ghost predicate Took(m0: State, consumer: bool, own: seq<Action>)
      reads this
    {
      Ran(c, m0, m, consumer, own)
    }

    /** Any steps of the other party, whatever they do to the shared memory. */
    method OtherSteps(ghost m0: State, ghost consumer: bool, ghost own: seq<Action>)
      requires Valid() && Took(m0, consumer, own)
      modifies this`tail, this`head, this`m, buffer
      ensures Valid() && Took(m0, consumer, own) && Took(old(m), consumer, [])
    {
      RanNothing(c, m, consumer);
    }

    /** The same, with what follows of any such steps. */
    method Interference(ghost m0: State, ghost consumer: bool, ghost own: seq<Action>)
      requires Valid() && Took(m0, consumer, own)
      modifies this`tail, this`head, this`m, buffer
      ensures Valid() && Took(m0, consumer, own)
      ensures if consumer then m.cons == old(m.cons) && head == old(head) else Side(m) == Side(old(m))
      ensures old(head) <= head && old(m.log) <= m.log
    {
      ghost var before := m;
      OtherSteps(m0, consumer, own);
      RanRises(c, before, m, consumer, []);
      if consumer {
        OthersKeepConsumer(c, before, m);
      } else {
        OthersKeepSide(c, before, m);
      }
    }

    /** A step of the calling party that touches no memory. */
    ghost method Advance(m0: State, consumer: bool, own: seq<Action>, a: Action)
      requires Valid() && Took(m0, consumer, own) && Enabled(c, m, a) && IsConsumerAction(a) == consumer
      requires a.PushLoad? || a.PushEnd? || a.Reserve? || a.PopLoad? || a.PopRead? || a.Borrow?
      modifies this`m
      ensures Valid() && Took(m0, consumer, own + [a]) && m == Step(c, old(m), a)
    {
      RanStep(c, m0, m, consumer, own, a);
      m := Step(c, m, a);
    }

    /** The slot store of a push, one word at a time. */
    method WriteSlot(i: nat, value: Element, ghost m0: State, ghost own: seq<Action>)
      requires Valid() && Took(m0, false, own)
      requires m.prod.pc == Writing(value, 0) && |value| == words && i == Slot(Pow2(k), m.prod.tail)
      modifies this`tail, this`head, this`m, buffer
      ensures Valid() && Took(m0, false, own + Repeat(PushWord, words))
      ensures m.prod == old(m.prod).(pc := Writing(value, words))
    {
      var j := 0;
      assert own + [] == own;
      while j < words
        invariant j <= words && Valid() && Took(m0, false, own + Repeat(PushWord, j))
        invariant m.prod == old(m.prod).(pc := Writing(value, j))
      {
        StoreWord(i, j, value, m0, own + Repeat(PushWord, j));
        OneMoreStep(own, PushWord, j);
        j := j + 1;
      }
    }

    /** One word of it, after whatever the consumer does first. */
    method StoreWord(i: nat, j: nat, value: Element, ghost m0: State, ghost own: seq<Action>)
      requires Valid() && Took(m0, false, own) && j < words == |value|
      requires m.prod.pc == Writing(value, j) && i == Slot(Pow2(k), m.prod.tail)
      modifies this`tail, this`head, this`m, buffer
      ensures Valid() && Took(m0, false, own + [PushWord])
      ensures m.prod == old(m.prod).(pc := Writing(value, j + 1))
    {
      Interference(m0, false, own);
      RanStep(c, m0, m, false, own, PushWord);
      ghost var next := Step(c, m, PushWord);
      buffer[i] := WithWord(buffer[i], j, value[j]);
      m := next;
    }

    /** `ptr::read` of the slot of a pop, one word at a time. */
    method ReadSlot(i: nat, ghost m0: State, ghost own: seq<Action>) returns (buf: Element)
      requires Valid() && Took(m0, true, own)
      requires m.cons.pc == Reading([]) && i == Slot(Pow2(k), m.cons.head)
      modifies this`tail, this`head, this`m, buffer
      ensures Valid() && |buf| == words && Took(m0, true, own + Repeat(PopRead, words))
      ensures old(m.log) <= m.log
      ensures m.cons == old(m.cons).(pc := Reading(buf)) && head == old(head)
    {
      buf := [];
      assert own + [] == own;
      for j := 0 to words
        invariant |buf| == j && Valid() && Took(m0, true, own + Repeat(PopRead, j))
        invariant m.cons == old(m.cons).(pc := Reading(buf)) && head == old(head) && old(m.log) <= m.log
      {
        OneMoreStep(own, PopRead, j);
        buf := LoadWord(i, buf, m0, own + Repeat(PopRead, j));
      }
    }

    /** One word of it, after whatever the producer does first. */
    method LoadWord(i: nat, buf: Element, ghost m0: State, ghost own: seq<Action>) returns (more: Element)
      requires Valid() && Took(m0, true, own) && |buf| < words
      requires m.cons.pc == Reading(buf) && i == Slot(Pow2(k), m.cons.head)
      modifies this`tail, this`head, this`m, buffer
      ensures Valid() && Took(m0, true, own + [PopRead]) && old(m.log) <= m.log
      ensures m.cons == old(m.cons).(pc := Reading(more)) && |more| == |buf| + 1 && head == old(head)
    {
      Interference(m0, true, own);
      Advance(m0, true, own, PopRead);
      more := buf + [buffer[i][|buf|]];
    }
  }

  lemma OneMoreStep(own: seq<Action>, a: Action, j: nat)
    ensures own + Repeat(a, j) + [a] == own + Repeat(a, j + 1)
  {
    RepeatSnoc(a, j);
  }

  lemma {:induction false} RepeatSnoc<T>(x: T, k: nat)
    ensures Repeat(x, k + 1) == Repeat(x, k) + [x]
  {
    if k > 0 {
      RepeatSnoc(x, k - 1);
    }
  }

  class Producer {
    const ch: Channel
    var tail: nat
    var written: nat

    constructor (ch: Channel, tail: nat)
      ensures this.ch == ch && this.tail == tail && written == 0
    {
      this.ch, this.tail, written := ch, tail, 0;
    }

    /** The object's cursors are the machine producer's. */
    ghost predicate Cursor()
      reads this, ch
    {
      ch.m.prod.tail == tail && ch.m.prod.written == written
    }

    /** Between calls, with no reservation open. */
    ghost predicate Valid()
      reads this, ch, ch.buffer
    {
      ch.Valid() && Cursor() && ch.m.prod.pc.Ready?
    }

    /** `join_`: the producer continues at the shared tail. */
    static method Join(ch: Channel) returns (r: Result<Producer>)
      requires ch.Coupled()
      modifies ch`m
      ensures ch.Coupled()
      ensures r.Err? <==> !ch.Initialised()
      ensures ch.magic == 0 ==> r == Err(Uninitialized)
      ensures ch.magic != 0 && ch.magic != MAGIC ==> r == Err(CorruptionDetected)
      ensures ch.magic == MAGIC && ch.capacity != Pow2(ch.k) ==> r == Err(IncorrectCapacity(ch.capacity))
      ensures r.Err? ==> ch.m == old(ch.m)
      ensures r.Ok? ==> fresh(r.value) && r.value.ch == ch && r.value.Cursor()
      ensures r.Ok? ==> r.value.tail == ch.tail && r.value.written == 0
      ensures r.Ok? ==> ch.m.log == old(ch.m.log) && ch.m.staged == [] && ch.m.cons == old(ch.m.cons)
      ensures r.Ok? ==> ch.m == AfterRestart(old(ch.m), old(ch.m).head)
    {
      var magic := ch.magic;
      var capacity := ch.capacity;
      var e := JoinCheck(magic, capacity, Pow2(ch.k));
      if e.Some? {
        return Err(e.value);
      }
      ch.m := AfterRestart(ch.m, ch.m.head);
      var p := new Producer(ch, ch.tail);
      r := Ok(p);
    }

    /** `join_or_initialize_in_`. */
    static method JoinOrInitialize(ch: Channel) returns (r: Result<Producer>)
      requires if ch.magic == 0 then ch.Shaped() else ch.Coupled()
      modifies ch
      ensures r.Ok? <==> old(ch.Initialised()) || old(ch.magic) == 0
      ensures old(ch.magic) != 0 && old(ch.magic) != MAGIC ==> r == Err(CorruptionDetected)
      ensures old(ch.magic) == MAGIC && old(ch.capacity) != Pow2(ch.k) ==> r == Err(IncorrectCapacity(old(ch.capacity)))
      ensures r.Err? ==> ch.m == old(ch.m)
      ensures r.Ok? ==> fresh(r.value) && r.value.ch == ch && r.value.Cursor()
      ensures old(ch.Initialised()) ==> ch.Coupled() && ch.m == AfterRestart(old(ch.m), old(ch.m).head)
      ensures r.Ok? ==> r.value.tail == ch.tail && r.value.written == 0
      ensures r.Ok? ==> ch.tail == if old(ch.magic) == 0 then 0 else old(ch.tail)
      ensures ch.buffer[..] == old(ch.buffer[..])
      ensures old(ch.magic) == 0 ==> ch.Initialised() && ch.Coupled() && ch.head == old(ch.head)
      ensures old(ch.magic) == 0 ==> ch.m == ProducerFirst(0, ch.head, old(ch.buffer[..]), [])
      ensures old(ch.magic) == 0 && ch.head == 0 ==> r.value.Valid() && Abstract(ch.m) == Fifo([], [], [])
    {
      if ch.magic == 0 {
        var p := Initialise(ch);
        r := Ok(p);
      } else {
        r := Join(ch);
      }
    }

    /** The initialising branch: tail, capacity and magic are stored, the head is not. With
        a zero head an empty session begins; `ProducerFirstIsExact` is about any other. */
    static method Initialise(ch: Channel) returns (p: Producer)
      requires ch.Shaped() && ch.magic == 0
      modifies ch
      ensures fresh(p) && p.ch == ch && p.Cursor() && ch.Initialised() && ch.Coupled()
      ensures p.tail == 0 && p.written == 0
      ensures ch.tail == 0 && ch.head == old(ch.head) && ch.buffer[..] == old(ch.buffer[..])
      ensures ch.m == ProducerFirst(0, ch.head, ch.buffer[..], [])
      ensures ch.head == 0 ==> p.Valid() && Abstract(ch.m) == Fifo([], [], [])
    {
      ch.tail := 0;
      ch.capacity := Pow2(ch.k);
      ch.magic := MAGIC;
      ch.m := ProducerFirst(0, ch.head, ch.buffer[..], []);
      if ch.head == 0 {
        InitInv(ch.c, ch.m);
      }
      p := new Producer(ch, 0);
    }

    method Sync()
      requires Valid()
      modifies this`written, ch`tail, ch`m
      ensures Valid() && ch.tail == tail == old(tail) && written == 0
      ensures ch.m.log == old(ch.m.log + ch.m.staged) && ch.m.staged == [] && ch.m.cons == old(ch.m.cons)
      ensures ch.m == AfterSync(old(ch.m))
    {
      StepKeepsInv(ch.c, ch.m, LosslessMachine.Sync);
      written := 0;
      ch.tail := tail;
      ch.m := AfterSync(ch.m);
    }

    /** Whatever the consumer does meanwhile: the push fails exactly when the head it loads
        leaves no room, and then does nothing; otherwise it stages the value. */
    method Push(value: Element) returns (r: Result<()>)
      requires Valid() && |value| == ch.words
      modifies this, ch`tail, ch`head, ch`m, ch.buffer
      ensures Valid() && old(ch.head) <= ch.m.prod.seen
      ensures r == if old(tail) == ch.m.prod.seen + Pow2(ch.k) then Err(Full) else Ok(())
      ensures ch.Took(old(ch.m), false,
                if r.Err? then [PushLoad(value, ch.m.prod.seen)] else OnePush(ch.c, value, ch.m.prod.seen))
      ensures ch.tail == old(ch.tail) && ch.m.log == old(ch.m.log)
      ensures ch.m.staged == old(ch.m.staged) + if r.Ok? then [value] else []
      ensures if r.Ok? then tail == old(tail) + 1 && written == old(written) + 1
              else tail == old(tail) && written == old(written)
      ensures Side(ch.m) == if r.Err? then Side(old(ch.m)).(prod := old(ch.m.prod).(seen := ch.m.prod.seen))
                            else Pushed(Side(old(ch.m)), [value], ch.m.prod.seen)
    {
      ghost var m0 := ch.m;
      RanNothing(ch.c, m0, false);
      ch.Interference(m0, false, []);
      var head := ch.head;
      var isFull := tail == head + Pow2(ch.k);
      ghost var load := PushLoad(value, head);
      ch.Advance(m0, false, [], load);
      assert [] + [load] == [load];
      if isFull {
        return Err(Full);
      }
      StoreAndCount(value, m0, head);
      r := Ok(());
    }

    /** The slot store of a push that has found room, and its cursor updates. */
    method StoreAndCount(value: Element, ghost m0: State, ghost head: nat)
      requires ch.Valid() && Cursor() && |value| == ch.words && ch.m.prod.pc == Writing(value, 0)
      requires ch.Took(m0, false, [PushLoad(value, head)]) && ch.m.prod.seen == head
      modifies this, ch`tail, ch`head, ch`m, ch.buffer
      ensures Valid() && ch.m.prod.seen == head
      ensures ch.Took(m0, false, OnePush(ch.c, value, head)) && Side(ch.m) == Pushed(Side(m0), [value], head)
    {
      ghost var load := PushLoad(value, head);
      var index := MaskedIndex(ch.k, tail);
      ch.WriteSlot(index, value, m0, [load]);
      ch.Interference(m0, false, [load] + Repeat(PushWord, ch.words));
      ch.Advance(m0, false, [load] + Repeat(PushWord, ch.words), PushEnd);
      tail := tail + 1;
      written := written + 1;
      RanIsSideRun(ch.c, m0, ch.m, OnePush(ch.c, value, head));
      PushSide(ch.c, Side(m0), value, head);
    }

    /** The room is what the loaded head leaves, whatever the consumer does meanwhile; it
        never underflows. */
    method Reserve(count: nat) returns (r: Result<Reservation>)
      requires Valid()
      modifies ch`tail, ch`head, ch`m, ch.buffer
      ensures ch.Valid() && Cursor()
      ensures ch.Took(old(ch.m), false, [LosslessMachine.Reserve(count, ch.m.prod.seen)])
      ensures Side(ch.m) == AfterReserve(ch.c, Side(old(ch.m)), count, ch.m.prod.seen)
      ensures 1 <= count <= Pow2(ch.k) ==> old(ch.head) <= ch.m.prod.seen
      ensures r.Ok? <==> 1 <= count <= Pow2(ch.k) && tail + count <= ch.m.prod.seen + Pow2(ch.k)
      ensures r.Err? ==> Valid() && r.error == (if count == 0 || count > Pow2(ch.k) then InvalidSize else Full)
      ensures ch.tail == old(ch.tail) && ch.m.log == old(ch.m.log) && ch.m.staged == old(ch.m.staged)
      ensures r.Ok? ==> fresh(r.value) && r.value.producer == this && r.value.Open([])
      ensures r.Ok? ==> r.value.count == count
    {
      ghost var m0 := ch.m;
      RanNothing(ch.c, m0, false);
      ghost var refused := LosslessMachine.Reserve(count, m0.prod.seen);
      assert [] + [refused] == [refused];
      if count == 0 {
        ch.Advance(m0, false, [], refused);
        return Err(InvalidSize);
      }
      if count > Pow2(ch.k) {
        ch.Advance(m0, false, [], refused);
        return Err(InvalidSize);
      }
      ch.Interference(m0, false, []);
      var head := ch.head;
      HeadLoadsAreSound(ch.c, ch.m, head);
      var availableSpace: nat := Pow2(ch.k) - (tail - head);
      ghost var load := LosslessMachine.Reserve(count, head);
      ch.Advance(m0, false, [], load);
      assert [] + [load] == [load];
      if count > availableSpace {
        return Err(Full);
      }
      var v := new Reservation(this, tail, count);
      r := Ok(v);
    }
  }

  class Iterator {
    var items: seq<Element>

    constructor (items: seq<Element>)
      ensures this.items == items
    {
      this.items := items;
    }

    method Next() returns (r: Option<Element>)
      modifies this
      ensures old(items) == [] ==> r.None? && items == []
      ensures old(items) != [] ==> r == Some(old(items)[0]) && items == old(items)[1..]
    {
      if items == [] {
        return None;
      }
      r := Some(items[0]);
      items := items[1..];
    }
  }

  class Reservation {
    const producer: Producer
    const startTail: nat
    const count: nat
    var written: nat
    var committed: bool

    constructor (producer: Producer, startTail: nat, count: nat)
      ensures this.producer == producer && this.startTail == startTail && this.count == count
      ensures written == 0 && !committed
    {
      this.producer, this.startTail, this.count := producer, startTail, count;
      written, committed := 0, false;
    }

    /** The reservation is live and `vals` have been written into it. */
    ghost predicate Open(vals: seq<Element>)
      reads this, producer, producer.ch
    {
      && producer.Cursor() && startTail == producer.tail
      && producer.ch.m.prod.pc == Reserved(count, vals) && |vals| == written && written <= count
    }

    /** Panics (here: returns `false`, having changed nothing) past the last reserved slot. */
    method WriteNext(value: Element, ghost vals: seq<Element>) returns (ok: bool)
      requires producer.ch.Valid() && Open(vals) && |value| == producer.ch.words
      modifies this`written, producer.ch`m, producer.ch.buffer
      ensures producer.ch.Valid() && ok == (|vals| < count)
      ensures producer.ch.m.log == old(producer.ch.m.log) && producer.ch.m.staged == old(producer.ch.m.staged)
      ensures !ok ==> Open(vals) && producer.ch.m == old(producer.ch.m)
      ensures ok ==> Open(vals + [value]) && producer.ch.m == FillCall(producer.ch.c, old(producer.ch.m), value)
    {
      var ch := producer.ch;
      if written >= count {
        return false;
      }
      FillCallKeepsInv(ch.c, ch.m, value);
      var index := MaskedIndex(ch.k, startTail + written);
      ch.buffer[index] := value;
      ch.m := FillCall(ch.c, ch.m, value);
      written := written + 1;
      ok := true;
    }

    /** The slice goes in with one or two block copies; panics (`false`) if it does not fit. */
    method WriteAll(values: seq<Element>, ghost vals: seq<Element>) returns (ok: bool)
      requires producer.ch.Valid() && Open(vals) && Sized(producer.ch.c.words, values)
      modifies this`written, producer.ch`m, producer.ch.buffer
      ensures producer.ch.Valid() && ok == (|vals| + |values| <= count)
      ensures producer.ch.m.log == old(producer.ch.m.log) && producer.ch.m.staged == old(producer.ch.m.staged)
      ensures !ok ==> Open(vals) && producer.ch.m == old(producer.ch.m)
      ensures ok ==> Open(vals + values) && producer.ch.m == FillAll(producer.ch.c, old(producer.ch.m), values)
    {
      var ch := producer.ch;
      var remaining := count - written;
      if |values| > remaining {
        return false;
      }
      ghost var next := WriteAllFills(ch.c, ch.m, values);
      if values != [] {
        CopyIntoRing(ch.k, ch.buffer, startTail + written, values);
      }
      written := written + |values|;
      ch.m := next;
      ok := true;
    }

    /** Writes until the reservation is full or the iterator is exhausted. Stopping on a
        full reservation costs one more item, drawn and dropped. */
    method WriteIter(iter: Iterator, ghost vals: seq<Element>) returns (n: nat)
      requires producer.ch.Valid() && Open(vals) && Sized(producer.ch.c.words, iter.items)
      modifies this`written, producer.ch`m, producer.ch.buffer, iter
      ensures var l, r := |old(iter.items)|, count - |vals|;
              && n == (if l < r then l else r)
              && iter.items == old(iter.items)[if l < r + 1 then l else r + 1..]
              && producer.ch.Valid() && Open(vals + old(iter.items)[..n])
              && producer.ch.m == FillAll(producer.ch.c, old(producer.ch.m), old(iter.items)[..n])
    {
      var startWritten := written;
      ghost var items, m0 := iter.items, producer.ch.m;
      ghost var d := 0;
      while true
        invariant 0 <= d <= |items| && d <= count - |vals| && iter.items == items[d..]
        invariant producer.ch.Valid() && Open(vals + items[..d]) && written == startWritten + d
        invariant producer.ch.m == FillAll(producer.ch.c, m0, items[..d])
        decreases |items| - d
      {
        var value := iter.Next();
        if value.None? {
          assert items[..d] == items && items[d..] == [];
          break;
        }
        assert iter.items == items[d + 1..];
        if written >= count {
          break;
        }
        var ok := WriteNext(value.value, vals + items[..d]);
        OneMore(vals, items, d);
        FillAllSnoc(producer.ch.c, m0, items[..d], items[d]);
        d := d + 1;
      }
      n := written - startWritten;
      assert items[..n] == items[..d];
    }

    /** `commit`: only what was written is staged, and it is published only once at least
        `burst` values are unsynced. */
    method Commit(ghost vals: seq<Element>)
      requires producer.ch.Valid() && Open(vals)
      modifies this`committed, producer, producer.ch`tail, producer.ch`m
      ensures producer.Valid() && committed && producer.tail == old(producer.tail) + |vals|
      ensures if old(producer.written) + |vals| >= BurstAmount(Pow2(producer.ch.k)) then
                && producer.ch.tail == producer.tail && producer.written == 0
                && producer.ch.m.log == old(producer.ch.m.log + producer.ch.m.staged) + vals
                && producer.ch.m.staged == []
              else
                && producer.ch.tail == old(producer.ch.tail) && producer.written == old(producer.written) + |vals|
                && producer.ch.m.log == old(producer.ch.m.log)
                && producer.ch.m.staged == old(producer.ch.m.staged) + vals
      ensures producer.ch.m == AfterCommit(producer.ch.c, old(producer.ch.m), false)
    {
      CommitKeepsInv(producer.ch.c, producer.ch.m, false);
      AppendTwice(producer.ch.m.log, producer.ch.m.staged, vals);
      Close();
      if producer.written >= BurstAmount(Pow2(producer.ch.k)) {
        producer.Sync();
      }
    }

    /** The C twin's `reservation_commit` publishes unconditionally. */
    method CommitAndSync(ghost vals: seq<Element>)
      requires producer.ch.Valid() && Open(vals)
      modifies this`committed, producer, producer.ch`tail, producer.ch`m
      ensures producer.Valid() && committed && producer.written == 0
      ensures producer.ch.tail == producer.tail == old(producer.tail) + |vals|
      ensures producer.ch.m.log == old(producer.ch.m.log + producer.ch.m.staged) + vals && producer.ch.m.staged == []
      ensures producer.ch.m == AfterCommit(producer.ch.c, old(producer.ch.m), true)
    {
      AppendTwice(producer.ch.m.log, producer.ch.m.staged, vals);
      Close();
      producer.Sync();
    }

    /** The cursor updates both commits begin with. */
    method Close()
      requires producer.ch.Valid() && producer.Cursor() && producer.ch.m.prod.pc.Reserved?
      requires |producer.ch.m.prod.pc.vals| == written
      modifies this`committed, producer, producer.ch`m
      ensures producer.Valid() && committed && producer.ch.m == Committed(old(producer.ch.m))
      ensures producer.tail == old(producer.tail) + written && producer.written == old(producer.written) + written
    {
      CommittedKeepsInv(producer.ch.c, producer.ch.m);
      committed := true;
      producer.tail := producer.tail + written;
      producer.written := producer.written + written;
      producer.ch.m := Committed(producer.ch.m);
    }

    /** `cancel`, or dropping the reservation: nothing is done to the memory at all. */
    method Cancel(ghost vals: seq<Element>)
      requires producer.ch.Valid() && Open(vals)
      modifies producer.ch`m
      ensures producer.Valid() && producer.ch.m == Step(producer.ch.c, old(producer.ch.m), LosslessMachine.Cancel)
      ensures producer.ch.m == old(producer.ch.m).(prod := old(producer.ch.m.prod).(pc := Ready))
    {
      StepKeepsInv(producer.ch.c, producer.ch.m, LosslessMachine.Cancel);
      producer.ch.m := Step(producer.ch.c, producer.ch.m, LosslessMachine.Cancel);
    }
  }

  lemma AppendTwice(log: seq<Element>, staged: seq<Element>, vals: seq<Element>)
    ensures log + (staged + vals) == log + staged + vals
  {
  }

  lemma OneMore(vals: seq<Element>, items: seq<Element>, d: nat)
    requires d < |items|
    ensures items[..d] + [items[d]] == items[..d + 1]
    ensures vals + items[..d] + [items[d]] == vals + items[..d + 1]
  {
  }

  lemma {:induction false} FillAllScatters(c: Config, s: State, vs: seq<Element>)
    requires c.n >= 1 && |s.slots| == c.n && s.prod.pc.Reserved?
    ensures FillAll(c, s, vs).slots == Scatter(c.n, s.slots, s.prod.tail + |s.prod.pc.vals|, vs)
    decreases |vs|
  {
    if vs != [] {
      FillAllScatters(c, FillCall(c, s, vs[0]), vs[1..]);
    }
  }

  lemma {:induction false} FillAllSnoc(c: Config, s: State, vs: seq<Element>, v: Element)
    requires c.n >= 1 && |s.slots| == c.n && s.prod.pc.Reserved?
    ensures FillAll(c, s, vs + [v]) == FillCall(c, FillAll(c, s, vs), v)
    decreases |vs|
  {
    if vs == [] {
      assert vs + [v] == [v];
      assert [v][1..] == [];
    } else {
      FillAllSnoc(c, FillCall(c, s, vs[0]), vs[1..], v);
      assert (vs + [v])[1..] == vs[1..] + [v];
    }
  }

  /** What a slice written into a reservation comes to. */
  lemma WriteAllFills(c: Config, s: State, vs: seq<Element>) returns (t: State)
    requires Inv(c, s) && s.prod.pc.Reserved? && |s.prod.pc.vals| + |vs| <= s.prod.pc.count && Sized(c.words, vs)
    ensures s.prod.pc.count <= c.n
    ensures t == FillAll(c, s, vs) && Inv(c, t)
    ensures t.slots == (if vs == [] then s.slots else Scatter(c.n, s.slots, s.prod.tail + |s.prod.pc.vals|, vs))
    ensures t == s.(slots := t.slots, prod := s.prod.(pc := Reserved(s.prod.pc.count, s.prod.pc.vals + vs)))
  {
    t := FillAll(c, s, vs);
    FillAllKeepsInv(c, s, vs);
    FilledValues(c, s, vs);
    FillAllScatters(c, s, vs);
  }

  class Consumer {
    const ch: Channel
    var head: nat
    var itemsSinceLastSync: nat

    constructor (ch: Channel, head: nat)
      ensures this.ch == ch && this.head == head && itemsSinceLastSync == 0
    {
      this.ch, this.head, itemsSinceLastSync := ch, head, 0;
    }

    ghost predicate Cursor()
      reads this, ch
    {
      ch.m.cons.head == head && ch.m.cons.items == itemsSinceLastSync
    }

    ghost predicate Valid()
      reads this, ch, ch.buffer
    {
      ch.Valid() && Cursor() && ch.m.cons.pc.Idle?
    }

    /** `join`: the session starts empty, with the shared head moved up to the tail. */
    static method Join(ch: Channel) returns (r: Result<Consumer>)
      requires ch.Coupled()
      modifies ch`head, ch`m
      ensures ch.Coupled()
      ensures r.Err? <==> !ch.Initialised()
      ensures ch.magic == 0 ==> r == Err(Uninitialized)
      ensures ch.magic != 0 && ch.magic != MAGIC ==> r == Err(CorruptionDetected)
      ensures ch.magic == MAGIC && ch.capacity != Pow2(ch.k) ==> r == Err(IncorrectCapacity(ch.capacity))
      ensures r.Err? ==> ch.m == old(ch.m)
      ensures r.Ok? ==> fresh(r.value) && r.value.ch == ch && r.value.Cursor()
      ensures r.Ok? ==> ch.head == r.value.head == ch.tail && r.value.itemsSinceLastSync == 0
      ensures r.Err? ==> ch.head == old(ch.head)
      ensures r.Ok? ==> ch.m.(head := old(ch.m.head), cons := old(ch.m.cons)) == old(ch.m)
      ensures r.Ok? ==> ch.m.cons.pc.Idle? && ch.m.cons.start == ch.tail && ch.m.cons.out == []
      ensures r.Ok? ==> ch.m == AfterJoin(old(ch.m))
    {
      var magic := ch.magic;
      var capacity := ch.capacity;
      var e := JoinCheck(magic, capacity, Pow2(ch.k));
      if e.Some? {
        return Err(e.value);
      }
      var newHead := ch.tail;
      ch.head := newHead;
      ch.m := AfterJoin(ch.m);
      var con := new Consumer(ch, newHead);
      r := Ok(con);
    }

    /** Whatever the producer does meanwhile: the front of the published queue is returned,
        nothing only if the queue was empty, and the cursors move by one value. */
    method Pop() returns (r: Option<Element>)
      requires Valid()
      modifies this, ch`tail, ch`head, ch`m, ch.buffer
      ensures Valid() && old(ch.m.log) <= ch.m.log
      ensures ch.Took(old(ch.m), true,
                if r.None? then [PopLoad] else [PopLoad] + Repeat(PopRead, ch.words) + [PopEnd])
      ensures r.None? ==> Abstract(old(ch.m)).queue == [] && ch.m.cons == old(ch.m.cons) && ch.head == old(ch.head)
      ensures r.Some? ==> old(head) < |ch.m.log| && r.value == ch.m.log[old(head)]
      ensures r.None? ==> head == old(head) && itemsSinceLastSync == old(itemsSinceLastSync)
      ensures r.Some? ==> head == old(head) + 1 && Counted(old(itemsSinceLastSync), old(ch.head))
      ensures r.Some? ==> ch.m.cons.out == old(ch.m.cons.out) + [r.value] && ch.m.cons.start == old(ch.m.cons.start)
      ensures Abstract(old(ch.m)).queue != [] ==> r == Some(Abstract(old(ch.m)).queue[0])
    {
      ghost var m0 := ch.m;
      var headIndex := MaskedIndex(ch.k, head);
      var tail := LoadTail();
      if tail <= head {
        return None;
      }
      var value := ReadAndTake(headIndex, m0);
      r := Some(value);
    }

    /** The tail load a pop begins with, after whatever the producer does first. */
    method LoadTail() returns (tail: nat)
      requires Valid()
      modifies ch`tail, ch`head, ch`m, ch.buffer
      ensures ch.Valid() && Cursor() && ch.Took(old(ch.m), true, [PopLoad]) && ch.head == old(ch.head)
      ensures old(ch.m.log) <= ch.m.log && tail == ch.tail
      ensures ch.m.cons == if tail <= head then old(ch.m.cons) else old(ch.m.cons).(pc := Reading([]))
    {
      ghost var m0 := ch.m;
      RanNothing(ch.c, m0, true);
      ch.Interference(m0, true, []);
      tail := ch.tail;
      ch.Advance(m0, true, [], PopLoad);
      assert [] + [PopLoad] == [PopLoad];
    }

    /** The slot copy of a pop that has found something, and its cursor updates. */
    method ReadAndTake(headIndex: nat, ghost m0: State) returns (value: Element)
      requires ch.Valid() && Cursor() && ch.m.cons.pc == Reading([]) && headIndex == Slot(Pow2(ch.k), head)
      requires ch.Took(m0, true, [PopLoad])
      modifies this, ch`tail, ch`head, ch`m, ch.buffer
      ensures Valid() && old(ch.m.log) <= ch.m.log
      ensures ch.Took(m0, true, [PopLoad] + Repeat(PopRead, ch.words) + [PopEnd])
      ensures old(head) < |ch.m.log| && value == ch.m.log[old(head)]
      ensures head == old(head) + 1 && Counted(old(itemsSinceLastSync), old(ch.head))
      ensures ch.m.cons.out == old(ch.m.cons.out) + [value] && ch.m.cons.start == old(ch.m.cons.start)
    {
      value := ch.ReadSlot(headIndex, m0, [PopLoad]);
      EndPop(value, m0, [PopLoad] + Repeat(PopRead, ch.words));
    }

    /** The last step of a pop, after whatever the producer does first. */
    method EndPop(value: Element, ghost m0: State, ghost own: seq<Action>)
      requires ch.Valid() && Cursor() && ch.m.cons.pc == Reading(value) && |value| == ch.words
      requires ch.Took(m0, true, own)
      modifies this, ch`tail, ch`head, ch`m, ch.buffer
      ensures Valid() && old(ch.m.log) <= ch.m.log && ch.Took(m0, true, own + [PopEnd])
      ensures old(head) < |ch.m.log| && value == ch.m.log[old(head)]
      ensures head == old(head) + 1 && Counted(old(itemsSinceLastSync), old(ch.head))
      ensures ch.m.cons.out == old(ch.m.cons.out) + [value] && ch.m.cons.start == old(ch.m.cons.start)
    {
      ch.Interference(m0, true, own);
      RanStep(ch.c, m0, ch.m, true, own, PopEnd);
      WholeBufferIsPublished(ch.c, ch.m);
      TakeOne(value);
    }

    /** One more value has been counted since there were `items`: the head is published, and
        the count starts over, exactly when a quarter of the capacity (at least one) is due. */
    ghost predicate Counted(items: nat, published: nat)
      reads this, ch
    {
      if items + 1 >= BurstAmount(Pow2(ch.k)) then itemsSinceLastSync == 0 && ch.head == head
      else itemsSinceLastSync == items + 1 && ch.head == published
    }

    /** The cursor updates that end a pop and a borrow, with `maybe_sync`. */
    method TakeOne(ghost taken: Element)
      requires ch.Valid() && Cursor() && Inv(ch.c, Advance(ch.c, ch.m, taken))
      modifies this, ch`head, ch`m
      ensures Valid() && ch.m == Advance(ch.c, old(ch.m), taken)
      ensures head == old(head) + 1 && Counted(old(itemsSinceLastSync), old(ch.head))
      ensures ch.m.cons.out == old(ch.m.cons.out) + [taken] && ch.m.cons.start == old(ch.m.cons.start)
      ensures ch.m.log == old(ch.m.log) && ch.m.staged == old(ch.m.staged) && ch.m.prod == old(ch.m.prod)
    {
      ghost var next := Advance(ch.c, ch.m, taken);
      head := head + 1;
      itemsSinceLastSync := itemsSinceLastSync + 1;
      if itemsSinceLastSync >= BurstAmount(Pow2(ch.k)) {
        itemsSinceLastSync := 0;
        ch.head := head;
      }
      ch.m := next;
    }

    /** The front of the queue is lent out in place; it is taken only when dropped. */
    method PopZeroCopy() returns (r: Option<BorrowedElement>)
      requires Valid()
      modifies ch`tail, ch`head, ch`m, ch.buffer
      ensures ch.Valid() && Cursor() && ch.Took(old(ch.m), true, [Borrow]) && old(ch.m.log) <= ch.m.log
      ensures r.None? ==> Abstract(old(ch.m)).queue == [] && Valid() && ch.m.cons == old(ch.m.cons)
      ensures r.Some? ==> fresh(r.value) && r.value.consumer == this && r.value.Live()
      ensures r.Some? ==> head < |ch.m.log| && ch.m.cons.pc == Borrowed(ch.m.log[head], ch.m.log[head])
      ensures Abstract(old(ch.m)).queue != [] ==> r.Some? && ch.m.cons.pc.taken == Abstract(old(ch.m)).queue[0]
    {
      ghost var m0 := ch.m;
      RanNothing(ch.c, m0, true);
      var headIndex := MaskedIndex(ch.k, head);
      ch.Interference(m0, true, []);
      var tail := ch.tail;
      BorrowLendsFront(ch.c, ch.m);
      ch.Advance(m0, true, [], Borrow);
      assert [] + [Borrow] == [Borrow];
      if tail <= head {
        return None;
      }
      var e := new BorrowedElement(this, headIndex);
      r := Some(e);
    }
  }

  /** A borrowed element: a reference to its slot and to the consumer it will advance. */
  class BorrowedElement {
    const consumer: Consumer
    const index: nat

    constructor (consumer: Consumer, index: nat)
      ensures this.consumer == consumer && this.index == index
    {
      this.consumer, this.index := consumer, index;
    }

    ghost predicate Live()
      reads this, consumer, consumer.ch
    {
      && consumer.Cursor() && consumer.ch.m.cons.pc.Borrowed?
      && index == Slot(Pow2(consumer.ch.k), consumer.head)
    }

    method Deref() returns (value: Element)
      requires consumer.ch.Valid() && Live()
      ensures value == consumer.ch.m.cons.pc.now
    {
      BorrowedInPlace(consumer.ch.c, consumer.ch.m);
      value := consumer.ch.buffer[index];
    }

    /** One word written through `deref_mut`. */
    method SetWord(j: nat, w: Word)
      requires consumer.ch.Valid() && Live() && j < consumer.ch.words
      modifies consumer.ch`m, consumer.ch.buffer
      ensures consumer.ch.Valid() && Live()
      ensures var now, was := consumer.ch.m.cons.pc.now, old(consumer.ch.m.cons.pc.now);
              |now| == |was| == consumer.ch.words && now[j] == w
              && forall i :: 0 <= i < |was| && i != j ==> now[i] == was[i]
      ensures consumer.ch.m.cons.(pc := old(consumer.ch.m.cons.pc)) == old(consumer.ch.m.cons)
      ensures consumer.ch.m.cons.pc.taken == old(consumer.ch.m.cons.pc.taken)
      ensures consumer.ch.m.log == old(consumer.ch.m.log) && consumer.ch.m.staged == old(consumer.ch.m.staged)
      ensures consumer.ch.m == AfterMutate(consumer.ch.c, old(consumer.ch.m), j, w)
    {
      var ch := consumer.ch;
      StepKeepsInv(ch.c, ch.m, Mutate(j, w));
      ghost var next := AfterMutate(ch.c, ch.m, j, w);
      ch.buffer[index] := WithWord(ch.buffer[index], j, w);
      ch.m := next;
    }

    /** Dropping the element takes it: the consumer moves on, and records as taken what
        was lent out. */
    method Drop()
      requires consumer.ch.Valid() && Live()
      modifies consumer, consumer.ch`head, consumer.ch`m
      ensures consumer.Valid() && consumer.head == old(consumer.head) + 1
      ensures consumer.Counted(old(consumer.itemsSinceLastSync), old(consumer.ch.head))
      ensures consumer.ch.m.cons.out == old(consumer.ch.m.cons.out) + [old(consumer.ch.m.cons.pc.taken)]
      ensures consumer.ch.m.log == old(consumer.ch.m.log) && consumer.ch.m.prod == old(consumer.ch.m.prod)
      ensures consumer.ch.m == Advance(consumer.ch.c, old(consumer.ch.m), old(consumer.ch.m.cons.pc.taken))
    {
      StepKeepsInv(consumer.ch.c, consumer.ch.m, Release);
      consumer.TakeOne(consumer.ch.m.cons.pc.taken);
    }
  }

  /** Both actions of a consumer join, one after the other. */
  function AfterJoin(s: State): State {
    AfterJoinStore(s.(cons := s.cons.(pc := Joining(s.tail))))
  }

  lemma AfterJoinKeepsInv(c: Config, s: State)
    requires Inv(c, s)
    ensures Inv(c, AfterJoin(s)) && AfterJoin(s).cons.pc.Idle? && AfterJoin(s).prod == s.prod
    ensures Abstract(AfterJoin(s)) == Fifo([], s.staged, [])
  {
    StepKeepsInv(c, s, JoinLoad);
    StepKeepsInv(c, Step(c, s, JoinLoad), JoinStore);
  }

  lemma BorrowedInPlace(c: Config, s: State)
    requires Inv(c, s) && s.cons.pc.Borrowed?
    ensures s.slots[Slot(c.n, s.cons.head)] == s.cons.pc.now
  {
    assert s.slots[Slot(c.n, s.cons.head)] == Expected(s, s.cons.head);
  }

  lemma WholeBufferIsPublished(c: Config, s: State)
    requires Inv(c, s) && s.cons.pc.Reading? && |s.cons.pc.buf| == c.words
    ensures s.cons.head < |s.log| && s.cons.pc.buf == s.log[s.cons.head]
  {
    assert |s.log[s.cons.head]| == c.words;
  }

  lemma PopReturnsFront(c: Config, s: State)
    requires Inv(c, s) && s.cons.pc.Idle?
    ensures TestsEmpty(s) <==> Abstract(s).queue == []
    ensures !TestsEmpty(s) ==> s.slots[Slot(c.n, s.cons.head)] == Abstract(s).queue[0] == s.log[s.cons.head]
    ensures Inv(c, PopCall(c, s))
  {
    PopCallKeepsInv(c, s);
    if !TestsEmpty(s) {
      assert s.slots[Slot(c.n, s.cons.head)] == Expected(s, s.cons.head);
    }
  }

  lemma BorrowLendsFront(c: Config, s: State)
    requires Inv(c, s) && s.cons.pc.Idle?
    ensures Inv(c, AfterBorrow(c, s))
    ensures TestsEmpty(s) <==> Abstract(s).queue == []
    ensures TestsEmpty(s) ==> AfterBorrow(c, s) == s
    ensures !TestsEmpty(s) ==>
              var front := Abstract(s).queue[0];
              AfterBorrow(c, s) == s.(cons := s.cons.(pc := Borrowed(front, front)))
  {
    PopReturnsFront(c, s);
    StepKeepsInv(c, s, Borrow);
  }

  /** `lossless_pair`: zeroed memory, a producer, then a consumer. */
  method LosslessPair(k: nat, words: nat, zero: Element) returns (p: Producer, con: Consumer)
    requires words >= 1 && |zero| == words
    ensures p.Valid() && con.Valid() && p.ch == con.ch && p.ch.k == k && p.ch.words == words
    ensures p.ch.tail == p.ch.head == p.tail == p.written == con.head == con.itemsSinceLastSync == 0
    ensures Abstract(p.ch.m) == Fifo([], [], [])
  {
    var ch := new Channel(k, words, zero);
    p, con := JoinBoth(ch);
  }

  method JoinBoth(ch: Channel) returns (p: Producer, con: Consumer)
    requires ch.Shaped() && ch.magic == 0 && ch.head == 0
    modifies ch
    ensures p.Valid() && con.Valid() && p.ch == con.ch == ch
    ensures ch.tail == ch.head == p.tail == p.written == con.head == con.itemsSinceLastSync == 0
    ensures Abstract(ch.m) == Fifo([], [], [])
  {
    p := JoinFirst(ch);
    con := JoinSecond(p);
  }

  /** The producer of a fresh pair. */
  method JoinFirst(ch: Channel) returns (p: Producer)
    requires ch.Shaped() && ch.magic == 0 && ch.head == 0
    modifies ch
    ensures p.Valid() && p.ch == ch && ch.tail == ch.head == p.tail == p.written == 0
    ensures Abstract(ch.m) == Fifo([], [], [])
  {
    var r := Producer.JoinOrInitialize(ch);
    p := r.value;
  }

  /** The consumer of a fresh pair. */
  method JoinSecond(p: Producer) returns (con: Consumer)
    requires p.Valid() && Abstract(p.ch.m) == Fifo([], [], [])
    modifies p.ch`head, p.ch`m
    ensures p.Valid() && con.Valid() && con.ch == p.ch
    ensures con.head == p.ch.head == p.ch.tail && con.itemsSinceLastSync == 0
    ensures Abstract(p.ch.m) == Fifo([], [], [])
  {
    AfterJoinKeepsInv(p.ch.c, p.ch.m);
    var rc := Consumer.Join(p.ch);
    con := rc.value;
  }

  /** Mode hand-over: whatever tail, head and slots a headless session left in the channel,
      a consumer join followed by a producer join opens an empty lossless session there. */
  method Reopen(ch: Channel) returns (p: Producer, con: Consumer)
    requires ch.Shaped() && ch.Initialised()
    modifies ch`head, ch`m
    ensures p.Valid() && con.Valid() && p.ch == con.ch == ch
    ensures Abstract(ch.m) == Fifo([], [], []) && ch.tail == old(ch.tail)
    ensures ch.head == p.tail == con.head == ch.tail && p.written == con.itemsSinceLastSync == 0
    ensures ch.buffer[..] == old(ch.buffer[..])
  {
    ghost var any := ch.buffer[0];
    ghost var past := seq(ch.tail, _ => any);
    ghost var s := State(ch.tail, ch.head, ch.buffer[..], LosslessMachine.Producer(0, 0, Ready, 0),
                         LosslessMachine.Consumer(0, 0, Absent, 0, []), past, [], ch.tail);
    HandOver(ch.c, s);
    HandOverSteps(ch.c, s);
    ch.m := s;
    var rc := Consumer.Join(ch);
    con := rc.value;
    var rp := Producer.Join(ch);
    p := rp.value;
  }

  lemma HandOverSteps(c: Config, s: State)
    requires c.n >= 1 && |s.slots| == c.n && s.syncSeen == s.tail
    ensures ValidRun(c, s, [JoinLoad, JoinStore, Restart(s.tail)])
    ensures Exec(c, s, [JoinLoad, JoinStore, Restart(s.tail)]) == AfterRestart(AfterJoin(s), s.tail)
  {
    var s1 := Step(c, s, JoinLoad);
    var s2 := Step(c, s1, JoinStore);
    RunOne(c, s2, Restart(s.tail));
    var acts := [JoinLoad, JoinStore, Restart(s.tail)];
    assert acts[1..] == [JoinStore, Restart(s.tail)];
    assert acts[1..][1..] == [Restart(s.tail)];
  }
}
