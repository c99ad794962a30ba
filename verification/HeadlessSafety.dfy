/** Invariants of the headless machine over every run: cursor bookkeeping for any
    configuration, and untorn, unstale reads when `margin + limit <= n`. */
module HeadlessSafety {
  import opened Arithmetic
  import opened Words
  import opened HeadlessMachine

  // -------------------------------------------------------------- bookkeeping

  /** The producer never runs more than `limit` writes ahead of what it has published,
      and no slot was ever written for a position at or past `tail + limit`. */
  ghost predicate ProducerBook(c: Config, s: State) {
    && |s.slots| == c.n && Sized(c.words, s.slots)
    && |s.log| == s.tail >= s.base && Sized(c.words, s.log)
    && s.prod.tail == s.tail + |s.staged| && s.prod.written == |s.staged| <= c.limit
    && Sized(c.words, s.staged)
    && s.prod.tail <= s.high <= s.tail + c.limit
    && (s.prod.pc.Writing? ==>
        && |s.prod.pc.value| == c.words && s.prod.pc.done <= c.words
        && s.prod.written < c.limit && s.prod.tail < s.high)
  }

  ghost predicate DeliveredAt(out: seq<Delivery>, q: nat) {
    exists j :: 0 <= j < |out| && out[j].pos == q
  }

  /** Cursor and residue: the head is always the consumer's own residue and stays less
      than one stride past the shared tail. */
  ghost predicate CursorBook(base: nat, tail: nat, con: Consumer) {
    && con.index < con.interval <= 64
    && con.head % con.interval == con.index
    && base <= con.start <= con.head < tail + con.interval
    && con.start <= tail
    && (con.pc.Reading? ==> con.head < tail)
  }

  /** Deliveries are own-residue positions in strictly ascending order below the head. */
  ghost predicate OutBook(tail: nat, con: Consumer) {
    && con.interval >= 1
    && (forall j :: 0 <= j < |con.out| ==>
        && con.start <= con.out[j].pos < con.head && con.out[j].pos < tail
        && con.out[j].pos % con.interval == con.index)
    && (forall i, j :: 0 <= i < j < |con.out| ==> con.out[i].pos < con.out[j].pos)
  }

  /** Every own position from the join up to the head was delivered or skipped, never
      both; a skipped one was more than `margin` behind the tail that skipped it. */
  ghost predicate SkipBook(c: Config, tail: nat, con: Consumer) {
    && con.interval >= 1
    && (forall q :: q in con.skipped ==>
        && con.start <= q < con.head && q % con.interval == con.index
        && q + c.margin < con.skipped[q] <= tail)
    && (forall j :: 0 <= j < |con.out| ==> con.out[j].pos !in con.skipped)
    && (forall q :: con.start <= q < con.head && q % con.interval == con.index ==>
        q in con.skipped || DeliveredAt(con.out, q))
  }

  /** Each `continue` after the first needed a tail publication of its own. */
  ghost predicate CallBook(c: Config, tail: nat, epochs: nat, con: Consumer) {
    con.pc.Idle? ||
    (&& con.call.epoch <= epochs
     && (con.call.retries > 0 ==>
         && con.call.epoch <= con.call.seenEpoch <= epochs
         && con.call.retries <= 1 + (con.call.seenEpoch - con.call.epoch)
         && con.call.seenTail <= con.head + c.margin
         && con.call.seenTail <= tail
         && (con.call.seenEpoch == epochs ==> con.call.seenTail == tail)))
  }

  ghost predicate ConsumerBook(c: Config, base: nat, tail: nat, epochs: nat, con: Consumer) {
    && CursorBook(base, tail, con)
    && OutBook(tail, con)
    && SkipBook(c, tail, con)
    && CallBook(c, tail, epochs, con)
    && (con.pc.Reading? ==> |con.pc.buf| <= c.words)
  }

  ghost predicate Book(c: Config, s: State) {
    && ProducerBook(c, s)
    && forall id :: 0 <= id < |s.cons| ==> ConsumerBook(c, s.base, s.tail, s.epochs, s.cons[id])
  }

  lemma BookWhenPublishing(c: Config, base: nat, tail: nat, epochs: nat, tail': nat, epochs': nat, con: Consumer)
    requires ConsumerBook(c, base, tail, epochs, con)
    requires tail <= tail' && epochs <= epochs' && (epochs == epochs' ==> tail == tail')
    ensures ConsumerBook(c, base, tail', epochs', con)
  {
  }

  lemma JoinedBook(c: Config, base: nat, tail: nat, epochs: nat, index: nat, interval: nat)
    requires base <= tail && index < interval <= 64
    ensures ConsumerBook(c, base, tail, epochs, Joined(tail, epochs, index, interval))
  {
    NextModuloIsLeast(tail, index, interval);
  }

  lemma JumpKeepsBook(c: Config, base: nat, tail: nat, epochs: nat, con: Consumer)
    requires CursorBook(base, tail, con) && OutBook(tail, con) && SkipBook(c, tail, con)
    requires con.call.epoch <= epochs
    requires con.call.retries > 0 ==> con.call.retries < 1 + (epochs - con.call.epoch)
    requires con.head + c.margin < tail
    ensures var next := NextModulo(tail - c.margin, con.index, con.interval);
            && next > con.head
            && ConsumerBook(c, base, tail, epochs, Jump(con, tail, epochs, next))
  {
    var next := NextModulo(tail - c.margin, con.index, con.interval);
    NextModuloIsLeast(tail - c.margin, con.index, con.interval);
    var con1 := Jump(con, tail, epochs, next);
    assert forall q :: q in con1.skipped <==> q in con.skipped || q in Strided(con, con.head, next);
    assert SkipBook(c, tail, con1);
  }

  /** A call begins with a fresh call log. */
  function CallBegun(tail: nat, epochs: nat, con: Consumer): Consumer {
    if con.pc.Idle? then con.(call := CallLog(0, epochs, tail, epochs)) else con
  }

  /** The delivery history does not depend on where in a call the consumer is. */
  lemma HistoryKept(c: Config, tail: nat, con: Consumer, pc: ConsumerPc, call: CallLog)
    requires OutBook(tail, con) && SkipBook(c, tail, con)
    ensures var con1 := con.(pc := pc, call := call);
            OutBook(tail, con1) && SkipBook(c, tail, con1)
  {
  }

  lemma LoadCases(c: Config, tail: nat, epochs: nat, con: Consumer)
    requires con.index < con.interval
    ensures var con1, con2 := CallBegun(tail, epochs, con), AfterLoad(c, tail, epochs, con);
            && (tail <= con.head ==> con2 == con1.(pc := Idle))
            && (con.head < tail <= con.head + c.margin ==> con2 == con1.(pc := Reading([])))
            && (con.head + c.margin < tail ==>
                con2 == Jump(con1, tail, epochs, NextModulo(tail - c.margin, con.index, con.interval)))
  {
  }

  lemma QuietLoadKeepsBook(c: Config, base: nat, tail: nat, epochs: nat, con: Consumer, pc: ConsumerPc)
    requires ConsumerBook(c, base, tail, epochs, con)
    requires pc == Idle || (pc == Reading([]) && con.head < tail)
    ensures ConsumerBook(c, base, tail, epochs, CallBegun(tail, epochs, con).(pc := pc))
  {
    HistoryKept(c, tail, con, pc, CallBegun(tail, epochs, con).call);
  }

  lemma LoadKeepsBook(c: Config, base: nat, tail: nat, epochs: nat, con: Consumer)
    requires ConsumerBook(c, base, tail, epochs, con) && !con.pc.Reading?
    ensures ConsumerBook(c, base, tail, epochs, AfterLoad(c, tail, epochs, con))
  {
    LoadCases(c, tail, epochs, con);
    if tail <= con.head {
      QuietLoadKeepsBook(c, base, tail, epochs, con, Idle);
    } else if tail <= con.head + c.margin {
      QuietLoadKeepsBook(c, base, tail, epochs, con, Reading([]));
    } else {
      var con1 := CallBegun(tail, epochs, con);
      HistoryKept(c, tail, con, con1.pc, con1.call);
      JumpKeepsBook(c, base, tail, epochs, con1);
    }
  }

  lemma ReadKeepsBook(c: Config, base: nat, tail: nat, epochs: nat, slots: seq<Element>, con: Consumer)
    requires c.n >= 1 && |slots| == c.n
    requires ConsumerBook(c, base, tail, epochs, con) && con.pc.Reading? && |con.pc.buf| < c.words
    ensures ConsumerBook(c, base, tail, epochs, AfterRead(c, slots, con))
  {
  }

  lemma DeliverKeepsSkips(c: Config, base: nat, tail: nat, con: Consumer)
    requires CursorBook(base, tail, con) && OutBook(tail, con) && SkipBook(c, tail, con) && con.pc.Reading?
    ensures SkipBook(c, tail, Delivered(con))
  {
    var con1 := Delivered(con);
    assert con1.out[|con.out|].pos == con.head;
    forall q | con1.start <= q < con1.head && q % con1.interval == con1.index
      ensures q in con1.skipped || DeliveredAt(con1.out, q)
    {
      if q < con.head {
        if q !in con.skipped {
          var j :| 0 <= j < |con.out| && con.out[j].pos == q;
          assert con1.out[j].pos == q;
        }
      } else if q > con.head {
        SameResidueGap(con.interval, con.head, q);
      }
    }
  }

  lemma DeliverKeepsBook(c: Config, base: nat, tail: nat, epochs: nat, con: Consumer)
    requires ConsumerBook(c, base, tail, epochs, con) && con.pc.Reading?
    ensures ConsumerBook(c, base, tail, epochs, Delivered(con))
  {
    ResidueStep(con.interval, con.head);
    DeliverKeepsSkips(c, base, tail, con);
  }

  lemma CheckKeepsBook(c: Config, base: nat, tail: nat, epochs: nat, con: Consumer)
    requires ConsumerBook(c, base, tail, epochs, con) && con.pc.Reading?
    ensures ConsumerBook(c, base, tail, epochs, AfterCheck(c, tail, epochs, con))
  {
    if tail <= con.head + c.margin {
      DeliverKeepsBook(c, base, tail, epochs, con);
    } else {
      JumpKeepsBook(c, base, tail, epochs, con);
    }
  }

  lemma StepKeepsProducerBook(c: Config, s: State, a: Action)
    requires c.Valid() && ProducerBook(c, s) && Enabled(c, s, a)
    ensures ProducerBook(c, Step(c, s, a))
    ensures var t := Step(c, s, a);
            && t.base == s.base && s.log <= t.log && s.high <= t.high && s.epochs <= t.epochs
            && (t.epochs == s.epochs ==> t.tail == s.tail)
  {
  }

  lemma StepKeepsBook(c: Config, s: State, a: Action)
    requires c.Valid() && Book(c, s) && Enabled(c, s, a)
    ensures Book(c, Step(c, s, a))
  {
    var t := Step(c, s, a);
    StepKeepsProducerBook(c, s, a);
    forall id | 0 <= id < |t.cons|
      ensures ConsumerBook(c, t.base, t.tail, t.epochs, t.cons[id])
    {
      match a
      case Join(index, interval) =>
        JoinedBook(c, s.base, s.tail, s.epochs, index, interval);
      case Load(i) =>
        LoadKeepsBook(c, s.base, s.tail, s.epochs, s.cons[i]);
      case Read(i) =>
        ReadKeepsBook(c, s.base, s.tail, s.epochs, s.slots, s.cons[i]);
      case Check(i) =>
        CheckKeepsBook(c, s.base, s.tail, s.epochs, s.cons[i]);
      case _ =>
        BookWhenPublishing(c, s.base, s.tail, s.epochs, t.tail, t.epochs, s.cons[id]);
    }
  }

  lemma InitBook(c: Config, s: State)
    requires c.Valid() && Init(c, s)
    ensures Book(c, s)
  {
  }

  /** Bookkeeping holds after every run of every configuration; in particular a call has
      never continued more often than once plus the publications since it began. */
  lemma {:induction false} RunKeepsBook(c: Config, s: State, acts: seq<Action>)
    requires c.Valid() && Book(c, s) && ValidRun(c, s, acts)
    ensures Book(c, Exec(c, s, acts))
    ensures s.log <= Exec(c, s, acts).log && s.base == Exec(c, s, acts).base
    decreases |acts|
  {
    if acts != [] {
      StepKeepsBook(c, s, acts[0]);
      StepKeepsProducerBook(c, s, acts[0]);
      RunKeepsBook(c, Step(c, s, acts[0]), acts[1..]);
    }
  }

  // ------------------------------------------------------------------- safety

  /** What the slots hold: every published position the writer cannot have lapped, every
      staged position, and the finished words of the slot being written. */
  ghost predicate SlotsSafe(c: Config, s: State)
    requires c.n >= 1 && ProducerBook(c, s)
  {
    && (forall q: nat :: s.base <= q < s.tail && s.high <= q + c.n ==> s.slots[Slot(c.n, q)] == s.log[q])
    && (forall q: nat :: s.tail <= q < s.prod.tail ==> s.slots[Slot(c.n, q)] == s.staged[q - s.tail])
    && (s.prod.pc.Writing? ==>
        forall j :: 0 <= j < s.prod.pc.done ==>
          s.slots[Slot(c.n, s.prod.tail)][j] == s.prod.pc.value[j])
  }

  /** Everything delivered so far is the published value of its position, whole. */
  ghost predicate Faithful(log: seq<Element>, con: Consumer) {
    forall j :: 0 <= j < |con.out| ==>
      con.out[j].pos < |log| && con.out[j].value == log[con.out[j].pos]
  }

  /** As long as the writer has not lapped the slot, the words copied so far are right. */
  ghost predicate BufferSafe(c: Config, log: seq<Element>, high: nat, con: Consumer) {
    con.pc.Reading? && con.head < |log| && high <= con.head + c.n ==>
      |con.pc.buf| <= |log[con.head]| && con.pc.buf == log[con.head][..|con.pc.buf|]
  }

  ghost predicate Safe(c: Config, s: State) {
    && c.n >= 1 && Book(c, s)
    && SlotsSafe(c, s)
    && forall id :: 0 <= id < |s.cons| ==>
       ConsumerSafe(c, s.log, s.high, s.cons[id])
  }

  lemma SyncKeepsSlots(c: Config, s: State)
    requires c.Valid() && c.limit <= c.n && ProducerBook(c, s) && SlotsSafe(c, s) && s.prod.pc.Ready?
    ensures ProducerBook(c, AfterSync(s)) && SlotsSafe(c, AfterSync(s))
  {
  }

  lemma PushWordKeepsSlots(c: Config, s: State)
    requires c.Valid() && c.limit <= c.n && ProducerBook(c, s) && SlotsSafe(c, s)
    requires s.prod.pc.Writing? && s.prod.pc.done < c.words
    ensures ProducerBook(c, AfterPushWord(c, s)) && SlotsSafe(c, AfterPushWord(c, s))
  {
    var t := AfterPushWord(c, s);
    forall q: nat | s.base <= q < s.prod.tail && (q < s.tail ==> s.high <= q + c.n)
      ensures t.slots[Slot(c.n, q)] == s.slots[Slot(c.n, q)]
    {
      SlotsDistinct(c.n, q, s.prod.tail);
    }
  }

  lemma PushEndKeepsSlots(c: Config, s: State)
    requires c.Valid() && c.limit <= c.n && ProducerBook(c, s) && SlotsSafe(c, s)
    requires s.prod.pc.Writing? && s.prod.pc.done == c.words
    ensures ProducerBook(c, AfterPushEnd(s)) && SlotsSafe(c, AfterPushEnd(s))
  {
    assert s.slots[Slot(c.n, s.prod.tail)] == s.prod.pc.value;
  }

  lemma StepKeepsSlots(c: Config, s: State, a: Action)
    requires c.Valid() && c.limit <= c.n && ProducerBook(c, s) && SlotsSafe(c, s) && Enabled(c, s, a)
    ensures ProducerBook(c, Step(c, s, a)) && SlotsSafe(c, Step(c, s, a))
  {
    StepKeepsProducerBook(c, s, a);
    match a
    case PushStart(v) =>
      if s.prod.written == c.limit {
        SyncKeepsSlots(c, s);
      }
    case PushWord => PushWordKeepsSlots(c, s);
    case PushEnd => PushEndKeepsSlots(c, s);
    case Sync => SyncKeepsSlots(c, s);
    case _ =>
  }

  /** A slot copied in full is accepted only when the tail shows the writer cannot have
      lapped it: this is where the margin meets the producer's limit. */
  lemma CheckDeliversPublished(c: Config, s: State, con: Consumer)
    requires c.margin + c.limit <= c.n && ProducerBook(c, s)
    requires CursorBook(s.base, s.tail, con) && con.pc.Reading? && |con.pc.buf| == c.words
    requires BufferSafe(c, s.log, s.high, con)
    requires s.tail <= con.head + c.margin
    ensures con.pc.buf == s.log[con.head]
  {
    assert s.high <= con.head + c.n;
    assert |s.log[con.head]| == c.words;
  }

  lemma ReadKeepsBuffer(c: Config, s: State, con: Consumer)
    requires c.n >= 1 && ProducerBook(c, s) && SlotsSafe(c, s)
    requires CursorBook(s.base, s.tail, con) && con.pc.Reading? && |con.pc.buf| < c.words
    requires BufferSafe(c, s.log, s.high, con)
    ensures BufferSafe(c, s.log, s.high, AfterRead(c, s.slots, con))
  {
    if s.high <= con.head + c.n {
      assert s.slots[Slot(c.n, con.head)] == s.log[con.head];
    }
  }

  ghost predicate ConsumerSafe(c: Config, log: seq<Element>, high: nat, con: Consumer) {
    Faithful(log, con) && BufferSafe(c, log, high, con)
  }

  lemma SafeWhenPublishing(c: Config, s: State, t: State, con: Consumer)
    requires ConsumerSafe(c, s.log, s.high, con) && CursorBook(s.base, s.tail, con)
    requires s.log <= t.log && s.high <= t.high && |s.log| == s.tail
    ensures ConsumerSafe(c, t.log, t.high, con)
  {
  }

  lemma LoadKeepsSafe(c: Config, s: State, con: Consumer)
    requires ConsumerSafe(c, s.log, s.high, con) && con.index < con.interval
    ensures ConsumerSafe(c, s.log, s.high, AfterLoad(c, s.tail, s.epochs, con))
  {
    assert AfterLoad(c, s.tail, s.epochs, con).out == con.out;
  }

  lemma CheckKeepsSafe(c: Config, s: State, con: Consumer)
    requires c.margin + c.limit <= c.n && ProducerBook(c, s)
    requires CursorBook(s.base, s.tail, con) && con.pc.Reading? && |con.pc.buf| == c.words
    requires ConsumerSafe(c, s.log, s.high, con)
    ensures ConsumerSafe(c, s.log, s.high, AfterCheck(c, s.tail, s.epochs, con))
  {
    if s.tail <= con.head + c.margin {
      CheckDeliversPublished(c, s, con);
    }
  }

  lemma StepKeepsSafe(c: Config, s: State, a: Action)
    requires c.Valid() && c.margin + c.limit <= c.n
    requires Safe(c, s) && Enabled(c, s, a)
    ensures Safe(c, Step(c, s, a))
  {
    var t := Step(c, s, a);
    StepKeepsBook(c, s, a);
    StepKeepsSlots(c, s, a);
    forall id | 0 <= id < |t.cons|
      ensures ConsumerSafe(c, t.log, t.high, t.cons[id])
    {
      StepKeepsConsumerSafe(c, s, a, id);
    }
  }

  lemma StepKeepsConsumerSafe(c: Config, s: State, a: Action, id: nat)
    requires c.Valid() && c.margin + c.limit <= c.n
    requires Safe(c, s) && Enabled(c, s, a) && id < |Step(c, s, a).cons|
    ensures var t := Step(c, s, a); ConsumerSafe(c, t.log, t.high, t.cons[id])
  {
    var t := Step(c, s, a);
    if id == |s.cons| {
      assert t.cons[id].out == [];
    } else if a.Load? && a.id == id {
      LoadKeepsSafe(c, s, s.cons[id]);
    } else if a.Read? && a.id == id {
      ReadKeepsBuffer(c, s, s.cons[id]);
    } else if a.Check? && a.id == id {
      CheckKeepsSafe(c, s, s.cons[id]);
    } else {
      StepKeepsProducerBook(c, s, a);
      assert t.cons[id] == s.cons[id];
      SafeWhenPublishing(c, s, t, s.cons[id]);
    }
  }

  lemma InitSafe(c: Config, s: State)
    requires c.Valid() && Init(c, s)
    ensures Safe(c, s)
  {
  }

  lemma {:induction false} RunKeepsSafe(c: Config, s: State, acts: seq<Action>)
    requires c.Valid() && c.margin + c.limit <= c.n
    requires Safe(c, s) && ValidRun(c, s, acts)
    ensures Safe(c, Exec(c, s, acts))
    decreases |acts|
  {
    if acts != [] {
      StepKeepsSafe(c, s, acts[0]);
      RunKeepsSafe(c, Step(c, s, acts[0]), acts[1..]);
    }
  }

  lemma {:induction false} RunKeepsSlots(c: Config, s: State, acts: seq<Action>)
    requires c.Valid() && c.limit <= c.n && ProducerBook(c, s) && SlotsSafe(c, s) && ValidRun(c, s, acts)
    ensures ProducerBook(c, Exec(c, s, acts)) && SlotsSafe(c, Exec(c, s, acts))
    decreases |acts|
  {
    if acts != [] {
      StepKeepsSlots(c, s, acts[0]);
      RunKeepsSlots(c, Step(c, s, acts[0]), acts[1..]);
    }
  }

  /** Whatever window the consumers trust, no run from any session start loses a published
      position from `tail + limit - n` on: a bound on the unsynced writes alone is enough. */
  lemma WindowIntactAlways(c: Config, s: State, acts: seq<Action>)
    requires c.Valid() && c.limit <= c.n && Init(c, s) && ValidRun(c, s, acts)
    ensures var t := Exec(c, s, acts);
            && |t.slots| == c.n && |t.log| == t.tail
            && forall q: nat :: t.base <= q < t.tail && t.tail + c.limit <= q + c.n ==>
                 t.slots[Slot(c.n, q)] == t.log[q]
  {
    RunKeepsSlots(c, s, acts);
  }
}
