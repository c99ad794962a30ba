/** The inductive invariant of the lossless machine and what follows from it: cursors stay
    ordered and within one ring, no unread slot is ever overwritten, and a session takes
    exactly the published values in order. */
module LosslessSafety {
  import opened Arithmetic
  import opened Words
  import opened LosslessMachine

  /** Everything from here to the tail is still to be read. */
  function Live(s: State): nat {
    if s.cons.pc.Joining? then s.cons.pc.newHead else s.cons.head
  }

  /** Positions the producer has been granted beyond its tail. */
  function Granted(p: Producer): nat {
    match p.pc
    case Ready => 0
    case Writing(_, _) => 1
    case Reserved(count, _) => count
    case Filling(count, _, _, _) => count
  }

  /** `head <= consumer head <= tail <= producer tail <= head + n`, where the producer's
      side already holds of the possibly stale head it has seen. */
  ghost predicate CursorInv(c: Config, s: State) {
    && s.head + s.cons.items == s.cons.head && s.cons.items < c.burst
    && s.cons.head <= Live(s) <= s.tail
    && s.tail + s.prod.written == s.prod.tail
    && s.syncSeen <= s.prod.seen <= s.head
    && s.tail <= s.syncSeen + c.n
    && s.prod.tail + Granted(s.prod) <= s.prod.seen + c.n
  }

  ghost predicate ShapeInv(c: Config, s: State) {
    && |s.slots| == c.n && Sized(c.words, s.slots)
    && |s.log| == s.tail && Sized(c.words, s.log)
    && |s.staged| == s.prod.written && Sized(c.words, s.staged)
    && (match s.prod.pc
        case Ready => true
        case Writing(v, d) => |v| == c.words && d <= c.words
        case Reserved(count, vals) => 1 <= count && |vals| <= count && Sized(c.words, vals)
        case Filling(count, vals, v, d) => |vals| < count && Sized(c.words, vals) && |v| == c.words && d <= c.words)
    && (match s.cons.pc
        case Reading(buf) => s.cons.head < s.tail && |buf| <= c.words
        case Borrowed(taken, now) => s.cons.head < s.tail && |taken| == |now| == c.words
        case _ => true)
  }

  /** The value that position `q`, from `Live` up to the producer's write cursor, must have. */
  function Expected(s: State, q: nat): Element
    requires |s.log| == s.tail && |s.staged| == s.prod.written && s.tail + s.prod.written == s.prod.tail
    requires q < WriteCursor(s.prod)
  {
    if q < s.tail then
      if s.cons.pc.Borrowed? && q == s.cons.head then s.cons.pc.now else s.log[q]
    else if q < s.prod.tail then s.staged[q - s.tail]
    else s.prod.pc.vals[q - s.prod.tail]
  }

  /** Every unread, staged or reserved-and-written position is in its slot. */
  ghost predicate SlotInv(c: Config, s: State)
    requires c.n >= 1 && |s.slots| == c.n
    requires |s.log| == s.tail && |s.staged| == s.prod.written && s.tail + s.prod.written == s.prod.tail
  {
    && (forall q: nat {:trigger Slot(c.n, q)} :: Live(s) <= q < WriteCursor(s.prod) ==>
        s.slots[Slot(c.n, q)] == Expected(s, q))
    && (s.prod.pc.Writing? || s.prod.pc.Filling? ==>
        forall j :: 0 <= j < s.prod.pc.done && j < |s.prod.pc.value| && j < c.words ==>
          WordAt(s.slots[Slot(c.n, WriteCursor(s.prod))], j) == s.prod.pc.value[j])
  }

  /** A session has taken exactly the published values from where it joined to its head. */
  ghost predicate OutInv(s: State)
    requires |s.log| == s.tail
  {
    && s.cons.start <= s.cons.head <= |s.log|
    && s.cons.out == s.log[s.cons.start..s.cons.head]
    && (s.cons.pc.Reading? && s.cons.head < |s.log| ==>
        |s.cons.pc.buf| <= |s.log[s.cons.head]| && s.cons.pc.buf == s.log[s.cons.head][..|s.cons.pc.buf|])
    && (s.cons.pc.Borrowed? && s.cons.head < |s.log| ==> s.cons.pc.taken == s.log[s.cons.head])
  }

  ghost predicate Inv(c: Config, s: State) {
    && c.Valid()
    && CursorInv(c, s) && ShapeInv(c, s)
    && SlotInv(c, s) && OutInv(s)
  }

  lemma InitInv(c: Config, s: State)
    requires c.Valid() && Init(c, s)
    ensures Inv(c, s)
  {
  }

  predicate IsConsumerAction(a: Action) {
    a.PopLoad? || a.PopRead? || a.PopEnd? || a.Borrow? || a.Mutate? || a.Release? || a.JoinLoad? || a.JoinStore?
  }

  lemma ConsumerStepKeepsCursors(c: Config, s: State, a: Action)
    requires c.Valid() && CursorInv(c, s) && ShapeInv(c, s) && Enabled(c, s, a) && IsConsumerAction(a)
    ensures CursorInv(c, Step(c, s, a)) && ShapeInv(c, Step(c, s, a))
  {
  }

  lemma PushingKeepsCursors(c: Config, s: State, a: Action)
    requires c.Valid() && CursorInv(c, s) && ShapeInv(c, s) && Enabled(c, s, a)
    requires a.PushLoad? || a.PushWord? || a.PushEnd? || a.Sync? || a.Restart?
    ensures CursorInv(c, Step(c, s, a)) && ShapeInv(c, Step(c, s, a))
  {
  }

  lemma ReservingKeepsCursors(c: Config, s: State, a: Action)
    requires c.Valid() && CursorInv(c, s) && ShapeInv(c, s) && Enabled(c, s, a)
    requires a.Reserve? || a.FillStart? || a.FillWord? || a.FillEnd? || a.Cancel?
    ensures CursorInv(c, Step(c, s, a)) && ShapeInv(c, Step(c, s, a))
  {
  }

  lemma CommitKeepsCursors(c: Config, s: State, always: bool)
    requires c.Valid() && CursorInv(c, s) && ShapeInv(c, s) && s.prod.pc.Reserved?
    ensures CursorInv(c, AfterCommit(c, s, always)) && ShapeInv(c, AfterCommit(c, s, always))
  {
  }

  lemma StepKeepsCursors(c: Config, s: State, a: Action)
    requires c.Valid() && CursorInv(c, s) && ShapeInv(c, s) && Enabled(c, s, a)
    ensures CursorInv(c, Step(c, s, a)) && ShapeInv(c, Step(c, s, a))
  {
    if IsConsumerAction(a) {
      ConsumerStepKeepsCursors(c, s, a);
    } else if a.Commit? {
      CommitKeepsCursors(c, s, a.always);
    } else if a.Reserve? || a.FillStart? || a.FillWord? || a.FillEnd? || a.Cancel? {
      ReservingKeepsCursors(c, s, a);
    } else {
      PushingKeepsCursors(c, s, a);
    }
  }

  /** The slot being written belongs to no position a reader may still need. */
  lemma WriteSlotIsFree(c: Config, s: State, q: nat)
    requires c.Valid() && CursorInv(c, s) && ShapeInv(c, s)
    requires s.prod.pc.Writing? || s.prod.pc.Filling?
    requires Live(s) <= q < WriteCursor(s.prod)
    ensures Slot(c.n, q) != Slot(c.n, WriteCursor(s.prod))
  {
    SlotsDistinct(c.n, q, WriteCursor(s.prod));
  }

  /** Likewise the borrowed slot is the slot of no other pending or reserved position. */
  lemma BorrowedSlotIsAlone(c: Config, s: State, q: nat)
    requires c.Valid() && CursorInv(c, s) && ShapeInv(c, s) && s.cons.pc.Borrowed?
    requires s.cons.head < q <= WriteCursor(s.prod)
    requires q == WriteCursor(s.prod) ==> s.prod.pc.Writing? || s.prod.pc.Filling?
    ensures Slot(c.n, q) != Slot(c.n, s.cons.head)
  {
    SlotsDistinct(c.n, s.cons.head, q);
  }

  lemma WriteWordKeepsSlots(c: Config, s: State)
    requires Inv(c, s) && (s.prod.pc.Writing? || s.prod.pc.Filling?) && s.prod.pc.done < c.words
    requires CursorInv(c, AfterWriteWord(c, s)) && ShapeInv(c, AfterWriteWord(c, s))
    ensures SlotInv(c, AfterWriteWord(c, s)) && OutInv(AfterWriteWord(c, s))
  {
    var t := AfterWriteWord(c, s);
    assert WriteCursor(t.prod) == WriteCursor(s.prod) && Live(t) == Live(s);
    forall q: nat | Live(t) <= q < WriteCursor(t.prod)
      ensures t.slots[Slot(c.n, q)] == Expected(t, q)
    {
      WriteSlotIsFree(c, s, q);
      assert Expected(t, q) == Expected(s, q);
    }
  }

  lemma WrittenWhole(c: Config, s: State)
    requires Inv(c, s) && (s.prod.pc.Writing? || s.prod.pc.Filling?) && s.prod.pc.done == c.words
    ensures s.slots[Slot(c.n, WriteCursor(s.prod))] == s.prod.pc.value
  {
    var e, v := s.slots[Slot(c.n, WriteCursor(s.prod))], s.prod.pc.value;
    forall j | 0 <= j < |v|
      ensures e[j] == v[j]
    {
      assert WordAt(e, j) == v[j];
    }
  }

  lemma PushEndKeepsSlots(c: Config, s: State)
    requires Inv(c, s) && s.prod.pc.Writing? && s.prod.pc.done == c.words
    requires CursorInv(c, AfterPushEnd(s)) && ShapeInv(c, AfterPushEnd(s))
    ensures SlotInv(c, AfterPushEnd(s)) && OutInv(AfterPushEnd(s))
  {
    WrittenWhole(c, s);
    var t := AfterPushEnd(s);
    forall q: nat | Live(t) <= q < WriteCursor(t.prod)
      ensures t.slots[Slot(c.n, q)] == Expected(t, q)
    {
      if q < WriteCursor(s.prod) {
        assert s.slots[Slot(c.n, q)] == Expected(s, q);
        assert Expected(t, q) == Expected(s, q);
      }
    }
  }

  lemma FillEndKeepsSlots(c: Config, s: State)
    requires Inv(c, s) && Enabled(c, s, FillEnd)
    requires CursorInv(c, Step(c, s, FillEnd)) && ShapeInv(c, Step(c, s, FillEnd))
    ensures SlotInv(c, Step(c, s, FillEnd)) && OutInv(Step(c, s, FillEnd))
  {
    WrittenWhole(c, s);
    var t := Step(c, s, FillEnd);
    forall q: nat | Live(t) <= q < WriteCursor(t.prod)
      ensures t.slots[Slot(c.n, q)] == Expected(t, q)
    {
      if q < WriteCursor(s.prod) {
        assert s.slots[Slot(c.n, q)] == Expected(s, q);
        assert Expected(t, q) == Expected(s, q);
      }
    }
  }

  lemma SyncKeepsSlots(c: Config, s: State)
    requires Inv(c, s) && s.prod.pc.Ready?
    requires CursorInv(c, AfterSync(s)) && ShapeInv(c, AfterSync(s))
    ensures SlotInv(c, AfterSync(s)) && OutInv(AfterSync(s))
  {
    var t := AfterSync(s);
    forall q: nat | Live(t) <= q < WriteCursor(t.prod)
      ensures t.slots[Slot(c.n, q)] == Expected(t, q)
    {
      if q < WriteCursor(s.prod) {
        assert s.slots[Slot(c.n, q)] == Expected(s, q);
        assert Expected(t, q) == Expected(s, q);
      }
    }
    assert t.log[s.cons.start..s.cons.head] == s.log[s.cons.start..s.cons.head];
  }

  /** A commit without its sync: the written values move from the reservation to `staged`. */
  function Committed(s: State): State
    requires s.prod.pc.Reserved?
  {
    var w := |s.prod.pc.vals|;
    s.(prod := Producer(s.prod.tail + w, s.prod.written + w, Ready, s.prod.seen),
       staged := s.staged + s.prod.pc.vals)
  }

  lemma CommittedKeepsInv(c: Config, s: State)
    requires Inv(c, s) && s.prod.pc.Reserved?
    ensures Inv(c, Committed(s))
  {
    var t := Committed(s);
    assert CursorInv(c, t) && ShapeInv(c, t);
    forall q: nat | Live(t) <= q < WriteCursor(t.prod)
      ensures t.slots[Slot(c.n, q)] == Expected(t, q)
    {
      if q < WriteCursor(s.prod) {
        assert s.slots[Slot(c.n, q)] == Expected(s, q);
        assert Expected(t, q) == Expected(s, q);
      }
    }
  }

  lemma CommitKeepsInv(c: Config, s: State, always: bool)
    requires Inv(c, s) && s.prod.pc.Reserved?
    ensures Inv(c, AfterCommit(c, s, always))
  {
    CommittedKeepsInv(c, s);
    var t := Committed(s);
    if always || t.prod.written >= c.burst {
      StepKeepsCursors(c, t, Sync);
      SyncKeepsSlots(c, t);
    }
  }

  lemma MutateKeepsSlots(c: Config, s: State, j: nat, w: Word)
    requires Inv(c, s) && s.cons.pc.Borrowed?
    requires CursorInv(c, AfterMutate(c, s, j, w)) && ShapeInv(c, AfterMutate(c, s, j, w))
    ensures SlotInv(c, AfterMutate(c, s, j, w)) && OutInv(AfterMutate(c, s, j, w))
  {
    var t := AfterMutate(c, s, j, w);
    assert s.slots[Slot(c.n, s.cons.head)] == Expected(s, s.cons.head);
    forall q: nat | Live(t) <= q < WriteCursor(t.prod)
      ensures t.slots[Slot(c.n, q)] == Expected(t, q)
    {
      if q > s.cons.head {
        BorrowedSlotIsAlone(c, s, q);
        assert Expected(t, q) == Expected(s, q);
      }
    }
    if s.prod.pc.Writing? || s.prod.pc.Filling? {
      BorrowedSlotIsAlone(c, s, WriteCursor(s.prod));
    }
  }

  lemma AdvanceKeepsSlots(c: Config, s: State, v: Element)
    requires Inv(c, s) && s.cons.head < s.tail && v == s.log[s.cons.head]
    requires s.cons.pc.Reading? || s.cons.pc.Borrowed?
    requires CursorInv(c, Advance(c, s, v)) && ShapeInv(c, Advance(c, s, v))
    ensures SlotInv(c, Advance(c, s, v)) && OutInv(Advance(c, s, v))
  {
    var t := Advance(c, s, v);
    forall q: nat | Live(t) <= q < WriteCursor(t.prod)
      ensures t.slots[Slot(c.n, q)] == Expected(t, q)
    {
      if q < WriteCursor(s.prod) {
        assert s.slots[Slot(c.n, q)] == Expected(s, q);
        assert Expected(t, q) == Expected(s, q);
      }
    }
    assert s.log[s.cons.start..s.cons.head] + [v] == s.log[s.cons.start..s.cons.head + 1];
  }

  lemma ProducerQuietKeepsSlots(c: Config, s: State, a: Action)
    requires Inv(c, s) && Enabled(c, s, a)
    requires a.PushLoad? || a.Reserve? || a.FillStart? || a.Cancel? || a.Restart?
    requires CursorInv(c, Step(c, s, a)) && ShapeInv(c, Step(c, s, a))
    ensures SlotInv(c, Step(c, s, a)) && OutInv(Step(c, s, a))
  {
    var t := Step(c, s, a);
    assert t.slots == s.slots && t.log == s.log && t.cons == s.cons && WriteCursor(t.prod) <= WriteCursor(s.prod);
    forall q: nat | Live(t) <= q < WriteCursor(t.prod)
      ensures t.slots[Slot(c.n, q)] == Expected(t, q)
    {
      assert s.slots[Slot(c.n, q)] == Expected(s, q);
    }
  }

  lemma ConsumerQuietKeepsSlots(c: Config, s: State, a: Action)
    requires Inv(c, s) && Enabled(c, s, a)
    requires a.PopLoad? || a.PopRead? || a.Borrow? || a.JoinLoad? || a.JoinStore?
    requires CursorInv(c, Step(c, s, a)) && ShapeInv(c, Step(c, s, a))
    ensures SlotInv(c, Step(c, s, a)) && OutInv(Step(c, s, a))
  {
    var t := Step(c, s, a);
    forall q: nat | Live(t) <= q < WriteCursor(t.prod)
      ensures t.slots[Slot(c.n, q)] == Expected(t, q)
    {
      assert s.slots[Slot(c.n, q)] == Expected(s, q);
    }
    if (a.PopRead? || a.Borrow?) && s.cons.head < s.tail {
      assert s.slots[Slot(c.n, s.cons.head)] == Expected(s, s.cons.head) == s.log[s.cons.head];
    }
  }

  lemma ProducerStepKeepsInv(c: Config, s: State, a: Action)
    requires Inv(c, s) && Enabled(c, s, a) && !IsConsumerAction(a)
    ensures Inv(c, Step(c, s, a))
  {
    StepKeepsCursors(c, s, a);
    match a
    case PushWord => WriteWordKeepsSlots(c, s);
    case FillWord => WriteWordKeepsSlots(c, s);
    case PushEnd => PushEndKeepsSlots(c, s);
    case FillEnd => FillEndKeepsSlots(c, s);
    case Sync => SyncKeepsSlots(c, s);
    case Commit(always) => CommitKeepsInv(c, s, always);
    case _ => ProducerQuietKeepsSlots(c, s, a);
  }

  lemma ConsumerStepKeepsInv(c: Config, s: State, a: Action)
    requires Inv(c, s) && Enabled(c, s, a) && IsConsumerAction(a)
    ensures Inv(c, Step(c, s, a))
  {
    StepKeepsCursors(c, s, a);
    match a
    case Mutate(j, w) => MutateKeepsSlots(c, s, j, w);
    case PopEnd => AdvanceKeepsSlots(c, s, s.cons.pc.buf);
    case Release => AdvanceKeepsSlots(c, s, s.cons.pc.taken);
    case _ => ConsumerQuietKeepsSlots(c, s, a);
  }

  lemma StepKeepsInv(c: Config, s: State, a: Action)
    requires Inv(c, s) && Enabled(c, s, a)
    ensures Inv(c, Step(c, s, a))
  {
    if IsConsumerAction(a) {
      ConsumerStepKeepsInv(c, s, a);
    } else {
      ProducerStepKeepsInv(c, s, a);
    }
  }

  /** The invariant holds after every run: stale loads, joins, crashes and all. */
  lemma {:induction false} RunKeepsInv(c: Config, s: State, acts: seq<Action>)
    requires Inv(c, s) && ValidRun(c, s, acts)
    ensures Inv(c, Exec(c, s, acts))
    decreases |acts|
  {
    if acts != [] {
      StepKeepsInv(c, s, acts[0]);
      RunKeepsInv(c, Step(c, s, acts[0]), acts[1..]);
    }
  }
}
