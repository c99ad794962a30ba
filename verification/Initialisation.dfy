/** The race between one initialising producer and any number of consumer joins on zeroed
    memory. Every action is one shared load or store.

    Three orders matter, and each is a parameter: the producer stores the capacity before
    the magic, a join loads the magic before the capacity, and it judges the magic by the
    one value it loaded. The Rust joins do all three; the C consumer's join loads the magic
    a second time to tell an uninitialised channel from a corrupt one. */
module Initialisation {
  import opened Que

  datatype Order = Order(n: nat, capacityStoredFirst: bool, magicLoadedFirst: bool, magicReloaded: bool)

  datatype InitPc = Fresh | TailStored | HalfStored | Live

  /** `Ok` carries the joined tail. A finished join keeps, as history, the magic it loaded
      first and the magic in memory when it finished. */
  datatype Joiner =
    | Started
    | LoadedOne(first: nat)
    | LoadedBoth(magic: nat, capacity: nat)
    | Done(result: Result<nat>, magic: nat, last: nat)

  /** `tails` is history: every tail stored since the memory was zero. */
  datatype State = State(tail: nat, capacity: nat, magic: nat, pc: InitPc, joiners: seq<Joiner>, tails: seq<nat>)

  datatype Action =
    | ClearMagic         // headless initialisation stores a zero magic first
    | StoreTail
    | StoreFirst
    | StoreSecond
    | Publish(tail: nat) // the producer pushes and syncs
    | BeginJoin
    | LoadFirst(id: nat)
    | LoadSecond(id: nat)
    | Finish(id: nat)

  predicate Enabled(s: State, a: Action) {
    match a
    case ClearMagic => s.pc.Fresh?
    case StoreTail => s.pc.Fresh?
    case StoreFirst => s.pc.TailStored?
    case StoreSecond => s.pc.HalfStored?
    case Publish(t) => s.pc.Live? && t >= s.tail
    case BeginJoin => true
    case LoadFirst(id) => id < |s.joiners| && s.joiners[id].Started?
    case LoadSecond(id) => id < |s.joiners| && s.joiners[id].LoadedOne?
    case Finish(id) => id < |s.joiners| && s.joiners[id].LoadedBoth?
  }

  /** The verdict of a join on what it loaded; a reloading join asks the memory again
      before it calls the channel uninitialised or corrupt. */
  function Verdict(o: Order, s: State, magic: nat, capacity: nat): Result<nat> {
    var e := JoinCheck(if magic != MAGIC && o.magicReloaded then ReloadedMagic(s) else magic, capacity, o.n);
    if e.Some? then Err(e.value) else Ok(s.tail)
  }

  /** The reload only decides between zero and anything else. */
  function ReloadedMagic(s: State): (m: nat)
    ensures m != MAGIC && (m == 0 <==> s.magic == 0)
  {
    if s.magic == 0 then 0 else 1
  }

  function Step(o: Order, s: State, a: Action): State
    requires Enabled(s, a)
  {
    match a
    case ClearMagic => s.(magic := 0)
    case StoreTail => s.(tail := 0, pc := TailStored, tails := s.tails + [0])
    case StoreFirst =>
      if o.capacityStoredFirst then s.(capacity := o.n, pc := HalfStored) else s.(magic := MAGIC, pc := HalfStored)
    case StoreSecond =>
      if o.capacityStoredFirst then s.(magic := MAGIC, pc := Live) else s.(capacity := o.n, pc := Live)
    case Publish(t) => s.(tail := t, tails := s.tails + [t])
    case BeginJoin => s.(joiners := s.joiners + [Started])
    case LoadFirst(id) =>
      s.(joiners := s.joiners[id := LoadedOne(if o.magicLoadedFirst then s.magic else s.capacity)])
    case LoadSecond(id) =>
      var x := s.joiners[id].first;
      s.(joiners := s.joiners[id := if o.magicLoadedFirst then LoadedBoth(x, s.capacity) else LoadedBoth(s.magic, x)])
    case Finish(id) =>
      var j := s.joiners[id];
      s.(joiners := s.joiners[id := Done(Verdict(o, s, j.magic, j.capacity), j.magic, s.magic)])
  }

  predicate ValidRun(o: Order, s: State, acts: seq<Action>)
    decreases |acts|
  {
    acts == [] || (Enabled(s, acts[0]) && ValidRun(o, Step(o, s, acts[0]), acts[1..]))
  }

  function Exec(o: Order, s: State, acts: seq<Action>): State
    requires ValidRun(o, s, acts)
    decreases |acts|
  {
    if acts == [] then s else Exec(o, Step(o, s, acts[0]), acts[1..])
  }

  const ZEROED := State(0, 0, 0, Fresh, [], [])

  /** A join is told `Uninitialized`, or joins at a tail stored by the live channel. */
  predicate GoodResult(s: State, r: Result<nat>) {
    match r
    case Err(e) => e == Uninitialized
    case Ok(t) => s.pc.Live? && t in s.tails
  }

  predicate AllGood(s: State) {
    forall id :: 0 <= id < |s.joiners| ==> s.joiners[id].Done? ==> GoodResult(s, s.joiners[id].result)
  }

  /** In every interleaving every join ends well. */
  ghost predicate JoinsSafely(o: Order) {
    forall acts :: ValidRun(o, ZEROED, acts) ==> AllGood(Exec(o, ZEROED, acts))
  }

  /** What a join concludes that loaded the magic word `magic` and finished when the memory
      held `last`. */
  predicate Concludes(o: Order, s: State, magic: nat, last: nat, r: Result<nat>) {
    if magic == MAGIC then r.Ok? && s.pc.Live? && r.value in s.tails
    else if o.magicReloaded && last == MAGIC then r == Err(CorruptionDetected)
    else r == Err(Uninitialized)
  }

  ghost predicate JoinerInv(o: Order, s: State, j: Joiner) {
    match j
    case Started => true
    case LoadedOne(m) => m == 0 || (m == MAGIC && s.pc.Live?)
    case LoadedBoth(m, cap) => m == 0 || (m == MAGIC && cap == o.n && s.pc.Live?)
    case Done(r, m, last) =>
      && (m == 0 || (m == MAGIC && last == MAGIC))
      && (last == 0 || (last == MAGIC && s.pc.Live?))
      && Concludes(o, s, m, last, r)
  }

  ghost predicate Inv(o: Order, s: State) {
    && s.magic == (if s.pc.Live? then MAGIC else 0)
    && (!s.pc.Fresh? ==> s.tails != [] && s.tail == s.tails[|s.tails| - 1])
    && (s.pc.HalfStored? || s.pc.Live? ==> s.capacity == o.n)
    && forall id :: 0 <= id < |s.joiners| ==> JoinerInv(o, s, s.joiners[id])
  }

  lemma {:induction false} RunKeepsInv(o: Order, s: State, acts: seq<Action>)
    requires o.capacityStoredFirst && o.magicLoadedFirst
    requires Inv(o, s) && ValidRun(o, s, acts)
    ensures Inv(o, Exec(o, s, acts))
    decreases |acts|
  {
    if acts != [] {
      var t := Step(o, s, acts[0]);
      forall id | 0 <= id < |t.joiners|
        ensures JoinerInv(o, t, t.joiners[id])
      {
        assert id < |s.joiners| ==> JoinerInv(o, s, s.joiners[id]);
      }
      if acts[0].Publish? || acts[0].StoreTail? {
        assert t.tails[|s.tails|] == t.tail;
      }
      assert forall x :: x in s.tails ==> x in t.tails;
      RunKeepsInv(o, t, acts[1..]);
    }
  }

  // ------------------------------------------------- what a join is told, exactly

  /** In every interleaving a finished join succeeded if and only if it loaded the magic
      after it was stored; it was told of corruption if and only if it reloads, loaded the
      magic before it was stored and finished after. */
  lemma JoinOutcomeIsExact(o: Order, acts: seq<Action>, id: nat)
    requires o.capacityStoredFirst && o.magicLoadedFirst && ValidRun(o, ZEROED, acts)
    requires id < |Exec(o, ZEROED, acts).joiners| && Exec(o, ZEROED, acts).joiners[id].Done?
    ensures var t := Exec(o, ZEROED, acts);
            var j := t.joiners[id];
            && (j.result.Ok? <==> j.magic == MAGIC)
            && (j.result.Ok? ==> t.pc.Live? && j.result.value in t.tails)
            && (j.result == Err(CorruptionDetected) <==> o.magicReloaded && j.magic == 0 && j.last == MAGIC)
            && (j.result == Err(Uninitialized) <==> j.magic == 0 && (o.magicReloaded ==> j.last == 0))
  {
    RunKeepsInv(o, ZEROED, acts);
    var t := Exec(o, ZEROED, acts);
    assert JoinerInv(o, t, t.joiners[id]);
  }

  /** A join that succeeds does so at the last tail stored when it finishes. */
  lemma JoinsAtLastTail(o: Order, acts: seq<Action>, id: nat)
    requires o.capacityStoredFirst && o.magicLoadedFirst
    requires ValidRun(o, ZEROED, acts) && Enabled(Exec(o, ZEROED, acts), Finish(id))
    ensures var s := Exec(o, ZEROED, acts);
            var r := Step(o, s, Finish(id)).joiners[id].result;
            r.Ok? ==> s.tails != [] && r.value == s.tails[|s.tails| - 1]
  {
    RunKeepsInv(o, ZEROED, acts);
    var s := Exec(o, ZEROED, acts);
    assert JoinerInv(o, s, s.joiners[id]);
  }

  /** The joins from number `k` on have seen nothing but a live channel, of which at least
      `m` tails were stored; none joined at a tail older than the last of those. */
  ghost predicate BornLive(s: State, k: nat, m: nat) {
    && s.pc.Live? && s.magic == MAGIC && 1 <= m <= |s.tails| && s.tail == s.tails[|s.tails| - 1]
    && forall id :: k <= id < |s.joiners| ==>
         match s.joiners[id]
         case Started => true
         case LoadedOne(m) => m == MAGIC
         case LoadedBoth(m, _) => m == MAGIC
         case Done(r, magic, _) =>
           magic == MAGIC && (r.Ok? ==> exists i :: m - 1 <= i < |s.tails| && s.tails[i] == r.value)
  }

  lemma StepStaysLive(o: Order, s: State, a: Action, k: nat, m: nat)
    requires o.magicLoadedFirst && BornLive(s, k, m) && Enabled(s, a)
    ensures BornLive(Step(o, s, a), k, m)
  {
    var t := Step(o, s, a);
    assert forall i :: 0 <= i < |s.tails| ==> t.tails[i] == s.tails[i];
  }

  lemma {:induction false} StayLive(o: Order, s: State, acts: seq<Action>, k: nat, m: nat)
    requires o.magicLoadedFirst && BornLive(s, k, m) && ValidRun(o, s, acts)
    ensures BornLive(Exec(o, s, acts), k, m)
    decreases |acts|
  {
    if acts != [] {
      StepStaysLive(o, s, acts[0], k, m);
      StayLive(o, Step(o, s, acts[0]), acts[1..], k, m);
    }
  }

  lemma {:induction false} RunConcat(o: Order, s: State, xs: seq<Action>, ys: seq<Action>)
    requires ValidRun(o, s, xs) && ValidRun(o, Exec(o, s, xs), ys)
    ensures ValidRun(o, s, xs + ys) && Exec(o, s, xs + ys) == Exec(o, Exec(o, s, xs), ys)
    decreases |xs|
  {
    if xs == [] {
      assert xs + ys == ys;
    } else {
      RunConcat(o, Step(o, s, xs[0]), xs[1..], ys);
      assert (xs + ys)[1..] == xs[1..] + ys;
    }
  }

  /** A join that begins once the channel is live succeeds, reload or not, at a stored tail
      that is not older than the last one stored when it began. */
  lemma LiveJoinSucceeds(o: Order, xs: seq<Action>, ys: seq<Action>, id: nat)
    requires o.capacityStoredFirst && o.magicLoadedFirst
    requires ValidRun(o, ZEROED, xs) && ValidRun(o, Exec(o, ZEROED, xs), ys)
    requires Exec(o, ZEROED, xs).pc.Live?
    ensures var s := Exec(o, ZEROED, xs);
            var t := Exec(o, s, ys);
            |s.joiners| <= id < |t.joiners| && t.joiners[id].Done? ==>
              t.joiners[id].result.Ok?
              && exists i :: 0 <= i < |t.tails| && |s.tails| <= i + 1 && t.tails[i] == t.joiners[id].result.value
  {
    var s := Exec(o, ZEROED, xs);
    var t := Exec(o, s, ys);
    RunKeepsInv(o, ZEROED, xs);
    StayLive(o, s, ys, |s.joiners|, |s.tails|);
    RunConcat(o, ZEROED, xs, ys);
    if |s.joiners| <= id < |t.joiners| && t.joiners[id].Done? {
      JoinOutcomeIsExact(o, xs + ys, id);
    }
  }

  /** A join that finishes before the channel is live is told that it is uninitialised. */
  lemma EarlyFinishIsUninitialized(o: Order, acts: seq<Action>, id: nat)
    requires o.capacityStoredFirst && o.magicLoadedFirst && ValidRun(o, ZEROED, acts)
    requires id < |Exec(o, ZEROED, acts).joiners| && Exec(o, ZEROED, acts).joiners[id].Done?
    requires !Exec(o, ZEROED, acts).pc.Live?
    ensures Exec(o, ZEROED, acts).joiners[id].result == Err(Uninitialized)
  {
    RunKeepsInv(o, ZEROED, acts);
    var t := Exec(o, ZEROED, acts);
    assert JoinerInv(o, t, t.joiners[id]);
  }

  // -------------------------------------------------------- the bad schedules

  /** A join whose first load comes before all of the producer's stores and whose second
      load comes after them. */
  const EARLY_JOIN: seq<Action> :=
    [BeginJoin, LoadFirst(0), StoreTail, StoreFirst, StoreSecond, LoadSecond(0), Finish(0)]

  /** A whole join between the producer's last two stores. */
  const MIDDLE_JOIN: seq<Action> :=
    [StoreTail, StoreFirst, BeginJoin, LoadFirst(0), LoadSecond(0), Finish(0)]

  /** The run from step `k` of a schedule on. */
  lemma Unfold(o: Order, s: State, acts: seq<Action>, k: nat)
    requires k < |acts| && Enabled(s, acts[k]) && ValidRun(o, Step(o, s, acts[k]), acts[k + 1..])
    ensures ValidRun(o, s, acts[k..]) && Exec(o, s, acts[k..]) == Exec(o, Step(o, s, acts[k]), acts[k + 1..])
  {
    assert acts[k..][0] == acts[k] && acts[k..][1..] == acts[k + 1..];
  }

  /** The rest of that schedule, after the join's first load. */
  lemma EarlyJoinEnds(o: Order, s2: State)
    requires o.n >= 1 && (!o.magicLoadedFirst || o.magicReloaded)
    requires s2 == ZEROED.(joiners := [LoadedOne(0)])
    ensures ValidRun(o, s2, EARLY_JOIN[2..]) && !AllGood(Exec(o, s2, EARLY_JOIN[2..]))
  {
    var s3 := Step(o, s2, StoreTail);
    var s4 := Step(o, s3, StoreFirst);
    var s5 := Step(o, s4, StoreSecond);
    var s6 := Step(o, s5, LoadSecond(0));
    var s7 := Step(o, s6, Finish(0));
    assert s7.joiners[0].Done? && !GoodResult(s7, s7.joiners[0].result);
    assert EARLY_JOIN[7..] == [];
    Unfold(o, s6, EARLY_JOIN, 6);
    Unfold(o, s5, EARLY_JOIN, 5);
    Unfold(o, s4, EARLY_JOIN, 4);
    Unfold(o, s3, EARLY_JOIN, 3);
    Unfold(o, s2, EARLY_JOIN, 2);
  }

  lemma EarlyJoinFails(o: Order)
    requires o.n >= 1 && (!o.magicLoadedFirst || o.magicReloaded)
    ensures ValidRun(o, ZEROED, EARLY_JOIN) && !AllGood(Exec(o, ZEROED, EARLY_JOIN))
  {
    var s1 := Step(o, ZEROED, BeginJoin);
    var s2 := Step(o, s1, LoadFirst(0));
    EarlyJoinEnds(o, s2);
    Unfold(o, s1, EARLY_JOIN, 1);
    Unfold(o, ZEROED, EARLY_JOIN, 0);
    assert EARLY_JOIN[0..] == EARLY_JOIN;
  }

  lemma MiddleJoinFails(o: Order)
    requires o.n >= 1 && !o.capacityStoredFirst && o.magicLoadedFirst
    ensures ValidRun(o, ZEROED, MIDDLE_JOIN) && !AllGood(Exec(o, ZEROED, MIDDLE_JOIN))
  {
    var s1 := Step(o, ZEROED, StoreTail);
    var s2 := Step(o, s1, StoreFirst);
    var s3 := Step(o, s2, BeginJoin);
    var s4 := Step(o, s3, LoadFirst(0));
    var s5 := Step(o, s4, LoadSecond(0));
    var s6 := Step(o, s5, Finish(0));
    assert s6.joiners[0].Done? && !GoodResult(s6, s6.joiners[0].result);
    assert MIDDLE_JOIN[6..] == [];
    Unfold(o, s5, MIDDLE_JOIN, 5);
    Unfold(o, s4, MIDDLE_JOIN, 4);
    Unfold(o, s3, MIDDLE_JOIN, 3);
    Unfold(o, s2, MIDDLE_JOIN, 2);
    Unfold(o, s1, MIDDLE_JOIN, 1);
    Unfold(o, ZEROED, MIDDLE_JOIN, 0);
    assert MIDDLE_JOIN[0..] == MIDDLE_JOIN;
  }

  /** No join is ever told `IncorrectCapacity` or `CorruptionDetected`, whatever the
      interleaving, if and only if all three orders are kept. */
  lemma OrderIsExact(o: Order)
    requires o.n >= 1
    ensures JoinsSafely(o) <==> o.capacityStoredFirst && o.magicLoadedFirst && !o.magicReloaded
  {
    if o.capacityStoredFirst && o.magicLoadedFirst && !o.magicReloaded {
      forall acts | ValidRun(o, ZEROED, acts)
        ensures AllGood(Exec(o, ZEROED, acts))
      {
        RunKeepsInv(o, ZEROED, acts);
        var t := Exec(o, ZEROED, acts);
        assert forall id :: 0 <= id < |t.joiners| ==> JoinerInv(o, t, t.joiners[id]);
      }
    } else if o.magicLoadedFirst && !o.magicReloaded {
      MiddleJoinFails(o);
    } else {
      EarlyJoinFails(o);
    }
  }

  /** The Rust producer and the Rust consumer joins of both modes. */
  function RustOrder(n: nat): Order {
    Order(n, true, true, false)
  }

  /** The C producer with the C consumer's join. */
  function COrder(n: nat): Order {
    Order(n, true, true, true)
  }

  /** So no Rust join is ever misled, while the C consumer can call a channel corrupt that
      was being initialised under its eyes. */
  lemma RustJoinsSafelyCMayNot(n: nat)
    requires n >= 1
    ensures JoinsSafely(RustOrder(n)) && !JoinsSafely(COrder(n))
  {
    OrderIsExact(RustOrder(n));
    OrderIsExact(COrder(n));
  }
}
