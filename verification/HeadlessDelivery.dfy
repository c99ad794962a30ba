/** What headless consumers end up with: the partition of the published positions among
    strided consumers, the merged output, the drain of a quiescent channel, the retry
    bound of `pop` and the 64-bit form of its decisions. */
module HeadlessDelivery {
  import opened Arithmetic
  import opened Words
  import opened HeadlessMachine
  import opened HeadlessSafety
  import opened HeadlessCalls
  import opened HeadlessMargin

  // ---------------------------------------------------------------- partition

  ghost predicate ExactlyOne(a: bool, b: bool, d: bool) {
    (a || b || d) && !(a && b) && !(a && d) && !(b && d)
  }

  /** `k` consumers of indices `0 .. k-1` that all joined when the tail was `start`. */
  ghost predicate Team(s: State, k: nat, start: nat) {
    && k >= 1 && |s.cons| == k
    && forall i :: 0 <= i < k ==>
       s.cons[i].index == i && s.cons[i].interval == k && s.cons[i].start == start
  }

  /** What consumer `i` of a team of `k` has to do with the published position `q`. */
  ghost predicate Share(c: Config, s: State, k: nat, q: nat, i: nat)
    requires k >= 1 && q < |s.log| && i < |s.cons|
  {
    var con := s.cons[i];
    && (i != q % k ==> !DeliveredAt(con.out, q) && q !in con.skipped)
    && (i == q % k ==> ExactlyOne(DeliveredAt(con.out, q), q in con.skipped, con.head <= q))
    && (forall x, y :: 0 <= x < |con.out| && 0 <= y < |con.out| && con.out[x].pos == con.out[y].pos ==> x == y)
    && (forall x :: 0 <= x < |con.out| && con.out[x].pos == q ==> con.out[x].value == s.log[q])
    && (q in con.skipped ==> q + c.margin < con.skipped[q] <= s.tail)
  }

  /** At every moment each position published since the join is exactly one of delivered
      (once, whole), skipped or pending at its own consumer, and unknown to the others;
      whatever was skipped was more than the margin behind the tail at that time. */
  lemma TeamPartition(c: Config, s: State, k: nat, start: nat, q: nat, i: nat)
    requires c.Valid() && Safe(c, s) && Team(s, k, start)
    requires start <= q < s.tail && i < k
    ensures Share(c, s, k, q, i)
  {
    var con := s.cons[i];
    assert ConsumerBook(c, s.base, s.tail, s.epochs, con);
    assert ConsumerSafe(c, s.log, s.high, con);
  }

  /** No consumer joins during the run. */
  predicate NobodyJoins(acts: seq<Action>) {
    forall i :: 0 <= i < |acts| ==> !acts[i].Join?
  }

  lemma {:induction false} TeamStays(c: Config, s: State, acts: seq<Action>, k: nat, start: nat)
    requires Team(s, k, start) && ValidRun(c, s, acts) && NobodyJoins(acts)
    ensures Team(Exec(c, s, acts), k, start)
    decreases |acts|
  {
    if acts != [] {
      assert !acts[0].Join?;
      TeamStays(c, Step(c, s, acts[0]), acts[1..], k, start);
    }
  }

  /** Whatever the producer and the `k` consumers do after a team has joined, restarts of
      the producer included, the partition holds at every moment. */
  lemma TeamPartitionAlways(c: Config, s: State, acts: seq<Action>, k: nat, start: nat)
    requires c.Valid() && c.margin + c.limit <= c.n && Safe(c, s) && Team(s, k, start)
    requires ValidRun(c, s, acts) && NobodyJoins(acts)
    ensures var t := Exec(c, s, acts);
            && |t.log| == t.tail && |t.cons| == k
            && forall q: nat, i: nat :: start <= q < t.tail && i < k ==> Share(c, t, k, q, i)
  {
    var t := Exec(c, s, acts);
    TeamStays(c, s, acts, k, start);
    RunKeepsSafe(c, s, acts);
    forall q: nat, i: nat | start <= q < t.tail && i < k
      ensures Share(c, t, k, q, i)
    {
      TeamPartition(c, t, k, start, q, i);
    }
  }

  /** The values an output holds for position `q`. */
  function ValuesAt(out: seq<Delivery>, q: nat): seq<Element> {
    if out == [] then []
    else
      var last := out[|out| - 1];
      ValuesAt(out[..|out| - 1], q) + (if last.pos == q then [last.value] else [])
  }

  /** The values all outputs together hold for position `q`. */
  function TeamValuesAt(cons: seq<Consumer>, q: nat): seq<Element> {
    if cons == [] then []
    else TeamValuesAt(cons[..|cons| - 1], q) + ValuesAt(cons[|cons| - 1].out, q)
  }

  /** The consumers' outputs merged by position over `[start, end)`. */
  function Merged(cons: seq<Consumer>, start: nat, end: nat): seq<Element> {
    if end <= start then []
    else Merged(cons, start, end - 1) + TeamValuesAt(cons, end - 1)
  }

  lemma {:induction false} ValuesAtNone(out: seq<Delivery>, q: nat)
    requires !DeliveredAt(out, q)
    ensures ValuesAt(out, q) == []
  {
    if out != [] {
      var front := out[..|out| - 1];
      assert forall j :: 0 <= j < |front| ==> front[j] == out[j];
      ValuesAtNone(front, q);
    }
  }

  lemma {:induction false} ValuesAtOne(out: seq<Delivery>, x: nat)
    requires x < |out|
    requires forall y :: 0 <= y < |out| && y != x ==> out[y].pos != out[x].pos
    ensures ValuesAt(out, out[x].pos) == [out[x].value]
  {
    var front := out[..|out| - 1];
    if x == |out| - 1 {
      ValuesAtNone(front, out[x].pos);
    } else {
      ValuesAtOne(front, x);
    }
  }

  lemma {:induction false} TeamValuesNone(cons: seq<Consumer>, q: nat)
    requires forall i :: 0 <= i < |cons| ==> !DeliveredAt(cons[i].out, q)
    ensures TeamValuesAt(cons, q) == []
  {
    if cons != [] {
      TeamValuesNone(cons[..|cons| - 1], q);
      ValuesAtNone(cons[|cons| - 1].out, q);
    }
  }

  lemma {:induction false} TeamValuesOne(cons: seq<Consumer>, q: nat, i: nat)
    requires i < |cons|
    requires forall x :: 0 <= x < |cons| && x != i ==> !DeliveredAt(cons[x].out, q)
    ensures TeamValuesAt(cons, q) == ValuesAt(cons[i].out, q)
  {
    var front := cons[..|cons| - 1];
    if i == |cons| - 1 {
      TeamValuesNone(front, q);
    } else {
      TeamValuesOne(front, q, i);
      ValuesAtNone(cons[|cons| - 1].out, q);
    }
  }

  /** A team delivers a position at most once, with its published value. */
  lemma TeamDeliversOnce(c: Config, s: State, k: nat, start: nat, q: nat)
    requires c.Valid() && Safe(c, s) && Team(s, k, start) && start <= q < s.tail
    ensures TeamValuesAt(s.cons, q) == if DeliveredAt(s.cons[q % k].out, q) then [s.log[q]] else []
  {
    forall i | 0 <= i < k && i != q % k
      ensures !DeliveredAt(s.cons[i].out, q)
    {
      TeamPartition(c, s, k, start, q, i);
    }
    var i := q % k;
    TeamValuesOne(s.cons, q, i);
    TeamPartition(c, s, k, start, q, i);
    var out := s.cons[i].out;
    if DeliveredAt(out, q) {
      var x :| 0 <= x < |out| && out[x].pos == q;
      ValuesAtOne(out, x);
    } else {
      ValuesAtNone(out, q);
    }
  }

  /** With no overrun and nothing pending, a team has delivered position `q`. */
  lemma TeamDelivers(c: Config, s: State, k: nat, start: nat, q: nat)
    requires c.Valid() && Safe(c, s) && Team(s, k, start) && start <= q < s.tail
    requires s.cons[q % k].skipped == map[] && q < s.cons[q % k].head
    ensures TeamValuesAt(s.cons, q) == [s.log[q]]
  {
    TeamDeliversOnce(c, s, k, start, q);
    TeamPartition(c, s, k, start, q, q % k);
  }

  lemma SliceSnoc(log: seq<Element>, start: nat, q: nat)
    requires start <= q < |log|
    ensures log[start..q + 1] == log[start..q] + [log[q]]
  {
  }

  lemma MergedSnoc(cons: seq<Consumer>, start: nat, q: nat)
    requires start <= q
    ensures Merged(cons, start, q + 1) == Merged(cons, start, q) + TeamValuesAt(cons, q)
  {
  }

  lemma MergeStep(cons: seq<Consumer>, log: seq<Element>, start: nat, q: nat)
    requires start <= q < |log| && Merged(cons, start, q) == log[start..q] && TeamValuesAt(cons, q) == [log[q]]
    ensures Merged(cons, start, q + 1) == log[start..q + 1]
  {
    MergedSnoc(cons, start, q);
    SliceSnoc(log, start, q);
  }

  lemma {:induction false} MergePointwise(cons: seq<Consumer>, log: seq<Element>, start: nat, end: nat)
    requires start <= end <= |log|
    requires forall q: nat {:trigger TeamValuesAt(cons, q)} ::
               start <= q < end ==> TeamValuesAt(cons, q) == [log[q]]
    ensures Merged(cons, start, end) == log[start..end]
    decreases end
  {
    if end > start {
      MergePointwise(cons, log, start, end - 1);
      MergeStep(cons, log, start, end - 1);
    }
  }

  /** With no overrun and nothing pending, merging a team's outputs by position gives
      back exactly what was published since the join. */
  lemma MergeIsPublished(c: Config, s: State, k: nat, start: nat, end: nat)
    requires c.Valid() && Safe(c, s) && Team(s, k, start) && start <= end <= s.tail
    requires forall i :: 0 <= i < k ==> s.cons[i].skipped == map[] && s.cons[i].head >= end
    ensures Merged(s.cons, start, end) == s.log[start..end]
  {
    forall q: nat | start <= q < end
      ensures TeamValuesAt(s.cons, q) == [s.log[q]]
    {
      TeamDelivers(c, s, k, start, q);
    }
    MergePointwise(s.cons, s.log, start, end);
  }

  // -------------------------------------------------------------------- drain

  function Gap(from: nat, to: nat): nat {
    if from < to then to - from else 0
  }

  function Window(i: nat, k: nat, from: nat, to: nat): seq<nat>
    requires k >= 1
    decreases Gap(from, to)
  {
    if from >= to then []
    else (if from % k == i then [from] else []) + Window(i, k, from + 1, to)
  }

  lemma {:induction false} WindowMember(i: nat, k: nat, from: nat, to: nat, q: nat)
    requires k >= 1
    ensures q in Window(i, k, from, to) <==> from <= q < to && q % k == i
    decreases Gap(from, to)
  {
    if from < to {
      WindowMember(i, k, from + 1, to, q);
    }
  }

  lemma {:induction false} WindowAscends(i: nat, k: nat, from: nat, to: nat, x: nat, y: nat)
    requires k >= 1 && x < y < |Window(i, k, from, to)|
    ensures Window(i, k, from, to)[x] < Window(i, k, from, to)[y]
    decreases Gap(from, to)
  {
    var w, rest := Window(i, k, from, to), Window(i, k, from + 1, to);
    if from % k != i {
      WindowAscends(i, k, from + 1, to, x, y);
    } else if x > 0 {
      WindowAscends(i, k, from + 1, to, x - 1, y - 1);
    } else {
      assert w[y] == rest[y - 1] && w[y] in rest;
      WindowMember(i, k, from + 1, to, w[y]);
    }
  }

  /** `w` lists the positions of residue `i` modulo `k` in `[from, to)`, each once, in order. */
  ghost predicate Ascending(w: seq<nat>, i: nat, k: nat, from: nat, to: nat)
    requires k >= 1
  {
    && (forall q: nat :: q in w <==> from <= q < to && q % k == i)
    && (forall x, y :: 0 <= x < y < |w| ==> w[x] < w[y])
  }

  lemma WindowIsAscending(i: nat, k: nat, from: nat, to: nat)
    requires k >= 1
    ensures Ascending(Window(i, k, from, to), i, k, from, to)
  {
    var w := Window(i, k, from, to);
    forall q: nat
      ensures q in w <==> from <= q < to && q % k == i
    {
      WindowMember(i, k, from, to, q);
    }
    forall x, y | 0 <= x < y < |w|
      ensures w[x] < w[y]
    {
      WindowAscends(i, k, from, to, x, y);
    }
  }

  lemma {:induction false} WindowSkips(i: nat, k: nat, from: nat, mid: nat, to: nat)
    requires k >= 1 && from <= mid
    requires forall q :: from <= q < mid ==> q % k != i
    ensures Window(i, k, from, to) == Window(i, k, mid, to)
    decreases Gap(from, mid)
  {
    if from < mid {
      WindowSkips(i, k, from + 1, mid, to);
    }
  }

  /** The window begins at the next own position, one stride before the rest of it. */
  lemma WindowHead(i: nat, k: nat, from: nat, to: nat)
    requires i < k
    ensures var r := NextModulo(from, i, k);
            Window(i, k, from, to) == if r < to then [r] + Window(i, k, r + k, to) else []
  {
    var r := NextModulo(from, i, k);
    NextModuloIsLeast(from, i, k);
    WindowSkips(i, k, from, r, to);
    if r < to {
      forall q | r + 1 <= q < r + k
        ensures q % k != i
      {
        SlotsDistinct(k, r, q);
      }
      WindowSkips(i, k, r + 1, r + k, to);
    }
  }

  /** Where a quiescent consumer resumes: its head, or the start of the trusted window. */
  function ResumeAt(tail: nat, head: nat, margin: nat): nat {
    if head + margin < tail then tail - margin else head
  }

  /** The own positions a quiescent consumer will still be handed. */
  function Remaining(c: Config, tail: nat, con: Consumer): seq<nat>
    requires con.interval >= 1
  {
    Window(con.index, con.interval, ResumeAt(tail, con.head, c.margin), tail)
  }

  lemma SelfIsNext(h: nat, i: nat, k: nat)
    requires i < k && h % k == i
    ensures NextModulo(h, i, k) == h
  {
    NextModuloIsLeast(h, i, k);
  }

  /** `after` is `before` followed by the published values of the positions `w`. */
  ghost predicate Extends(before: seq<Delivery>, after: seq<Delivery>, w: seq<nat>, log: seq<Element>) {
    && |after| == |before| + |w|
    && after[..|before|] == before
    && forall j :: 0 <= j < |w| ==> w[j] < |log| && after[|before| + j] == Delivery(w[j], log[w[j]])
  }

  /** Since it was `con0`, the consumer has been handed a first part of what remained for
      it then, and the rest is what remains for it now. */
  ghost predicate HandedOut(c: Config, tail: nat, con0: Consumer, con: Consumer)
    requires con0.interval >= 1
  {
    var w, d := Remaining(c, tail, con0), |con.out| - |con0.out|;
    && con.index == con0.index < con.interval == con0.interval && con.head % con.interval == con.index
    && 0 <= d <= |w| && con.out[..|con0.out|] == con0.out
    && w[d..] == Remaining(c, tail, con)
    && (forall j :: 0 <= j < d ==> con.out[|con0.out| + j].pos == w[j])
    && (con.pc.Reading? ==> con.head < tail <= con.head + c.margin)
  }

  lemma LoadHandsOut(c: Config, tail: nat, epochs: nat, con0: Consumer, con: Consumer)
    requires con0.interval >= 1 && HandedOut(c, tail, con0, con) && !con.pc.Reading?
    ensures HandedOut(c, tail, con0, AfterLoad(c, tail, epochs, con))
  {
    if tail > con.head + c.margin {
      WindowHead(con.index, con.interval, tail - c.margin, tail);
      var next := NextModulo(tail - c.margin, con.index, con.interval);
      NextModuloIsLeast(tail - c.margin, con.index, con.interval);
      SelfIsNext(next, con.index, con.interval);
      WindowHead(con.index, con.interval, next, tail);
    }
  }

  lemma CheckHandsOut(c: Config, tail: nat, epochs: nat, con0: Consumer, con: Consumer)
    requires con0.interval >= 1 && HandedOut(c, tail, con0, con) && con.pc.Reading?
    ensures HandedOut(c, tail, con0, AfterCheck(c, tail, epochs, con))
  {
    var w, d := Remaining(c, tail, con0), |con.out| - |con0.out|;
    SelfIsNext(con.head, con.index, con.interval);
    WindowHead(con.index, con.interval, con.head, tail);
    ResidueStep(con.interval, con.head);
    DropOne(w, d, con.head, Window(con.index, con.interval, con.head + con.interval, tail));
  }

  lemma DropOne(w: seq<nat>, d: nat, p: nat, rest: seq<nat>)
    requires d <= |w| && w[d..] == [p] + rest
    ensures d < |w| && w[d] == p && w[d + 1..] == rest
  {
    assert w[d..][0] == p && w[d..][1..] == rest;
  }

  /** `t` differs from `s` in consumer `id` alone. */
  ghost predicate OnlyMoved(s: State, t: State, id: nat) {
    id < |s.cons| == |t.cons| && t == s.(cons := s.cons[id := t.cons[id]])
  }

  lemma QuietStepHandsOut(c: Config, s: State, con0: Consumer, id: nat, a: Action)
    requires id < |s.cons| && con0.interval >= 1 && HandedOut(c, s.tail, con0, s.cons[id])
    requires Enabled(c, s, a) && OnlyConsumer([a], id)
    ensures OnlyMoved(s, Step(c, s, a), id) && HandedOut(c, s.tail, con0, Step(c, s, a).cons[id])
  {
    assert [a][0] == a;
    match a
    case Load(_) => LoadHandsOut(c, s.tail, s.epochs, con0, s.cons[id]);
    case Check(_) => CheckHandsOut(c, s.tail, s.epochs, con0, s.cons[id]);
    case _ =>
  }

  lemma {:induction false} QuietRunHandsOut(c: Config, s: State, con0: Consumer, id: nat, acts: seq<Action>)
    requires id < |s.cons| && con0.interval >= 1 && HandedOut(c, s.tail, con0, s.cons[id])
    requires ValidRun(c, s, acts) && OnlyConsumer(acts, id)
    ensures OnlyMoved(s, Exec(c, s, acts), id) && HandedOut(c, s.tail, con0, Exec(c, s, acts).cons[id])
    decreases |acts|
  {
    if acts == [] {
      assert s.cons[id := s.cons[id]] == s.cons;
    } else {
      var t := Step(c, s, acts[0]);
      QuietStepHandsOut(c, s, con0, id, acts[0]);
      QuietRunHandsOut(c, t, con0, id, acts[1..]);
      var u := Exec(c, t, acts[1..]);
      assert t.cons[id := u.cons[id]] == s.cons[id := u.cons[id]];
    }
  }

  /** The consumer has been handed the published values of a first part of its positions in
      the trusted window, in ascending order, and of all of them once it has caught up. */
  ghost predicate HandedInOrder(c: Config, tail: nat, log: seq<Element>, con0: Consumer, con: Consumer)
    requires con0.interval >= 1
  {
    var w, d := Remaining(c, tail, con0), |con.out| - |con0.out|;
    && 0 <= d <= |w| && Extends(con0.out, con.out, w[..d], log)
    && (tail <= con.head ==> d == |w|)
    && Ascending(w, con0.index, con0.interval, ResumeAt(tail, con0.head, c.margin), tail)
  }

  lemma HandedOutInOrder(c: Config, tail: nat, log: seq<Element>, con0: Consumer, con: Consumer)
    requires con0.interval >= 1 && HandedOut(c, tail, con0, con) && Faithful(log, con)
    ensures HandedInOrder(c, tail, log, con0, con)
  {
    var w, d := Remaining(c, tail, con0), |con.out| - |con0.out|;
    forall j | 0 <= j < d
      ensures w[j] < |log| && con.out[|con0.out| + j] == Delivery(w[j], log[w[j]])
    {
      assert con.out[|con0.out| + j].pos == w[j];
    }
    WindowIsAscending(con0.index, con0.interval, ResumeAt(tail, con0.head, c.margin), tail);
  }

  lemma QuietStart(c: Config, s: State, id: nat)
    requires Book(c, s) && id < |s.cons| && s.cons[id].pc.Idle?
    ensures s.cons[id].index < s.cons[id].interval && HandedOut(c, s.tail, s.cons[id], s.cons[id])
  {
    assert ConsumerBook(c, s.base, s.tail, s.epochs, s.cons[id]);
  }

  lemma RunIsFaithful(c: Config, s: State, id: nat, acts: seq<Action>)
    requires c.Valid() && c.margin + c.limit <= c.n && Safe(c, s) && ValidRun(c, s, acts)
    requires id < |Exec(c, s, acts).cons|
    ensures Faithful(Exec(c, s, acts).log, Exec(c, s, acts).cons[id])
  {
    RunKeepsSafe(c, s, acts);
    var t := Exec(c, s, acts);
    assert ConsumerSafe(c, t.log, t.high, t.cons[id]);
  }

  /** With the producer quiescent, this is so after every run of consumer `id`. */
  lemma QuietRunIsPrefix(c: Config, s: State, id: nat, acts: seq<Action>)
    requires c.Valid() && c.margin + c.limit <= c.n && Safe(c, s)
    requires id < |s.cons| && s.cons[id].pc.Idle?
    requires ValidRun(c, s, acts) && OnlyConsumer(acts, id)
    ensures s.cons[id].interval >= 1
    ensures var t := Exec(c, s, acts);
            OnlyMoved(s, t, id) && HandedInOrder(c, s.tail, s.log, s.cons[id], t.cons[id])
  {
    QuietStart(c, s, id);
    QuietRunHandsOut(c, s, s.cons[id], id, acts);
    RunIsFaithful(c, s, id, acts);
    HandedOutInOrder(c, s.tail, s.log, s.cons[id], Exec(c, s, acts).cons[id]);
  }

  /** A quiescent pop moves the head on, or has caught up. */
  lemma QuietPopAdvances(c: Config, tail: nat, epochs: nat, slots: seq<Element>, con: Consumer)
    requires c.n >= 1 && |slots| == c.n && con.index < con.interval && con.pc.Idle?
    ensures var con1 := QuietPop(c, tail, epochs, slots, con);
            && con1.index == con.index && con1.interval == con.interval && con1.pc.Idle?
            && (con1.head >= tail || con1.head > con.head)
  {
    NextModuloIsLeast(if tail >= c.margin then tail - c.margin else 0, con.index, con.interval);
  }

  /** Popping over and over catches up with a tail that does not move. */
  lemma {:induction false} CatchesUp(c: Config, s: State, id: nat) returns (acts: seq<Action>)
    requires RingOf(c.n, c.words, s.slots)
    requires id < |s.cons| && s.cons[id].pc.Idle? && s.cons[id].index < s.cons[id].interval
    ensures ValidRun(c, s, acts) && OnlyConsumer(acts, id)
    ensures var t := Exec(c, s, acts); id < |t.cons| && t.cons[id].pc.Idle? && t.cons[id].head >= s.tail
    decreases Gap(s.cons[id].head, s.tail)
  {
    if s.cons[id].head >= s.tail {
      acts := [];
    } else {
      QuietPopAdvances(c, s.tail, s.epochs, s.slots, s.cons[id]);
      var first := QuietPopIsRun(c, s, id);
      var rest := CatchesUp(c, Exec(c, s, first), id);
      RunConcat(c, s, first, rest);
      acts := first + rest;
    }
  }

  /** So some run of the consumer alone drains the window: it is handed exactly the published
      values of its own positions in the window, ascending, and its head is at the tail. */
  lemma QuiescentDrain(c: Config, s: State, id: nat) returns (acts: seq<Action>)
    requires c.Valid() && c.margin + c.limit <= c.n && Safe(c, s)
    requires id < |s.cons| && s.cons[id].pc.Idle?
    ensures s.cons[id].interval >= 1
    ensures ValidRun(c, s, acts) && OnlyConsumer(acts, id)
    ensures var con, t := s.cons[id], Exec(c, s, acts);
            var w := Remaining(c, s.tail, con);
            && OnlyMoved(s, t, id) && t.cons[id].pc.Idle? && t.cons[id].head >= s.tail
            && Extends(con.out, t.cons[id].out, w, s.log)
            && Ascending(w, con.index, con.interval, ResumeAt(s.tail, con.head, c.margin), s.tail)
  {
    var con := s.cons[id];
    QuietStart(c, s, id);
    acts := CatchesUp(c, s, id);
    QuietRunIsPrefix(c, s, id, acts);
    AllHandedInOrder(c, s.tail, s.log, con, Exec(c, s, acts).cons[id]);
  }

  lemma AllHandedInOrder(c: Config, tail: nat, log: seq<Element>, con0: Consumer, con: Consumer)
    requires con0.interval >= 1 && HandedInOrder(c, tail, log, con0, con) && tail <= con.head
    ensures Extends(con0.out, con.out, Remaining(c, tail, con0), log)
    ensures Ascending(Remaining(c, tail, con0), con0.index, con0.interval, ResumeAt(tail, con0.head, c.margin), tail)
  {
    var w := Remaining(c, tail, con0);
    assert w[..|w|] == w;
  }

  /** A drained consumer stays drained: however often it pops, every pop ends at its first
      load with nothing, and only the history of the last call changes. */
  lemma {:induction false} DrainedPopsNothing(c: Config, s: State, id: nat, acts: seq<Action>)
    requires id < |s.cons| && s.cons[id].pc.Idle? && s.tail <= s.cons[id].head
    requires ValidRun(c, s, acts) && OnlyConsumer(acts, id)
    ensures OnlyMoved(s, Exec(c, s, acts), id)
    ensures var t := Exec(c, s, acts); t.cons[id] == s.cons[id].(call := t.cons[id].call)
    decreases |acts|
  {
    if acts == [] {
      assert s.cons[id := s.cons[id]] == s.cons;
    } else {
      var t := Step(c, s, acts[0]);
      DrainedPopsNothing(c, t, id, acts[1..]);
      var u := Exec(c, t, acts[1..]);
      assert t.cons[id := u.cons[id]] == s.cons[id := u.cons[id]];
    }
  }

  /** Between `con0` and `con1` the position `p` was delivered: an own position inside the
      window of `tail`, before which every own position had fallen out of the window. */
  ghost predicate NextTrusted(c: Config, tail: nat, con0: Consumer, con1: Consumer, p: nat) {
    && con1.interval >= 1 && p % con1.interval == con1.index
    && con0.head <= p && tail <= p + c.margin
    && forall q: nat :: con0.head <= q < p && q % con1.interval == con1.index ==>
         q in con1.skipped && q + c.margin < con1.skipped[q] <= tail
  }

  lemma {:induction false} RunKeepsStart(c: Config, s: State, acts: seq<Action>, id: nat)
    requires id < |s.cons| && ValidRun(c, s, acts)
    ensures id < |Exec(c, s, acts).cons| && Exec(c, s, acts).cons[id].start == s.cons[id].start
    decreases |acts|
  {
    if acts != [] {
      RunKeepsStart(c, Step(c, s, acts[0]), acts[1..], id);
    }
  }

  lemma DeliveredNextTrusted(c: Config, s: State, t: State, id: nat, p: nat, v: Element)
    requires c.Valid() && Book(c, s) && Reaches(c, s, t) && id < |s.cons| && id < |t.cons|
    requires t.cons[id].out == s.cons[id].out + [Delivery(p, v)]
    requires s.cons[id].head <= p < t.cons[id].head && t.tail <= p + c.margin
    ensures NextTrusted(c, t.tail, s.cons[id], t.cons[id], p)
  {
    var con0, con1 := s.cons[id], t.cons[id];
    var acts :| ValidRun(c, s, acts) && Exec(c, s, acts) == t;
    RunKeepsBook(c, s, acts);
    RunKeepsStart(c, s, acts, id);
    assert ConsumerBook(c, s.base, s.tail, s.epochs, con0);
    assert ConsumerBook(c, t.base, t.tail, t.epochs, con1);
    assert con1.out[|con0.out|] == Delivery(p, v);
    forall q: nat | con0.head <= q < p && q % con1.interval == con1.index
      ensures q in con1.skipped && q + c.margin < con1.skipped[q] <= t.tail
    {
      forall j | 0 <= j < |con1.out|
        ensures con1.out[j].pos != q
      {
        assert j < |con0.out| ==> con1.out[j] == con0.out[j];
      }
    }
  }

  /** A one-slot channel never delivers anything, whatever the interleaving. */
  lemma SingleSlotDeliversNothing(words: nat, s: State, acts: seq<Action>, id: nat)
    requires words >= 1
    requires Init(CodeConfig(0, words), s) && ValidRun(CodeConfig(0, words), s, acts)
    requires id < |Exec(CodeConfig(0, words), s, acts).cons|
    ensures Exec(CodeConfig(0, words), s, acts).cons[id].out == []
  {
    var c := CodeConfig(0, words);
    EmptyWindowIsMute(c, s, acts);
  }

  // -------------------------------------------------------------- termination

  /** In every reachable state a running `pop` has continued at most once more often than
      the shared tail was raised since the call began. */
  lemma RetriesBoundedByPublications(c: Config, s: State, acts: seq<Action>, id: nat)
    requires c.Valid() && Init(c, s) && ValidRun(c, s, acts)
    requires id < |Exec(c, s, acts).cons| && !Exec(c, s, acts).cons[id].pc.Idle?
    ensures var t := Exec(c, s, acts);
            t.cons[id].call.retries <= 1 + (t.epochs - t.cons[id].call.epoch)
  {
    InitBook(c, s);
    RunKeepsBook(c, s, acts);
    var t := Exec(c, s, acts);
    assert ConsumerBook(c, t.base, t.tail, t.epochs, t.cons[id]);
  }

  /** The `continue`s of consumer `id` in a run: its loads after which it starts over. */
  function Continues(c: Config, s: State, acts: seq<Action>, id: nat): nat
    requires ValidRun(c, s, acts)
    decreases |acts|
  {
    if acts == [] then 0
    else
      var a, t := acts[0], Step(c, s, acts[0]);
      var continued := (a == Load(id) || a == Check(id)) && t.cons[id].pc.Looping?;
      (if continued then 1 else 0) + Continues(c, t, acts[1..], id)
  }

  /** The steps of a run that raise the shared tail. */
  function Publications(c: Config, s: State, acts: seq<Action>): nat
    requires ValidRun(c, s, acts)
    decreases |acts|
  {
    if acts == [] then 0
    else
      var t := Step(c, s, acts[0]);
      (if t.tail > s.tail then 1 else 0) + Publications(c, t, acts[1..])
  }

  /** Consumer `id` does not return from its call during the run. */
  predicate InOneCall(c: Config, s: State, acts: seq<Action>, id: nat)
    requires ValidRun(c, s, acts)
    decreases |acts|
  {
    acts == [] ||
    (var t := Step(c, s, acts[0]);
     id < |t.cons| && !t.cons[id].pc.Idle? && InOneCall(c, t, acts[1..], id))
  }

  lemma StepCounts(c: Config, s: State, a: Action, id: nat)
    requires Enabled(c, s, a) && id < |s.cons| && !s.cons[id].pc.Idle? && !Step(c, s, a).cons[id].pc.Idle?
    ensures var t := Step(c, s, a);
            && t.cons[id].call.epoch == s.cons[id].call.epoch
            && t.cons[id].call.retries == s.cons[id].call.retries +
                 (if (a == Load(id) || a == Check(id)) && t.cons[id].pc.Looping? then 1 else 0)
            && t.epochs == s.epochs + (if t.tail > s.tail then 1 else 0)
  {
  }

  lemma {:induction false} CallCounts(c: Config, s: State, acts: seq<Action>, id: nat)
    requires ValidRun(c, s, acts) && id < |s.cons| && !s.cons[id].pc.Idle? && InOneCall(c, s, acts, id)
    ensures var t := Exec(c, s, acts);
            && id < |t.cons| && !t.cons[id].pc.Idle?
            && t.cons[id].call.epoch == s.cons[id].call.epoch
            && t.cons[id].call.retries == s.cons[id].call.retries + Continues(c, s, acts, id)
            && t.epochs == s.epochs + Publications(c, s, acts)
    decreases |acts|
  {
    if acts != [] {
      StepCounts(c, s, acts[0], id);
      CallCounts(c, Step(c, s, acts[0]), acts[1..], id);
    }
  }

  /** So a call that begins at `s` and has not returned yet has continued at most once more
      often than the tail was raised meanwhile, counted step by step over the run. */
  lemma ContinuesBoundedByPublications(c: Config, s: State, acts: seq<Action>, id: nat)
    requires c.Valid() && Book(c, s) && id < |s.cons| && s.cons[id].pc.Idle?
    requires ValidRun(c, s, acts) && acts != [] && acts[0] == Load(id) && InOneCall(c, s, acts, id)
    ensures Continues(c, s, acts, id) <= 1 + Publications(c, s, acts)
  {
    var t := Step(c, s, Load(id));
    assert t.cons[id].call.epoch == s.epochs == t.epochs && t.tail == s.tail;
    assert t.cons[id].call.retries == if t.cons[id].pc.Looping? then 1 else 0;
    CallCounts(c, t, acts[1..], id);
    RunKeepsBook(c, s, acts);
    var u := Exec(c, s, acts);
    assert ConsumerBook(c, u.base, u.tail, u.epochs, u.cons[id]);
  }

  /** Each `continue` strictly raises the head, and a second one in the same call can only
      be caused by a tail larger than the one the first had seen. */
  lemma ContinueNeedsLargerTail(c: Config, s: State, a: Action, id: nat)
    requires c.Valid() && Book(c, s) && Enabled(c, s, a) && id < |s.cons|
    requires (a.Load? || a.Check?) && a.id == id
    requires Step(c, s, a).cons[id].pc.Looping?
    ensures var con, con1 := s.cons[id], Step(c, s, a).cons[id];
            && con1.head > con.head
            && con1.head % con1.interval == con1.index
            && s.tail <= con1.head + c.margin
            && (!con.pc.Idle? && con.call.retries > 0 ==> s.tail > con.call.seenTail)
  {
    var con := s.cons[id];
    assert ConsumerBook(c, s.base, s.tail, s.epochs, con);
    LoadCases(c, s.tail, s.epochs, con);
    NextModuloIsLeast(if s.tail >= c.margin then s.tail - c.margin else 0, con.index, con.interval);
  }

  // ------------------------------------------------------------- 64-bit words

  /** The decision of `pop` as the code computes it, with wrapping word arithmetic. */
  function DecideOnWords(tail: nat, head: nat, margin: nat, index: nat, interval: nat): Decision
    requires index < interval && margin < TWO_64
  {
    if tail <= head then CaughtUp
    else if tail <= WrapAdd(head, margin) then InWindow
    else Overrun(NextModulo(WrapSub(tail, margin), index, interval))
  }

  lemma WrapIsExact(tail: nat, head: nat, margin: nat)
    requires head + margin < TWO_64 && tail < TWO_64
    ensures WrapAdd(head, margin) == head + margin
    ensures margin <= tail ==> WrapSub(tail, margin) == tail - margin
  {
    ModUnique(TWO_64, head + margin, 0, head + margin);
    if margin <= tail {
      ModUnique(TWO_64, tail + TWO_64 - margin, 1, tail - margin);
    }
  }

  lemma JumpBelow(tail: nat, head: nat, margin: nat, index: nat, interval: nat)
    requires index < interval
    ensures Decide(tail, head, margin, index, interval).Overrun? ==>
              Decide(tail, head, margin, index, interval).next < tail + interval
  {
    if tail > head + margin {
      NextModuloIsLeast(tail - margin, index, interval);
    }
  }

  /** While `tail + interval + n` fits a word, every reachable consumer decides on words
      exactly as on naturals, and neither its jump nor its stride overflows. */
  lemma WordsDecideAlike(c: Config, s: State, id: nat)
    requires c.Valid() && Book(c, s) && id < |s.cons| && c.margin <= c.n
    requires s.tail + s.cons[id].interval + c.n < TWO_64
    ensures var con := s.cons[id];
            var d := Decide(s.tail, con.head, c.margin, con.index, con.interval);
            && DecideOnWords(s.tail, con.head, c.margin, con.index, con.interval) == d
            && (d.InWindow? ==> con.head + con.interval < TWO_64)
            && (d.Overrun? ==> d.next < TWO_64)
  {
    var con := s.cons[id];
    assert CursorBook(s.base, s.tail, con) by {
      assert ConsumerBook(c, s.base, s.tail, s.epochs, con);
    }
    WrapIsExact(s.tail, con.head, c.margin);
    JumpBelow(s.tail, con.head, c.margin, con.index, con.interval);
  }
}
