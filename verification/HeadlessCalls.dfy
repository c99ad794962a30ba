/** Whole calls as uninterrupted runs of the headless machine. */
module HeadlessCalls {
  import opened Arithmetic
  import opened Words
  import opened HeadlessMachine

  // --------------------------------------------------------------------- push

  /** The effect of one whole `push`. */
  function PushCall(c: Config, s: State, v: Element): State
    requires c.n >= 1 && |s.slots| == c.n
  {
    var t := AfterPushStart(c, s, v);
    t.(slots := t.slots[Slot(c.n, t.prod.tail) := v],
       prod := Producer(t.prod.tail + 1, t.prod.written + 1, Ready),
       staged := t.staged + [v])
  }

  function PushActs(c: Config, v: Element): seq<Action> {
    [PushStart(v)] + (Repeat(PushWord, c.words) + [PushEnd])
  }

  lemma {:induction false} WriteWords(c: Config, s: State, k: nat)
    requires RingOf(c.n, c.words, s.slots) && s.prod.pc.Writing? && |s.prod.pc.value| == c.words
    requires s.prod.pc.done + k == c.words
    ensures var i, v, d := Slot(c.n, s.prod.tail), s.prod.pc.value, s.prod.pc.done;
            && ValidRun(c, s, Repeat(PushWord, k))
            && Exec(c, s, Repeat(PushWord, k))
               == s.(slots := s.slots[i := s.slots[i][..d] + v[d..]], prod := s.prod.(pc := Writing(v, c.words)))
    decreases k
  {
    var i, v, d := Slot(c.n, s.prod.tail), s.prod.pc.value, s.prod.pc.done;
    if k == 0 {
      assert s.slots[i][..d] + v[d..] == s.slots[i];
      assert s.slots[i := s.slots[i]] == s.slots;
    } else {
      var t := AfterPushWord(c, s);
      WriteWords(c, t, k - 1);
      assert Repeat(PushWord, k)[1..] == Repeat(PushWord, k - 1);
      WordStored(s.slots[i], v, d);
      UpdateTwice(s.slots, i, t.slots[i], s.slots[i][..d] + v[d..]);
    }
  }

  /** What it does to the channel: the value given, and nothing else, is stored in the next
      slot and staged behind everything staged or published before; at the limit all that
      was staged is published first. */
  lemma PushStagesValue(c: Config, s: State, v: Element)
    requires c.n >= 1 && |s.slots| == c.n
    ensures var t, full := PushCall(c, s, v), s.prod.written == c.limit;
            && t.log + t.staged == s.log + s.staged + [v]
            && t.log == (if full then s.log + s.staged else s.log)
            && t.tail == (if full then s.prod.tail else s.tail)
            && t.slots == s.slots[Slot(c.n, s.prod.tail) := v] && t.cons == s.cons
            && t.prod == Producer(s.prod.tail + 1, (if full then 0 else s.prod.written) + 1, Ready)
  {
  }

  lemma PushRunsSteps(c: Config, s: State, v: Element)
    requires RingOf(c.n, c.words, s.slots) && s.prod.pc.Ready? && |v| == c.words
    ensures ValidRun(c, s, PushActs(c, v)) && Exec(c, s, PushActs(c, v)) == PushCall(c, s, v)
    ensures RingOf(c.n, c.words, PushCall(c, s, v).slots)
  {
    var t := AfterPushStart(c, s, v);
    var i := Slot(c.n, t.prod.tail);
    WriteWords(c, t, c.words);
    assert t.slots[i][..0] + v[0..] == v;
    var u := Exec(c, t, Repeat(PushWord, c.words));
    RunOne(c, u, PushEnd);
    RunConcat(c, t, Repeat(PushWord, c.words), [PushEnd]);
    RunOne(c, s, PushStart(v));
    RunConcat(c, s, [PushStart(v)], Repeat(PushWord, c.words) + [PushEnd]);
  }

  /** A `push` call is the run of its atomic steps, and stages the value it is given. */
  lemma PushIsRun(c: Config, s: State, v: Element)
    requires RingOf(c.n, c.words, s.slots) && s.prod.pc.Ready? && |v| == c.words
    ensures ValidRun(c, s, PushActs(c, v)) && Exec(c, s, PushActs(c, v)) == PushCall(c, s, v)
    ensures RingOf(c.n, c.words, PushCall(c, s, v).slots)
    ensures PushCall(c, s, v).log + PushCall(c, s, v).staged == s.log + s.staged + [v]
  {
    PushRunsSteps(c, s, v);
    PushStagesValue(c, s, v);
  }

  // ---------------------------------------------------------------------- pop

  lemma {:induction false} ReadWords(c: Config, s: State, id: nat, k: nat)
    requires RingOf(c.n, c.words, s.slots) && id < |s.cons| && s.cons[id].pc.Reading?
    requires |s.cons[id].pc.buf| + k == c.words
    requires s.cons[id].pc.buf == s.slots[Slot(c.n, s.cons[id].head)][..|s.cons[id].pc.buf|]
    ensures var e := s.slots[Slot(c.n, s.cons[id].head)];
            && ValidRun(c, s, Repeat(Read(id), k))
            && Exec(c, s, Repeat(Read(id), k)) == s.(cons := s.cons[id := s.cons[id].(pc := Reading(e))])
    decreases k
  {
    var e := s.slots[Slot(c.n, s.cons[id].head)];
    if k == 0 {
      assert s.cons[id].pc.buf == e;
      assert s.cons[id := s.cons[id]] == s.cons;
    } else {
      var t := Step(c, s, Read(id));
      ReadWords(c, t, id, k - 1);
      assert Repeat(Read(id), k)[1..] == Repeat(Read(id), k - 1);
      assert t.cons[id := s.cons[id].(pc := Reading(e))] == s.cons[id := s.cons[id].(pc := Reading(e))];
    }
  }

  /** The slot copy and the accepting recheck, with nobody interfering. */
  lemma ReadAndAccept(c: Config, s: State, id: nat)
    requires RingOf(c.n, c.words, s.slots) && id < |s.cons| && s.cons[id].index < s.cons[id].interval
    requires s.cons[id].pc == Reading([]) && s.tail <= s.cons[id].head + c.margin
    ensures var con := s.cons[id];
            var e := s.slots[Slot(c.n, con.head)];
            var acts := Repeat(Read(id), c.words) + [Check(id)];
            && ValidRun(c, s, acts)
            && Exec(c, s, acts) == s.(cons := s.cons[id := Delivered(con.(pc := Reading(e)))])
  {
    var con := s.cons[id];
    var e := s.slots[Slot(c.n, con.head)];
    ReadWords(c, s, id, c.words);
    var t := s.(cons := s.cons[id := con.(pc := Reading(e))]);
    RunOne(c, t, Check(id));
    RunConcat(c, s, Repeat(Read(id), c.words), [Check(id)]);
    assert t.cons[id := Delivered(con.(pc := Reading(e)))] == s.cons[id := Delivered(con.(pc := Reading(e)))];
  }

  /** What one whole `pop` of consumer `con` does while the producer is quiescent: at most
      one `continue`, then the value of the head's slot or nothing. */
  function QuietPop(c: Config, tail: nat, epochs: nat, slots: seq<Element>, con: Consumer): Consumer
    requires c.n >= 1 && |slots| == c.n && con.index < con.interval
  {
    var con1 := AfterLoad(c, tail, epochs, con);
    if con1.pc.Reading? then Delivered(con1.(pc := Reading(slots[Slot(c.n, con1.head)])))
    else if con1.pc.Idle? then con1
    else
      var con2 := AfterLoad(c, tail, epochs, con1);
      if con2.pc.Reading? then Delivered(con2.(pc := Reading(slots[Slot(c.n, con2.head)])))
      else con2
  }

  /** A run of consumer `id` alone. */
  predicate OnlyConsumer(acts: seq<Action>, id: nat) {
    forall j :: 0 <= j < |acts| ==>
      (acts[j].Load? && acts[j].id == id) || (acts[j].Read? && acts[j].id == id) || (acts[j].Check? && acts[j].id == id)
  }

  lemma ReadRunIsOwn(c: Config, id: nat)
    ensures OnlyConsumer(Repeat(Read(id), c.words) + [Check(id)], id)
  {
    RepeatElems(Read(id), c.words);
  }

  /** With a quiescent producer `pop` finishes within two iterations, as `QuietPop` says. */
  lemma QuietPopIsRun(c: Config, s: State, id: nat) returns (acts: seq<Action>)
    requires RingOf(c.n, c.words, s.slots)
    requires id < |s.cons| && s.cons[id].index < s.cons[id].interval && s.cons[id].pc.Idle?
    ensures ValidRun(c, s, acts) && OnlyConsumer(acts, id)
    ensures |acts| <= 3 + c.words
    ensures var con := QuietPop(c, s.tail, s.epochs, s.slots, s.cons[id]);
            && con.pc.Idle?
            && Exec(c, s, acts) == s.(cons := s.cons[id := con])
  {
    var con := s.cons[id];
    var t := Step(c, s, Load(id));
    RunOne(c, s, Load(id));
    if t.cons[id].pc.Idle? {
      acts := [Load(id)];
    } else if t.cons[id].pc.Reading? {
      acts := FinishPop(c, s, t, id, [Load(id)]);
    } else {
      var t2 := Step(c, t, Load(id));
      RunOne(c, t, Load(id));
      RunConcat(c, s, [Load(id)], [Load(id)]);
      NextModuloIsLeast(s.tail - c.margin, con.index, con.interval);
      assert t2.cons == s.cons[id := t2.cons[id]];
      if t2.cons[id].pc.Reading? {
        acts := FinishPop(c, s, t2, id, [Load(id)] + [Load(id)]);
      } else {
        acts := [Load(id)] + [Load(id)];
      }
    }
  }

  lemma FinishPop(c: Config, s: State, t: State, id: nat, loads: seq<Action>) returns (acts: seq<Action>)
    requires RingOf(c.n, c.words, s.slots) && id < |s.cons| && ValidRun(c, s, loads) && Exec(c, s, loads) == t
    requires id < |t.cons| && t == s.(cons := s.cons[id := t.cons[id]]) && OnlyConsumer(loads, id)
    requires t.cons[id].index < t.cons[id].interval && t.cons[id].pc == Reading([])
    requires t.tail <= t.cons[id].head + c.margin
    ensures ValidRun(c, s, acts) && OnlyConsumer(acts, id) && |acts| == |loads| + c.words + 1
    ensures var con := t.cons[id];
            Exec(c, s, acts) == s.(cons := s.cons[id := Delivered(con.(pc := Reading(s.slots[Slot(c.n, con.head)])))])
  {
    ReadAndAccept(c, t, id);
    ReadRunIsOwn(c, id);
    acts := loads + (Repeat(Read(id), c.words) + [Check(id)]);
    RunConcat(c, s, loads, Repeat(Read(id), c.words) + [Check(id)]);
    var con := Delivered(t.cons[id].(pc := Reading(s.slots[Slot(c.n, t.cons[id].head)])));
    assert t.cons[id := con] == s.cons[id := con];
  }
}
