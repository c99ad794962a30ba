/** What headless consumers are handed are the arguments of the pushes: the published log is
    tied to the action sequence itself, not to anything the machine keeps. */
module HeadlessValues {
  import opened Arithmetic
  import opened Words
  import opened HeadlessMachine
  import opened HeadlessSafety
  import opened HeadlessDelivery

  /** The arguments of the pushes completed in a run, read off its actions alone. `open` is
      that of a push already begun, if there is one. */
  function PushedBy(acts: seq<Action>, open: seq<Element>): seq<Element>
    decreases |acts|
  {
    if acts == [] then []
    else
      match acts[0]
      case PushStart(v) => PushedBy(acts[1..], [v])
      case PushEnd => open + PushedBy(acts[1..], [])
      case _ => PushedBy(acts[1..], open)
  }

  predicate NoRestart(acts: seq<Action>) {
    forall j :: 0 <= j < |acts| ==> !acts[j].Restart?
  }

  /** The push in progress, if any, was given `open`. */
  predicate Given(s: State, open: seq<Element>) {
    s.prod.pc.Writing? ==> open == [s.prod.pc.value]
  }

  lemma Regroup(a: seq<Element>, b: seq<Element>, d: seq<Element>, e: seq<Element>)
    ensures a + (b + d) + e == a + b + (d + e)
  {
  }

  /** Everything published and staged is what was so at the start followed by the arguments
      of the pushes completed since, in order, in every run in which the producer does not
      restart. A restart leaves the log and nothing staged, and the next run starts there. */
  lemma {:induction false} LogIsPushed(c: Config, s: State, acts: seq<Action>, open: seq<Element>)
    requires ValidRun(c, s, acts) && NoRestart(acts) && Given(s, open)
    ensures var t := Exec(c, s, acts);
            t.log + t.staged == s.log + s.staged + PushedBy(acts, open)
    decreases |acts|
  {
    if acts != [] {
      var a, t := acts[0], Step(c, s, acts[0]);
      assert !a.Restart?;
      var next := if a.PushStart? then [a.value] else if a.PushEnd? then [] else open;
      LogIsPushed(c, t, acts[1..], next);
      if a.PushEnd? {
        Regroup(s.log, s.staged, open, PushedBy(acts[1..], []));
      }
    }
  }

  lemma RestartKeepsLog(c: Config, s: State)
    requires Enabled(c, s, Restart)
    ensures var t := Step(c, s, Restart);
            && t.log == s.log && t.staged == [] && t.tail == s.tail && t.cons == s.cons
            && t.prod == Producer(s.tail, 0, Ready)
  {
  }

  lemma ValueAt(
      log: seq<Element>, staged: seq<Element>, log0: seq<Element>, staged0: seq<Element>, pushed: seq<Element>, q: nat)
    requires log + staged == log0 + staged0 + pushed && q < |log|
    ensures q < |log0| ==> log[q] == log0[q]
    ensures var first := |log0| + |staged0|; first <= q ==> q - first < |pushed| && log[q] == pushed[q - first]
  {
    var all := log0 + staged0 + pushed;
    assert |log + staged| == |all| && log[q] == (log + staged)[q] == all[q];
  }

  lemma StagedReachesTail(c: Config, s: State)
    requires Safe(c, s)
    ensures |s.log| + |s.staged| == s.prod.tail
  {
  }

  /** So a delivery at position `q` is, in full, the argument of the push that position `q`
      was, counted from the last start or restart of the producer. */
  lemma DeliveryIsPushed(c: Config, s: State, acts: seq<Action>, id: nat, j: nat)
    requires c.Valid() && c.margin + c.limit <= c.n && Safe(c, s) && s.prod.pc.Ready?
    requires ValidRun(c, s, acts) && NoRestart(acts)
    requires id < |Exec(c, s, acts).cons| && j < |Exec(c, s, acts).cons[id].out|
    ensures var d := Exec(c, s, acts).cons[id].out[j];
            && (d.pos < |s.log| ==> d.value == s.log[d.pos])
            && (s.prod.tail <= d.pos ==>
                  d.pos - s.prod.tail < |PushedBy(acts, [])| && d.value == PushedBy(acts, [])[d.pos - s.prod.tail])
  {
    var t := Exec(c, s, acts);
    RunIsFaithful(c, s, id, acts);
    LogIsPushed(c, s, acts, []);
    StagedReachesTail(c, s);
    ValueAt(t.log, t.staged, s.log, s.staged, PushedBy(acts, []), t.cons[id].out[j].pos);
  }

  /** From the start of a session, then, the delivery at `q` is the push number `q - base`. */
  lemma SessionDeliversPushes(c: Config, s: State, acts: seq<Action>, id: nat, j: nat)
    requires c.Valid() && c.margin + c.limit <= c.n && Init(c, s)
    requires ValidRun(c, s, acts) && NoRestart(acts)
    requires id < |Exec(c, s, acts).cons| && j < |Exec(c, s, acts).cons[id].out|
    ensures var d := Exec(c, s, acts).cons[id].out[j];
            && s.tail <= d.pos < s.tail + |PushedBy(acts, [])|
            && d.value == PushedBy(acts, [])[d.pos - s.tail]
  {
    InitSafe(c, s);
    DeliveryIsPushed(c, s, acts, id, j);
    RunKeepsBook(c, s, acts);
    var t := Exec(c, s, acts);
    assert ConsumerBook(c, t.base, t.tail, t.epochs, t.cons[id]);
  }
}
