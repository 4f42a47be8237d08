/** The fill-then-drain program of ProducerConsumer/Assignment_prod_cons_on_Q_Solution.c, for any
    number of producers and consumers and a ring of any capacity.

    A thread runs from taking the mutex to its wait or to its end in one step: it holds the mutex
    throughout.  Steps that would fail an assertion have no result. */
module ProducerConsumer {
  import opened Base
  import opened UpwardRing

  /** Threads of one kind: ready ones (not started, or woken and not yet run again), ones asleep on
      the condition variable, and finished ones. */
  datatype Crew = Crew(ready: set<Tid>, asleep: set<Tid>, done: set<Tid>)
  {
    function Sleep(t: Tid): Crew { Crew(ready - {t}, asleep + {t}, done) }
    function Wake(t: Tid): Crew { Crew(ready + {t}, asleep - {t}, done) }
    function WakeAll(): Crew { Crew(ready + asleep, {}, done) }
    function Finish(t: Tid): Crew { Crew(ready - {t}, asleep, done + {t}) }

    ghost predicate Disjoint() {
      ready !! asleep && ready !! done && asleep !! done
    }

    ghost function Size(): nat { |ready| + |asleep| + |done| }
  }

  lemma CrewMoves(c: Crew, t: Tid)
    requires c.Disjoint()
    ensures t in c.ready ==>
              && c.Sleep(t).Disjoint() && c.Sleep(t).Size() == c.Size() && |c.Sleep(t).ready| == |c.ready| - 1
              && c.Finish(t).Disjoint() && c.Finish(t).Size() == c.Size()
              && |c.Finish(t).done| == |c.done| + 1 && |c.Finish(t).ready| == |c.ready| - 1
    ensures t in c.asleep ==>
              && c.Wake(t).Disjoint() && c.Wake(t).Size() == c.Size() && |c.Wake(t).ready| == |c.ready| + 1
  {
    if t in c.ready {
      RemoveSize(c.ready, t);
      AddSize(c.asleep, t);
      AddSize(c.done, t);
    }
    if t in c.asleep {
      RemoveSize(c.asleep, t);
      AddSize(c.ready, t);
    }
  }

  lemma CrewWakeAll(c: Crew)
    requires c.Disjoint()
    ensures c.WakeAll().Disjoint() && c.WakeAll().Size() == c.Size()
  {
    UnionSize(c.ready, c.asleep);
  }

  /** The queue, the last integer produced, the integers consumed so far, the producers and the
      consumers. */
  datatype State = State(cap: nat, queue: seq<int>, last: nat, consumed: seq<int>, p: Crew, c: Crew)

  /** The n integers after a. */
  function From(a: nat, n: nat): (s: seq<int>)
    ensures |s| == n
  {
    seq(n, i requires 0 <= i < n => a + 1 + i)
  }

  lemma FromNext(a: nat, n: nat)
    ensures From(a, n) + [a + n + 1] == From(a, n + 1)
  {
  }

  function Produce(s: State, t: Tid): Option<State> {
    if |s.queue| == s.cap then Some(s.(p := s.p.Sleep(t)))
    else if s.queue != [] then None
    else Some(s.(queue := From(s.last, s.cap), last := s.last + s.cap,
                 p := s.p.Finish(t).WakeAll(), c := s.c.WakeAll()))
  }

  function Consume(s: State, t: Tid): Option<State> {
    if s.queue == [] then Some(s.(c := s.c.Sleep(t)))
    else if |s.queue| != s.cap then None
    else Some(s.(queue := [], consumed := s.consumed + s.queue,
                 p := s.p.WakeAll(), c := s.c.Finish(t).WakeAll()))
  }

  datatype Action = RunProducer(t: Tid) | RunConsumer(t: Tid) | Spurious(t: Tid)

  ghost predicate Enabled(s: State, a: Action) {
    match a
    case RunProducer(t) => t in s.p.ready
    case RunConsumer(t) => t in s.c.ready
    case Spurious(t) => t in s.p.asleep || t in s.c.asleep
  }

  function Apply(s: State, a: Action): Option<State> {
    match a
    case RunProducer(t) => Produce(s, t)
    case RunConsumer(t) => Consume(s, t)
    case Spurious(t) => Some(if t in s.p.asleep then s.(p := s.p.Wake(t)) else s.(c := s.c.Wake(t)))
  }

  ghost predicate Init(s: State) {
    && s.cap >= 1 && s.queue == [] == s.consumed && s.last == 0
    && s.p.asleep == s.p.done == {} && s.c.asleep == s.c.done == {}
  }

  ghost predicate Inv(s: State) {
    && s.cap >= 1
    && s.p.Disjoint() && s.c.Disjoint()
    && s.consumed + s.queue == From(0, s.last)
    && |s.consumed| == s.cap * |s.c.done|
    && (|| (s.queue == [] && |s.p.done| == |s.c.done| && s.p.asleep == {})
        || (|s.queue| == s.cap && |s.p.done| == |s.c.done| + 1 && s.c.asleep == {}))
  }

  lemma InvProduce(s: State, t: Tid)
    requires Inv(s) && t in s.p.ready
    ensures Produce(s, t).Some? && Inv(Produce(s, t).value)
  {
    CrewMoves(s.p, t);
    CrewWakeAll(s.p.Finish(t));
    CrewWakeAll(s.c);
    assert s.queue == [] ==> s.consumed + From(s.last, s.cap) == From(0, s.last + s.cap) by {
      assert s.queue == [] ==> s.consumed == From(0, s.last);
    }
  }

  lemma InvConsume(s: State, t: Tid)
    requires Inv(s) && t in s.c.ready
    ensures Consume(s, t).Some? && Inv(Consume(s, t).value)
  {
    CrewMoves(s.c, t);
    CrewWakeAll(s.c.Finish(t));
    CrewWakeAll(s.p);
    assert s.consumed + s.queue + [] == s.consumed + s.queue;
    assert s.cap * (|s.c.done| + 1) == s.cap * |s.c.done| + s.cap;
  }

  lemma InvStep(s: State, a: Action)
    requires Inv(s) && Enabled(s, a)
    ensures Apply(s, a).Some? && Inv(Apply(s, a).value)
  {
    match a
    case RunProducer(t) => InvProduce(s, t);
    case RunConsumer(t) => InvConsume(s, t);
    case Spurious(t) => CrewMoves(if t in s.p.asleep then s.p else s.c, t);
  }

  ghost predicate Step(s: State, a: Action, s': State) {
    Enabled(s, a) && Apply(s, a) == Some(s')
  }

  ghost predicate Run(ss: seq<State>, acts: seq<Action>) {
    && |ss| == |acts| + 1
    && Init(ss[0])
    && forall i {:trigger acts[i]} :: 0 <= i < |acts| ==> Step(ss[i], acts[i], ss[i + 1])
  }

  lemma {:induction false} RunInv(ss: seq<State>, acts: seq<Action>, k: nat)
    requires Run(ss, acts) && k < |ss|
    ensures Inv(ss[k])
    decreases k
  {
    if k > 0 {
      RunInv(ss, acts, k - 1);
      InvStep(ss[k - 1], acts[k - 1]);
    } else {
      assert ss[0].consumed + ss[0].queue == From(0, 0);
    }
  }

  // ---------------------------------------------------------------- what the program promises

  /** The assertions that a producer starts on an empty queue and a consumer on a full one hold,
      spurious wake-ups included. */
  lemma AssertionsHold(ss: seq<State>, acts: seq<Action>, k: nat, a: Action)
    requires Run(ss, acts) && k < |ss| && Enabled(ss[k], a)
    ensures Apply(ss[k], a).Some?
  {
    RunInv(ss, acts, k);
    InvStep(ss[k], a);
  }

  /** Whenever the mutex is free the queue is empty or full, and it is full exactly when one more
      producer than consumers has finished. */
  lemma EmptyOrFull(ss: seq<State>, acts: seq<Action>, k: nat)
    requires Run(ss, acts) && k < |ss|
    ensures ss[k].queue == [] || |ss[k].queue| == ss[k].cap
    ensures |ss[k].p.done| - |ss[k].c.done| == if |ss[k].queue| == ss[k].cap then 1 else 0
  {
    RunInv(ss, acts, k);
  }

  /** The consumed values are 1, 2, 3, ... without gap or repetition, a whole ring of them for each
      finished consumer, and the queue holds the next ones. */
  lemma ConsumedInOrder(ss: seq<State>, acts: seq<Action>, k: nat)
    requires Run(ss, acts) && k < |ss|
    ensures forall i :: 0 <= i < |ss[k].consumed| ==> ss[k].consumed[i] == i + 1
    ensures forall i :: 0 <= i < |ss[k].queue| ==> ss[k].queue[i] == |ss[k].consumed| + i + 1
    ensures |ss[k].consumed| == ss[k].cap * |ss[k].c.done|
  {
    RunInv(ss, acts, k);
    var s := ss[k];
    var all := s.consumed + s.queue;
    forall i | 0 <= i < |s.consumed| ensures s.consumed[i] == i + 1 {
      assert all[i] == s.consumed[i];
    }
    forall i | 0 <= i < |s.queue| ensures s.queue[i] == |s.consumed| + i + 1 {
      assert all[|s.consumed| + i] == s.queue[i];
    }
  }

  /** Whoever fills or drains the queue wakes everybody: right after a thread finishes nobody sleeps. */
  lemma FinishWakesAll(ss: seq<State>, acts: seq<Action>, k: nat)
    requires Run(ss, acts) && k < |acts| && ss[k + 1].p.done + ss[k + 1].c.done != ss[k].p.done + ss[k].c.done
    ensures ss[k + 1].p.asleep == {} == ss[k + 1].c.asleep
  {
    assert Step(ss[k], acts[k], ss[k + 1]);
  }

  /** A bound on the steps still to come: an unfinished thread goes back to sleep at most once
      between two finishes. */
  ghost function Measure(s: State): nat {
    var all := s.p.Size() + s.c.Size();
    Rank(all, all - |s.p.done| - |s.c.done|, |s.p.ready| + |s.c.ready|)
  }

  function Rank(all: nat, left: nat, ready: nat): nat {
    left * (all + 1) + ready
  }

  /** A step that finishes a thread, or else leaves one ready thread less, lowers the rank. */
  lemma RankDrops(all: nat, left: nat, ready: nat, left': nat, ready': nat)
    requires left <= all && ready' <= left'
    requires left' == left - 1 || (left' == left && ready' < ready)
    ensures Rank(all, left', ready') < Rank(all, left, ready)
  {
    assert (left - 1) * (all + 1) == left * (all + 1) - (all + 1);
  }

  /** How the threads' numbers change in one step: one more finishes, or one ready thread less, or
      (a spurious wake-up) one ready thread more. */
  ghost predicate Moved(s: State, s': State, spurious: bool) {
    var fin, fin' := |s.p.done| + |s.c.done|, |s'.p.done| + |s'.c.done|;
    var ready, ready' := |s.p.ready| + |s.c.ready|, |s'.p.ready| + |s'.c.ready|;
    && s'.p.Size() == s.p.Size() && s'.c.Size() == s.c.Size()
    && if spurious then fin' == fin && ready' == ready + 1
       else fin' == fin + 1 || (fin' == fin && ready' == ready - 1)
  }

  lemma StepMoves(s: State, a: Action, s': State)
    requires Inv(s) && Step(s, a, s')
    ensures Moved(s, s', a.Spurious?)
  {
    var t := a.t;
    CrewMoves(s.p, t);
    CrewMoves(s.c, t);
    CrewWakeAll(s.p);
    CrewWakeAll(s.c);
    if a.RunProducer? {
      CrewWakeAll(s.p.Finish(t));
    } else if a.RunConsumer? {
      CrewWakeAll(s.c.Finish(t));
    }
  }

  lemma MeasureDrops(s: State, s': State, spurious: bool)
    requires Moved(s, s', spurious)
    ensures if spurious then Measure(s') == Measure(s) + 1 else Measure(s') < Measure(s)
  {
    if !spurious {
      var all := s.p.Size() + s.c.Size();
      RankDrops(all, all - |s.p.done| - |s.c.done|, |s.p.ready| + |s.c.ready|,
                all - |s'.p.done| - |s'.c.done|, |s'.p.ready| + |s'.c.ready|);
    }
  }

  ghost function SpuriousCount(acts: seq<Action>): nat {
    if acts == [] then 0
    else SpuriousCount(acts[..|acts| - 1]) + if acts[|acts| - 1].Spurious? then 1 else 0
  }

  lemma {:induction false} MeasureOverRun(ss: seq<State>, acts: seq<Action>, k: nat)
    requires Run(ss, acts) && k < |ss|
    ensures k + Measure(ss[k]) <= Measure(ss[0]) + 2 * SpuriousCount(acts[..k])
    decreases k
  {
    if k > 0 {
      MeasureOverRun(ss, acts, k - 1);
      RunInv(ss, acts, k - 1);
      StepMoves(ss[k - 1], acts[k - 1], ss[k]);
      MeasureDrops(ss[k - 1], ss[k], acts[k - 1].Spurious?);
      assert acts[..k][..k - 1] == acts[..k - 1];
    }
  }

  /** Every run is finite: with n threads in all it takes at most n(n+2) steps, and two more for
      every spurious wake-up. */
  lemma RunsAreFinite(ss: seq<State>, acts: seq<Action>)
    requires Run(ss, acts)
    ensures var n := |ss[0].p.ready| + |ss[0].c.ready|;
            |acts| <= n * (n + 2) + 2 * SpuriousCount(acts)
  {
    MeasureOverRun(ss, acts, |acts|);
    assert acts[..|acts|] == acts;
    var n := |ss[0].p.ready| + |ss[0].c.ready|;
    assert n * (n + 1) + n == n * (n + 2);
  }

  lemma {:induction false} SizesOverRun(ss: seq<State>, acts: seq<Action>, k: nat)
    requires Run(ss, acts) && k < |ss|
    ensures ss[k].p.Size() == |ss[0].p.ready| && ss[k].c.Size() == |ss[0].c.ready|
    decreases k
  {
    if k > 0 {
      SizesOverRun(ss, acts, k - 1);
      RunInv(ss, acts, k - 1);
      StepMoves(ss[k - 1], acts[k - 1], ss[k]);
    }
  }

  function Min(a: nat, b: nat): nat { if a <= b then a else b }

  /** Where a run stops because no thread can go on, as many have finished as could: all the
      consumers the producers can feed, and at most one producer more than there are consumers. */
  lemma FinalState(ss: seq<State>, acts: seq<Action>)
    requires Run(ss, acts) && ss[|acts|].p.ready == {} == ss[|acts|].c.ready
    ensures var producers, consumers := |ss[0].p.ready|, |ss[0].c.ready|;
            && |ss[|acts|].p.done| == Min(producers, consumers + 1)
            && |ss[|acts|].c.done| == Min(producers, consumers)
  {
    RunInv(ss, acts, |acts|);
    SizesOverRun(ss, acts, |acts|);
  }

  /** The program ends with every thread finished exactly when there are as many producers as
      consumers, or one more. */
  lemma AllFinishExactly(ss: seq<State>, acts: seq<Action>)
    requires Run(ss, acts) && ss[|acts|].p.ready == {} == ss[|acts|].c.ready
    ensures ss[|acts|].p.asleep == {} == ss[|acts|].c.asleep
            <==> |ss[0].c.ready| <= |ss[0].p.ready| <= |ss[0].c.ready| + 1
  {
    FinalState(ss, acts);
    SizesOverRun(ss, acts, |acts|);
    var s := ss[|acts|];
    assert (|s.p.asleep| == 0 <==> s.p.asleep == {}) && (|s.c.asleep| == 0 <==> s.c.asleep == {});
  }

  // ---------------------------------------------------------------- the program

  /** The shared data of the program and its threads. */
  class Program {
    const q: Queue
    var a: nat
    var output: seq<int>
    var p: Crew
    var c: Crew

    ghost predicate Valid()
      reads this, q, q.elem
    {
      q.Valid()
    }

    ghost function View(): State
      requires Valid()
      reads this, q, q.elem
    {
      State(q.Capacity(), q.Contents(), a, output, p, c)
    }

    constructor (capacity: nat, producers: set<Tid>, consumers: set<Tid>)
      requires capacity >= 1
      ensures Valid() && fresh(q) && fresh(q.elem) && Init(View()) && q.Capacity() == capacity
      ensures p.ready == producers && c.ready == consumers
    {
      q := new Queue(capacity);
      a, output := 0, [];
      p, c := Crew(producers, {}, {}), Crew(consumers, {}, {});
    }

    method NewInt() returns (i: nat)
      modifies this`a
      ensures i == a == old(a) + 1
    {
      a := a + 1;
      i := a;
    }

    /** prod_fn from taking the mutex to its wait or its end. */
    method Prod(t: Tid) returns (finished: bool)
      requires Valid() && t in p.ready && Produce(View(), t).Some?
      modifies this, q, q.elem
      ensures Valid() && Some(View()) == old(Produce(View(), t))
      ensures if finished then t in p.done else t in p.asleep
    {
      var full := q.IsFull();
      if full {
        p := p.Sleep(t);
        return false;
      }
      assert q.Contents() == [];
      Fill();
      p, c := p.Finish(t).WakeAll(), c.WakeAll();
      return true;
    }

    /** The producer's critical section: only an empty queue may be filled. */
    method Fill()
      requires Valid() && q.Contents() == []
      modifies this`a, q, q.elem
      ensures Valid() && q.Contents() == From(old(a), q.Capacity()) && a == old(a) + q.Capacity()
    {
      ghost var a0 := a;
      var full := q.IsFull();
      while !full
        invariant q.Valid() && q.Contents() == From(a0, |q.Contents()|)
        invariant a == a0 + |q.Contents()|
        invariant full <==> |q.Contents()| == q.Capacity()
        decreases q.Capacity() - |q.Contents()|
      {
        AddOne(a0);
        full := q.IsFull();
      }
    }

    /** The body of the filling loop: the next integer goes to the end of the queue. */
    method AddOne(ghost a0: nat)
      requires Valid() && |q.Contents()| < q.Capacity() && q.Contents() == From(a0, |q.Contents()|) && a == a0 + |q.Contents()|
      modifies this`a, q, q.elem
      ensures Valid() && |q.Contents()| == |old(q.Contents())| + 1
      ensures q.Contents() == From(a0, |q.Contents()|) && a == a0 + |q.Contents()|
    {
      FromNext(a0, |q.Contents()|);
      var i := NewInt();
      var ok := q.Enqueue(i);
    }

    /** cons_fn from taking the mutex to its wait or its end. */
    method Cons(t: Tid) returns (finished: bool)
      requires Valid() && t in c.ready && Consume(View(), t).Some?
      modifies this, q, q.elem
      ensures Valid() && Some(View()) == old(Consume(View(), t))
      ensures if finished then t in c.done else t in c.asleep
    {
      var empty := q.IsEmpty();
      if empty {
        c := c.Sleep(t);
        return false;
      }
      Drain();
      p, c := p.WakeAll(), c.Finish(t).WakeAll();
      return true;
    }

    /** The consumer's critical section: only a full queue may be drained. */
    method Drain()
      requires Valid() && |q.Contents()| == q.Capacity()
      modifies this`output, q, q.elem
      ensures Valid() && q.Contents() == [] && output == old(output) + old(q.Contents())
    {
      ghost var all := output + q.Contents();
      var empty := q.IsEmpty();
      while !empty
        invariant q.Valid() && output + q.Contents() == all
        invariant empty <==> q.Contents() == []
        decreases |q.Contents()|
      {
        ghost var was := q.Contents();
        var i := q.Deque();
        assert output + [i] + q.Contents() == output + was;
        output := output + [i];
        empty := q.IsEmpty();
      }
      assert output + [] == output;
    }
  }
}
