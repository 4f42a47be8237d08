/** A push that finds the assembly line empty in the middle of a cycle: exactly when the line still
    does what it promises. */
module LatePush {
  import opened Base
  import opened AssemblyLine

  /** Items have left in the order of their pushes, worked on by every worker once, in order; and no
      step that can be taken fails an assertion. */
  ghost predicate Promised(s: State) {
    && Shape(s)
    && (forall i {:trigger s.out[i]} :: 0 <= i < |s.out| ==> s.out[i].item == Item(i, Upto(s.N())))
    && (forall a {:trigger Enabled(s, a)} :: Enabled(s, a) ==> Apply(s, a).Some?)
  }

  /** Whatever the workers, the engine and pushes in time do from here on, the promise is kept. */
  ghost predicate KeepsPromise(s: State) {
    forall ss, acts {:trigger Steps(ss, acts)} :: Steps(ss, acts) && ss[0] == s ==> Promised(ss[|acts|])
  }

  lemma InvPromises(s: State)
    requires Inv(s)
    ensures KeepsPromise(s)
  {
    forall ss, acts | Steps(ss, acts) && ss[0] == s ensures Promised(ss[|acts|]) {
      StepsInv(ss, acts, |acts|);
      var t := ss[|acts|];
      forall a | Enabled(t, a) ensures Apply(t, a).Some? { InvStep(t, a); }
    }
  }

  lemma Broken(ss: seq<State>, acts: seq<Action>)
    requires Steps(ss, acts) && !Promised(ss[|acts|])
    ensures !KeepsPromise(ss[0])
  {
  }

  // ---------------------------------------------------------------- the first worker has moved on

  /** All workers are ready, and the assertion at the engine's insertion fails. */
  ghost predicate Aborts(s: State) {
    Shape(s) && Enabled(s, DoEndCycle) && s.waitList != [] && s.slots[s.pos[0]].Some? && Apply(s, DoEndCycle) == None
  }

  /** No worker is to meet an item before the cycle ends, and the first worker has moved to a slot
      that is not empty. */
  ghost predicate Jammed(s: State) {
    && Shape(s) && ReadyOk(s) && Moved(s, 0) && s.waitList != [] && s.slots[s.pos[0]].Some?
    && (forall k {:trigger s.stage[k]} :: 0 <= k < s.N() ==> s.stage[k] != Worked && (s.stage[k] == Awake ==> s.slots[s.pos[k]].None?))
  }

  /** The workers then finish the cycle, and the engine's next insertion fails its assertion. */
  lemma {:induction false} JammedAborts(s: State) returns (ss: seq<State>, acts: seq<Action>)
    requires Jammed(s)
    ensures Steps(ss, acts) && ss[0] == s && Aborts(ss[|acts|])
    decreases 4 * s.N() - Ranks(s.stage)
  {
    AllWaiting(s);
    if k :| 0 <= k < s.N() && s.stage[k] != Waiting {
      var a := if s.stage[k] == Awake then DoWork(k) else if s.stage[k] == Cleared then DoTurn(k) else DoReport(k);
      JammedStep(s, k, a);
      var s' := Apply(s, a).value;
      RanksBound(s'.stage);
      ss, acts := JammedAborts(s');
      Prepend(s, a, ss, acts);
      ss, acts := [s] + ss, [a] + acts;
    } else {
      ss, acts := [s], [];
    }
  }

  lemma JammedStep(s: State, k: nat, a: Action)
    requires Jammed(s) && k < s.N() && s.stage[k] != Waiting
    requires a == if s.stage[k] == Awake then DoWork(k) else if s.stage[k] == Cleared then DoTurn(k) else DoReport(k)
    ensures Enabled(s, a) && Apply(s, a).Some? && Jammed(Apply(s, a).value)
    ensures Ranks(Apply(s, a).value.stage) > Ranks(s.stage)
  {
    match s.stage[k]
    case Awake => JammedWork(s, k);
    case Cleared => JammedTurn(s, k);
    case Turned => JammedReport(s, k);
  }

  lemma JammedWork(s: State, k: nat)
    requires Jammed(s) && k < s.N() && s.stage[k] == Awake
    ensures Jammed(Work(s, k)) && Ranks(Work(s, k).stage) > Ranks(s.stage)
  {
    RanksUpdate(s.stage, k, Cleared);
    assert WaitingSet(Work(s, k)) == WaitingSet(s);
  }

  lemma JammedTurn(s: State, k: nat)
    requires Jammed(s) && k < s.N() && s.stage[k] == Cleared
    ensures Jammed(Turn(s, k)) && Ranks(Turn(s, k).stage) > Ranks(s.stage)
  {
    RanksUpdate(s.stage, k, Turned);
    assert WaitingSet(Turn(s, k)) == WaitingSet(s);
  }

  lemma JammedReport(s: State, k: nat)
    requires Jammed(s) && k < s.N() && s.stage[k] == Turned
    ensures Jammed(Report(s, k)) && Ranks(Report(s, k).stage) > Ranks(s.stage)
  {
    RanksUpdate(s.stage, k, Waiting);
    assert WaitingSet(Report(s, k)) == WaitingSet(s) + {k};
  }

  /** Of the workers yet to work, only the last can be at the slot the first has moved to. */
  lemma LastAtOrigin(s: State)
    requires Inv(s) && Moved(s, 0)
    ensures forall j: nat {:trigger s.stage[j]} :: j < s.N() && s.stage[j] == Awake ==>
      (s.pos[j] == s.pos[0] <==> j == s.Last())
  {
    assert PlaceOk(s, 0);
    forall j: nat | j < s.N() && s.stage[j] == Awake ensures s.pos[j] == s.pos[0] <==> j == s.Last() {
      assert PlaceOk(s, j);
    }
  }

  lemma LateFacts(s: State)
    requires Inv(s) && Late(s)
    ensures Push(s).Some?
    ensures var s' := Push(s).value;
            && s'.slots == s.slots[s.pos[0] := Some(Item(s.pushed, []))] && s'.count == 1 && s'.pos == s.pos
            && s'.stage == s.stage && s'.engine == Running && s'.waitList == s.waitList && s'.out == s.out
            && s'.ready == s.ready && s'.cycle == s.cycle && s'.capacity == s.capacity && s'.pushed == s.pushed + 1
    ensures forall i :: 0 <= i < s.N() ==> s.slots[i].None?
    ensures forall k :: 0 <= k < s.N() ==> s.stage[k] != Worked
    ensures Consecutive(s.waitList, |s.out|) && |s.out| + |s.waitList| == s.pushed && |s.births| == |s.out|
  {
    EmptyLine(s);
    IdsEmpty(Reg(s));
    assert Ids(Reg(s)) + s.waitList == s.waitList;
    forall k: nat | k < s.N() ensures s.stage[k] != Worked { assert CellOk(s, k); }
  }

  /** The engine finds the item in the first worker's slot when it next lets an item in from the wait
      list. */
  lemma EngineAborts(s: State) returns (ss: seq<State>, acts: seq<Action>)
    requires Inv(s) && Late(s) && Moved(s, 0) && s.capacity >= 1
    ensures Push(s).Some? && Steps(ss, acts) && ss[0] == Push(s).value && Aborts(ss[|acts|])
  {
    LateFacts(s);
    LastAtOrigin(s);
    var s' := Push(s).value;
    assert WaitingSet(s') == WaitingSet(s);
    if s.waitList == [] {
      var s'' := Push(s').value;
      assert WaitingSet(s'') == WaitingSet(s);
      ss, acts := JammedAborts(s'');
      Prepend(s', DoPush, ss, acts);
      ss, acts := [s'] + ss, [DoPush] + acts;
    } else {
      ss, acts := JammedAborts(s');
    }
  }

  // ---------------------------------------------------------------- the first worker has not moved on

  // The line then goes on as one whose items had been pushed in the order in which they are now, with
  // an item the first worker has worked on if it has worked at all.  That line keeps the invariant;
  // the real one differs from it in the names of the items from m to p and in the work on item m.

  function Label(id: nat, m: nat, p: nat): nat {
    if id == m then p else if m < id <= p then id - 1 else id
  }

  function Seen(x: Item, m: nat, p: nat, missed: bool): Item {
    Item(Label(x.id, m, p), if missed && x.id == m && x.ops != [] then x.ops[1..] else x.ops)
  }

  ghost predicate SlotSeen(x: Option<Item>, y: Option<Item>, m: nat, p: nat, missed: bool) {
    match y
    case None => x == None
    case Some(i) => x == Some(Seen(i, m, p, missed)) && (missed && i.id == m ==> i.ops != [])
  }

  ghost predicate Twins(s: State, t: State, m: nat, p: nat, missed: bool) {
    && |s.slots| == |t.slots| && s.pos == t.pos && s.stage == t.stage && s.engine == t.engine && s.ready == t.ready
    && s.count == t.count && s.cycle == t.cycle && |s.waitList| == |t.waitList| && |s.out| == |t.out|
    && (forall i {:trigger t.slots[i]} :: 0 <= i < |t.slots| ==> SlotSeen(s.slots[i], t.slots[i], m, p, missed))
    && (forall i {:trigger t.waitList[i]} :: 0 <= i < |t.waitList| ==>
          s.waitList[i] == Label(t.waitList[i], m, p) && t.waitList[i] != m)
    && (forall i {:trigger t.out[i]} :: 0 <= i < |t.out| ==> s.out[i].item == Seen(t.out[i].item, m, p, missed))
  }

  lemma TwinsWork(s: State, t: State, m: nat, p: nat, missed: bool, k: nat)
    requires Twins(s, t, m, p, missed) && Shape(s) && Shape(t) && k < t.N()
    ensures Twins(Work(s, k), Work(t, k), m, p, missed)
  {
    var i := t.pos[k];
    assert SlotSeen(s.slots[i], t.slots[i], m, p, missed);
    if t.slots[i].Some? {
      var x := t.slots[i].value;
      assert missed && x.id == m ==> (x.ops + [k])[1..] == x.ops[1..] + [k];
      assert SlotSeen(Work(s, k).slots[i], Work(t, k).slots[i], m, p, missed);
    }
  }

  lemma TwinsRemove(s: State, t: State, m: nat, p: nat, missed: bool)
    requires Twins(s, t, m, p, missed) && Shape(s) && Shape(t) && Remove(t).Some?
    ensures Remove(s).Some? && Twins(Remove(s).value, Remove(t).value, m, p, missed)
  {
    var i := t.pos[t.Last()];
    assert SlotSeen(s.slots[i], t.slots[i], m, p, missed);
  }

  lemma TwinsInsert(s: State, t: State, m: nat, p: nat, missed: bool, birth: nat)
    requires Twins(s, t, m, p, missed) && Shape(s) && Shape(t) && t.waitList != []
    requires Insert(t.(waitList := t.waitList[1..]), t.waitList[0], birth).Some?
    ensures var r := Insert(s.(waitList := s.waitList[1..]), s.waitList[0], birth);
            r.Some? && Twins(r.value, Insert(t.(waitList := t.waitList[1..]), t.waitList[0], birth).value, m, p, missed)
  {
    var i := t.pos[0];
    assert SlotSeen(s.slots[i], t.slots[i], m, p, missed);
    var s' := Insert(s.(waitList := s.waitList[1..]), s.waitList[0], birth).value;
    var t' := Insert(t.(waitList := t.waitList[1..]), t.waitList[0], birth).value;
    assert t.waitList[0] != m;
    forall j | 0 <= j < |t'.waitList| ensures s'.waitList[j] == Label(t'.waitList[j], m, p) && t'.waitList[j] != m {
      assert t'.waitList[j] == t.waitList[j + 1];
    }
  }

  lemma TwinsEndCycle(s: State, t: State, m: nat, p: nat, missed: bool)
    requires Twins(s, t, m, p, missed) && Shape(s) && Shape(t) && EndCycle(t).Some?
    ensures EndCycle(s).Some? && Twins(EndCycle(s).value, EndCycle(t).value, m, p, missed)
  {
    if t.waitList != [] {
      TwinsInsert(s, t, m, p, missed, t.cycle);
    }
  }

  lemma TwinsStep(s: State, t: State, m: nat, p: nat, missed: bool, a: Action, t': State) returns (s': State)
    requires Twins(s, t, m, p, missed) && Shape(s) && Step(t, a, t') && Shape(t') && a != DoPush
    ensures Step(s, a, s') && Shape(s') && Twins(s', t', m, p, missed)
  {
    match a {
      case DoWork(k) => TwinsWork(s, t, m, p, missed, k);
      case DoRemove => TwinsRemove(s, t, m, p, missed);
      case DoEndCycle => TwinsEndCycle(s, t, m, p, missed);
      case _ =>
    }
    s' := Apply(s, a).value;
  }

  lemma {:induction false} TwinsRun(s: State, ts: seq<State>, acts: seq<Action>, m: nat, p: nat, missed: bool)
    returns (ss: seq<State>)
    requires Steps(ts, acts) && Inv(ts[0]) && DoPush !in acts && Shape(s) && Twins(s, ts[0], m, p, missed)
    ensures Steps(ss, acts) && ss[0] == s && Twins(ss[|acts|], ts[|acts|], m, p, missed)
    decreases |acts|
  {
    if acts == [] {
      ss := [s];
    } else {
      FirstStep(ts, acts);
      var s' := TwinsStep(s, ts[0], m, p, missed, acts[0], ts[1]);
      ss := TwinsRun(s', ts[1..], acts[1..], m, p, missed);
      Prepend(s, acts[0], ss, acts[1..]);
      ss := [s] + ss;
    }
  }

  lemma FirstStep(ts: seq<State>, acts: seq<Action>)
    requires Steps(ts, acts) && Inv(ts[0]) && DoPush !in acts && acts != []
    ensures Step(ts[0], acts[0], ts[1]) && Inv(ts[1]) && acts[0] != DoPush && DoPush !in acts[1..]
    ensures Steps(ts[1..], acts[1..]) && ts[1..][|acts[1..]|] == ts[|acts|] && acts == [acts[0]] + acts[1..]
  {
    assert Step(ts[0], acts[0], ts[1]);
    StepKeeps(ts[0], acts[0], ts[1]);
    TailSteps(ts, acts);
  }

  lemma TailSteps(ss: seq<State>, acts: seq<Action>)
    requires Steps(ss, acts) && acts != []
    ensures Steps(ss[1..], acts[1..])
  {
    forall i {:trigger acts[1..][i]} | 0 <= i < |acts[1..]| ensures Step(ss[1..][i], acts[1..][i], ss[1..][i + 1]) {
      assert Step(ss[i + 1], acts[i + 1], ss[i + 2]);
    }
  }

  /** The line as it would be had its items been pushed in the order in which they are now. */
  function Orderly(s: State): State
    requires Shape(s)
  {
    var m := |s.out|;
    s.(slots := s.slots[s.pos[0] := Some(Item(m, if s.stage[0] == Awake then [] else [0]))], count := 1,
       births := s.births + [if s.cycle > 0 then s.cycle - 1 else 0],
       waitList := seq(|s.waitList|, i => m + 1 + i), pushed := s.pushed + 1)
  }

  lemma OrderlyQueue(s: State)
    requires Inv(s) && Late(s) && !Moved(s, 0)
    ensures Shape(Orderly(s)) && QueueOk(Orderly(s))
  {
    LateFacts(s);
    OrderlyIds(s);
    var t := Orderly(s);
    assert Ids(Reg(t)) + t.waitList == [|s.out|] + t.waitList;
  }

  lemma OrderlyIds(s: State)
    requires Inv(s) && Late(s) && !Moved(s, 0)
    ensures Shape(Orderly(s)) && Ids(Reg(Orderly(s))) == [|s.out|]
  {
    var x := Item(|s.out|, if s.stage[0] == Awake then [] else [0]);
    LateFacts(s);
    IdsEmpty(Reg(s));
    assert PlaceOk(s, 0);
    RegisterUpdate(s.slots, Origin(s), 0, Some(x));
    IdsInsert(Reg(s), x);
    assert Ids(Reg(s)) == [];
  }

  lemma OrderlyInv(s: State)
    requires Inv(s) && CyclesOk(s) && Late(s) && !Moved(s, 0)
    ensures Inv(Orderly(s)) && CyclesOk(Orderly(s))
  {
    LateFacts(s);
    OrderlyQueue(s);
    OrderlyCells(s);
    assert WaitingSet(Orderly(s)) == WaitingSet(s);
  }

  lemma OrderlyCells(s: State)
    requires Inv(s) && Late(s) && !Moved(s, 0)
    ensures Shape(Orderly(s)) && Cells(Orderly(s))
  {
    var t, x := Orderly(s), Item(|s.out|, if s.stage[0] == Awake then [] else [0]);
    LateFacts(s);
    assert PlaceOk(s, 0);
    RegisterUpdate(s.slots, Origin(s), 0, Some(x));
    assert Upto(0) == [] && Upto(1) == [0];
    forall k: nat | k < s.N() ensures PlaceOk(t, k) && CellOk(t, k) {
      assert PlaceOk(s, k) && CellOk(s, k);
    }
  }

  lemma OrderlyTwin(s: State)
    requires Inv(s) && Late(s) && !Moved(s, 0)
    ensures Push(s).Some? && Twins(Push(s).value, Orderly(s), |s.out|, s.pushed, s.stage[0] != Awake)
  {
    LateFacts(s);
    var s', t, m := Push(s).value, Orderly(s), |s.out|;
    assert [0][1..] == [];
    assert SlotSeen(s'.slots[s.pos[0]], t.slots[s.pos[0]], m, s.pushed, s.stage[0] != Awake);
    forall i | 0 <= i < |t.waitList| ensures s'.waitList[i] == Label(t.waitList[i], m, s.pushed) && t.waitList[i] != m {
      assert s.waitList[i] == m + i;
    }
  }

  lemma {:induction false} SamePushes(ss: seq<State>, acts: seq<Action>, k: nat)
    requires Steps(ss, acts) && DoPush !in acts && k < |ss|
    ensures ss[k].pushed == ss[0].pushed && ss[k].N() == ss[0].N()
    decreases k
  {
    if k > 0 {
      SamePushes(ss, acts, k - 1);
      assert Step(ss[k - 1], acts[k - 1], ss[k]);
    }
  }

  lemma DrainedOut(ss: seq<State>, acts: seq<Action>)
    requires Steps(ss, acts) && Inv(ss[0]) && DoPush !in acts && ss[|acts|].engine == Idle
    ensures |ss[|acts|].out| == ss[0].pushed && ss[|acts|].N() == ss[0].N() && OutOk(ss[|acts|])
  {
    StepsInv(ss, acts, |acts|);
    SamePushes(ss, acts, |acts|);
  }

  /** The item pushed late leaves next, before every item that was waiting; and it leaves without the
      work of the first worker if that had worked already. */
  lemma LeavesNext(s: State) returns (ss: seq<State>, acts: seq<Action>)
    requires Inv(s) && CyclesOk(s) && Late(s) && !Moved(s, 0)
    ensures Push(s).Some? && Steps(ss, acts) && ss[0] == Push(s).value && |ss[|acts|].out| > |s.out|
    ensures ss[|acts|].out[|s.out|].item == Item(s.pushed, if s.stage[0] == Awake then Upto(s.N()) else Upto(s.N())[1..])
    ensures ss[|acts|].N() == s.N()
  {
    var m, p, missed := |s.out|, s.pushed, s.stage[0] != Awake;
    LateFacts(s);
    OrderlyInv(s);
    OrderlyTwin(s);
    var ts;
    ts, acts := Drain(Orderly(s));
    ss := TwinsRun(Push(s).value, ts, acts, m, p, missed);
    DrainedOut(ts, acts);
    assert ts[|acts|].out[m].item == Item(m, Upto(s.N()));
  }

  // ---------------------------------------------------------------- the exact condition

  /** In every reachable state in which a push would find the line empty in the middle of a cycle: it
      is taken, and the line keeps its promise ever after if and only if the first worker has not
      worked in this cycle and the wait list is empty. */
  lemma LatePushExactly(ss: seq<State>, acts: seq<Action>)
    requires Run(ss, acts) && Late(ss[|acts|])
    ensures Shape(ss[|acts|]) && Push(ss[|acts|]).Some?
    ensures KeepsPromise(Push(ss[|acts|]).value) <==> InTime(ss[|acts|])
  {
    RunCycles(ss, acts, |acts|);
    var s := ss[|acts|];
    CapacityKept(ss, acts, |acts|);
    LateFacts(s);
    if InTime(s) {
      PushLate(s);
      InvPromises(Push(s).value);
    } else {
      LateBreaks(s);
    }
  }

  lemma LateBreaks(s: State)
    requires Inv(s) && CyclesOk(s) && Late(s) && !InTime(s) && s.capacity >= 1
    ensures Push(s).Some? && !KeepsPromise(Push(s).value)
  {
    var ss, acts;
    LateFacts(s);
    if !Moved(s, 0) {
      ss, acts := LeavesNext(s);
      assert ss[|acts|].out[|s.out|].item != Item(|s.out|, Upto(s.N()));
    } else {
      ss, acts := EngineAborts(s);
    }
    Broken(ss, acts);
  }

  lemma {:induction false} CapacityKept(ss: seq<State>, acts: seq<Action>, k: nat)
    requires Run(ss, acts) && k < |ss|
    ensures ss[k].capacity >= 1
    decreases k
  {
    if k > 0 {
      CapacityKept(ss, acts, k - 1);
      assert Step(ss[k - 1], acts[k - 1], ss[k]);
    }
  }

  // ---------------------------------------------------------------- runs into each of the bad cases

  /** A line of two workers with room for one waiting item. */
  function Two(slots: seq<Option<Item>>, count: nat, pos: seq<nat>, stage: seq<Stage>, engine: Engine, ready: nat,
               waitList: seq<nat>, cycle: nat, pushed: nat, births: seq<nat>, out: seq<Done>): State
  {
    State(slots, count, pos, stage, engine, ready, waitList, 1, cycle, pushed, births, out)
  }

  lemma Extend(ss: seq<State>, acts: seq<Action>, a: Action, s': State) returns (ss': seq<State>)
    requires Run(ss, acts) && Shape(ss[|acts|]) && Enabled(ss[|acts|], a) && Apply(ss[|acts|], a).Some?
    requires var r := Apply(ss[|acts|], a).value;
             && r.slots == s'.slots && r.count == s'.count && r.pos == s'.pos && r.stage == s'.stage
             && r.engine == s'.engine && r.ready == s'.ready && r.waitList == s'.waitList && r.capacity == s'.capacity
             && r.cycle == s'.cycle && r.pushed == s'.pushed && r.births == s'.births && r.out == s'.out
    ensures Run(ss', acts + [a]) && ss'[|acts| + 1] == s'
  {
    ss' := ss + [s'];
    var acts' := acts + [a];
    forall i {:trigger acts'[i]} | 0 <= i < |acts'| ensures Step(ss'[i], acts'[i], ss'[i + 1]) {
      assert i < |acts| ==> Step(ss[i], acts[i], ss[i + 1]);
    }
  }

  /** The first item is pushed and the first cycle begins. */
  lemma FirstPush(ss: seq<State>, acts: seq<Action>) returns (ss': seq<State>, acts': seq<Action>)
    requires Run(ss, acts)
    requires ss[|acts|] == Two([None, None], 0, [0, 1], [Waiting, Waiting], Idle, 2, [], 0, 0, [], [])
    ensures Run(ss', acts')
    ensures ss'[|acts'|] == Two([Some(Item(0, [])), None], 1, [0, 1], [Awake, Awake], Running, 0, [], 1, 1, [0], [])
  {
    ss', acts' := ss, acts;
    ss' := Extend(ss', acts', DoPush,
      Two([Some(Item(0, [])), None], 1, [0, 1], [Waiting, Waiting], Starting, 2, [], 0, 1, [0], []));
    acts' := acts' + [DoPush];
    ss' := Extend(ss', acts', DoStart,
      Two([Some(Item(0, [])), None], 1, [0, 1], [Awake, Awake], Running, 0, [], 1, 1, [0], []));
    acts' := acts' + [DoStart];
  }

  /** Worker 0 works on the item and moves on. */
  lemma FirstWork(ss: seq<State>, acts: seq<Action>) returns (ss': seq<State>, acts': seq<Action>)
    requires Run(ss, acts)
    requires ss[|acts|] == Two([Some(Item(0, [])), None], 1, [0, 1], [Awake, Awake], Running, 0, [], 1, 1, [0], [])
    ensures Run(ss', acts')
    ensures ss'[|acts'|] == Two([Some(Item(0, [0])), None], 1, [1, 1], [Turned, Awake], Running, 0, [], 1, 1, [0], [])
  {
    ss', acts' := ss, acts;
    assert [] + [0] == [0];
    ss' := Extend(ss', acts', DoWork(0),
      Two([Some(Item(0, [0])), None], 1, [0, 1], [Cleared, Awake], Running, 0, [], 1, 1, [0], []));
    acts' := acts' + [DoWork(0)];
    ss' := Extend(ss', acts', DoTurn(0),
      Two([Some(Item(0, [0])), None], 1, [1, 1], [Turned, Awake], Running, 0, [], 1, 1, [0], []));
    acts' := acts' + [DoTurn(0)];
  }

  /** Worker 0 is ready, worker 1 finds its slot empty. */
  lemma FirstReady(ss: seq<State>, acts: seq<Action>) returns (ss': seq<State>, acts': seq<Action>)
    requires Run(ss, acts)
    requires ss[|acts|] == Two([Some(Item(0, [0])), None], 1, [1, 1], [Turned, Awake], Running, 0, [], 1, 1, [0], [])
    ensures Run(ss', acts')
    ensures ss'[|acts'|] == Two([Some(Item(0, [0])), None], 1, [1, 1], [Waiting, Cleared], Running, 1, [], 1, 1, [0], [])
  {
    ss', acts' := ss, acts;
    ss' := Extend(ss', acts', DoReport(0),
      Two([Some(Item(0, [0])), None], 1, [1, 1], [Waiting, Awake], Running, 1, [], 1, 1, [0], []));
    acts' := acts' + [DoReport(0)];
    ss' := Extend(ss', acts', DoWork(1),
      Two([Some(Item(0, [0])), None], 1, [1, 1], [Waiting, Cleared], Running, 1, [], 1, 1, [0], []));
    acts' := acts' + [DoWork(1)];
  }

  /** Worker 1 moves on and is ready. */
  lemma FirstCycle(ss: seq<State>, acts: seq<Action>) returns (ss': seq<State>, acts': seq<Action>)
    requires Run(ss, acts)
    requires ss[|acts|] == Two([Some(Item(0, [0])), None], 1, [1, 1], [Waiting, Cleared], Running, 1, [], 1, 1, [0], [])
    ensures Run(ss', acts')
    ensures ss'[|acts'|] == Two([Some(Item(0, [0])), None], 1, [1, 0], [Waiting, Waiting], Running, 2, [], 1, 1, [0], [])
  {
    ss', acts' := ss, acts;
    ss' := Extend(ss', acts', DoTurn(1),
      Two([Some(Item(0, [0])), None], 1, [1, 0], [Waiting, Turned], Running, 1, [], 1, 1, [0], []));
    acts' := acts' + [DoTurn(1)];
    ss' := Extend(ss', acts', DoReport(1),
      Two([Some(Item(0, [0])), None], 1, [1, 0], [Waiting, Waiting], Running, 2, [], 1, 1, [0], []));
    acts' := acts' + [DoReport(1)];
  }

  /** The second cycle begins; worker 1 is at the item. */
  lemma SecondCycle(ss: seq<State>, acts: seq<Action>) returns (ss': seq<State>, acts': seq<Action>)
    requires Run(ss, acts)
    requires ss[|acts|] == Two([Some(Item(0, [0])), None], 1, [1, 0], [Waiting, Waiting], Running, 2, [], 1, 1, [0], [])
    ensures Run(ss', acts')
    ensures ss'[|acts'|] == Two([Some(Item(0, [0])), None], 1, [1, 0], [Awake, Awake], Running, 0, [], 2, 1, [0], [])
  {
    ss', acts' := ss, acts;
    ss' := Extend(ss', acts', DoEndCycle,
      Two([Some(Item(0, [0])), None], 1, [1, 0], [Awake, Awake], Running, 0, [], 2, 1, [0], []));
    acts' := acts' + [DoEndCycle];
  }

  lemma ToSecondCycle() returns (ss: seq<State>, acts: seq<Action>)
    ensures Run(ss, acts)
    ensures ss[|acts|] == Two([Some(Item(0, [0])), None], 1, [1, 0], [Awake, Awake], Running, 0, [], 2, 1, [0], [])
  {
    ss, acts := [Two([None, None], 0, [0, 1], [Waiting, Waiting], Idle, 2, [], 0, 0, [], [])], [];
    ss, acts := FirstPush(ss, acts);
    ss, acts := FirstWork(ss, acts);
    ss, acts := FirstReady(ss, acts);
    ss, acts := FirstCycle(ss, acts);
    ss, acts := SecondCycle(ss, acts);
  }

  /** Worker 0 finds its slot empty, worker 1 works on the item ... */
  lemma Emptied(ss: seq<State>, acts: seq<Action>) returns (ss': seq<State>, acts': seq<Action>)
    requires Run(ss, acts)
    requires ss[|acts|] == Two([Some(Item(0, [0])), None], 1, [1, 0], [Awake, Awake], Running, 0, [], 2, 1, [0], [])
    ensures Run(ss', acts')
    ensures ss'[|acts'|] == Two([Some(Item(0, [0, 1])), None], 1, [1, 0], [Cleared, Worked], Running, 0, [], 2, 1, [0], [])
  {
    ss', acts' := ss, acts;
    ss' := Extend(ss', acts', DoWork(0),
      Two([Some(Item(0, [0])), None], 1, [1, 0], [Cleared, Awake], Running, 0, [], 2, 1, [0], []));
    acts' := acts' + [DoWork(0)];
    assert [0] + [1] == [0, 1];
    ss' := Extend(ss', acts', DoWork(1),
      Two([Some(Item(0, [0, 1])), None], 1, [1, 0], [Cleared, Worked], Running, 0, [], 2, 1, [0], []));
    acts' := acts' + [DoWork(1)];
  }

  /** ... and takes it out. */
  lemma EmptiedRemove(ss: seq<State>, acts: seq<Action>) returns (ss': seq<State>, acts': seq<Action>)
    requires Run(ss, acts)
    requires ss[|acts|] == Two([Some(Item(0, [0, 1])), None], 1, [1, 0], [Cleared, Worked], Running, 0, [], 2, 1, [0], [])
    ensures Run(ss', acts')
    ensures ss'[|acts'|] == Two([None, None], 0, [1, 0], [Cleared, Cleared], Running, 0, [], 2, 1, [0], [Done(Item(0, [0, 1]), 2)])
  {
    ss', acts' := ss, acts;
    ss' := Extend(ss', acts', DoRemove,
      Two([None, None], 0, [1, 0], [Cleared, Cleared], Running, 0, [], 2, 1, [0], [Done(Item(0, [0, 1]), 2)]));
    acts' := acts' + [DoRemove];
  }

  /** Worker 0 moves on. */
  lemma EmptiedTurn(ss: seq<State>, acts: seq<Action>) returns (ss': seq<State>, acts': seq<Action>)
    requires Run(ss, acts)
    requires ss[|acts|] == Two([None, None], 0, [1, 0], [Cleared, Cleared], Running, 0, [], 2, 1, [0], [Done(Item(0, [0, 1]), 2)])
    ensures Run(ss', acts')
    ensures ss'[|acts'|] == Two([None, None], 0, [0, 0], [Turned, Cleared], Running, 0, [], 2, 1, [0], [Done(Item(0, [0, 1]), 2)])
  {
    ss', acts' := ss, acts;
    ss' := Extend(ss', acts', DoTurn(0),
      Two([None, None], 0, [0, 0], [Turned, Cleared], Running, 0, [], 2, 1, [0], [Done(Item(0, [0, 1]), 2)]));
    acts' := acts' + [DoTurn(0)];
  }

  /** A second item is put on the wait list while worker 1 has yet to work. */
  lemma Overtaken(ss: seq<State>, acts: seq<Action>) returns (ss': seq<State>, acts': seq<Action>)
    requires Run(ss, acts)
    requires ss[|acts|] == Two([Some(Item(0, [0])), None], 1, [1, 0], [Awake, Awake], Running, 0, [], 2, 1, [0], [])
    ensures Run(ss', acts')
    ensures ss'[|acts'|] == Two([Some(Item(0, [0])), None], 1, [1, 0], [Awake, Awake], Running, 0, [1], 2, 2, [0], [])
  {
    ss', acts' := ss, acts;
    ss' := Extend(ss', acts', DoPush,
      Two([Some(Item(0, [0])), None], 1, [1, 0], [Awake, Awake], Running, 0, [1], 2, 2, [0], []));
    acts' := acts' + [DoPush];
  }

  /** Worker 1 works on the first item and takes it out. */
  lemma OvertakenWork(ss: seq<State>, acts: seq<Action>) returns (ss': seq<State>, acts': seq<Action>)
    requires Run(ss, acts)
    requires ss[|acts|] == Two([Some(Item(0, [0])), None], 1, [1, 0], [Awake, Awake], Running, 0, [1], 2, 2, [0], [])
    ensures Run(ss', acts')
    ensures ss'[|acts'|] == Two([None, None], 0, [1, 0], [Awake, Cleared], Running, 0, [1], 2, 2, [0], [Done(Item(0, [0, 1]), 2)])
  {
    ss', acts' := ss, acts;
    assert [0] + [1] == [0, 1];
    ss' := Extend(ss', acts', DoWork(1),
      Two([Some(Item(0, [0, 1])), None], 1, [1, 0], [Awake, Worked], Running, 0, [1], 2, 2, [0], []));
    acts' := acts' + [DoWork(1)];
    ss' := Extend(ss', acts', DoRemove,
      Two([None, None], 0, [1, 0], [Awake, Cleared], Running, 0, [1], 2, 2, [0], [Done(Item(0, [0, 1]), 2)]));
    acts' := acts' + [DoRemove];
  }

  lemma ToEmptied() returns (ss: seq<State>, acts: seq<Action>)
    ensures Run(ss, acts)
    ensures ss[|acts|] == Two([None, None], 0, [1, 0], [Cleared, Cleared], Running, 0, [], 2, 1, [0], [Done(Item(0, [0, 1]), 2)])
  {
    ss, acts := ToSecondCycle();
    ss, acts := Emptied(ss, acts);
    ss, acts := EmptiedRemove(ss, acts);
  }

  lemma LateLeavesNext(ss: seq<State>, acts: seq<Action>) returns (cs: seq<State>, cacts: seq<Action>)
    requires Run(ss, acts) && Late(ss[|acts|]) && Shape(ss[|acts|]) && !Moved(ss[|acts|], 0)
    ensures var s := ss[|acts|];
            && Push(s).Some? && Steps(cs, cacts) && cs[0] == Push(s).value && |cs[|cacts|].out| > |s.out|
            && cs[|cacts|].out[|s.out|].item == Item(s.pushed, if s.stage[0] == Awake then Upto(s.N()) else Upto(s.N())[1..])
  {
    RunCycles(ss, acts, |acts|);
    cs, cacts := LeavesNext(ss[|acts|]);
  }

  /** A late push whose item misses worker 0: it leaves worked on by worker 1 only. */
  lemma MissingInput() returns (ss: seq<State>, acts: seq<Action>, cs: seq<State>, cacts: seq<Action>)
    ensures Run(ss, acts) && Late(ss[|acts|]) && Shape(ss[|acts|]) && Push(ss[|acts|]).Some?
    ensures Steps(cs, cacts) && cs[0] == Push(ss[|acts|]).value
    ensures |cs[|cacts|].out| > 1 && cs[|cacts|].out[1].item == Item(1, [1])
  {
    ss, acts := ToEmptied();
    cs, cacts := LateLeavesNext(ss, acts);
    assert Upto(2)[1..] == [1];
  }

  /** A late push after which the engine's next insertion fails its assertion. */
  lemma AbortingInput() returns (ss: seq<State>, acts: seq<Action>, cs: seq<State>, cacts: seq<Action>)
    ensures Run(ss, acts) && Late(ss[|acts|]) && Shape(ss[|acts|]) && Push(ss[|acts|]).Some?
    ensures Steps(cs, cacts) && cs[0] == Push(ss[|acts|]).value && Aborts(cs[|cacts|])
  {
    ss, acts := ToEmptied();
    ss, acts := EmptiedTurn(ss, acts);
    RunInv(ss, acts, |acts|);
    cs, cacts := EngineAborts(ss[|acts|]);
  }

  /** A late push of item 2, although worker 0 has not worked, that leaves before item 1. */
  lemma OvertakingInput() returns (ss: seq<State>, acts: seq<Action>, cs: seq<State>, cacts: seq<Action>)
    ensures Run(ss, acts) && Late(ss[|acts|]) && Shape(ss[|acts|]) && Push(ss[|acts|]).Some?
    ensures ss[|acts|].stage[0] == Awake && Steps(cs, cacts) && cs[0] == Push(ss[|acts|]).value
    ensures |cs[|cacts|].out| > 1 && cs[|cacts|].out[1].item.id == 2
  {
    ss, acts := ToSecondCycle();
    ss, acts := Overtaken(ss, acts);
    ss, acts := OvertakenWork(ss, acts);
    cs, cacts := LateLeavesNext(ss, acts);
  }
}
