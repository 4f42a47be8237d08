/** The rotating assembly line of ThreadSyncAdv/threadlib/threadlib.c.

    Items stay in the slots of a circular buffer; the workers move backwards over it, one slot per
    cycle, so that an item meets workers 0, 1, 2, ... in order.  Workers, the engine and pushes
    interleave freely.  A step that fails an assertion of the code has no result. */
module AssemblyLine {
  import opened Base

  // ---------------------------------------------------------------- the state

  /** An item, named by the order of its push, with the workers that have worked on it so far. */
  datatype Item = Item(id: nat, ops: seq<nat>)

  /** An item that has left the line, and the number of the cycle in which it did. */
  datatype Done = Done(item: Item, cycle: nat)

  /** A worker within a cycle: woken; done working but with an item to remove (the last worker
      only); done with its slot; moved to its next slot; reported ready and waiting. */
  datatype Stage = Awake | Worked | Cleared | Turned | Waiting

  /** The engine: waiting (or not yet made), told to start, or running a cycle. */
  datatype Engine = Idle | Starting | Running

  /** assembly_line_t, with the number of cycles started, of items pushed, the number of the last
      cycle before each item in the line met the first worker, and the items that have left it. */
  datatype State = State(
    slots: seq<Option<Item>>, count: nat, pos: seq<nat>, stage: seq<Stage>,
    engine: Engine, ready: nat, waitList: seq<nat>, capacity: nat,
    cycle: nat, pushed: nat, births: seq<nat>, out: seq<Done>)
  {
    function N(): nat { |slots| }
    function Last(): int { |slots| - 1 }
  }

  predicate Shape(s: State) {
    && s.N() >= 2 && |s.pos| == s.N() == |s.stage|
    && forall k :: 0 <= k < s.N() ==> s.pos[k] < s.N()
  }

  // ---------------------------------------------------------------- the steps

  /** The slot a worker moves to next. */
  function Back(i: nat, n: nat): nat
    requires i < n
  {
    if i == 0 then n - 1 else i - 1
  }

  /** assembly_line_enqueue_new_item: the first worker's slot must be empty. */
  function Insert(s: State, id: nat, birth: nat): Option<State>
    requires Shape(s)
  {
    if s.slots[s.pos[0]].Some? then None
    else Some(s.(slots := s.slots[s.pos[0] := Some(Item(id, []))], count := s.count + 1, births := s.births + [birth]))
  }

  /** assembly_line_push_new_item. */
  function Push(s: State): Option<State>
    requires Shape(s)
  {
    var r := if s.count == 0 then Insert(s, s.pushed, if s.engine == Running && s.cycle > 0 then s.cycle - 1 else s.cycle)
             else if |s.waitList| < s.capacity then Some(s.(waitList := s.waitList + [s.pushed]))
             else None;
    if r.None? then None
    else Some(r.value.(pushed := s.pushed + 1, engine := if s.engine == Idle then Starting else s.engine))
  }

  function StartCycle(s: State): State {
    s.(engine := Running, ready := 0, stage := seq(s.N(), _ => Awake), cycle := s.cycle + 1)
  }

  /** The engine when all workers are ready: one item from the wait list, then the next cycle or a halt. */
  function EndCycle(s: State): Option<State>
    requires Shape(s)
  {
    var r := if s.waitList == [] then Some(s) else Insert(s.(waitList := s.waitList[1..]), s.waitList[0], s.cycle);
    if r.None? then None
    else if r.value.count > 0 then Some(StartCycle(r.value)) else Some(r.value.(engine := Idle))
  }

  function Work(s: State, k: nat): State
    requires Shape(s) && k < s.N()
  {
    match s.slots[s.pos[k]]
    case None => s.(stage := s.stage[k := Cleared])
    case Some(x) =>
      s.(slots := s.slots[s.pos[k] := Some(x.(ops := x.ops + [k]))],
         stage := s.stage[k := if k == s.Last() then Worked else Cleared])
  }

  /** The last worker takes the finished item out. */
  function Remove(s: State): Option<State>
    requires Shape(s)
  {
    var k := s.Last();
    if s.slots[s.pos[k]].None? || s.count == 0 then None
    else Some(s.(slots := s.slots[s.pos[k] := None], count := s.count - 1, stage := s.stage[k := Cleared],
                 out := s.out + [Done(s.slots[s.pos[k]].value, s.cycle)]))
  }

  function Turn(s: State, k: nat): State
    requires Shape(s) && k < s.N()
  {
    s.(pos := s.pos[k := Back(s.pos[k], s.N())], stage := s.stage[k := Turned])
  }

  function Report(s: State, k: nat): State
    requires Shape(s) && k < s.N()
  {
    s.(ready := s.ready + 1, stage := s.stage[k := Waiting])
  }

  datatype Action =
    | DoPush | DoStart | DoEndCycle | DoWork(k: nat) | DoRemove | DoTurn(k: nat) | DoReport(k: nat)

  /** A push that finds the line empty in the middle of a cycle. */
  predicate Late(s: State) {
    s.engine == Running && s.count == 0
  }

  /** Such a push is in time if the first worker has not worked in this cycle and nobody waits. */
  predicate InTime(s: State)
    requires Shape(s)
  {
    s.stage[0] == Awake && s.waitList == []
  }

  /** Late pushes come in time, and pushes never find the wait list full. */
  ghost predicate Enabled(s: State, a: Action)
    requires Shape(s)
  {
    match a
    case DoPush => (Late(s) ==> InTime(s)) && (s.count > 0 ==> |s.waitList| < s.capacity)
    case DoStart => s.engine == Starting
    case DoEndCycle => s.engine == Running && s.ready == s.N()
    case DoWork(k) => k < s.N() && s.stage[k] == Awake
    case DoRemove => s.stage[s.Last()] == Worked
    case DoTurn(k) => k < s.N() && s.stage[k] == Cleared
    case DoReport(k) => k < s.N() && s.stage[k] == Turned
  }

  function Apply(s: State, a: Action): Option<State>
    requires Shape(s)
  {
    match a
    case DoPush => Push(s)
    case DoStart => Some(StartCycle(s))
    case DoEndCycle => EndCycle(s)
    case DoWork(k) => if k < s.N() then Some(Work(s, k)) else None
    case DoRemove => Remove(s)
    case DoTurn(k) => if k < s.N() then Some(Turn(s, k)) else None
    case DoReport(k) => if k < s.N() then Some(Report(s, k)) else None
  }

  /** All workers have reported for the first time: worker k is at slot k. */
  ghost predicate Init(s: State) {
    && Shape(s) && (forall k :: 0 <= k < s.N() ==> s.slots[k] == None && s.pos[k] == k && s.stage[k] == Waiting)
    && s.count == 0 && s.engine == Idle && s.ready == s.N() && s.waitList == [] && s.capacity >= 1
    && s.cycle == 0 && s.pushed == 0 && s.births == [] && s.out == []
  }

  // ---------------------------------------------------------------- the line as a shift register

  /** The slot k places after slot a. */
  function At(a: nat, k: nat, n: nat): (i: nat)
    requires a < n && k < n
    ensures i < n
  {
    if a + k < n then a + k else a + k - n
  }

  lemma AtIsMod(a: nat, k: nat, n: nat)
    requires a < n && k < n
    ensures At(a, k, n) == (a + k) % n
  {
  }

  /** Worker k has moved on in the current cycle. */
  predicate Moved(s: State, k: nat)
    requires Shape(s) && k < s.N()
  {
    s.engine == Running && (s.stage[k] == Turned || s.stage[k] == Waiting)
  }

  /** The slot the first worker had at the start of the cycle. */
  function Origin(s: State): (a: nat)
    requires Shape(s)
    ensures a < s.N()
  {
    if !Moved(s, 0) then s.pos[0] else if s.pos[0] == s.N() - 1 then 0 else s.pos[0] + 1
  }

  /** The slots in the order of the workers, whose places are counted from slot a. */
  function Register(slots: seq<Option<Item>>, a: nat): (r: seq<Option<Item>>)
    requires a < |slots|
    ensures |r| == |slots| && forall k :: 0 <= k < |r| ==> r[k] == slots[At(a, k, |slots|)]
  {
    seq(|slots|, k requires 0 <= k < |slots| => slots[At(a, k, |slots|)])
  }

  /** The items in a register, those furthest along first. */
  function Ids(r: seq<Option<Item>>): seq<nat> {
    if r == [] then []
    else (if r[|r| - 1].Some? then [r[|r| - 1].value.id] else []) + Ids(r[..|r| - 1])
  }

  lemma RegisterUpdate(slots: seq<Option<Item>>, a: nat, k: nat, x: Option<Item>)
    requires a < |slots| && k < |slots|
    ensures Register(slots[At(a, k, |slots|) := x], a) == Register(slots, a)[k := x]
  {
  }

  /** Counting places from the slot before, the register is shifted by one, the last item first. */
  lemma RegisterShift(slots: seq<Option<Item>>, a: nat)
    requires a < |slots|
    ensures var n := |slots|;
            Register(slots, Back(a, n)) == [Register(slots, a)[n - 1]] + Register(slots, a)[..n - 1]
  {
  }

  lemma {:induction false} IdsInsert(r: seq<Option<Item>>, x: Item)
    requires r != [] && r[0].None?
    ensures Ids(r[0 := Some(x)]) == Ids(r) + [x.id]
  {
    var r', front := r[0 := Some(x)], r[..|r| - 1];
    if |r| == 1 {
      assert r'[..0] == [] == front && Ids(r') == [x.id] + Ids([]);
    } else {
      var last := if r[|r| - 1].Some? then [r[|r| - 1].value.id] else [];
      IdsInsert(front, x);
      assert r'[..|r| - 1] == front[0 := Some(x)];
      assert Ids(r') == last + (Ids(front) + [x.id]);
    }
  }

  lemma {:induction false} IdsSame(r: seq<Option<Item>>, r': seq<Option<Item>>)
    requires |r| == |r'|
    requires forall k :: 0 <= k < |r| ==> r[k].Some? == r'[k].Some? && (r[k].Some? ==> r[k].value.id == r'[k].value.id)
    ensures Ids(r) == Ids(r')
  {
    if r != [] {
      IdsSame(r[..|r| - 1], r'[..|r| - 1]);
    }
  }

  lemma {:induction false} IdsPrepend(r: seq<Option<Item>>)
    ensures Ids([None] + r) == Ids(r)
  {
    var r' := [None] + r;
    if r == [] {
      assert r'[..0] == [] && Ids(r') == [] + Ids([]);
    } else {
      var front := r[..|r| - 1];
      var last := if r[|r| - 1].Some? then [r[|r| - 1].value.id] else [];
      IdsPrepend(front);
      assert r'[..|r'| - 1] == [None] + front && r'[|r'| - 1] == r[|r| - 1];
      assert Ids(r') == last + Ids([None] + front) == last + Ids(front);
    }
  }

  lemma {:induction false} IdsEmpty(r: seq<Option<Item>>)
    ensures Ids(r) == [] <==> forall k :: 0 <= k < |r| ==> r[k].None?
  {
    if r != [] {
      IdsEmpty(r[..|r| - 1]);
    }
  }

  // ---------------------------------------------------------------- the invariant

  function Upto(k: nat): (r: seq<nat>)
    ensures |r| == k && forall i :: 0 <= i < k ==> r[i] == i
  {
    seq(k, i => i)
  }

  function Reg(s: State): seq<Option<Item>>
    requires Shape(s)
  {
    Register(s.slots, Origin(s))
  }

  /** Every worker is in its place for the cycle, or in the one before it if it has moved on. */
  ghost predicate PlaceOk(s: State, k: nat)
    requires Shape(s) && k < s.N()
  {
    var i := At(Origin(s), k, s.N());
    s.pos[k] == if Moved(s, k) then Back(i, s.N()) else i
  }

  /** The item at worker k has been worked on by workers 0 to k-1 (and by k, if k has worked in this
      cycle) and has been in the line for as many cycles; the last worker removes it. */
  ghost predicate CellOk(s: State, k: nat)
    requires Shape(s) && k < s.N()
  {
    var c := Reg(s)[k];
    && (c.Some? ==>
          && c.value.ops == Upto(if s.engine == Running && s.stage[k] != Awake then k + 1 else k)
          && c.value.id < |s.births|
          && s.births[c.value.id] + k + (if s.engine == Running then 1 else 0) == s.cycle)
    && (s.stage[k] == Worked ==> k == s.Last() && c.Some?)
    && (s.engine == Running && k == s.Last() && s.stage[k] != Awake && s.stage[k] != Worked ==> c.None?)
  }

  function WaitingSet(s: State): set<nat> {
    set k: nat | k < |s.stage| && s.stage[k] == Waiting
  }

  ghost predicate ReadyOk(s: State) {
    && s.ready == |WaitingSet(s)| && (s.engine == Running ==> s.cycle > 0)
    && (s.engine != Running ==> forall k :: 0 <= k < |s.stage| ==> s.stage[k] == Waiting)
  }

  ghost predicate Consecutive(q: seq<nat>, from: nat) {
    forall i :: 0 <= i < |q| ==> q[i] == from + i
  }

  lemma ConsecutiveTail(x: nat, q: seq<nat>, w: seq<nat>, from: nat)
    requires Consecutive([x] + q + w, from)
    ensures x == from && Consecutive(q + w, from + 1)
  {
    var all := [x] + q + w;
    assert all[0] == x;
    forall i | 0 <= i < |q + w| ensures (q + w)[i] == from + 1 + i { assert (q + w)[i] == all[i + 1]; }
  }

  /** The items in the line and then those on the wait list are the pushed ones that have not left,
      in the order of their pushes. */
  ghost predicate QueueOk(s: State)
    requires Shape(s)
  {
    var q := Ids(Reg(s)) + s.waitList;
    && s.count == |Ids(Reg(s))|
    && |s.out| + |q| == s.pushed && Consecutive(q, |s.out|)
    && |s.births| == |s.out| + s.count
    && (s.engine == Idle ==> s.count == 0 && s.waitList == [])
    && (s.engine == Starting ==> s.count > 0)
  }

  ghost predicate OutOk(s: State) {
    |s.out| <= |s.births| && forall i :: 0 <= i < |s.out| ==>
      s.out[i].item == Item(i, Upto(s.N())) && s.out[i].cycle == s.births[i] + s.N()
  }

  ghost predicate Cells(s: State)
    requires Shape(s)
  {
    && (forall k: nat {:trigger PlaceOk(s, k)} :: k < s.N() ==> PlaceOk(s, k))
    && (forall k: nat {:trigger CellOk(s, k)} :: k < s.N() ==> CellOk(s, k))
  }

  /** A cycle starts with an item, and only the last worker takes items out. */
  ghost predicate BusyOk(s: State)
    requires Shape(s)
  {
    s.engine == Running && s.stage[s.Last()] == Awake ==> s.count > 0
  }

  ghost predicate Inv(s: State) {
    Shape(s) && Cells(s) && ReadyOk(s) && QueueOk(s) && BusyOk(s) && OutOk(s)
  }

  // ---------------------------------------------------------------- what each step keeps

  lemma InvInit(s: State)
    requires Init(s)
    ensures Inv(s)
  {
    IdsEmpty(Reg(s));
    AllWaiting(s);
    forall k: nat | k < s.N() ensures PlaceOk(s, k) && CellOk(s, k) {}
  }

  ghost function AllBelow(n: nat): (r: set<nat>)
    ensures |r| == n && forall k: nat :: k in r <==> k < n
  {
    if n == 0 then {} else AllBelow(n - 1) + {n - 1}
  }

  /** As many workers wait as there are workers exactly when all wait. */
  lemma AllWaiting(s: State)
    ensures |WaitingSet(s)| == |s.stage| <==> forall k :: 0 <= k < |s.stage| ==> s.stage[k] == Waiting
  {
    var all := AllBelow(|s.stage|);
    assert WaitingSet(s) <= all;
    if |WaitingSet(s)| == |s.stage| {
      EqualSizeSubset(WaitingSet(s), all);
      forall k | 0 <= k < |s.stage| ensures s.stage[k] == Waiting { assert k in all; }
    } else {
      assert WaitingSet(s) != all;
    }
  }

  /** A step of worker k that leaves the other workers alone and moves no place. */
  ghost predicate OnlyWorker(s: State, s': State, k: nat)
    requires Shape(s) && k < s.N()
  {
    && Shape(s') && s'.N() == s.N() && s'.engine == s.engine
    && (forall i :: 0 <= i < s.N() && i != k ==> s'.pos[i] == s.pos[i] && s'.stage[i] == s.stage[i])
    && Origin(s') == Origin(s)
    && s'.cycle == s.cycle && s'.births == s.births && s'.waitList == s.waitList && s'.pushed == s.pushed
  }

  lemma OtherWorkers(s: State, s': State, k: nat, i: nat)
    requires Inv(s) && k < s.N() && OnlyWorker(s, s', k) && i < s.N() && i != k
    requires Reg(s')[i] == Reg(s)[i]
    ensures PlaceOk(s', i) && CellOk(s', i)
  {
    assert PlaceOk(s, i) && CellOk(s, i);
  }

  lemma WorkerCells(s: State, s': State, k: nat)
    requires Inv(s) && k < s.N() && OnlyWorker(s, s', k) && PlaceOk(s', k) && CellOk(s', k)
    requires forall i :: 0 <= i < s.N() && i != k ==> Reg(s')[i] == Reg(s)[i]
    ensures Cells(s')
  {
    forall i: nat | i < s.N() ensures PlaceOk(s', i) && CellOk(s', i) {
      if i != k { OtherWorkers(s, s', k, i); }
    }
  }

  lemma WorkCell(s: State, k: nat)
    requires Inv(s) && k < s.N() && s.stage[k] == Awake
    ensures var s' := Work(s, k);
            && OnlyWorker(s, s', k) && PlaceOk(s', k) && CellOk(s', k)
            && Reg(s') == Reg(s)[k := s'.slots[s.pos[k]]] && Reg(s)[k] == s.slots[s.pos[k]]
  {
    assert PlaceOk(s, k) && CellOk(s, k);
    assert s.engine == Running;
    var s' := Work(s, k);
    var x := s'.slots[s.pos[k]];
    assert s'.slots == s.slots[s.pos[k] := x];
    RegisterUpdate(s.slots, Origin(s), k, x);
    assert Upto(k) + [k] == Upto(k + 1);
  }

  lemma WorkKeeps(s: State, k: nat)
    requires Inv(s) && k < s.N() && s.stage[k] == Awake
    ensures Inv(Work(s, k))
  {
    WorkCell(s, k);
    WorkerCells(s, Work(s, k), k);
    WorkQueue(s, k);
  }

  lemma WorkQueue(s: State, k: nat)
    requires Inv(s) && k < s.N() && s.stage[k] == Awake && Cells(Work(s, k)) && OnlyWorker(s, Work(s, k), k)
    ensures Shape(Work(s, k)) && QueueOk(Work(s, k)) && ReadyOk(Work(s, k)) && BusyOk(Work(s, k)) && OutOk(Work(s, k))
  {
    WorkCell(s, k);
    IdsSame(Reg(s), Reg(Work(s, k)));
    assert WaitingSet(Work(s, k)) == WaitingSet(s);
  }

  lemma RemoveCell(s: State)
    requires Inv(s) && s.stage[s.Last()] == Worked
    ensures Remove(s).Some?
    ensures var s', k, x := Remove(s).value, s.Last(), s.slots[s.pos[s.Last()]].value;
            && OnlyWorker(s, s', k) && PlaceOk(s', k) && CellOk(s', k)
            && Reg(s') == Reg(s)[k := None] && Reg(s)[k] == Some(x)
            && x.ops == Upto(s.N()) && x.id < |s.births| && s.births[x.id] + s.N() == s.cycle
            && s'.out == s.out + [Done(x, s.cycle)] && s'.count == s.count - 1
            && WaitingSet(s') == WaitingSet(s)
  {
    var k := s.Last();
    assert PlaceOk(s, k) && CellOk(s, k);
    assert s.engine == Running;
    assert Ids(Reg(s)) == [Reg(s)[k].value.id] + Ids(Reg(s)[..k]);
    RegisterUpdate(s.slots, Origin(s), k, None);
  }

  /** The item the last worker removes is the oldest one still in the line. */
  lemma RemoveQueue(s: State, s': State, x: Item)
    requires Shape(s) && Shape(s') && s'.N() == s.N() && QueueOk(s) && s.engine == Running == s'.engine
    requires Reg(s)[s.Last()] == Some(x) && Reg(s') == Reg(s)[s.Last() := None]
    requires |s'.out| == |s.out| + 1 && s'.count == s.count - 1
    requires s'.waitList == s.waitList && s'.pushed == s.pushed && s'.births == s.births
    ensures QueueOk(s') && x.id == |s.out|
  {
    var r, k := Reg(s), s.Last();
    assert Ids(r) == [x.id] + Ids(r[..k]);
    assert Reg(s')[..k] == r[..k];
    assert Ids(Reg(s')) == Ids(r[..k]);
    ConsecutiveTail(x.id, Ids(r[..k]), s.waitList, |s.out|);
  }

  lemma RemoveKeeps(s: State)
    requires Inv(s) && s.stage[s.Last()] == Worked
    ensures Remove(s).Some? && Inv(Remove(s).value)
  {
    var k := s.Last();
    RemoveCell(s);
    var s' := Remove(s).value;
    RemoveQueue(s, s', s.slots[s.pos[k]].value);
    WorkerCells(s, s', k);
  }

  lemma TurnCell(s: State, k: nat)
    requires Inv(s) && k < s.N() && s.stage[k] == Cleared
    ensures var s' := Turn(s, k);
            && OnlyWorker(s, s', k) && PlaceOk(s', k) && CellOk(s', k) && Reg(s') == Reg(s) && WaitingSet(s') == WaitingSet(s)
  {
    assert PlaceOk(s, k) && CellOk(s, k);
    assert s.engine == Running;
    assert Origin(Turn(s, k)) == Origin(s);
  }

  lemma TurnKeeps(s: State, k: nat)
    requires Inv(s) && k < s.N() && s.stage[k] == Cleared
    ensures Inv(Turn(s, k))
  {
    TurnCell(s, k);
    WorkerCells(s, Turn(s, k), k);
  }

  lemma ReportCell(s: State, k: nat)
    requires Inv(s) && k < s.N() && s.stage[k] == Turned
    ensures var s' := Report(s, k);
            && OnlyWorker(s, s', k) && PlaceOk(s', k) && CellOk(s', k) && Reg(s') == Reg(s) && WaitingSet(s') == WaitingSet(s) + {k}
  {
    assert PlaceOk(s, k) && CellOk(s, k);
    assert s.engine == Running;
    assert Origin(Report(s, k)) == Origin(s);
  }

  lemma ReportKeeps(s: State, k: nat)
    requires Inv(s) && k < s.N() && s.stage[k] == Turned
    ensures Inv(Report(s, k))
  {
    ReportCell(s, k);
    WorkerCells(s, Report(s, k), k);
  }

  // ---------------------------------------------------------------- the ends of a cycle

  /** The workers start a cycle where the last one left them. */
  lemma StartCells(h: State)
    requires Shape(h) && h.engine != Running && Cells(h)
    ensures var s' := StartCycle(h); Shape(s') && Cells(s') && ReadyOk(s') && Reg(s') == Reg(h)
  {
    var s' := StartCycle(h);
    assert Reg(s') == Reg(h);
    assert WaitingSet(s') == {};
    forall k: nat | k < h.N() ensures PlaceOk(s', k) && CellOk(s', k) {
      assert PlaceOk(h, k) && CellOk(h, k);
    }
  }

  lemma StartKeeps(s: State)
    requires Inv(s) && s.engine == Starting
    ensures Inv(StartCycle(s))
  {
    StartCells(s);
  }

  function Halted(s: State): State { s.(engine := Idle) }

  /** Once all workers are ready the line is shifted by one, and the slot the first worker has come
      to is the one the last worker has cleared. */
  lemma AllReadyRegister(s: State)
    requires Inv(s) && s.engine == Running && s.ready == s.N()
    ensures var h := Halted(s);
            && Shape(h) && Origin(h) == Back(Origin(s), s.N()) && Reg(h) == [None] + Reg(s)[..s.Last()]
            && Reg(s)[s.Last()].None? && s.slots[s.pos[0]].None?
    ensures forall k :: 0 <= k < s.N() ==> s.stage[k] == Waiting
  {
    AllWaiting(s);
    assert PlaceOk(s, 0) && CellOk(s, s.Last());
    RegisterShift(s.slots, Origin(s));
    assert Reg(Halted(s))[0] == s.slots[s.pos[0]];
  }

  /** Every worker is then in place for the next cycle. */
  lemma AllReady(s: State)
    requires Inv(s) && s.engine == Running && s.ready == s.N()
    ensures var h := Halted(s);
            && Shape(h) && ReadyOk(h) && Ids(Reg(h)) == Ids(Reg(s)) && Reg(h)[0].None?
            && Cells(h)
  {
    var h, n := Halted(s), s.N();
    AllReadyRegister(s);
    assert WaitingSet(h) == WaitingSet(s);
    IdsPrepend(Reg(s)[..n - 1]);
    forall k: nat | k < n ensures PlaceOk(h, k) && CellOk(h, k) {
      ReadyCell(s, k);
    }
  }

  lemma ReadyCell(s: State, k: nat)
    requires Inv(s) && s.engine == Running && s.ready == s.N() && k < s.N()
    ensures Shape(Halted(s)) && PlaceOk(Halted(s), k) && CellOk(Halted(s), k)
  {
    AllReadyRegister(s);
    assert PlaceOk(s, k);
    assert k > 0 ==> CellOk(s, k - 1);
  }

  /** Inserting at the first worker, between cycles. */
  lemma InsertCells(h: State, id: nat)
    requires Shape(h) && h.engine != Running && Reg(h)[0].None? && ReadyOk(h) && id == |h.births|
    requires Cells(h)
    ensures Insert(h, id, h.cycle).Some?
    ensures var r := Insert(h, id, h.cycle).value;
            && Shape(r) && ReadyOk(r) && Reg(r) == Reg(h)[0 := Some(Item(id, []))] && Ids(Reg(r)) == Ids(Reg(h)) + [id]
            && Cells(r)
  {
    assert PlaceOk(h, 0);
    RegisterUpdate(h.slots, Origin(h), 0, Some(Item(id, [])));
    IdsInsert(Reg(h), Item(id, []));
    var r := Insert(h, id, h.cycle).value;
    assert WaitingSet(r) == WaitingSet(h);
    assert Upto(0) == [];
    forall k: nat | k < h.N() ensures PlaceOk(r, k) && CellOk(r, k) {
      assert PlaceOk(h, k) && CellOk(h, k);
    }
  }

  lemma ConsecutiveAppend(q: seq<nat>, from: nat)
    requires Consecutive(q, from)
    ensures Consecutive(q + [from + |q|], from)
  {
  }

  /** Neither the wait list nor a waiting engine's state matters to the workers. */
  lemma SameCells(s: State, s': State)
    requires Shape(s) && Cells(s) && ReadyOk(s)
    requires s'.slots == s.slots && s'.pos == s.pos && s'.stage == s.stage && s'.ready == s.ready
    requires s'.births == s.births && s'.cycle == s.cycle && (s'.engine == Running <==> s.engine == Running)
    ensures Shape(s') && Cells(s') && ReadyOk(s') && Reg(s') == Reg(s)
  {
    assert Origin(s') == Origin(s) && WaitingSet(s') == WaitingSet(s);
    forall k: nat | k < s.N() ensures PlaceOk(s', k) && CellOk(s', k) {
      assert PlaceOk(s, k) && CellOk(s, k);
    }
  }

  /** A push into an idle line: the first worker's slot is empty. */
  lemma PushIdle(s: State)
    requires Inv(s) && s.count == 0 && s.engine == Idle
    ensures Push(s).Some? && Inv(Push(s).value)
  {
    IdsEmpty(Reg(s));
    InsertCells(s, s.pushed);
    var r := Insert(s, s.pushed, s.cycle).value;
    SameCells(r, Push(s).value);
    ConsecutiveAppend(Ids(Reg(s)) + s.waitList, |s.out|);
    assert Ids(Reg(r)) + [] == Ids(Reg(s)) + s.waitList + [s.pushed];
  }

  /** A late push in time: the item is as good as inserted before the cycle. */
  lemma PushLate(s: State)
    requires Inv(s) && Late(s) && InTime(s)
    ensures Push(s).Some? && Inv(Push(s).value)
  {
    LateCells(s);
    ConsecutiveAppend(Ids(Reg(s)) + s.waitList, |s.out|);
    var s' := Push(s).value;
    assert Ids(Reg(s')) + s'.waitList == Ids(Reg(s)) + s.waitList + [s.pushed];
  }

  lemma LateRegister(s: State)
    requires Inv(s) && Late(s) && InTime(s)
    ensures Push(s).Some?
    ensures var s' := Push(s).value;
            Shape(s') && Reg(s') == Reg(s)[0 := Some(Item(s.pushed, []))] && Ids(Reg(s')) == Ids(Reg(s)) + [s.pushed]
  {
    IdsEmpty(Reg(s));
    assert PlaceOk(s, 0);
    RegisterUpdate(s.slots, Origin(s), 0, Some(Item(s.pushed, [])));
    IdsInsert(Reg(s), Item(s.pushed, []));
  }

  lemma LateCells(s: State)
    requires Inv(s) && Late(s) && InTime(s)
    ensures Push(s).Some?
    ensures var s' := Push(s).value;
            Shape(s') && Cells(s') && ReadyOk(s') && Ids(Reg(s')) == Ids(Reg(s)) + [s.pushed]
  {
    LateRegister(s);
    var s' := Push(s).value;
    assert WaitingSet(s') == WaitingSet(s);
    assert Upto(0) == [];
    forall k: nat | k < s.N() ensures PlaceOk(s', k) && CellOk(s', k) {
      assert PlaceOk(s, k) && CellOk(s, k);
    }
  }

  lemma PushBusy(s: State)
    requires Inv(s) && s.count > 0 && |s.waitList| < s.capacity
    ensures Push(s).Some? && Inv(Push(s).value)
  {
    var s' := Push(s).value;
    SameCells(s, s');
    ConsecutiveAppend(Ids(Reg(s)) + s.waitList, |s.out|);
    assert Ids(Reg(s)) + s'.waitList == Ids(Reg(s)) + s.waitList + [s.pushed];
  }

  /** The end of a cycle with nothing on the wait list. */
  lemma EndCycleAlone(s: State)
    requires Inv(s) && s.engine == Running && s.ready == s.N() && s.waitList == []
    ensures EndCycle(s).Some? && Inv(EndCycle(s).value)
  {
    AllReady(s);
    var h := Halted(s);
    if s.count > 0 {
      StartCells(h);
      assert StartCycle(h) == StartCycle(s);
    }
  }

  /** The end of a cycle with an item to let in: the first worker's slot is empty. */
  lemma EndCycleInsertCells(s: State)
    requires Inv(s) && s.engine == Running && s.ready == s.N() && s.waitList != []
    ensures EndCycle(s).Some?
    ensures var s', id := EndCycle(s).value, s.waitList[0];
            && id == |s.births| && Shape(s') && Cells(s') && ReadyOk(s') && Ids(Reg(s')) == Ids(Reg(s)) + [id]
            && s'.waitList == s.waitList[1..] && s'.count == s.count + 1 && s'.births == s.births + [s.cycle]
            && s'.out == s.out && s'.pushed == s.pushed && s'.N() == s.N() && s'.cycle == s.cycle + 1 && s'.engine == Running
  {
    var rest, id := s.waitList[1..], s.waitList[0];
    var h := Halted(s).(waitList := rest);
    assert (Ids(Reg(s)) + s.waitList)[|Ids(Reg(s))|] == id;
    AllReady(s);
    SameCells(Halted(s), h);
    InsertCells(h, id);
    var r := Insert(h, id, h.cycle).value;
    StartCells(r);
    EndCycleIs(s);
  }

  /** The engine's insertion into the line as it stands halted, and the start of the next cycle. */
  lemma EndCycleIs(s: State)
    requires Shape(s) && s.waitList != [] && s.slots[s.pos[0]].None?
    ensures var h := Halted(s).(waitList := s.waitList[1..]);
            EndCycle(s) == Some(StartCycle(Insert(h, s.waitList[0], h.cycle).value))
  {
    var r := Insert(Halted(s).(waitList := s.waitList[1..]), s.waitList[0], s.cycle).value;
    assert Insert(s.(waitList := s.waitList[1..]), s.waitList[0], s.cycle) == Some(r.(engine := s.engine));
  }

  lemma EndCycleInsert(s: State)
    requires Inv(s) && s.engine == Running && s.ready == s.N() && s.waitList != []
    ensures EndCycle(s).Some? && Inv(EndCycle(s).value)
  {
    EndCycleInsertCells(s);
    var s', id := EndCycle(s).value, s.waitList[0];
    assert Ids(Reg(s')) + s'.waitList == Ids(Reg(s)) + s.waitList;
  }

  // ---------------------------------------------------------------- whole runs

  lemma InvStep(s: State, a: Action)
    requires Inv(s) && Enabled(s, a)
    ensures Apply(s, a).Some? && Inv(Apply(s, a).value)
  {
    match a
    case DoPush => if s.count > 0 { PushBusy(s); } else if Late(s) { PushLate(s); } else { PushIdle(s); }
    case DoStart => StartKeeps(s);
    case DoEndCycle => if s.waitList == [] { EndCycleAlone(s); } else { EndCycleInsert(s); }
    case DoWork(k) => WorkKeeps(s, k);
    case DoRemove => RemoveKeeps(s);
    case DoTurn(k) => TurnKeeps(s, k);
    case DoReport(k) => ReportKeeps(s, k);
  }

  ghost predicate Step(s: State, a: Action, s': State) {
    Shape(s) && Enabled(s, a) && Apply(s, a) == Some(s')
  }

  /** Steps from any state. */
  ghost predicate Steps(ss: seq<State>, acts: seq<Action>) {
    && |ss| == |acts| + 1
    && forall i {:trigger acts[i]} :: 0 <= i < |acts| ==> Step(ss[i], acts[i], ss[i + 1])
  }

  ghost predicate Run(ss: seq<State>, acts: seq<Action>) {
    Steps(ss, acts) && Init(ss[0])
  }

  lemma StepKeeps(s: State, a: Action, s': State)
    requires Inv(s) && Step(s, a, s')
    ensures Inv(s')
  {
    InvStep(s, a);
  }

  lemma {:induction false} StepsInv(ss: seq<State>, acts: seq<Action>, k: nat)
    requires Steps(ss, acts) && Inv(ss[0]) && k < |ss|
    ensures Inv(ss[k])
    decreases k
  {
    if k > 0 {
      StepsInv(ss, acts, k - 1);
      StepKeeps(ss[k - 1], acts[k - 1], ss[k]);
    }
  }

  lemma RunInv(ss: seq<State>, acts: seq<Action>, k: nat)
    requires Run(ss, acts) && k < |ss|
    ensures Inv(ss[k])
  {
    InvInit(ss[0]);
    StepsInv(ss, acts, k);
  }

  /** No assertion fails: in every run, whatever may happen next has a result.  In particular the
      first worker's slot is empty at every insertion. */
  lemma NoStepFails(ss: seq<State>, acts: seq<Action>, k: nat, a: Action)
    requires Run(ss, acts) && k < |ss| && Shape(ss[k]) && Enabled(ss[k], a)
    ensures Apply(ss[k], a).Some?
  {
    RunInv(ss, acts, k);
    InvStep(ss[k], a);
  }

  /** When exactly a push fails: when the line has an item and the wait list is full. */
  lemma PushFailsExactly(ss: seq<State>, acts: seq<Action>, k: nat)
    requires Run(ss, acts) && k < |ss|
    ensures Shape(ss[k])
    ensures Push(ss[k]) == None <==> ss[k].count > 0 && |ss[k].waitList| >= ss[k].capacity
  {
    RunInv(ss, acts, k);
    if ss[k].count == 0 {
      EmptyLine(ss[k]);
    }
  }

  /** Whenever no cycle is running, and again when all workers have reported, the workers stand
      around the circle in order from the first one; an item at worker k has been worked on by
      exactly workers 0 to k-1, in order, and entered the line k cycles ago. */
  lemma WorkersInStep(ss: seq<State>, acts: seq<Action>, j: nat, k: nat)
    requires Run(ss, acts) && j < |ss| && k < ss[j].N()
    requires ss[j].engine != Running || ss[j].ready == ss[j].N()
    ensures var s := ss[j];
            && Shape(s) && s.pos[k] == (s.pos[0] + k) % s.N()
            && (s.slots[s.pos[k]].Some? ==>
                  var x := s.slots[s.pos[k]].value;
                  && x.ops == Upto(k) && x.id < |s.births| && s.births[x.id] + k == s.cycle)
  {
    RunInv(ss, acts, j);
    var s := ss[j];
    var h := Halted(s);
    if s.engine == Running {
      AllReady(s);
    } else {
      SameCells(s, h);
    }
    assert PlaceOk(h, 0) && PlaceOk(h, k) && CellOk(h, k);
    AtIsMod(h.pos[0], k, s.N());
  }

  /** Items leave in the order of their pushes, each worked on by every worker once, in order, and
      each exactly as many cycles after it entered the line as there are workers. */
  lemma FinishedInOrder(ss: seq<State>, acts: seq<Action>, j: nat, i: nat)
    requires Run(ss, acts) && j < |ss| && i < |ss[j].out|
    ensures ss[j].out[i].item == Item(i, Upto(ss[j].N()))
    ensures i < |ss[j].births| && ss[j].out[i].cycle == ss[j].births[i] + ss[j].N()
  {
    RunInv(ss, acts, j);
  }

  /** The number of the cycle at whose end the next waiting item enters the line. */
  function NextEntry(s: State): nat {
    s.cycle + if s.engine == Starting then 1 else 0
  }

  /** The item that is to enter the line at the end of a given cycle waits in its place for that, or
      has entered then. */
  ghost predicate OnTime(s: State, id: nat, due: nat) {
    if NextEntry(s) <= due then
      due - NextEntry(s) < |s.waitList| && s.waitList[due - NextEntry(s)] == id
    else
      id < |s.births| && s.births[id] == due
  }

  lemma OnTimeStep(s: State, a: Action, s': State, id: nat, due: nat)
    requires Inv(s) && Step(s, a, s') && OnTime(s, id, due)
    ensures OnTime(s', id, due)
  {
    match a
    case DoPush => OnTimePush(s, s', id, due);
    case DoEndCycle => OnTimeEndCycle(s, s', id, due);
    case _ => OnTimeWorker(s, a, s', id, due);
  }

  lemma OnTimeWorker(s: State, a: Action, s': State, id: nat, due: nat)
    requires Step(s, a, s') && a != DoPush && a != DoEndCycle && OnTime(s, id, due)
    ensures OnTime(s', id, due)
  {
    assert s'.waitList == s.waitList && s'.births == s.births && NextEntry(s') == NextEntry(s);
  }

  lemma OnTimeEndCycle(s: State, s': State, id: nat, due: nat)
    requires Inv(s) && Step(s, DoEndCycle, s') && OnTime(s, id, due)
    ensures OnTime(s', id, due)
  {
    if s.waitList != [] { EndCycleInsertCells(s); }
  }

  lemma OnTimePush(s: State, s': State, id: nat, due: nat)
    requires Inv(s) && Step(s, DoPush, s') && OnTime(s, id, due)
    ensures OnTime(s', id, due)
  {
  }

  lemma {:induction false} OnTimeAlways(ss: seq<State>, acts: seq<Action>, j: nat, k: nat, id: nat, due: nat)
    requires Run(ss, acts) && j <= k < |ss| && OnTime(ss[j], id, due)
    ensures OnTime(ss[k], id, due) && ss[k].N() == ss[j].N()
    decreases k
  {
    if j < k {
      OnTimeAlways(ss, acts, j, k - 1, id, due);
      RunInv(ss, acts, k - 1);
      OnTimeStep(ss[k - 1], acts[k - 1], ss[k], id, due);
      assert Step(ss[k - 1], acts[k - 1], ss[k]);
    }
  }

  /** The line takes in one waiting item at the end of every cycle: an item with p items before it on
      the wait list while cycle c runs leaves the line in cycle c + p + N, and in no other. */
  lemma LeavesOnTime(ss: seq<State>, acts: seq<Action>, j: nat, k: nat, p: nat)
    requires Run(ss, acts) && j <= k < |ss| && p < |ss[j].waitList|
    ensures var id, c := ss[j].waitList[p], ss[j].cycle + if ss[j].engine == Starting then 1 else 0;
            id < |ss[k].out| ==> ss[k].out[id] == Done(Item(id, Upto(ss[j].N())), c + p + ss[j].N())
  {
    var id := ss[j].waitList[p];
    OnTimeAlways(ss, acts, j, k, id, NextEntry(ss[j]) + p);
    RunInv(ss, acts, k);
    if id < |ss[k].out| {
      FinishedInOrder(ss, acts, k, id);
      if NextEntry(ss[k]) <= NextEntry(ss[j]) + p {
        WaitingIsNotOut(ss[k], NextEntry(ss[j]) + p - NextEntry(ss[k]));
      }
    }
  }

  lemma WaitingIsNotOut(s: State, i: nat)
    requires Inv(s) && i < |s.waitList|
    ensures s.waitList[i] >= |s.out|
  {
    var q := Ids(Reg(s)) + s.waitList;
    assert q[|Ids(Reg(s))| + i] == s.waitList[i];
  }

  /** Nothing is lost, doubled or overtaken: the items finished, those in the line from the last
      worker to the first, and those on the wait list are together the pushed ones in order. */
  lemma Conservation(ss: seq<State>, acts: seq<Action>, j: nat)
    requires Run(ss, acts) && j < |ss|
    ensures Shape(ss[j])
    ensures Upto(|ss[j].out|) + Ids(Reg(ss[j])) + ss[j].waitList == Upto(ss[j].pushed)
    ensures ss[j].count == |Ids(Reg(ss[j]))|
  {
    RunInv(ss, acts, j);
    var s := ss[j];
    var q := Ids(Reg(s)) + s.waitList;
    assert Upto(|s.out|) + q == Upto(|s.out|) + Ids(Reg(s)) + s.waitList;
    forall i | 0 <= i < s.pushed ensures (Upto(|s.out|) + q)[i] == i {
      if i >= |s.out| { assert (Upto(|s.out|) + q)[i] == q[i - |s.out|]; }
    }
  }

  lemma EmptyLine(s: State)
    requires Inv(s) && s.count == 0
    ensures forall i :: 0 <= i < s.N() ==> s.slots[i].None?
  {
    IdsEmpty(Reg(s));
    forall i: nat | i < s.N() ensures s.slots[i].None? {
      var o := Origin(s);
      var k := if o <= i then i - o else i + s.N() - o;
      assert At(o, k, s.N()) == i && Reg(s)[k] == s.slots[i];
    }
  }

  /** A halted line has nothing to do: its wait list is empty and every pushed item has left it. */
  lemma IdleIsDone(ss: seq<State>, acts: seq<Action>, j: nat)
    requires Run(ss, acts) && j < |ss| && ss[j].engine == Idle
    ensures ss[j].waitList == [] && |ss[j].out| == ss[j].pushed
    ensures forall i :: 0 <= i < ss[j].N() ==> ss[j].slots[i].None?
  {
    RunInv(ss, acts, j);
    EmptyLine(ss[j]);
  }

  /** A line that is not halted never gets stuck: some worker or the engine can take a step. */
  lemma CanGoOn(s: State) returns (a: Action)
    requires Inv(s) && s.engine != Idle
    ensures a != DoPush && Enabled(s, a)
  {
    AllWaiting(s);
    if s.engine == Starting {
      a := DoStart;
    } else if s.ready == s.N() {
      a := DoEndCycle;
    } else {
      var k: nat :| k < s.N() && s.stage[k] != Waiting;
      assert CellOk(s, k);
      match s.stage[k]
      case Awake => a := DoWork(k);
      case Worked => a := DoRemove;
      case Cleared => a := DoTurn(k);
      case Turned => a := DoReport(k);
    }
  }

  lemma NeverStuck(ss: seq<State>, acts: seq<Action>, j: nat)
    requires Run(ss, acts) && j < |ss| && ss[j].engine != Idle
    ensures Shape(ss[j]) && exists a :: a != DoPush && Enabled(ss[j], a)
  {
    RunInv(ss, acts, j);
    var a := CanGoOn(ss[j]);
  }

  // ---------------------------------------------------------------- every item leaves

  /** The product, one summand at a time. */
  function Times(n: nat, b: nat): nat {
    if b == 0 then 0 else Times(n, b - 1) + n
  }

  lemma {:induction false} TimesIs(n: nat, b: nat)
    ensures Times(n, b) == n * b
  {
    if b > 0 {
      TimesIs(n, b - 1);
      assert n * b == n * (b - 1) + n;
    }
  }

  lemma {:induction false} TimesMonotone(n: nat, a: nat, b: nat)
    requires a <= b
    ensures Times(n, a) <= Times(n, b)
    decreases b
  {
    if a < b {
      TimesMonotone(n, a, b - 1);
    }
  }

  /** The cycle in which item i enters, and the number of cycles altogether, are bounded by what it
      takes to send the items through one at a time. */
  ghost predicate CyclesOk(s: State) {
    && (forall i {:trigger s.births[i]} :: 0 <= i < |s.births| ==> s.births[i] <= Times(s.N(), i))
    && s.cycle <= Times(s.N(), |s.births|)
  }

  /** A cycle starts only with an item in the line, so there is room for one cycle more. */
  lemma OneMoreCycle(s: State, h: State)
    requires Inv(s) && CyclesOk(s) && s.count > 0
    requires Shape(h) && Cells(h) && h.engine != Running && Ids(Reg(h)) == Ids(Reg(s))
    requires h.N() == s.N() && h.births == s.births && h.cycle == s.cycle
    ensures s.cycle + 1 <= Times(s.N(), |s.births|)
  {
    IdsEmpty(Reg(h));
    var k :| 0 <= k < |Reg(h)| && Reg(h)[k].Some?;
    assert CellOk(h, k);
    TimesMonotone(s.N(), Reg(h)[k].value.id + 1, |s.births|);
  }

  lemma StartCycles(s: State)
    requires Inv(s) && CyclesOk(s) && s.engine == Starting
    ensures CyclesOk(StartCycle(s))
  {
    OneMoreCycle(s, s);
  }

  lemma EndCycleAloneCycles(s: State)
    requires Inv(s) && CyclesOk(s) && s.engine == Running && s.ready == s.N() && s.waitList == []
    ensures EndCycle(s).Some? && CyclesOk(EndCycle(s).value)
  {
    if s.count > 0 {
      AllReady(s);
      OneMoreCycle(s, Halted(s));
    }
  }

  lemma EndCycleInsertCycles(s: State)
    requires Inv(s) && CyclesOk(s) && s.engine == Running && s.ready == s.N() && s.waitList != []
    ensures EndCycle(s).Some? && CyclesOk(EndCycle(s).value)
  {
    EndCycleInsertCells(s);
  }

  lemma PushCycles(s: State)
    requires Inv(s) && CyclesOk(s) && Push(s).Some?
    ensures CyclesOk(Push(s).value)
  {
  }

  lemma CyclesStep(s: State, a: Action)
    requires Inv(s) && CyclesOk(s) && Enabled(s, a) && Apply(s, a).Some?
    ensures CyclesOk(Apply(s, a).value)
  {
    match a
    case DoPush => PushCycles(s);
    case DoStart => StartCycles(s);
    case DoEndCycle => if s.waitList == [] { EndCycleAloneCycles(s); } else { EndCycleInsertCycles(s); }
    case _ =>
  }

  lemma CyclesKept(s: State, a: Action, s': State)
    requires Inv(s) && CyclesOk(s) && Step(s, a, s')
    ensures CyclesOk(s')
  {
    CyclesStep(s, a);
  }

  lemma {:induction false} RunCycles(ss: seq<State>, acts: seq<Action>, k: nat)
    requires Run(ss, acts) && k < |ss|
    ensures Inv(ss[k]) && CyclesOk(ss[k])
    decreases k
  {
    RunInv(ss, acts, k);
    if k > 0 {
      RunCycles(ss, acts, k - 1);
      CyclesKept(ss[k - 1], acts[k - 1], ss[k]);
    }
  }

  function Rank(g: Stage): nat {
    match g
    case Awake => 0
    case Worked => 1
    case Cleared => 2
    case Turned => 3
    case Waiting => 4
  }

  function Ranks(q: seq<Stage>): nat {
    if q == [] then 0 else Rank(q[0]) + Ranks(q[1..])
  }

  lemma {:induction false} RanksUpdate(q: seq<Stage>, k: nat, g: Stage)
    requires k < |q|
    ensures Ranks(q[k := g]) == Ranks(q) - Rank(q[k]) + Rank(g)
  {
    if k == 0 {
      assert q[0 := g][1..] == q[1..];
    } else {
      RanksUpdate(q[1..], k - 1, g);
      assert q[k := g][1..] == q[1..][k - 1 := g];
    }
  }

  lemma {:induction false} RanksConstant(q: seq<Stage>, g: Stage)
    requires forall k :: 0 <= k < |q| ==> q[k] == g
    ensures Ranks(q) == Rank(g) * |q|
  {
    if q != [] {
      RanksConstant(q[1..], g);
      assert Rank(g) * |q[1..]| + Rank(g) == Rank(g) * |q|;
    }
  }

  /** What the workers and the engine have done so far. */
  ghost function Effort(s: State): int {
    Times(4 * s.N() + 1, s.cycle) - 4 * s.N() + Ranks(s.stage) + s.pushed - if s.engine == Idle then 0 else 1
  }

  lemma StartEffort(s: State)
    requires Inv(s) && (s.engine != Running || s.ready == s.N())
    ensures Ranks(s.stage) == 4 * s.N() && Ranks(StartCycle(s).stage) == 0
    ensures Effort(StartCycle(s)) == Effort(s) + 1 - if s.engine == Idle then 1 else 0
  {
    AllWaiting(s);
    RanksConstant(s.stage, Waiting);
    RanksConstant(StartCycle(s).stage, Awake);
  }

  lemma EndCycleAloneEffort(s: State)
    requires Inv(s) && s.engine == Running && s.ready == s.N() && s.waitList == []
    ensures EndCycle(s).Some? && Effort(EndCycle(s).value) == Effort(s) + 1
  {
    StartEffort(s);
  }

  lemma EndCycleInsertEffort(s: State)
    requires Inv(s) && s.engine == Running && s.ready == s.N() && s.waitList != []
    ensures EndCycle(s).Some? && Effort(EndCycle(s).value) == Effort(s) + 1
  {
    StartEffort(s);
    EndCycleInsertCells(s);
    assert EndCycle(s).value.stage == StartCycle(s).stage;
  }

  lemma WorkerEffort(s: State, a: Action)
    requires Shape(s) && Enabled(s, a) && (a.DoWork? || a.DoRemove? || a.DoTurn? || a.DoReport?) && Apply(s, a).Some?
    ensures Effort(Apply(s, a).value) > Effort(s)
  {
    match a
    case DoWork(k) =>
      RanksUpdate(s.stage, k, Worked);
      RanksUpdate(s.stage, k, Cleared);
    case DoRemove => RanksUpdate(s.stage, s.Last(), Cleared);
    case DoTurn(k) => RanksUpdate(s.stage, k, Turned);
    case DoReport(k) => RanksUpdate(s.stage, k, Waiting);
  }

  lemma EffortGrows(s: State, a: Action)
    requires Inv(s) && Enabled(s, a) && Apply(s, a).Some?
    ensures Effort(Apply(s, a).value) >= Effort(s) + if a == DoPush then 0 else 1
  {
    match a
    case DoPush =>
    case DoStart => StartEffort(s);
    case DoEndCycle => if s.waitList == [] { EndCycleAloneEffort(s); } else { EndCycleInsertEffort(s); }
    case _ => WorkerEffort(s, a);
  }

  lemma EffortKept(s: State, a: Action, s': State)
    requires Inv(s) && Step(s, a, s')
    ensures Effort(s') >= Effort(s) + if a == DoPush then 0 else 1
  {
    EffortGrows(s, a);
  }

  ghost function StepsTaken(acts: seq<Action>): nat {
    if acts == [] then 0
    else StepsTaken(acts[..|acts| - 1]) + if acts[|acts| - 1] == DoPush then 0 else 1
  }

  lemma {:induction false} EffortOverRun(ss: seq<State>, acts: seq<Action>, k: nat)
    requires Run(ss, acts) && k <= |acts|
    ensures StepsTaken(acts[..k]) <= Effort(ss[k])
    decreases k
  {
    if k == 0 {
      RanksConstant(ss[0].stage, Waiting);
    } else {
      EffortOverRun(ss, acts, k - 1);
      RunInv(ss, acts, k - 1);
      EffortKept(ss[k - 1], acts[k - 1], ss[k]);
      assert acts[..k][..k - 1] == acts[..k - 1];
    }
  }

  lemma {:induction false} RanksBound(q: seq<Stage>)
    ensures Ranks(q) <= 4 * |q|
  {
    if q != [] {
      RanksBound(q[1..]);
    }
  }

  lemma EffortBound(s: State)
    requires Inv(s) && CyclesOk(s)
    ensures s.cycle <= Times(s.N(), s.pushed)
    ensures Effort(s) <= Times(4 * s.N() + 1, Times(s.N(), s.pushed)) + s.pushed
  {
    RanksBound(s.stage);
    TimesMonotone(s.N(), |s.births|, s.pushed);
    TimesMonotone(4 * s.N() + 1, s.cycle, Times(s.N(), s.pushed));
  }

  /** Any run after p pushes to a line of n workers. */
  ghost predicate RunOf(ss: seq<State>, acts: seq<Action>, n: nat, p: nat) {
    Run(ss, acts) && ss[|acts|].N() == n && ss[|acts|].pushed == p
  }

  lemma StepsInTimes(ss: seq<State>, acts: seq<Action>, n: nat, p: nat)
    requires RunOf(ss, acts, n, p)
    ensures ss[|acts|].cycle <= Times(n, p)
    ensures StepsTaken(acts) <= Times(4 * n + 1, Times(n, p)) + p
  {
    RunCycles(ss, acts, |acts|);
    EffortOverRun(ss, acts, |acts|);
    assert acts[..|acts|] == acts;
    EffortBound(ss[|acts|]);
  }

  /** The line keeps no item for ever: p pushes cause at most n p cycles and (4n + 1) n p + p steps of
      the workers and the engine in any run; and as it is never stuck before it halts, every pushed
      item leaves. */
  lemma StepsAreBounded(ss: seq<State>, acts: seq<Action>, n: nat, p: nat)
    requires RunOf(ss, acts, n, p)
    ensures ss[|acts|].cycle <= n * p
    ensures StepsTaken(acts) <= (4 * n + 1) * (n * p) + p
  {
    StepsInTimes(ss, acts, n, p);
    TimesIs(n, p);
    TimesIs(4 * n + 1, n * p);
  }

  /** Where a run can go no further without a push, every pushed item has left, worked on by every
      worker once, in order. */
  lemma EveryItemLeaves(ss: seq<State>, acts: seq<Action>, n: nat, p: nat)
    requires RunOf(ss, acts, n, p)
    requires Shape(ss[|acts|]) && forall a :: Enabled(ss[|acts|], a) ==> a == DoPush
    ensures |ss[|acts|].out| == p && forall i :: 0 <= i < p ==> ss[|acts|].out[i].item == Item(i, Upto(n))
  {
    if ss[|acts|].engine != Idle {
      NeverStuck(ss, acts, |acts|);
    }
    IdleIsDone(ss, acts, |acts|);
    RunInv(ss, acts, |acts|);
  }

  // ---------------------------------------------------------------- running a line to its halt

  /** How many steps without a push are still possible at most. */
  ghost function Remaining(s: State): int {
    Times(4 * s.N() + 1, Times(s.N(), s.pushed)) + s.pushed - Effort(s)
  }

  lemma EffortGoesUp(s: State, a: Action, s': State)
    requires Inv(s) && CyclesOk(s) && Step(s, a, s') && a != DoPush
    ensures Inv(s') && CyclesOk(s') && 0 <= Remaining(s') < Remaining(s)
  {
    StepKeeps(s, a, s');
    CyclesKept(s, a, s');
    EffortKept(s, a, s');
    PushesKept(s, a, s');
    EffortBound(s');
    RemainingFalls(s, s');
  }

  lemma RemainingFalls(s: State, s': State)
    requires s'.pushed == s.pushed && s'.N() == s.N() && Effort(s') > Effort(s)
    requires Effort(s') <= Times(4 * s'.N() + 1, Times(s'.N(), s'.pushed)) + s'.pushed
    ensures 0 <= Remaining(s') < Remaining(s)
  {
  }

  lemma PushesKept(s: State, a: Action, s': State)
    requires Step(s, a, s') && a != DoPush
    ensures s'.pushed == s.pushed && s'.N() == s.N()
  {
  }

  lemma Prepend(s: State, a: Action, ss: seq<State>, acts: seq<Action>)
    requires Steps(ss, acts) && Step(s, a, ss[0])
    ensures Steps([s] + ss, [a] + acts) && ([s] + ss)[|acts| + 1] == ss[|acts|]
  {
    var ss', acts' := [s] + ss, [a] + acts;
    forall i {:trigger acts'[i]} | 0 <= i < |acts'| ensures Step(ss'[i], acts'[i], ss'[i + 1]) {
      if i > 0 {
        assert acts'[i] == acts[i - 1];
        assert Step(ss[i - 1], acts[i - 1], ss[i]);
      }
    }
  }

  /** From every state of the invariant the workers and the engine can bring the line to its halt. */
  lemma {:induction false} Drain(s: State) returns (ss: seq<State>, acts: seq<Action>)
    requires Inv(s) && CyclesOk(s)
    ensures Steps(ss, acts) && ss[0] == s && ss[|acts|].engine == Idle && DoPush !in acts
    decreases Remaining(s)
  {
    if s.engine == Idle {
      ss, acts := [s], [];
    } else {
      var a := CanGoOn(s);
      InvStep(s, a);
      var s' := Apply(s, a).value;
      EffortGoesUp(s, a, s');
      ss, acts := Drain(s');
      Prepend(s, a, ss, acts);
      ss, acts := [s] + ss, [a] + acts;
    }
  }
}
