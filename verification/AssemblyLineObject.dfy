/** assembly_line_t as an object: a circular buffer and its workers, updated in place.  Each method is
    one step of a worker thread, of the engine thread or of a push. */
module AssemblyLineObject {
  import opened Base
  import opened AssemblyLine

  class Line {
    const slots: array<Option<Item>>
    const pos: array<nat>
    const stage: array<Stage>
    const capacity: nat
    var count: nat
    var ready: nat
    var engine: Engine
    var waitList: seq<nat>
    var pushed: nat
    ghost var cycle: nat
    ghost var births: seq<nat>
    ghost var out: seq<Done>

    /** assembly_line_get_new_assembly_line and assembly_line_init_worker_threads, once all workers
        have reported. */
    constructor (size: nat, waitCapacity: nat)
      requires size >= 2 && waitCapacity >= 1
      ensures Valid() && Init(View()) && View().N() == size && capacity == waitCapacity
      ensures fresh(slots) && fresh(pos) && fresh(stage)
    {
      slots := new Option<Item>[size](_ => None);
      pos := new nat[size](i => i);
      stage := new Stage[size](_ => Waiting);
      capacity := waitCapacity;
      count, ready, engine, waitList, pushed := 0, size, Idle, [], 0;
      cycle, births, out := 0, [], [];
    }

    ghost predicate Valid()
      reads this, slots, pos, stage
    {
      && slots.Length >= 2 && pos.Length == slots.Length == stage.Length
      && forall k :: 0 <= k < pos.Length ==> pos[k] < slots.Length
    }

    ghost function View(): State
      reads this, slots, pos, stage
    {
      State(slots[..], count, pos[..], stage[..], engine, ready, waitList, capacity, cycle, pushed, births, out)
    }

    /** assembly_line_enqueue_new_item; the slot is empty. */
    method EnqueueNewItem(id: nat, ghost birth: nat)
      requires Valid() && Insert(View(), id, birth).Some?
      modifies `count, `births, slots
      ensures Valid() && Some(View()) == old(Insert(View(), id, birth))
    {
      assert View().slots[View().pos[0]] == slots[pos[0]];
      assert slots[pos[0]].None?;
      births := births + [birth];
      slots[pos[0]] := Some(Item(id, []));
      count := count + 1;
    }

    /** assembly_line_push_new_item. */
    method PushNewItem()
      requires Valid() && Push(View()).Some?
      modifies this, slots
      ensures Valid() && Some(View()) == old(Push(View()))
    {
      if count == 0 {
        EnqueueNewItem(pushed, if engine == Running && cycle > 0 then cycle - 1 else cycle);
      } else {
        waitList := waitList + [pushed];
      }
      pushed := pushed + 1;
      if engine == Idle {
        engine := Starting;
      }
    }

    /** The engine signals every worker. */
    method WakeWorkers()
      requires Valid()
      modifies `ready, `engine, `cycle, stage
      ensures Valid() && View() == old(StartCycle(View()))
    {
      engine, ready := Running, 0;
      cycle := cycle + 1;
      var k := 0;
      while k < stage.Length
        modifies stage
        invariant 0 <= k <= stage.Length
        invariant forall i :: 0 <= i < k ==> stage[i] == Awake
      {
        stage[k] := Awake;
        k := k + 1;
      }
      assert stage[..] == old(StartCycle(View())).stage;
    }

    /** The engine once all workers are ready. */
    method CompleteCycle()
      requires Valid() && EndCycle(View()).Some?
      modifies this, slots, stage
      ensures Valid() && Some(View()) == old(EndCycle(View()))
    {
      if waitList != [] {
        var id := waitList[0];
        waitList := waitList[1..];
        EnqueueNewItem(id, cycle);
      }
      if count > 0 {
        WakeWorkers();
      } else {
        engine := Idle;
      }
    }

    method WorkOnSlot(k: nat)
      requires Valid() && k < slots.Length
      modifies slots, stage
      ensures Valid() && View() == old(Work(View(), k))
    {
      var i := pos[k];
      assert View().slots[View().pos[k]] == slots[i];
      match slots[i]
      case None => stage[k] := Cleared;
      case Some(x) =>
        slots[i] := Some(x.(ops := x.ops + [k]));
        stage[k] := if k == slots.Length - 1 then Worked else Cleared;
    }

    /** The last worker takes the finished item out of its slot. */
    method RemoveFinished() returns (x: Item)
      requires Valid() && Remove(View()).Some?
      modifies this, slots, stage
      ensures Valid() && Some(View()) == old(Remove(View()))
      ensures Some(x) == old(slots[pos[slots.Length - 1]])
    {
      var k := slots.Length - 1;
      var i := pos[k];
      assert View().slots[View().pos[k]] == slots[i];
      x := slots[i].value;
      out := out + [Done(x, cycle)];
      slots[i] := None;
      count := count - 1;
      stage[k] := Cleared;
    }

    method MoveBack(k: nat)
      requires Valid() && k < slots.Length
      modifies pos, stage
      ensures Valid() && View() == old(Turn(View(), k))
    {
      if pos[k] == 0 {
        pos[k] := slots.Length - 1;
      } else {
        pos[k] := pos[k] - 1;
      }
      stage[k] := Turned;
    }

    method ReportReady(k: nat)
      requires Valid() && k < slots.Length
      modifies `ready, stage
      ensures Valid() && View() == old(Report(View(), k))
    {
      ready := ready + 1;
      stage[k] := Waiting;
    }

    /** Any step of any thread that can be taken: no assertion fails, and the invariant holds again. */
    method Step(a: Action)
      requires Valid() && Inv(View()) && Enabled(View(), a)
      modifies this, slots, pos, stage
      ensures Valid() && Inv(View()) && Some(View()) == old(Apply(View(), a))
    {
      InvStep(View(), a);
      match a
      case DoPush => PushNewItem();
      case DoStart => WakeWorkers();
      case DoEndCycle => CompleteCycle();
      case DoWork(k) => WorkOnSlot(k);
      case DoRemove => var x := RemoveFinished();
      case DoTurn(k) => MoveBack(k);
      case DoReport(k) => ReportReady(k);
    }
  }
}
