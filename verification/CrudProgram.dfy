/** CRUD/Crud_algo.c as a program over objects: students with their reference counts, the linked list
    that holds them, and the thread functions a step at a time.  Each step changes the objects in
    place as the protocol's step function says. */
module CrudProgram {
  import opened Base
  import opened CrudProtocol
  import CrudSteps
  import StudentList

  class Program {
    const lst: StudentList.StudentLst
    var heap: map<Sid, StudentList.Student>
    var next: Sid
    var lrd: set<Tid>
    var lwr: set<Tid>
    var threads: map<Tid, Thread>

    constructor (crew: map<Tid, Thread>)
      ensures Valid() && View() == World(map[], map[], 0, {}, {}, crew)
    {
      lst := new StudentList.StudentLst();
      heap, next, lrd, lwr, threads := map[], 0, {}, {}, crew;
    }

    /** The linked list is well formed, live students lie at their addresses, and the list's pointers
        to live students point to them. */
    ghost predicate Valid()
      reads this, lst, lst.lst, lst.lst.spine
    {
      && lst.Valid()
      && (forall s :: s in heap ==> heap[s].id == s && s < next)
      && (forall r {:trigger lst.Students()[r]} :: r in lst.Students() ==>
            var o := lst.Students()[r]; o.rollNo == r && o.id < next && (o.id in heap ==> heap[o.id] == o))
    }

    static function Value(o: StudentList.Student): Student
      reads o
    {
      Student(o.rollNo, o.marks, o.refs, o.rd, o.wr)
    }

    ghost function Heap(): map<Sid, Student>
      reads `heap, heap.Values
    {
      map s | s in heap :: Value(heap[s])
    }

    ghost function List(): map<nat, Sid>
      reads lst, lst.lst, lst.lst.spine
    {
      map r | r in lst.Students() :: lst.Students()[r].id
    }

    ghost function View(): World
      reads this, heap.Values, lst, lst.lst, lst.lst.spine
    {
      World(List(), Heap(), next, lrd, lwr, threads)
    }

    // -------------------------------------------------------------- one student, the others as they were

    method Inc(s: Sid)
      requires Valid() && s in heap
      modifies heap[s]
      ensures Valid() && View() == old(Count(View(), s, 1))
    {
      ghost var g := View();
      heap[s].RefCountInc();
      assert Heap() == g.heap[s := Value(heap[s])];
    }

    method Dec(s: Sid) returns (last: bool)
      requires Valid() && s in heap && heap[s].refs > 0
      modifies heap[s]
      ensures Valid() && View() == old(Count(View(), s, -1))
      ensures last <==> old(heap[s].refs) == 1
    {
      ghost var g := View();
      last := heap[s].RefCountDec();
      assert Heap() == g.heap[s := Value(heap[s])];
    }

    method SetHolders(s: Sid, readers: set<Tid>, updaters: set<Tid>)
      requires Valid() && s in heap
      modifies heap[s]
      ensures Valid()
      ensures View() == old(SetStudent(View(), s, View().heap[s].(rd := readers, wr := updaters)))
    {
      ghost var g := View();
      heap[s].rd, heap[s].wr := readers, updaters;
      assert Heap() == g.heap[s := Value(heap[s])];
    }

    /** The student's reader/writer lock. */
    method Lock(s: Sid, t: Tid, exclusive: bool)
      requires Valid() && s in heap && heap[s].wr == {} && (exclusive ==> heap[s].rd == {})
      modifies heap[s]
      ensures Valid()
      ensures View() == old(var x := View().heap[s];
                            SetStudent(View(), s, if exclusive then x.(wr := x.wr + {t}) else x.(rd := x.rd + {t})))
    {
      var o := heap[s];
      if exclusive {
        SetHolders(s, o.rd, o.wr + {t});
      } else {
        SetHolders(s, o.rd + {t}, o.wr);
      }
    }

    method Unlock(s: Sid, t: Tid)
      requires Valid() && s in heap
      modifies heap[s]
      ensures Valid()
      ensures View() == old(var x := View().heap[s]; SetStudent(View(), s, x.(rd := x.rd - {t}, wr := x.wr - {t})))
    {
      SetHolders(s, heap[s].rd - {t}, heap[s].wr - {t});
    }

    method Mark(s: Sid, m: nat)
      requires Valid() && s in heap
      modifies heap[s]
      ensures Valid() && View() == old(SetStudent(View(), s, View().heap[s].(marks := m)))
    {
      ghost var g := View();
      heap[s].marks := m;
      assert Heap() == g.heap[s := Value(heap[s])];
    }

    method MarksOf(s: Sid) returns (m: nat)
      requires s in heap
      ensures s in View().heap && m == View().heap[s].marks
    {
      m := heap[s].marks;
    }

    // -------------------------------------------------------------- the list, walked and changed in place

    /** student_lst_lookup; every student the walk looks at is live. */
    method Find(roll: nat) returns (found: bool, s: Sid)
      requires Valid() && WalkSafe(View())
      ensures found == (roll in View().list) && (found ==> s == View().list[roll] && s in heap && heap[s].rollNo == roll)
    {
      var o := lst.Lookup(roll);
      if o == null {
        return false, 0;
      }
      assert View().list[roll] == o.id && o.id in View().heap;
      return true, o.id;
    }

    /** student_lst_insert of a live student. */
    method AddToList(s: Sid)
      requires Valid() && WalkSafe(View()) && s in heap && heap[s].rollNo !in View().list
      modifies lst.lst
      ensures Valid() && View() == old(View().(list := View().list[heap[s].rollNo := s]))
      ensures fresh(set x | x in lst.lst.spine && x !in old(lst.lst.spine))
    {
      ghost var g := View();
      var ok := lst.Insert(heap[s]);
      assert ok;
      assert List() == g.list[heap[s].rollNo := s];
    }

    /** student_lst_remove. */
    method TakeOffList(roll: nat) returns (found: bool, s: Sid)
      requires Valid() && WalkSafe(View())
      modifies lst.lst, lst.lst.spine
      ensures Valid() && View() == old(View().(list := View().list - {roll}))
      ensures found == (roll in old(View().list)) && (if found then s == old(View().list)[roll] else View() == old(View()))
    {
      ghost var g := View();
      var o := lst.Remove(roll);
      assert List() == g.list - {roll};
      assert roll !in g.list ==> g.list - {roll} == g.list;
      if o == null {
        return false, 0;
      }
      return true, o.id;
    }

    // -------------------------------------------------------------- the thread functions, a step at a time

    method Become(t: Tid, th: Thread)
      requires Valid()
      modifies `threads
      ensures Valid() && View() == old(View().(threads := View().threads[t := th]))
    {
      threads := threads[t := th];
    }

    /** The list's reader/writer lock. */
    method LockList(t: Tid, exclusive: bool)
      requires Valid()
      modifies `lrd, `lwr
      ensures Valid()
      ensures View() == old(if exclusive then View().(lwr := lwr + {t}) else View().(lrd := lrd + {t}))
    {
      if exclusive { lwr := lwr + {t}; } else { lrd := lrd + {t}; }
    }

    method UnlockList(t: Tid, exclusive: bool)
      requires Valid()
      modifies `lrd, `lwr
      ensures Valid()
      ensures View() == old(if exclusive then View().(lwr := lwr - {t}) else View().(lrd := lrd - {t}))
    {
      if exclusive { lwr := lwr - {t}; } else { lrd := lrd - {t}; }
    }

    /** What every step may assume: it can be taken, and neither its pointer nor a walk over the list
        leads to a destroyed student. */
    ghost predicate Ready(t: Tid)
      reads this, heap.Values, lst, lst.lst, lst.lst.spine
    {
      Valid() && Enabled(View(), t) && (threads[t].at.Refers() ==> threads[t].stud in heap)
    }

    ghost predicate Using(t: Tid)
      reads this, heap.Values, lst, lst.lst, lst.lst.spine
    {
      Ready(t) && (threads[t].role.Reader? || threads[t].role.Updater?)
    }

    /** reader_fn and update_fn taking and releasing the list's lock. */
    method UserStep(t: Tid, roll: nat)
      requires Using(t) && (threads[t].at.Idle? || threads[t].at.Miss? || threads[t].at.Locked?)
      modifies `lrd, `lwr, `threads
      ensures Valid() && Some(View()) == old(UseStep(View(), t, roll))
    {
      var th := threads[t];
      match th.at
      case Idle =>
        LockList(t, false);
        Become(t, th.(at := HasList, roll := roll));
      case Miss =>
        UnlockList(t, false);
        Become(t, th.(at := Idle));
      case Locked =>
        UnlockList(t, false);
        Become(t, th.(at := Line.Using));
    }

    /** reader_fn and update_fn finding a student and taking a reference to it. */
    method UserStepFind(t: Tid, roll: nat)
      requires Using(t) && ((threads[t].at.HasList? && WalkSafe(View())) || threads[t].at.Found?)
      modifies `threads, heap.Values
      ensures Valid() && Some(View()) == old(UseStep(View(), t, roll))
    {
      var th := threads[t];
      match th.at
      case HasList =>
        var found, s := Find(th.roll);
        if found {
          Become(t, th.(at := Found, stud := s));
        } else {
          Become(t, th.(at := Miss));
        }
      case Found =>
        Become(t, th.(at := Counted));
        Inc(th.stud);
    }

    /** reader_fn and update_fn locking the student. */
    method UserLocks(t: Tid, roll: nat)
      requires Using(t) && threads[t].at.Counted?
      modifies `threads, heap.Values
      ensures Valid() && Some(View()) == old(UseStep(View(), t, roll))
    {
      var th := threads[t];
      assert View().heap[th.stud] == Value(heap[th.stud]);
      Lock(th.stud, t, th.role.Updater?);
      Become(t, th.(at := Locked));
    }

    /** reader_fn reading the marks. */
    method ReaderReads(t: Tid, roll: nat)
      requires Using(t) && threads[t].at.Using? && threads[t].role.Reader?
      modifies `threads
      ensures Valid() && Some(View()) == old(UseStep(View(), t, roll))
    {
      var th := threads[t];
      var marks := MarksOf(th.stud);
      Become(t, th.(at := Used, seen := marks));
    }

    /** update_fn adding to the marks. */
    method UpdaterAdds(t: Tid, roll: nat)
      requires Using(t) && threads[t].at.Using? && threads[t].role.Updater?
      modifies `threads, heap.Values
      ensures Valid() && Some(View()) == old(UseStep(View(), t, roll))
    {
      ghost var g := View();
      var th := threads[t];
      var marks := MarksOf(th.stud);
      Become(t, th.(at := Added, seen := marks));
      Mark(th.stud, marks + INCR);
      assert View() == SetStudent(g.(threads := g.threads[t := th.(at := Added, seen := marks)]), th.stud,
                                  g.heap[th.stud].(marks := marks + INCR));
    }

    /** update_fn reducing the marks. */
    method UpdaterReduces(t: Tid, roll: nat)
      requires Using(t) && threads[t].at.Added?
      modifies `threads, heap.Values
      ensures Valid() && Some(View()) == old(UseStep(View(), t, roll))
    {
      var th := threads[t];
      var marks := MarksOf(th.stud);
      Mark(th.stud, marks % 100);
      Become(t, th.(at := Used));
    }

    /** reader_fn and update_fn unlocking the student. */
    method UserUnlocks(t: Tid, roll: nat)
      requires Using(t) && threads[t].at.Used?
      modifies `threads, heap.Values
      ensures Valid() && Some(View()) == old(UseStep(View(), t, roll))
    {
      var th := threads[t];
      Unlock(th.stud, t);
      Become(t, th.(at := Leaving));
    }

    /** thread_using_object_done and, after the last reference, student_destroy. */
    method FinishStep(t: Tid)
      requires Ready(t) && (threads[t].at.Leaving? || threads[t].at.Killing?) && Finish(View(), t).Some?
      modifies this, heap.Values
      ensures Valid() && Some(View()) == old(Finish(View(), t))
    {
      var th := threads[t];
      var s := th.stud;
      assert View().heap[s] == Value(heap[s]);
      if th.at.Leaving? {
        var last := Dec(s);
        Become(t, th.(at := if last then Killing else Idle));
      } else {
        Destroy(s);
        Become(t, th.(at := Idle));
      }
    }

    /** student_destroy: the student has no reference and nobody holds its lock. */
    method Destroy(s: Sid)
      requires Valid() && s in heap && heap[s].refs == 0 && heap[s].rd + heap[s].wr == {}
      modifies `heap
      ensures Valid() && View() == old(View().(heap := View().heap - {s}))
    {
      ghost var g := View();
      heap := heap - {s};
      assert Heap() == g.heap - {s};
    }

    method CreatorStep(t: Tid, roll: nat)
      requires Ready(t) && CreateStep(View(), t, roll).Some?
      requires threads[t].at.CHas? || threads[t].at.CNew? ==> WalkSafe(View())
      modifies this, heap.Values, lst.lst
      ensures Valid() && Some(View()) == old(CreateStep(View(), t, roll))
    {
      var th := threads[t];
      match th.at
      case Idle =>
        LockList(t, true);
        Become(t, th.(at := CHas, roll := roll));
      case CHas =>
        var found, _ := Find(th.roll);
        Become(t, th.(at := if found then WEnd else CAbsent));
      case CAbsent => Allocate(t);
      case CNew =>
        assert View().heap[th.stud] == Value(heap[th.stud]);
        Become(t, th.(at := CListed));
        AddToList(th.stud);
      case CListed =>
        Become(t, th.(at := WEnd));
        Inc(th.stud);
      case WEnd =>
        UnlockList(t, true);
        Become(t, th.(at := Idle));
    }

    method Allocate(t: Tid)
      requires Valid() && t in threads && threads[t].at == CAbsent
      modifies `heap, `next, `threads
      ensures Valid()
      ensures var g, th := old(View()), old(threads[t]);
              View() == g.(next := g.next + 1, heap := g.heap[g.next := Student(th.roll, 0, 0, {}, {})],
                           threads := g.threads[t := th.(at := CNew, stud := g.next)])
    {
      ghost var g := View();
      var th := threads[t];
      var o := new StudentList.Student(next, th.roll);
      heap := heap[next := o];
      threads := threads[t := th.(at := CNew, stud := next)];
      next := next + 1;
      assert Heap() == g.heap[g.next := Student(th.roll, 0, 0, {}, {})];
    }

    /** delete_fn taking a student off the list. */
    method DeleterRemoves(t: Tid, roll: nat)
      requires Ready(t) && threads[t].at.DHas? && WalkSafe(View())
      modifies `threads, lst.lst, lst.lst.spine
      ensures Valid() && Some(View()) == old(DeleteStep(View(), t, roll))
    {
      ghost var g := View();
      var th := threads[t];
      var found, s := TakeOffList(th.roll);
      assert View() == if found then g.(list := g.list - {th.roll}) else g;
      if found {
        Become(t, th.(at := DOut, stud := s));
      } else {
        Become(t, th.(at := WEnd));
      }
    }

    method DeleterStep(t: Tid, roll: nat)
      requires Ready(t) && DeleteStep(View(), t, roll).Some? && (threads[t].at.DHas? ==> WalkSafe(View()))
      modifies this, heap.Values, lst.lst, lst.lst.spine
      ensures Valid() && Some(View()) == old(DeleteStep(View(), t, roll))
    {
      var th := threads[t];
      match th.at
      case Idle =>
        LockList(t, true);
        Become(t, th.(at := DHas, roll := roll));
      case DHas => DeleterRemoves(t, roll);
      case DOut =>
        Become(t, th.(at := DRef));
        Inc(th.stud);
      case DRef =>
        assert View().heap[th.stud] == Value(heap[th.stud]);
        Become(t, th.(at := DDrop));
        var last := Dec(th.stud);
        assert !last;
      case DDrop =>
        UnlockList(t, true);
        Become(t, th.(at := Leaving));
      case WEnd =>
        UnlockList(t, true);
        Become(t, th.(at := Idle));
    }

    /** Any step of any thread that can be taken: no student it touches is destroyed, no assertion
        fails, and the protocol's invariant holds again. */
    method Step(t: Tid, roll: nat)
      requires Valid() && Inv(View()) && Enabled(View(), t)
      modifies this, heap.Values, lst.lst, lst.lst.spine
      ensures Valid() && Inv(View()) && Some(View()) == old(Apply(View(), t, roll))
    {
      CrudSteps.Succeeds(View(), t, roll);
      CrudSteps.InvStep(View(), t, roll);
      TakeStep(t, roll);
    }

    method TakeStep(t: Tid, roll: nat)
      requires Valid() && Enabled(View(), t) && Apply(View(), t, roll).Some?
      modifies this, heap.Values, lst.lst, lst.lst.spine
      ensures Valid() && Some(View()) == old(Apply(View(), t, roll))
    {
      var th := threads[t];
      if th.role.Creator? {
        CreatorStep(t, roll);
      } else if th.at.Leaving? || th.at.Killing? {
        FinishStep(t);
      } else if th.role.Deleter? {
        DeleterStep(t, roll);
      } else if th.at.Counted? {
        UserLocks(t, roll);
      } else if th.at.Using? {
        if th.role.Reader? { ReaderReads(t, roll); } else { UpdaterAdds(t, roll); }
      } else if th.at.Added? {
        UpdaterReduces(t, roll);
      } else if th.at.Used? {
        UserUnlocks(t, roll);
      } else if th.at.HasList? || th.at.Found? {
        UserStepFind(t, roll);
      } else {
        UserStep(t, roll);
      }
    }
  }
}
