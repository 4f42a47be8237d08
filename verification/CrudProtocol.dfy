/** The reference-counted protocol of CRUD/Crud_algo.c: any number of reader, updater, creator and
    deleter threads over one list of students.

    Each lock operation, each reference count operation (one spin-locked section of
    CRUD/refcount.c), each look at the list and each access to the marks is one step; the threads
    interleave freely between steps.  A step that touches a destroyed student, or fails an
    assertion of the code, has no result. */
module CrudProtocol {
  import opened Base

  const INCR: nat := 5

  /** Student objects are named in the order of their allocation. */
  type Sid = nat

  /** A student with its reference count and the holders of its reader/writer lock. */
  datatype Student = Student(roll: nat, marks: nat, refs: int, rd: set<Tid>, wr: set<Tid>)

  datatype Role = Reader | Updater | Creator | Deleter

  /** Where a thread stands: what it has done so far in its iteration. */
  datatype Line =
    | Idle
    // reader_fn and update_fn
    | HasList   // list lock taken
    | Miss      // no such student
    | Found     // student found in the list
    | Counted   // reference taken
    | Locked    // student lock taken
    | Using     // list lock released
    | Added     // updater: increment written, not yet reduced
    | Used      // read or update complete
    // all users and delete_fn
    | Leaving   // no lock held, reference still held
    | Killing   // dropped the last reference
    // create_fn
    | CHas | CAbsent | CNew | CListed
    // delete_fn
    | DHas | DOut | DRef | DDrop
    // create_fn and delete_fn
    | WEnd      // about to release the list lock
  {
    /** The thread will still use its student pointer. */
    predicate Refers() {
      Found? || Counted? || Locked? || Using? || Added? || Used? || Leaving? || Killing?
      || CNew? || CListed? || DOut? || DRef? || DDrop?
    }
    /** The thread holds a reference of its own. */
    predicate Owns() {
      Counted? || Locked? || Using? || Added? || Used? || Leaving? || DRef? || DDrop?
    }
    /** The thread holds the reference that was the list's. */
    predicate Took() { DOut? || DRef? }
    predicate ListRd() { HasList? || Miss? || Found? || Counted? || Locked? }
    predicate ListWr() {
      CHas? || CAbsent? || CNew? || CListed? || DHas? || DOut? || DRef? || DDrop? || WEnd?
    }
    predicate HasObject() { Locked? || Using? || Added? || Used? }
    /** Nobody else may refer to the student. */
    predicate Sole() { CNew? || CListed? || Killing? }
    predicate FitsRole(r: Role) {
      match r
      case Reader => Idle? || HasList? || Miss? || Found? || Counted? || Locked? || Using? || Used? || Leaving? || Killing?
      case Updater => Idle? || HasList? || Miss? || Found? || Counted? || Locked? || Using? || Added? || Used? || Leaving? || Killing?
      case Creator => Idle? || CHas? || CAbsent? || CNew? || CListed? || WEnd?
      case Deleter => Idle? || DHas? || DOut? || DRef? || DDrop? || WEnd? || Leaving? || Killing?
    }
  }

  /** A thread with its local variables. */
  datatype Thread = Thread(role: Role, at: Line, roll: nat, stud: Sid, seen: nat)

  /** The list by roll number, the live students, the next student name, the holders of the list
      lock, and the threads. */
  datatype World = World(
    list: map<nat, Sid>, heap: map<Sid, Student>, next: Sid,
    lrd: set<Tid>, lwr: set<Tid>, threads: map<Tid, Thread>)

  // ---------------------------------------------------------------- the steps

  function Move(g: World, t: Tid, at: Line): World
    requires t in g.threads
  {
    g.(threads := g.threads[t := g.threads[t].(at := at)])
  }

  function SetStudent(g: World, s: Sid, x: Student): World {
    g.(heap := g.heap[s := x])
  }

  /** A walk over the list reads the roll number of every student on it. */
  predicate WalkSafe(g: World) {
    forall r :: r in g.list ==> g.list[r] in g.heap
  }

  /** Whether the thread's next step can be taken: lock steps wait for their lock. */
  ghost predicate Enabled(g: World, t: Tid) {
    && t in g.threads
    && var th := g.threads[t];
       match th.at
       case Idle =>
         if th.role.Reader? || th.role.Updater? then g.lwr == {} else g.lrd == {} == g.lwr
       case Counted =>
         th.stud in g.heap ==>
           && g.heap[th.stud].wr == {}
           && (th.role.Updater? ==> g.heap[th.stud].rd == {})
       case _ => true
  }

  /** The next step of thread t; roll is the roll number it draws if it starts an iteration. */
  function Apply(g: World, t: Tid, roll: nat): Option<World>
    requires t in g.threads
  {
    var th := g.threads[t];
    if th.at.Refers() && th.stud !in g.heap then None
    else if (th.at.HasList? || th.at.CHas? || th.at.CNew? || th.at.DHas?) && !WalkSafe(g) then None
    else match th.role
    case Creator => CreateStep(g, t, roll)
    case Deleter => if th.at == Leaving || th.at == Killing then Finish(g, t) else DeleteStep(g, t, roll)
    case _ => if th.at == Leaving || th.at == Killing then Finish(g, t) else UseStep(g, t, roll)
  }

  /** reader_fn and update_fn, up to the release of the student lock. */
  function UseStep(g: World, t: Tid, roll: nat): Option<World>
    requires t in g.threads && (g.threads[t].at.Refers() ==> g.threads[t].stud in g.heap)
  {
    var th := g.threads[t];
    match th.at
    case Idle =>
      Some(g.(lrd := g.lrd + {t}, threads := g.threads[t := th.(at := HasList, roll := roll)]))
    case HasList =>
      if th.roll in g.list
      then Some(g.(threads := g.threads[t := th.(at := Found, stud := g.list[th.roll])]))
      else Some(Move(g, t, Miss))
    case Miss => Some(Move(g, t, Idle).(lrd := g.lrd - {t}))
    case Found => Some(Count(Move(g, t, Counted), th.stud, 1))
    case Counted =>
      var x := g.heap[th.stud];
      var x' := if th.role.Updater? then x.(wr := x.wr + {t}) else x.(rd := x.rd + {t});
      Some(SetStudent(Move(g, t, Locked), th.stud, x'))
    case Locked => Some(Move(g, t, Using).(lrd := g.lrd - {t}))
    case Using =>
      var x := g.heap[th.stud];
      if th.role.Updater?
      then Some(SetStudent(g.(threads := g.threads[t := th.(at := Added, seen := x.marks)]),
                           th.stud, x.(marks := x.marks + INCR)))
      else Some(g.(threads := g.threads[t := th.(at := Used, seen := x.marks)]))
    case Added =>
      var x := g.heap[th.stud];
      Some(SetStudent(Move(g, t, Used), th.stud, x.(marks := x.marks % 100)))
    case Used =>
      var x := g.heap[th.stud];
      Some(SetStudent(Move(g, t, Leaving), th.stud, x.(rd := x.rd - {t}, wr := x.wr - {t})))
    case _ => None
  }

  function Count(g: World, s: Sid, delta: int): World
    requires s in g.heap
  {
    SetStudent(g, s, g.heap[s].(refs := g.heap[s].refs + delta))
  }

  /** thread_using_object_done and, if it dropped the last reference, student_destroy. */
  function Finish(g: World, t: Tid): Option<World>
    requires t in g.threads && g.threads[t].stud in g.heap
  {
    var th := g.threads[t];
    var x := g.heap[th.stud];
    if th.at == Leaving then
      if x.refs == 0 then None
      else Some(Count(Move(g, t, if x.refs == 1 then Killing else Idle), th.stud, -1))
    else
      if x.refs != 0 || x.rd + x.wr != {} then None
      else Some(Move(g, t, Idle).(heap := g.heap - {th.stud}))
  }

  function CreateStep(g: World, t: Tid, roll: nat): Option<World>
    requires t in g.threads && (g.threads[t].at.Refers() ==> g.threads[t].stud in g.heap)
  {
    var th := g.threads[t];
    match th.at
    case Idle =>
      Some(g.(lwr := g.lwr + {t}, threads := g.threads[t := th.(at := CHas, roll := roll)]))
    case CHas => Some(Move(g, t, if th.roll in g.list then WEnd else CAbsent))
    case CAbsent =>
      Some(g.(next := g.next + 1, heap := g.heap[g.next := Student(th.roll, 0, 0, {}, {})],
              threads := g.threads[t := th.(at := CNew, stud := g.next)]))
    case CNew =>
      var r := g.heap[th.stud].roll;
      if r in g.list then None else Some(Move(g, t, CListed).(list := g.list[r := th.stud]))
    case CListed => Some(Count(Move(g, t, WEnd), th.stud, 1))
    case WEnd => Some(Move(g, t, Idle).(lwr := g.lwr - {t}))
    case _ => None
  }

  function DeleteStep(g: World, t: Tid, roll: nat): Option<World>
    requires t in g.threads && (g.threads[t].at.Refers() ==> g.threads[t].stud in g.heap)
  {
    var th := g.threads[t];
    match th.at
    case Idle =>
      Some(g.(lwr := g.lwr + {t}, threads := g.threads[t := th.(at := DHas, roll := roll)]))
    case DHas =>
      if th.roll in g.list
      then Some(g.(list := g.list - {th.roll}, threads := g.threads[t := th.(at := DOut, stud := g.list[th.roll])]))
      else Some(Move(g, t, WEnd))
    case DOut => Some(Count(Move(g, t, DRef), th.stud, 1))
    case DRef =>
      if g.heap[th.stud].refs == 0 || g.heap[th.stud].refs == 1 then None
      else Some(Count(Move(g, t, DDrop), th.stud, -1))
    case DDrop => Some(Move(g, t, Leaving).(lwr := g.lwr - {t}))
    case WEnd => Some(Move(g, t, Idle).(lwr := g.lwr - {t}))
    case _ => None
  }

  // ---------------------------------------------------------------- references

  ghost function Owners(g: World, s: Sid): set<Tid> {
    set t | t in g.threads && g.threads[t].at.Owns() && g.threads[t].stud == s
  }

  ghost function Takers(g: World, s: Sid): set<Tid> {
    set t | t in g.threads && g.threads[t].at.Took() && g.threads[t].stud == s
  }

  /** Creators that have listed the student and not yet counted the list's reference. */
  ghost function Makers(g: World, s: Sid): set<Tid> {
    set t | t in g.threads && g.threads[t].at == CListed && g.threads[t].stud == s
  }

  predicate Listed(g: World, s: Sid)
    requires s in g.heap
  {
    g.heap[s].roll in g.list && g.list[g.heap[s].roll] == s
  }

  ghost predicate RefsRight(g: World, s: Sid)
    requires s in g.heap
  {
    g.heap[s].refs + |Makers(g, s)| == (if Listed(g, s) then 1 else 0) + |Owners(g, s)| + |Takers(g, s)|
  }

  // ---------------------------------------------------------------- the invariant

  ghost predicate ThreadOk(g: World, t: Tid)
    requires t in g.threads
  {
    var th := g.threads[t];
    && th.at.FitsRole(th.role)
    && (t in g.lrd <==> th.at.ListRd())
    && (t in g.lwr <==> th.at.ListWr())
    && (th.at.CAbsent? ==> th.roll !in g.list)
    && (th.at.Refers() ==> PointerOk(g, t))
  }

  ghost predicate PointerOk(g: World, t: Tid)
    requires t in g.threads
  {
    var th := g.threads[t];
    && th.stud in g.heap
    && var x := g.heap[th.stud];
       && (th.at.Found? || th.at.CListed? ==> Listed(g, th.stud))
       && (th.at.CNew? || th.at.Killing? || th.role.Deleter? ==> !Listed(g, th.stud))
       && (th.at.CNew? ==> x.roll !in g.list)
       && (th.at.Sole() ==> x.refs == 0)
       && (th.at.Added? ==> x.marks == th.seen + INCR)
  }

  ghost predicate StudentOk(g: World, s: Sid)
    requires s in g.heap
  {
    s < g.next && RefsRight(g, s) && ZeroIsSole(g, s) && ObjectOk(g, s)
  }

  /** Only a student being made or destroyed has no reference. */
  ghost predicate ZeroIsSole(g: World, s: Sid)
    requires s in g.heap
  {
    g.heap[s].refs == 0 ==> exists t :: t in g.threads && g.threads[t].at.Sole() && g.threads[t].stud == s
  }

  /** The student's lock is held by the threads that stand inside it, one updater or any readers,
      and its marks are below 100 unless an updater has yet to reduce them. */
  ghost predicate ObjectOk(g: World, s: Sid)
    requires s in g.heap
  {
    var x := g.heap[s];
    && (forall t :: t in x.rd <==> t in g.threads && HoldsObject(g.threads[t], s) && !g.threads[t].role.Updater?)
    && (forall t :: t in x.wr <==> t in g.threads && HoldsObject(g.threads[t], s) && g.threads[t].role.Updater?)
    && (x.wr != {} ==> x.rd == {})
    && (forall t, u :: t in x.wr && u in x.wr ==> t == u)
    && ((exists t :: t in x.wr && g.threads[t].at.Added?) || x.marks < 100)
  }

  predicate HoldsObject(th: Thread, s: Sid) {
    th.at.HasObject() && th.stud == s
  }

  /** No other thread refers to a student that is being made or destroyed, and no student is being
      deleted twice. */
  ghost predicate PairOk(g: World, t: Tid, u: Tid)
    requires t in g.threads && u in g.threads
  {
    var a, b := g.threads[t], g.threads[u];
    t != u && a.at.Refers() && b.at.Refers() && a.stud == b.stud ==>
      !a.at.Sole() && !b.at.Sole() && !(a.role.Deleter? && b.role.Deleter?)
  }

  ghost predicate LocksOk(g: World) {
    && g.lrd <= g.threads.Keys && g.lwr <= g.threads.Keys
    && (g.lwr != {} ==> g.lrd == {})
    && (forall t, u :: t in g.lwr && u in g.lwr ==> t == u)
  }

  ghost predicate ListOk(g: World) {
    forall r :: r in g.list ==> g.list[r] in g.heap && g.heap[g.list[r]].roll == r
  }

  ghost predicate Inv(g: World) {
    && LocksOk(g)
    && ListOk(g)
    && (forall t {:trigger ThreadOk(g, t)} :: t in g.threads ==> ThreadOk(g, t))
    && (forall s {:trigger StudentOk(g, s)} :: s in g.heap ==> StudentOk(g, s))
    && (forall t, u {:trigger PairOk(g, t, u)} :: t in g.threads && u in g.threads ==> PairOk(g, t, u))
  }

  // ---------------------------------------------------------------- what one step changes

  ghost predicate OnlyThread(g: World, g': World, t: Tid) {
    t in g.threads && t in g'.threads && g'.threads == g.threads[t := g'.threads[t]]
  }

  ghost function Bit(b: bool): int { if b then 1 else 0 }

  lemma CountChange(a: set<Tid>, a': set<Tid>, t: Tid)
    requires a - {t} == a' - {t}
    ensures |a'| - Bit(t in a') == |a| - Bit(t in a)
  {
    assert a == if t in a then (a - {t}) + {t} else a - {t};
    assert a' == if t in a' then (a' - {t}) + {t} else a' - {t};
  }

  /** A step of t changes the reference holders by what t itself holds. */
  lemma Recount(g: World, g': World, t: Tid, s: Sid)
    requires OnlyThread(g, g', t)
    ensures |Owners(g', s)| - Bit(t in Owners(g', s)) == |Owners(g, s)| - Bit(t in Owners(g, s))
    ensures |Takers(g', s)| - Bit(t in Takers(g', s)) == |Takers(g, s)| - Bit(t in Takers(g, s))
    ensures |Makers(g', s)| - Bit(t in Makers(g', s)) == |Makers(g, s)| - Bit(t in Makers(g, s))
  {
    CountChange(Owners(g, s), Owners(g', s), t);
    CountChange(Takers(g, s), Takers(g', s), t);
    CountChange(Makers(g, s), Makers(g', s), t);
  }

  /** Threads th and th' hold the same references to student s. */
  ghost predicate SameRefs(th: Thread, th': Thread, s: Sid) {
    && (th.stud == s && th.at.Owns() <==> th'.stud == s && th'.at.Owns())
    && (th.stud == s && th.at.Took() <==> th'.stud == s && th'.at.Took())
    && (th.stud == s && th.at == CListed <==> th'.stud == s && th'.at == CListed)
    && (th.stud == s && th.at.Sole() <==> th'.stud == s && th'.at.Sole())
  }

  ghost predicate SameInObject(th: Thread, th': Thread, s: Sid) {
    && th.role == th'.role
    && (HoldsObject(th, s) <==> HoldsObject(th', s))
    && (HoldsObject(th, s) && th.at.Added? <==> HoldsObject(th', s) && th'.at.Added?)
  }

  ghost predicate SameStanding(th: Thread, th': Thread, s: Sid) {
    SameRefs(th, th', s) && SameInObject(th, th', s)
  }

  /** Student s is as it was. */
  ghost predicate Untouched(g: World, g': World, t: Tid, s: Sid)
    requires t in g.threads && t in g'.threads
  {
    && s in g.heap && s in g'.heap && g'.heap[s] == g.heap[s]
    && (Listed(g', s) <==> Listed(g, s))
    && SameStanding(g.threads[t], g'.threads[t], s)
  }

  lemma RefsKept(g: World, g': World, t: Tid, s: Sid)
    requires OnlyThread(g, g', t) && s in g.heap && s in g'.heap
    requires g'.heap[s].refs == g.heap[s].refs && (Listed(g', s) <==> Listed(g, s))
    requires SameRefs(g.threads[t], g'.threads[t], s)
    requires RefsRight(g, s) && ZeroIsSole(g, s)
    ensures RefsRight(g', s) && ZeroIsSole(g', s)
  {
    Recount(g, g', t, s);
    if g.heap[s].refs == 0 {
      var u :| u in g.threads && g.threads[u].at.Sole() && g.threads[u].stud == s;
      assert u in g'.threads && g'.threads[u].at.Sole() && g'.threads[u].stud == s;
    }
  }

  lemma ObjectKept(g: World, g': World, t: Tid, s: Sid)
    requires OnlyThread(g, g', t) && s in g.heap && s in g'.heap
    requires var x, x' := g.heap[s], g'.heap[s]; x'.rd == x.rd && x'.wr == x.wr && x'.marks == x.marks
    requires SameInObject(g.threads[t], g'.threads[t], s)
    requires ObjectOk(g, s)
    ensures ObjectOk(g', s)
  {
    if u :| u in g.heap[s].wr && g.threads[u].at.Added? {
      assert u in g'.heap[s].wr && g'.threads[u].at.Added?;
    }
  }

  lemma UntouchedStudent(g: World, g': World, t: Tid, s: Sid)
    requires Inv(g) && OnlyThread(g, g', t) && Untouched(g, g', t, s) && g.next <= g'.next
    ensures StudentOk(g', s)
  {
    assert StudentOk(g, s);
    RefsKept(g, g', t, s);
    ObjectKept(g, g', t, s);
  }

  /** What a step of t must show about itself and the student d it deals with (if any); everything
      else is as it was. */
  ghost predicate Local(g: World, g': World, t: Tid, d: set<Sid>) {
    && OnlyThread(g, g', t) && g.next <= g'.next
    && LocksOk(g') && ListOk(g')
    && g'.lrd - {t} == g.lrd - {t} && g'.lwr - {t} == g.lwr - {t}
    && ThreadOk(g', t)
    && (forall s {:trigger Untouched(g, g', t, s)} :: s in g'.heap && s !in d ==> Untouched(g, g', t, s))
    && (forall s :: s in g.heap && s !in g'.heap ==> s in d)
    && (forall s {:trigger StudentOk(g', s)} :: s in g'.heap && s in d ==> StudentOk(g', s))
    && (forall u {:trigger PointerOk(g', u)} :: u in g.threads && u != t && g.threads[u].at.Refers() && g.threads[u].stud in d ==> PointerOk(g', u))
    && (forall u :: u in g.threads && u != t && (g.threads[u].at.CAbsent? || g.threads[u].at.CNew?) ==> g'.list == g.list)
    && (forall u {:trigger PairOk(g', t, u)} :: u in g.threads ==> PairOk(g', t, u))
  }

  lemma LocalKeepsThread(g: World, g': World, t: Tid, d: set<Sid>, u: Tid)
    requires Inv(g) && Local(g, g', t, d) && u in g.threads
    ensures ThreadOk(g', u)
  {
    if u != t {
      assert ThreadOk(g, u);
      assert u in g.lrd <==> u in g.lrd - {t};
      assert u in g'.lrd <==> u in g'.lrd - {t};
      assert u in g.lwr <==> u in g.lwr - {t};
      assert u in g'.lwr <==> u in g'.lwr - {t};
      var th := g.threads[u];
      if th.at.Refers() && th.stud !in d {
        assert PointerOk(g, u);
        assert Untouched(g, g', t, th.stud);
        assert PointerOk(g', u);
      }
    }
  }

  lemma LocalKeepsInv(g: World, g': World, t: Tid, d: set<Sid>)
    requires Inv(g) && Local(g, g', t, d)
    ensures Inv(g')
  {
    forall u | u in g'.threads ensures ThreadOk(g', u) {
      LocalKeepsThread(g, g', t, d, u);
    }
    forall s | s in g'.heap ensures StudentOk(g', s) {
      if s !in d {
        assert Untouched(g, g', t, s);
        UntouchedStudent(g, g', t, s);
      }
    }
    forall u, v | u in g'.threads && v in g'.threads ensures PairOk(g', u, v) {
      assert PairOk(g, u, v);
      assert PairOk(g', t, u);
      assert PairOk(g', t, v);
    }
  }
}
