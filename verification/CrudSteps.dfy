/** Every step of the CRUD protocol succeeds and keeps its invariant. */
module CrudSteps {
  import opened Base
  import opened CrudProtocol

  // ---------------------------------------------------------------- no step fails

  /** A thread that refers to a student keeps it from being made or destroyed by others. */
  lemma NoMakers(g: World, t: Tid)
    requires Inv(g) && t in g.threads && g.threads[t].at.Refers() && g.threads[t].at != CListed
    ensures Makers(g, g.threads[t].stud) == {}
  {
    forall u | u in g.threads ensures u !in Makers(g, g.threads[t].stud) {
      assert PairOk(g, t, u);
    }
  }

  lemma OwnerCounts(g: World, t: Tid)
    requires Inv(g) && t in g.threads && g.threads[t].at.Owns()
    ensures g.threads[t].stud in g.heap
    ensures g.heap[g.threads[t].stud].refs >= if g.threads[t].at.Took() then 2 else 1
  {
    assert ThreadOk(g, t);
    var s := g.threads[t].stud;
    assert StudentOk(g, s);
    NoMakers(g, t);
    assert t in Owners(g, s);
    assert g.threads[t].at.Took() ==> t in Takers(g, s);
  }

  /** When a student is destroyed nobody holds its lock. */
  lemma KilledUnlocked(g: World, t: Tid)
    requires Inv(g) && t in g.threads && g.threads[t].at == Killing
    ensures g.threads[t].stud in g.heap
    ensures g.heap[g.threads[t].stud].rd + g.heap[g.threads[t].stud].wr == {}
  {
    assert ThreadOk(g, t);
    var s := g.threads[t].stud;
    assert StudentOk(g, s);
    forall u | u in g.threads ensures u !in g.heap[s].rd + g.heap[s].wr {
      assert PairOk(g, t, u);
    }
  }

  lemma Succeeds(g: World, t: Tid, roll: nat)
    requires Inv(g) && Enabled(g, t)
    ensures Apply(g, t, roll).Some?
  {
    var th := g.threads[t];
    assert ThreadOk(g, t);
    match th.at
    case Leaving => OwnerCounts(g, t);
    case DRef => OwnerCounts(g, t);
    case Killing => KilledUnlocked(g, t);
    case _ =>
  }

  // ---------------------------------------------------------------- steps that leave students alone

  lemma PairsKept(g: World, g': World, t: Tid)
    requires Inv(g) && OnlyThread(g, g', t)
    requires var th, th' := g.threads[t], g'.threads[t];
             && th'.role == th.role
             && (th'.at.Refers() ==> th.at.Refers() && th'.stud == th.stud)
             && (th'.at.Refers() && th'.at.Sole() ==> th.at.Sole())
    ensures forall u {:trigger PairOk(g', t, u)} :: u in g.threads ==> PairOk(g', t, u)
  {
    forall u | u in g.threads ensures PairOk(g', t, u) {
      assert PairOk(g, t, u);
    }
  }

  ghost predicate LocksStep(g: World, g': World, t: Tid) {
    && LocksOk(g')
    && g'.lrd - {t} == g.lrd - {t} && g'.lwr - {t} == g.lwr - {t}
  }

  lemma WalkLocal(g: World, g': World, t: Tid)
    requires Inv(g) && OnlyThread(g, g', t)
    requires g'.heap == g.heap && g'.list == g.list && g'.next == g.next
    requires LocksStep(g, g', t) && ThreadOk(g', t)
    requires forall s :: SameStanding(g.threads[t], g'.threads[t], s)
    requires forall u {:trigger PairOk(g', t, u)} :: u in g.threads ==> PairOk(g', t, u)
    ensures Local(g, g', t, {})
  {
    forall s | s in g'.heap ensures Untouched(g, g', t, s) {
      assert SameStanding(g.threads[t], g'.threads[t], s);
    }
  }

  lemma LockMoves(g: World, g': World, t: Tid)
    requires LocksOk(g) && t in g.threads && g'.threads.Keys == g.threads.Keys
    requires || (g.lwr == {} && g'.lrd == g.lrd + {t} && g'.lwr == g.lwr)
             || (g.lwr == {} == g.lrd && g'.lwr == g.lwr + {t} && g'.lrd == g.lrd)
             || (g'.lrd == g.lrd - {t} && g'.lwr == g.lwr)
             || (g'.lwr == g.lwr - {t} && g'.lrd == g.lrd)
             || (g'.lrd == g.lrd && g'.lwr == g.lwr)
    ensures LocksStep(g, g', t)
  {
  }

  /** A step that changes only the thread's own place and the list lock. */
  ghost predicate WalkShape(g: World, g': World, t: Tid) {
    && OnlyThread(g, g', t)
    && g'.heap == g.heap && g'.list == g.list && g'.next == g.next
    && var th, th' := g.threads[t], g'.threads[t];
       && th'.role == th.role
       && (th.at.Refers() ==> th'.at.Refers())
       && (th'.at.Refers() ==> th.at.Refers() && th'.stud == th.stud && th'.at != Found && th'.at != Added)
       && !th'.at.Sole() && !th.at.Sole()
       && th'.at.Owns() == th.at.Owns() && th'.at.Took() == th.at.Took() && th'.at.HasObject() == th.at.HasObject()
       && th.at != Added
  }

  lemma WalkKeeps(g: World, g': World, t: Tid)
    requires Inv(g) && WalkShape(g, g', t) && LocksStep(g, g', t)
    requires var at := g'.threads[t].at;
             && at.FitsRole(g.threads[t].role)
             && (t in g'.lrd <==> at.ListRd()) && (t in g'.lwr <==> at.ListWr())
             && (at.CAbsent? ==> g'.threads[t].roll !in g.list)
    ensures Local(g, g', t, {})
  {
    assert ThreadOk(g, t);
    PairsKept(g, g', t);
    WalkLocal(g, g', t);
  }

  lemma IdleStep(g: World, g': World, t: Tid, roll: nat)
    requires Inv(g) && Enabled(g, t) && g.threads[t].at == Idle && Apply(g, t, roll) == Some(g')
    ensures Local(g, g', t, {})
  {
    assert ThreadOk(g, t);
    LockMoves(g, g', t);
    WalkKeeps(g, g', t);
  }

  lemma LookUpMiss(g: World, g': World, t: Tid, roll: nat)
    requires Inv(g) && t in g.threads && Apply(g, t, roll) == Some(g')
    requires g.threads[t].at == HasList && g.threads[t].roll !in g.list
    ensures Local(g, g', t, {})
  {
    assert ThreadOk(g, t);
    LockMoves(g, g', t);
    WalkKeeps(g, g', t);
  }

  lemma ReaderLeavesList(g: World, g': World, t: Tid, roll: nat)
    requires Inv(g) && t in g.threads && Apply(g, t, roll) == Some(g')
    requires g.threads[t].at == Miss || g.threads[t].at == Locked
    ensures Local(g, g', t, {})
  {
    assert ThreadOk(g, t);
    LockMoves(g, g', t);
    WalkKeeps(g, g', t);
  }

  lemma ReadMarks(g: World, g': World, t: Tid, roll: nat)
    requires Inv(g) && t in g.threads && Apply(g, t, roll) == Some(g')
    requires g.threads[t].at == Using && g.threads[t].role.Reader?
    ensures Local(g, g', t, {})
  {
    assert ThreadOk(g, t);
    LockMoves(g, g', t);
    WalkKeeps(g, g', t);
  }

  lemma CreatorLooksUp(g: World, g': World, t: Tid, roll: nat)
    requires Inv(g) && t in g.threads && Apply(g, t, roll) == Some(g')
    requires g.threads[t].at == CHas
    ensures Local(g, g', t, {})
  {
    assert ThreadOk(g, t);
    LockMoves(g, g', t);
    WalkKeeps(g, g', t);
  }

  lemma RemoveMiss(g: World, g': World, t: Tid, roll: nat)
    requires Inv(g) && t in g.threads && Apply(g, t, roll) == Some(g')
    requires g.threads[t].at == DHas && g.threads[t].roll !in g.list
    ensures Local(g, g', t, {})
  {
    assert ThreadOk(g, t);
    LockMoves(g, g', t);
    WalkKeeps(g, g', t);
  }

  lemma WriterEnds(g: World, g': World, t: Tid, roll: nat)
    requires Inv(g) && t in g.threads && Apply(g, t, roll) == Some(g') && g.threads[t].at == WEnd
    ensures Local(g, g', t, {})
  {
    assert ThreadOk(g, t);
    LockMoves(g, g', t);
    WalkKeeps(g, g', t);
  }

  lemma DeleterLeavesList(g: World, g': World, t: Tid, roll: nat)
    requires Inv(g) && t in g.threads && Apply(g, t, roll) == Some(g') && g.threads[t].at == DDrop
    ensures Local(g, g', t, {})
  {
    assert ThreadOk(g, t);
    LockMoves(g, g', t);
    WalkKeeps(g, g', t);
  }

  /** The student found under the list lock is neither being made nor being destroyed. */
  lemma LookUpHit(g: World, g': World, t: Tid, roll: nat)
    requires Inv(g) && t in g.threads && Apply(g, t, roll) == Some(g')
    requires g.threads[t].at == HasList && g.threads[t].roll in g.list
    ensures Local(g, g', t, {})
  {
    assert ThreadOk(g, t);
    LockMoves(g, g', t);
    forall u | u in g.threads ensures PairOk(g', t, u) {
      assert ThreadOk(g, u);
    }
    WalkLocal(g, g', t);
  }

  // ---------------------------------------------------------------- steps on one student

  /** Other threads' view of a student survives a step of t on it. */
  lemma OthersKeepPointer(g: World, g': World, t: Tid, u: Tid)
    requires Inv(g) && OnlyThread(g, g', t) && u in g.threads && u != t && g'.list == g.list
    requires g.threads[t].at.Refers() && g.threads[u].at.Refers() && g.threads[u].stud == g.threads[t].stud
    requires var s := g.threads[t].stud;
             && s in g.heap && s in g'.heap && g'.heap[s].roll == g.heap[s].roll
             && (g'.heap[s].marks == g.heap[s].marks || t in g.heap[s].wr)
    ensures PointerOk(g', u)
  {
    assert ThreadOk(g, u) && PairOk(g, t, u);
    var s := g.threads[t].stud;
    assert StudentOk(g, s);
    if g.threads[u].at.Added? {
      assert u in g.heap[s].wr;
    }
  }

  /** A step of t that changes nothing but its own place and its student's record. */
  ghost predicate ObjectShape(g: World, g': World, t: Tid) {
    && OnlyThread(g, g', t)
    && g'.list == g.list && g'.next == g.next && g'.lrd == g.lrd && g'.lwr == g.lwr
    && var th, th', s := g.threads[t], g'.threads[t], g.threads[t].stud;
       && th'.role == th.role && th'.stud == s && th.at.Refers()
       && s in g.heap && s in g'.heap && g'.heap == g.heap[s := g'.heap[s]] && g'.heap[s].roll == g.heap[s].roll
       && (g'.heap[s].marks == g.heap[s].marks || t in g.heap[s].wr)
  }

  lemma ObjectLocal(g: World, g': World, t: Tid)
    requires Inv(g) && ObjectShape(g, g', t)
    requires ThreadOk(g', t) && StudentOk(g', g.threads[t].stud)
    requires forall u {:trigger PairOk(g', t, u)} :: u in g.threads ==> PairOk(g', t, u)
    ensures Local(g, g', t, {g.threads[t].stud})
  {
    var s := g.threads[t].stud;
    LockMoves(g, g', t);
    forall x | x in g'.heap && x != s ensures Untouched(g, g', t, x) {
    }
    forall u | u in g.threads && u != t && g.threads[u].at.Refers() && g.threads[u].stud == s ensures PointerOk(g', u) {
      OthersKeepPointer(g, g', t, u);
    }
  }

  /** A step that changes the reference count by what the thread itself takes or gives up. */
  ghost predicate Weighs(th: Thread, th': Thread, delta: int) {
    delta == Bit(th'.at.Owns()) - Bit(th.at.Owns()) + Bit(th'.at.Took()) - Bit(th.at.Took())
             - Bit(th'.at == CListed) + Bit(th.at == CListed)
  }

  ghost predicate CountShape(g: World, g': World, t: Tid) {
    && ObjectShape(g, g', t)
    && var x, x' := g.heap[g.threads[t].stud], g'.heap[g.threads[t].stud];
       && x'.rd == x.rd && x'.wr == x.wr && x'.marks == x.marks
       && Weighs(g.threads[t], g'.threads[t], x'.refs - x.refs)
       && SameInObject(g.threads[t], g'.threads[t], g.threads[t].stud)
  }

  lemma CountedRight(g: World, g': World, t: Tid)
    requires Inv(g) && CountShape(g, g', t)
    ensures RefsRight(g', g.threads[t].stud)
  {
    var s := g.threads[t].stud;
    assert StudentOk(g, s);
    Recount(g, g', t, s);
  }

  lemma CountLocal(g: World, g': World, t: Tid)
    requires Inv(g) && CountShape(g, g', t) && ThreadOk(g', t)
    requires ZeroIsSole(g', g.threads[t].stud)
    requires forall u {:trigger PairOk(g', t, u)} :: u in g.threads ==> PairOk(g', t, u)
    ensures Local(g, g', t, {g.threads[t].stud})
  {
    var s := g.threads[t].stud;
    assert StudentOk(g, s);
    CountedRight(g, g', t);
    ObjectKept(g, g', t, s);
    ObjectLocal(g, g', t);
  }

  lemma TakeReference(g: World, g': World, t: Tid, roll: nat)
    requires Inv(g) && t in g.threads && g.threads[t].at == Found && Apply(g, t, roll) == Some(g')
    ensures Local(g, g', t, {g.threads[t].stud})
  {
    assert ThreadOk(g, t);
    FoundCounts(g, t);
    PairsKept(g, g', t);
    CountLocal(g, g', t);
  }

  lemma CountListReference(g: World, g': World, t: Tid, roll: nat)
    requires Inv(g) && t in g.threads && g.threads[t].at == CListed && Apply(g, t, roll) == Some(g')
    ensures Local(g, g', t, {g.threads[t].stud})
  {
    assert ThreadOk(g, t);
    assert StudentOk(g, g.threads[t].stud);
    PairsKept(g, g', t);
    CountLocal(g, g', t);
  }

  lemma DeleterReference(g: World, g': World, t: Tid, roll: nat)
    requires Inv(g) && t in g.threads && g.threads[t].at == DOut && Apply(g, t, roll) == Some(g')
    ensures Local(g, g', t, {g.threads[t].stud})
  {
    assert ThreadOk(g, t);
    TakerCounts(g, t);
    PairsKept(g, g', t);
    CountLocal(g, g', t);
  }

  lemma DropListReference(g: World, g': World, t: Tid, roll: nat)
    requires Inv(g) && t in g.threads && g.threads[t].at == DRef && Apply(g, t, roll) == Some(g')
    ensures Local(g, g', t, {g.threads[t].stud})
  {
    assert ThreadOk(g, t);
    OwnerCounts(g, t);
    PairsKept(g, g', t);
    CountLocal(g, g', t);
  }

  lemma TakerCounts(g: World, t: Tid)
    requires Inv(g) && t in g.threads && g.threads[t].at.Took()
    ensures g.threads[t].stud in g.heap && g.heap[g.threads[t].stud].refs >= 1
  {
    assert ThreadOk(g, t);
    assert StudentOk(g, g.threads[t].stud);
    NoMakers(g, t);
    assert t in Takers(g, g.threads[t].stud);
  }

  lemma FoundCounts(g: World, t: Tid)
    requires Inv(g) && t in g.threads && g.threads[t].at == Found
    ensures g.threads[t].stud in g.heap && g.heap[g.threads[t].stud].refs >= 1
  {
    assert ThreadOk(g, t);
    assert StudentOk(g, g.threads[t].stud);
    NoMakers(g, t);
  }

  /** A step that leaves the references to the student as they are. */
  lemma InsideLocal(g: World, g': World, t: Tid)
    requires Inv(g) && ObjectShape(g, g', t) && ThreadOk(g', t)
    requires var s := g.threads[t].stud;
             && g'.heap[s].refs == g.heap[s].refs && ObjectOk(g', s)
             && SameRefs(g.threads[t], g'.threads[t], s)
             && !g.threads[t].at.Sole() && g'.threads[t].at.Refers()
    ensures Local(g, g', t, {g.threads[t].stud})
  {
    assert StudentOk(g, g.threads[t].stud);
    RefsKept(g, g', t, g.threads[t].stud);
    PairsKept(g, g', t);
    ObjectLocal(g, g', t);
  }

  lemma TakeObjectLock(g: World, g': World, t: Tid, roll: nat)
    requires Inv(g) && Enabled(g, t) && Apply(g, t, roll) == Some(g') && g.threads[t].at == Counted
    ensures Local(g, g', t, {g.threads[t].stud})
  {
    assert ThreadOk(g, t);
    assert StudentOk(g, g.threads[t].stud);
    InsideLocal(g, g', t);
  }

  lemma ReleaseObjectLock(g: World, g': World, t: Tid, roll: nat)
    requires Inv(g) && Enabled(g, t) && Apply(g, t, roll) == Some(g') && g.threads[t].at == Used
    ensures Local(g, g', t, {g.threads[t].stud})
  {
    assert ThreadOk(g, t);
    assert StudentOk(g, g.threads[t].stud);
    InsideLocal(g, g', t);
  }

  lemma AddMarks(g: World, g': World, t: Tid, roll: nat)
    requires Inv(g) && t in g.threads && Apply(g, t, roll) == Some(g')
    requires g.threads[t].at == Using && g.threads[t].role.Updater?
    ensures Local(g, g', t, {g.threads[t].stud})
  {
    assert ThreadOk(g, t);
    assert StudentOk(g, g.threads[t].stud);
    assert t in g.heap[g.threads[t].stud].wr;
    InsideLocal(g, g', t);
  }

  lemma ReduceMarks(g: World, g': World, t: Tid, roll: nat)
    requires Inv(g) && t in g.threads && Apply(g, t, roll) == Some(g') && g.threads[t].at == Added
    ensures Local(g, g', t, {g.threads[t].stud})
  {
    assert ThreadOk(g, t);
    assert StudentOk(g, g.threads[t].stud);
    assert t in g.heap[g.threads[t].stud].wr;
    InsideLocal(g, g', t);
  }

  // ---------------------------------------------------------------- the last reference

  /** When a thread gives up the only reference, nobody else refers to the student and it is not
      listed. */
  lemma LastReference(g: World, t: Tid, u: Tid)
    requires Inv(g) && t in g.threads && g.threads[t].at == Leaving && u in g.threads && u != t
    requires g.threads[t].stud in g.heap && g.heap[g.threads[t].stud].refs == 1
    ensures !(g.threads[u].at.Refers() && g.threads[u].stud == g.threads[t].stud)
  {
    var s := g.threads[t].stud;
    LastReferenceUnlisted(g, t);
    assert StudentOk(g, s) && ThreadOk(g, u) && PairOk(g, t, u);
    NoMakers(g, t);
    var o := Owners(g, s);
    assert t in o;
    assert |o| == 1 && Takers(g, s) == {};
    RemoveSize(o, t);
    assert o - {t} == {};
    assert u !in o - {t};
    assert u !in Takers(g, s);
  }

  lemma LastReferenceUnlisted(g: World, t: Tid)
    requires Inv(g) && t in g.threads && g.threads[t].at == Leaving
    requires g.threads[t].stud in g.heap && g.heap[g.threads[t].stud].refs == 1
    ensures !Listed(g, g.threads[t].stud)
  {
    assert StudentOk(g, g.threads[t].stud);
    NoMakers(g, t);
    assert t in Owners(g, g.threads[t].stud);
  }

  lemma DropOneReference(g: World, g': World, t: Tid, roll: nat)
    requires Inv(g) && t in g.threads && g.threads[t].at == Leaving && Apply(g, t, roll) == Some(g')
    requires g.threads[t].stud in g.heap && g.heap[g.threads[t].stud].refs != 1
    ensures Local(g, g', t, {g.threads[t].stud})
  {
    assert ThreadOk(g, t);
    PairsKept(g, g', t);
    CountLocal(g, g', t);
  }

  lemma DropLastReference(g: World, g': World, t: Tid, roll: nat)
    requires Inv(g) && t in g.threads && g.threads[t].at == Leaving && Apply(g, t, roll) == Some(g')
    requires g.threads[t].stud in g.heap && g.heap[g.threads[t].stud].refs == 1
    ensures Local(g, g', t, {g.threads[t].stud})
  {
    assert ThreadOk(g, t);
    LastReferenceUnlisted(g, t);
    forall u | u in g.threads ensures PairOk(g', t, u) {
      if u != t { LastReference(g, t, u); }
    }
    assert g'.threads[t].at.Sole() && g'.threads[t].stud == g.threads[t].stud;
    CountLocal(g, g', t);
  }

  lemma Destroy(g: World, g': World, t: Tid, roll: nat)
    requires Inv(g) && t in g.threads && g.threads[t].at == Killing && Apply(g, t, roll) == Some(g')
    ensures Local(g, g', t, {g.threads[t].stud})
  {
    assert ThreadOk(g, t);
    var s := g.threads[t].stud;
    LockMoves(g, g', t);
    PairsKept(g, g', t);
    assert ListOk(g') by {
      forall r | r in g'.list ensures g'.list[r] in g'.heap && g'.heap[g'.list[r]].roll == r {
        assert g.list[r] != s;
      }
    }
    forall x | x in g'.heap ensures Untouched(g, g', t, x) {}
    forall u | u in g.threads && u != t && g.threads[u].at.Refers() ensures g.threads[u].stud != s {
      assert PairOk(g, t, u);
    }
  }

  // ---------------------------------------------------------------- making, listing and unlisting

  lemma Allocate(g: World, g': World, t: Tid, roll: nat)
    requires Inv(g) && t in g.threads && g.threads[t].at == CAbsent && Apply(g, t, roll) == Some(g')
    ensures Local(g, g', t, {g.next})
  {
    assert ThreadOk(g, t);
    var s := g.next;
    forall x | x in g.heap ensures x != s { assert StudentOk(g, x); }
    LockMoves(g, g', t);
    forall u | u in g.threads && u != t && g.threads[u].at.Refers() ensures g.threads[u].stud != s {
      assert ThreadOk(g, u);
    }
    forall u | u in g.threads ensures PairOk(g', t, u) {}
    forall x | x in g'.heap && x != s ensures Untouched(g, g', t, x) {}
    NewStudent(g, g', t);
  }

  lemma NewStudent(g: World, g': World, t: Tid)
    requires Inv(g) && OnlyThread(g, g', t) && g'.list == g.list && g.next !in g.heap && g'.next == g.next + 1
    requires g'.threads[t].at == CNew && g'.threads[t].stud == g.next && g'.threads[t].roll !in g.list
    requires g'.heap == g.heap[g.next := Student(g'.threads[t].roll, 0, 0, {}, {})]
    requires forall u :: u in g.threads && u != t && g.threads[u].at.Refers() ==> g.threads[u].stud != g.next
    ensures StudentOk(g', g.next)
  {
    assert Owners(g', g.next) == {} && Takers(g', g.next) == {} && Makers(g', g.next) == {};
    assert g'.threads[t].at.Sole();
  }

  /** The list lock keeps every other thread from depending on the list. */
  lemma OnlyListWriter(g: World, t: Tid, u: Tid)
    requires Inv(g) && t in g.lwr && u in g.threads && u != t
    ensures !g.threads[u].at.ListWr() && !g.threads[u].at.ListRd()
  {
    assert ThreadOk(g, u);
  }

  lemma InsertStudent(g: World, g': World, t: Tid, roll: nat)
    requires Inv(g) && t in g.threads && g.threads[t].at == CNew && Apply(g, t, roll) == Some(g')
    ensures Local(g, g', t, {g.threads[t].stud})
  {
    assert ThreadOk(g, t);
    var s := g.threads[t].stud;
    LockMoves(g, g', t);
    PairsKept(g, g', t);
    forall u | u in g.threads && u != t ensures !g.threads[u].at.ListWr() && (g.threads[u].at.Refers() ==> g.threads[u].stud != s) {
      OnlyListWriter(g, t, u);
      assert PairOk(g, t, u);
    }
    forall x | x in g'.heap && x != s ensures Untouched(g, g', t, x) {}
    ListedStudent(g, g', t);
  }

  lemma ListedStudent(g: World, g': World, t: Tid)
    requires Inv(g) && OnlyThread(g, g', t) && g.threads[t].at == CNew
    requires var s := g.threads[t].stud;
             && g'.heap == g.heap && s in g.heap && !Listed(g, s) && Listed(g', s)
             && g'.threads[t] == g.threads[t].(at := CListed) && g'.next == g.next
    ensures StudentOk(g', g.threads[t].stud)
  {
    var s := g.threads[t].stud;
    assert StudentOk(g, s);
    Recount(g, g', t, s);
    ObjectKept(g, g', t, s);
    assert g'.threads[t].at.Sole() && g'.threads[t].stud == s;
  }

  lemma RemoveStudent(g: World, g': World, t: Tid, roll: nat)
    requires Inv(g) && t in g.threads && g.threads[t].at == DHas && Apply(g, t, roll) == Some(g')
    requires g.threads[t].roll in g.list
    ensures Local(g, g', t, {g.list[g.threads[t].roll]})
  {
    assert ThreadOk(g, t);
    var s := g.list[g.threads[t].roll];
    LockMoves(g, g', t);
    forall u | u in g.threads && u != t
      ensures !g.threads[u].at.ListWr()
      ensures g.threads[u].at.Refers() && g.threads[u].stud == s ==> PointerOk(g', u)
      ensures PairOk(g', t, u)
    {
      OnlyListWriter(g, t, u);
      assert ThreadOk(g, u);
    }
    forall x | x in g'.heap && x != s ensures Untouched(g, g', t, x) {}
    UnlistedStudent(g, g', t);
  }

  lemma UnlistedStudent(g: World, g': World, t: Tid)
    requires Inv(g) && OnlyThread(g, g', t) && g.threads[t].at == DHas
    requires var s := g'.threads[t].stud;
             && g'.heap == g.heap && s in g.heap && Listed(g, s) && !Listed(g', s)
             && g'.threads[t].role == g.threads[t].role && g'.threads[t].at == DOut && g'.next == g.next
    ensures StudentOk(g', g'.threads[t].stud)
  {
    var s := g'.threads[t].stud;
    assert StudentOk(g, s);
    UnlistedRefs(g, g', t, s);
    ObjectKept(g, g', t, s);
  }

  /** The list's reference passes to the thread that takes the student off it. */
  lemma UnlistedRefs(g: World, g': World, t: Tid, s: Sid)
    requires OnlyThread(g, g', t) && g.threads[t].at == DHas && g'.threads[t].at == DOut && g'.threads[t].stud == s
    requires g'.heap == g.heap && s in g.heap && Listed(g, s) && !Listed(g', s)
    requires RefsRight(g, s) && ZeroIsSole(g, s)
    ensures RefsRight(g', s) && ZeroIsSole(g', s)
  {
    Recount(g, g', t, s);
    if g.heap[s].refs == 0 {
      var u :| u in g.threads && g.threads[u].at.Sole() && g.threads[u].stud == s;
      assert g'.threads[u].at.Sole() && g'.threads[u].stud == s;
    }
  }

  // ---------------------------------------------------------------- the invariant

  lemma LocalStep(g: World, g': World, t: Tid, roll: nat)
    requires Inv(g) && Enabled(g, t) && Apply(g, t, roll) == Some(g')
    ensures exists d :: Local(g, g', t, d)
  {
    var th := g.threads[t];
    assert ThreadOk(g, t);
    match th.at
    case Idle => IdleStep(g, g', t, roll);
    case HasList => if th.roll in g.list { LookUpHit(g, g', t, roll); } else { LookUpMiss(g, g', t, roll); }
    case Miss => ReaderLeavesList(g, g', t, roll);
    case Found => TakeReference(g, g', t, roll);
    case Counted => TakeObjectLock(g, g', t, roll);
    case Locked => ReaderLeavesList(g, g', t, roll);
    case Using => if th.role.Reader? { ReadMarks(g, g', t, roll); } else { AddMarks(g, g', t, roll); }
    case Added => ReduceMarks(g, g', t, roll);
    case Used => ReleaseObjectLock(g, g', t, roll);
    case Leaving =>
      if g.heap[th.stud].refs == 1 { DropLastReference(g, g', t, roll); } else { DropOneReference(g, g', t, roll); }
    case Killing => Destroy(g, g', t, roll);
    case CHas => CreatorLooksUp(g, g', t, roll);
    case CAbsent => Allocate(g, g', t, roll);
    case CNew => InsertStudent(g, g', t, roll);
    case CListed => CountListReference(g, g', t, roll);
    case DHas => if th.roll in g.list { RemoveStudent(g, g', t, roll); } else { RemoveMiss(g, g', t, roll); }
    case DOut => DeleterReference(g, g', t, roll);
    case DRef => DropListReference(g, g', t, roll);
    case DDrop => DeleterLeavesList(g, g', t, roll);
    case WEnd => WriterEnds(g, g', t, roll);
  }

  lemma InvStep(g: World, t: Tid, roll: nat)
    requires Inv(g) && Enabled(g, t)
    ensures Apply(g, t, roll).Some? && Inv(Apply(g, t, roll).value)
  {
    Succeeds(g, t, roll);
    var g' := Apply(g, t, roll).value;
    LocalStep(g, g', t, roll);
    var d :| Local(g, g', t, d);
    LocalKeepsInv(g, g', t, d);
  }
}
