/** What every run of the CRUD protocol keeps. */
module CrudTheorems {
  import opened Base
  import opened CrudProtocol
  import opened CrudSteps

  /** A step of thread t, which draws a roll number if it starts an iteration. */
  datatype Action = Act(t: Tid, roll: nat)

  ghost predicate Step(g: World, a: Action, g': World) {
    Enabled(g, a.t) && Apply(g, a.t, a.roll) == Some(g')
  }

  ghost predicate Init(g: World) {
    && g.list == map[] && g.heap == map[] && g.next == 0 && g.lrd == {} == g.lwr
    && forall t :: t in g.threads ==> g.threads[t].at == Idle
  }

  ghost predicate Run(gs: seq<World>, acts: seq<Action>) {
    && |gs| == |acts| + 1
    && Init(gs[0])
    && forall i {:trigger acts[i]} :: 0 <= i < |acts| ==> Step(gs[i], acts[i], gs[i + 1])
  }

  lemma InitInv(g: World)
    requires Init(g)
    ensures Inv(g)
  {
  }

  lemma {:induction false} RunInv(gs: seq<World>, acts: seq<Action>, k: nat)
    requires Run(gs, acts) && k < |gs|
    ensures Inv(gs[k])
    decreases k
  {
    if k == 0 {
      InitInv(gs[0]);
    } else {
      RunInv(gs, acts, k - 1);
      InvStep(gs[k - 1], acts[k - 1].t, acts[k - 1].roll);
    }
  }

  // ---------------------------------------------------------------- safety

  /** No step of any run touches a destroyed student or fails an assertion. */
  lemma NoStepFails(gs: seq<World>, acts: seq<Action>, k: nat, t: Tid, roll: nat)
    requires Run(gs, acts) && k < |gs| && Enabled(gs[k], t)
    ensures Apply(gs[k], t, roll).Some?
  {
    RunInv(gs, acts, k);
    Succeeds(gs[k], t, roll);
  }

  /** The list's own reference is counted from the creator's increment to the deleter's removal. */
  ghost predicate ListCounted(g: World, s: Sid)
    requires s in g.heap
  {
    Listed(g, s) && forall t :: t in g.threads && g.threads[t].stud == s ==> g.threads[t].at != CListed
  }

  /** In every reachable state a student's count is the list's reference, if it has one, and the
      references held by threads; a deleter between removal and decrement holds the list's. */
  lemma RefCountExact(gs: seq<World>, acts: seq<Action>, k: nat, s: Sid)
    requires Run(gs, acts) && k < |gs| && s in gs[k].heap
    ensures gs[k].heap[s].refs
            == (if ListCounted(gs[k], s) then 1 else 0) + |Owners(gs[k], s)| + |Takers(gs[k], s)|
  {
    RunInv(gs, acts, k);
    var g := gs[k];
    assert StudentOk(g, s);
    if m :| m in Makers(g, s) {
      assert ThreadOk(g, m);
      forall u | u in g.threads && u != m ensures g.threads[u].at.Refers() ==> g.threads[u].stud != s {
        assert PairOk(g, m, u);
      }
      assert Makers(g, s) == {m};
      assert !ListCounted(g, s);
    } else if Listed(g, s) {
      assert forall t :: t in g.threads && g.threads[t].stud == s && g.threads[t].at == CListed ==> t in Makers(g, s);
      assert ListCounted(g, s);
    }
  }

  ghost function Users(g: World): set<Tid> {
    set t | t in g.threads && (g.threads[t].role.Reader? || g.threads[t].role.Updater?)
  }

  lemma AtMostOne(a: set<Tid>)
    requires forall x, y :: x in a && y in a ==> x == y
    ensures |a| <= 1
  {
    if x :| x in a {
      assert a == {x};
    }
  }

  /** The count never exceeds the number of readers and updaters by more than two, and never goes
      below zero. */
  lemma RefCountBound(gs: seq<World>, acts: seq<Action>, k: nat, s: Sid)
    requires Run(gs, acts) && k < |gs| && s in gs[k].heap
    ensures 0 <= gs[k].heap[s].refs <= |Users(gs[k])| + 2
  {
    RefCountExact(gs, acts, k, s);
    RunInv(gs, acts, k);
    HoldersBound(gs[k], s);
  }

  lemma HoldersBound(g: World, s: Sid)
    requires Inv(g) && s in g.heap
    ensures |Owners(g, s)| + |Takers(g, s)| + (if Listed(g, s) then 1 else 0) <= |Users(g)| + 2
  {
    var users := Owners(g, s) * Users(g);
    var deleters := Owners(g, s) - Users(g);
    SubsetSize(users, Users(g));
    assert Owners(g, s) == users + deleters;
    UnionSize(users, deleters);
    OneDeleter(g, s, deleters);
    OneDeleter(g, s, Takers(g, s));
  }

  /** At most one deleter holds references to a student, and then it is not listed. */
  lemma OneDeleter(g: World, s: Sid, d: set<Tid>)
    requires Inv(g) && s in g.heap
    requires d == Owners(g, s) - Users(g) || d == Takers(g, s)
    ensures |d| <= 1 && (d != {} ==> !Listed(g, s))
  {
    forall x | x in d ensures g.threads[x].role.Deleter? && RefersTo(g, x, s) && !Listed(g, s) {
      assert ThreadOk(g, x);
    }
    forall x, y | x in d && y in d ensures x == y {
      assert PairOk(g, x, y);
    }
    AtMostOne(d);
  }

  /** No leak: when every thread is between iterations, the live students are exactly the listed
      ones, each counted once. */
  lemma NoLeakAtRest(gs: seq<World>, acts: seq<Action>, k: nat)
    requires Run(gs, acts) && k < |gs|
    requires forall t :: t in gs[k].threads ==> gs[k].threads[t].at == Idle
    ensures gs[k].heap.Keys == gs[k].list.Values
    ensures forall s :: s in gs[k].heap ==> gs[k].heap[s].refs == 1
  {
    RunInv(gs, acts, k);
    var g := gs[k];
    forall s | s in g.heap ensures s in g.list.Values && g.heap[s].refs == 1 {
      assert StudentOk(g, s);
      assert Owners(g, s) == {} && Takers(g, s) == {} && Makers(g, s) == {};
    }
  }

  /** No leak at any time: a live student is listed or some thread still refers to it. */
  lemma NoLeak(gs: seq<World>, acts: seq<Action>, k: nat, s: Sid)
    requires Run(gs, acts) && k < |gs| && s in gs[k].heap
    ensures Listed(gs[k], s) || exists t :: t in gs[k].threads && gs[k].threads[t].at.Refers() && gs[k].threads[t].stud == s
  {
    RunInv(gs, acts, k);
    var g := gs[k];
    assert StudentOk(g, s);
    RefCountExact(gs, acts, k, s);
    if !Listed(g, s) && g.heap[s].refs != 0 {
      var t :| t in Owners(g, s) + Takers(g, s);
      assert g.threads[t].at.Refers() && g.threads[t].stud == s;
    } else if g.heap[s].refs == 0 {
      var t :| t in g.threads && g.threads[t].at.Sole() && g.threads[t].stud == s;
      assert g.threads[t].at.Refers() && g.threads[t].stud == s;
    }
  }

  // ---------------------------------------------------------------- destruction

  /** A student is destroyed by a thread whose own decrement brought the count to zero; at that
      moment nobody holds its lock, it is not listed, and no other thread refers to it. */
  lemma DestroyedByLastHolder(gs: seq<World>, acts: seq<Action>, k: nat, s: Sid)
    requires Run(gs, acts) && k < |acts| && s in gs[k].heap && s !in gs[k + 1].heap
    ensures var g, t := gs[k], acts[k].t;
            && g.threads[t].at == Killing && g.threads[t].stud == s
            && g.heap[s].refs == 0 && g.heap[s].rd + g.heap[s].wr == {} && !Listed(g, s)
            && forall u :: u in g.threads && u != t && g.threads[u].at.Refers() ==> g.threads[u].stud != s
  {
    RunInv(gs, acts, k);
    var g, t := gs[k], acts[k].t;
    assert ThreadOk(g, t);
    KillerStep(g, acts[k], gs[k + 1], s);
    KilledUnlocked(g, t);
    forall u | u in g.threads && u != t && g.threads[u].at.Refers() ensures g.threads[u].stud != s {
      assert PairOk(g, t, u);
    }
  }

  lemma KillerStep(g: World, a: Action, g': World, s: Sid)
    requires Step(g, a, g') && s in g.heap
    ensures s in g'.heap <==> !(g.threads[a.t].at == Killing && g.threads[a.t].stud == s)
  {
    var th := g.threads[a.t];
    match th.role
    case Creator =>
    case Deleter =>
    case _ =>
  }

  /** The threads that reach the destruction of a student got there by a decrement to zero. */
  lemma KillingEntered(g: World, a: Action, g': World)
    requires Inv(g) && Step(g, a, g') && a.t in g'.threads && g'.threads[a.t].at == Killing
    ensures a.t in g.threads && g.threads[a.t].at == Leaving && g.threads[a.t].stud == g'.threads[a.t].stud
    ensures g.threads[a.t].stud in g.heap
    ensures g'.threads[a.t].stud in g'.heap && g'.heap[g'.threads[a.t].stud].refs == 0
    ensures g.heap[g.threads[a.t].stud].refs == 1
  {
    assert ThreadOk(g, a.t);
    InvStep(g, a.t, a.roll);
    assert ThreadOk(g', a.t);
  }

  /** So whoever stands before the destruction of a student has itself, at an earlier step j, taken
      its count from 1 to 0, and has done nothing since. */
  lemma {:induction false} KillerDecremented(gs: seq<World>, acts: seq<Action>, k: nat, t: Tid) returns (j: nat)
    requires Run(gs, acts) && k < |gs| && t in gs[k].threads && gs[k].threads[t].at == Killing
    ensures j < k && acts[j].t == t && t in gs[j].threads && gs[j].threads[t].at == Leaving
    ensures var s := gs[k].threads[t].stud;
            && s == gs[j].threads[t].stud && s in gs[j].heap && gs[j].heap[s].refs == 1
            && s in gs[j + 1].heap && gs[j + 1].heap[s].refs == 0
    ensures forall i :: j < i <= k ==> t in gs[i].threads && gs[i].threads[t] == gs[k].threads[t]
    decreases k
  {
    assert k > 0;
    RunInv(gs, acts, k - 1);
    if acts[k - 1].t == t {
      KillingEntered(gs[k - 1], acts[k - 1], gs[k]);
      j := k - 1;
    } else {
      PointerAfter(gs[k - 1], acts[k - 1], gs[k]);
      j := KillerDecremented(gs, acts, k - 1, t);
    }
  }

  /** A student is destroyed at most once: its name never comes back. */
  lemma {:induction false} DestroyedOnce(gs: seq<World>, acts: seq<Action>, i: nat, j: nat, s: Sid)
    requires Run(gs, acts) && i <= j < |gs| && s < gs[i].next && s !in gs[i].heap
    ensures s !in gs[j].heap && s < gs[j].next
    decreases j
  {
    if i < j {
      DestroyedOnce(gs, acts, i, j - 1, s);
      NamesGrow(gs[j - 1], acts[j - 1], gs[j]);
    }
  }

  lemma NamesGrow(g: World, a: Action, g': World)
    requires Step(g, a, g')
    ensures g.next <= g'.next
    ensures forall s :: s in g'.heap ==> s in g.heap || s == g.next < g'.next
  {
  }

  // ---------------------------------------------------------------- deferred destruction

  ghost predicate RefersTo(g: World, t: Tid, s: Sid) {
    t in g.threads && g.threads[t].at.Refers() && g.threads[t].stud == s
  }

  /** A student that has been listed and taken off the list again. */
  ghost predicate Removed(g: World, s: Sid) {
    && s < g.next && (forall r :: r in g.list ==> g.list[r] != s)
    && (forall t :: RefersTo(g, t, s) ==> g.threads[t].at != CNew)
  }

  lemma RemovedWhenOut(g: World, t: Tid)
    requires Inv(g) && t in g.threads && g.threads[t].at == DOut
    ensures Removed(g, g.threads[t].stud)
  {
    assert ThreadOk(g, t);
    assert StudentOk(g, g.threads[t].stud);
    forall u | RefersTo(g, u, g.threads[t].stud) ensures g.threads[u].at != CNew {
      assert PairOk(g, t, u);
    }
  }

  /** Taking a student off the list removes it. */
  lemma RemovedByDeleter(gs: seq<World>, acts: seq<Action>, k: nat)
    requires Run(gs, acts) && k < |acts| && acts[k].t in gs[k + 1].threads && gs[k + 1].threads[acts[k].t].at == DOut
    ensures acts[k].t in gs[k].threads && gs[k].threads[acts[k].t].at == DHas
    ensures Removed(gs[k + 1], gs[k + 1].threads[acts[k].t].stud)
  {
    EnteredRemoval(gs[k], acts[k], gs[k + 1]);
    RunInv(gs, acts, k + 1);
    RemovedWhenOut(gs[k + 1], acts[k].t);
  }

  lemma EnteredRemoval(g: World, a: Action, g': World)
    requires Step(g, a, g') && g'.threads[a.t].at == DOut
    ensures g.threads[a.t].at == DHas
  {
  }

  lemma ListAfter(g: World, a: Action, g': World, r: nat)
    requires Step(g, a, g') && r in g'.list
    ensures (r in g.list && g'.list[r] == g.list[r]) || (RefersTo(g, a.t, g'.list[r]) && g.threads[a.t].at == CNew)
  {
  }

  /** The step moved only t, whose pointer is its old one, one found in the list or a new one. */
  ghost predicate PointerFrom(g: World, g': World, t: Tid) {
    && OnlyThread(g, g', t)
    && var th, th' := g.threads[t], g'.threads[t];
       th'.at.Refers() ==>
         || (RefersTo(g, t, th'.stud) && th'.at != CNew)
         || (th.roll in g.list && th'.stud == g.list[th.roll] && th'.at != CNew)
         || th'.stud == g.next
  }

  lemma UsePointer(g: World, t: Tid, roll: nat, g': World)
    requires t in g.threads && (g.threads[t].at.Refers() ==> g.threads[t].stud in g.heap)
    requires UseStep(g, t, roll) == Some(g')
    ensures PointerFrom(g, g', t)
  {
  }

  lemma CreatePointer(g: World, t: Tid, roll: nat, g': World)
    requires t in g.threads && (g.threads[t].at.Refers() ==> g.threads[t].stud in g.heap)
    requires CreateStep(g, t, roll) == Some(g')
    ensures PointerFrom(g, g', t)
  {
  }

  lemma DeletePointer(g: World, t: Tid, roll: nat, g': World)
    requires t in g.threads && (g.threads[t].at.Refers() ==> g.threads[t].stud in g.heap)
    requires DeleteStep(g, t, roll) == Some(g')
    ensures PointerFrom(g, g', t)
  {
  }

  lemma FinishPointer(g: World, t: Tid, g': World)
    requires t in g.threads && g.threads[t].stud in g.heap && g.threads[t].at.Refers()
    requires Finish(g, t) == Some(g')
    ensures PointerFrom(g, g', t)
  {
  }

  lemma PointerAfter(g: World, a: Action, g': World)
    requires Step(g, a, g')
    ensures PointerFrom(g, g', a.t)
  {
    var th := g.threads[a.t];
    if !th.role.Creator? && (th.at == Leaving || th.at == Killing) {
      FinishPointer(g, a.t, g');
    } else {
      match th.role
      case Creator => CreatePointer(g, a.t, a.roll, g');
      case Deleter => DeletePointer(g, a.t, a.roll, g');
      case _ => UsePointer(g, a.t, a.roll, g');
    }
  }

  lemma RemovedStep(g: World, a: Action, g': World, s: Sid)
    requires Step(g, a, g') && Removed(g, s)
    ensures Removed(g', s)
    ensures forall t :: RefersTo(g', t, s) ==> RefersTo(g, t, s)
  {
    NamesGrow(g, a, g');
    forall r | r in g'.list ensures g'.list[r] != s {
      ListAfter(g, a, g', r);
      assert RefersTo(g, a.t, s) ==> g.threads[a.t].at != CNew;
    }
    PointerAfter(g, a, g');
    forall t | RefersTo(g', t, s) ensures RefersTo(g, t, s) && g'.threads[t].at != CNew {
      assert t != a.t ==> RefersTo(g, t, s);
    }
  }

  /** No new use of a student whose deletion is deferred: it never comes back to the list, and the
      threads that refer to it later are among those that did when it was taken off. */
  lemma {:induction false} NoNewUse(gs: seq<World>, acts: seq<Action>, i: nat, j: nat, s: Sid)
    requires Run(gs, acts) && i <= j < |gs| && Removed(gs[i], s)
    ensures Removed(gs[j], s)
    ensures forall t :: RefersTo(gs[j], t, s) ==> RefersTo(gs[i], t, s)
    decreases j
  {
    if i < j {
      NoNewUse(gs, acts, i, j - 1, s);
      RemovedStep(gs[j - 1], acts[j - 1], gs[j], s);
    }
  }

  // ---------------------------------------------------------------- progress

  /** The protocol never deadlocks: in every reachable state some thread can take a step. */
  lemma NoDeadlock(gs: seq<World>, acts: seq<Action>, k: nat)
    requires Run(gs, acts) && k < |gs| && gs[k].threads != map[]
    ensures exists t :: Enabled(gs[k], t)
  {
    RunInv(gs, acts, k);
    var g := gs[k];
    if t :| t in g.threads && g.threads[t].at != Idle && g.threads[t].at != Counted {
      assert Enabled(g, t);
    } else if t :| t in g.threads && g.threads[t].at == Counted {
      ObjectLockFree(g, t);
      assert Enabled(g, t);
    } else {
      var t :| t in g.threads;
      forall u | u in g.threads ensures u !in g.lrd && u !in g.lwr { assert ThreadOk(g, u); }
      assert Enabled(g, t);
    }
  }

  /** Whoever holds a student's lock is past waiting. */
  lemma ObjectLockFree(g: World, t: Tid)
    requires Inv(g) && t in g.threads && g.threads[t].at == Counted
    requires forall u :: u in g.threads ==> g.threads[u].at == Idle || g.threads[u].at == Counted
    ensures g.threads[t].stud in g.heap
    ensures g.heap[g.threads[t].stud].rd == {} == g.heap[g.threads[t].stud].wr
  {
    assert ThreadOk(g, t);
    assert StudentOk(g, g.threads[t].stud);
  }

  // ---------------------------------------------------------------- marks

  /** A reader inside a student sees no half-finished update. */
  lemma ReaderSeesWholeMarks(gs: seq<World>, acts: seq<Action>, k: nat, t: Tid)
    requires Run(gs, acts) && k < |gs| && t in gs[k].threads
    requires gs[k].threads[t].role.Reader? && gs[k].threads[t].at == Using
    ensures gs[k].threads[t].stud in gs[k].heap && gs[k].heap[gs[k].threads[t].stud].marks < 100
  {
    RunInv(gs, acts, k);
    assert ThreadOk(gs[k], t);
    var s := gs[k].threads[t].stud;
    assert StudentOk(gs[k], s);
    assert t in gs[k].heap[s].rd;
  }

  /** The number of updates of student s completed in the first k steps. */
  ghost function Updates(gs: seq<World>, acts: seq<Action>, k: nat, s: Sid): nat
    requires Run(gs, acts) && k < |gs|
  {
    if k == 0 then 0
    else Updates(gs, acts, k - 1, s) + if Completes(gs[k - 1], acts[k - 1].t, s) then 1 else 0
  }

  ghost predicate Completes(g: World, t: Tid, s: Sid) {
    t in g.threads && g.threads[t].at == Added && g.threads[t].stud == s
  }

  ghost predicate MidUpdate(g: World, s: Sid) {
    exists t :: Completes(g, t, s)
  }

  /** Five for each of n completed updates, modulo 100, and five more while another is half done. */
  ghost function MarksAfter(g: World, s: Sid, n: nat): int {
    (5 * n) % 100 + if MidUpdate(g, s) then 5 else 0
  }

  ghost predicate MarksRight(g: World, s: Sid, n: nat) {
    && (s >= g.next ==> n == 0)
    && (s in g.heap ==> g.heap[s].marks == MarksAfter(g, s, n))
  }

  /** No update is lost and none counts twice: a student's marks are 5 for every completed update,
      modulo 100, and 5 more exactly while an update is half done. */
  lemma {:induction false} MarksCountUpdates(gs: seq<World>, acts: seq<Action>, k: nat, s: Sid)
    requires Run(gs, acts) && k < |gs|
    ensures MarksRight(gs[k], s, Updates(gs, acts, k, s))
    decreases k
  {
    if k > 0 {
      MarksCountUpdates(gs, acts, k - 1, s);
      MarksNext(gs, acts, k - 1, s);
    }
  }

  lemma MarksNext(gs: seq<World>, acts: seq<Action>, k: nat, s: Sid)
    requires Run(gs, acts) && k < |acts| && MarksRight(gs[k], s, Updates(gs, acts, k, s))
    ensures MarksRight(gs[k + 1], s, Updates(gs, acts, k + 1, s))
  {
    RunInv(gs, acts, k);
    MarksOneStep(gs[k], acts[k], gs[k + 1], s, Updates(gs, acts, k, s));
  }

  /** The effect of one step of t on the marks of a student that lives before and after it. */
  ghost predicate MarksMove(g: World, g': World, t: Tid, s: Sid)
    requires s in g.heap && s in g'.heap
  {
    && OnlyThread(g, g', t)
    && var th, at', m, m' := g.threads[t], g'.threads[t].at, g.heap[s].marks, g'.heap[s].marks;
       if Completes(g, t, s) then m' == m % 100 && at' != Added
       else if th.at == Using && th.stud == s && th.role.Updater? then m' == m + INCR && Completes(g', t, s)
       else m' == m && !Completes(g', t, s)
  }

  lemma UseMarks(g: World, t: Tid, roll: nat, g': World, s: Sid)
    requires t in g.threads && (g.threads[t].at.Refers() ==> g.threads[t].stud in g.heap)
    requires UseStep(g, t, roll) == Some(g') && s in g.heap && s in g'.heap && g.threads[t].role != Deleter
    ensures MarksMove(g, g', t, s)
  {
  }

  lemma CreateMarks(g: World, t: Tid, roll: nat, g': World, s: Sid)
    requires t in g.threads && (g.threads[t].at.Refers() ==> g.threads[t].stud in g.heap)
    requires CreateStep(g, t, roll) == Some(g') && s in g.heap && s in g'.heap && s < g.next
    ensures MarksMove(g, g', t, s)
  {
  }

  lemma DeleteMarks(g: World, t: Tid, roll: nat, g': World, s: Sid)
    requires t in g.threads && (g.threads[t].at.Refers() ==> g.threads[t].stud in g.heap)
    requires DeleteStep(g, t, roll) == Some(g') && s in g.heap && s in g'.heap
    ensures MarksMove(g, g', t, s)
  {
  }

  lemma FinishMarks(g: World, t: Tid, g': World, s: Sid)
    requires t in g.threads && g.threads[t].stud in g.heap && (g.threads[t].at == Leaving || g.threads[t].at == Killing)
    requires Finish(g, t) == Some(g') && s in g.heap && s in g'.heap
    ensures MarksMove(g, g', t, s)
  {
  }

  lemma MarksChange(g: World, a: Action, g': World, s: Sid)
    requires Step(g, a, g') && s in g.heap && s in g'.heap && s < g.next
    ensures MarksMove(g, g', a.t, s)
  {
    var th := g.threads[a.t];
    if !th.role.Creator? && (th.at == Leaving || th.at == Killing) {
      FinishMarks(g, a.t, g', s);
    } else {
      match th.role
      case Creator => CreateMarks(g, a.t, a.roll, g', s);
      case Deleter => DeleteMarks(g, a.t, a.roll, g', s);
      case _ => UseMarks(g, a.t, a.roll, g', s);
    }
  }

  /** Only one thread can be half way through an update of a student, and then no other is inside. */
  lemma OneUpdater(g: World, s: Sid, t: Tid, u: Tid)
    requires Inv(g) && s in g.heap && Completes(g, u, s)
    requires t in g.threads && HoldsObject(g.threads[t], s) && g.threads[t].role.Updater?
    ensures t == u
  {
    assert StudentOk(g, s) && ThreadOk(g, u);
    assert u in g.heap[s].wr && t in g.heap[s].wr;
  }

  lemma MarksWhileAlive(g: World, a: Action, g': World, s: Sid, n: nat)
    requires Inv(g) && Step(g, a, g') && s in g.heap && s in g'.heap
    requires g.heap[s].marks == MarksAfter(g, s, n)
    ensures g'.heap[s].marks == MarksAfter(g', s, n + if Completes(g, a.t, s) then 1 else 0)
  {
    var t := a.t;
    assert ThreadOk(g, t) && StudentOk(g, s);
    MarksChange(g, a, g', s);
    NextMultiple(n);
    if HoldsObject(g.threads[t], s) && g.threads[t].role.Updater? {
      OnlyUpdater(g, g', t, s);
    } else {
      forall u ensures Completes(g', u, s) <==> Completes(g, u, s) { assert u != t || !Completes(g, u, s); }
    }
  }

  /** While t updates a student nobody else is half way through one. */
  lemma OnlyUpdater(g: World, g': World, t: Tid, s: Sid)
    requires Inv(g) && OnlyThread(g, g', t) && s in g.heap && HoldsObject(g.threads[t], s) && g.threads[t].role.Updater?
    ensures MidUpdate(g, s) <==> Completes(g, t, s)
    ensures MidUpdate(g', s) <==> Completes(g', t, s)
  {
    forall u | Completes(g, u, s) ensures u == t { OneUpdater(g, s, t, u); }
    forall u | Completes(g', u, s) ensures u == t { assert u == t || Completes(g, u, s); }
  }

  lemma MarksOneStep(g: World, a: Action, g': World, s: Sid, n: nat)
    requires Inv(g) && Step(g, a, g')
    requires MarksRight(g, s, n)
    ensures MarksRight(g', s, n + if Completes(g, a.t, s) then 1 else 0)
  {
    NamesGrow(g, a, g');
    if s in g.heap {
      assert StudentOk(g, s);
      if s in g'.heap {
        MarksWhileAlive(g, a, g', s, n);
      }
    } else {
      forall u | u in g.threads ensures !Completes(g, u, s) { assert ThreadOk(g, u); }
      if s in g'.heap {
        BornAtZero(g, a, g', s);
      }
    }
  }

  lemma BornAtZero(g: World, a: Action, g': World, s: Sid)
    requires Step(g, a, g') && s !in g.heap && s in g'.heap
    requires forall u :: u in g.threads ==> !Completes(g, u, s)
    ensures g'.heap[s].marks == 0 && !MidUpdate(g', s)
  {
  }

  lemma NextMultiple(n: nat)
    ensures ((5 * n) % 100 + 5) % 100 == (5 * (n + 1)) % 100
  {
  }
}
