/** What one iteration of each thread function of CRUD/Crud_algo.c does, in every run: which student
    it finds, creates, removes, reads or updates, and by which steps. */
module CrudIterations {
  import opened Base
  import opened CrudProtocol
  import opened CrudSteps
  import opened CrudTheorems

  /** Thread t begins an iteration with step i and has not ended it before state k. */
  ghost predicate Iteration(gs: seq<World>, acts: seq<Action>, i: nat, k: nat, t: Tid) {
    && Run(gs, acts) && i < k < |gs| && acts[i].t == t
    && t in gs[i].threads && gs[i].threads[t].at == Idle
    && forall m {:trigger gs[m]} :: i < m < k ==> t in gs[m].threads && gs[m].threads[t].at != Idle
  }

  // ---------------------------------------------------------------- what holds within an iteration

  /** reader_fn and update_fn after taking the list's lock in g0. */
  ghost predicate UserOk(g0: World, g: World, th: Thread) {
    match th.at
    case HasList => g.list == g0.list
    case Miss => g.list == g0.list && th.roll !in g0.list
    case _ =>
      && th.roll in g0.list && th.stud == g0.list[th.roll]
      && (th.at.ListRd() ==> g.list == g0.list)
      && th.stud in g.heap && g.heap[th.stud].roll == th.roll
  }

  /** A student that did not exist in g0, as its creator left it, and known to no other thread. */
  ghost predicate New(g0: World, g: World, t: Tid, s: Sid, roll: nat, refs: nat) {
    && g0.next <= s < g.next && s in g.heap && g.heap[s] == Student(roll, 0, refs, {}, {})
    && forall u {:trigger RefersTo(g, u, s)} :: RefersTo(g, u, s) ==> u == t
  }

  /** create_fn after taking the list's lock in g0. */
  ghost predicate CreatorOk(g0: World, g: World, t: Tid, th: Thread) {
    && g0.next <= g.next
    && match th.at
       case CHas => g.list == g0.list
       case CAbsent => g.list == g0.list && th.roll !in g0.list
       case CNew => g.list == g0.list && th.roll !in g0.list && New(g0, g, t, th.stud, th.roll, 0)
       case CListed =>
         th.roll !in g0.list && g.list == g0.list[th.roll := th.stud] && New(g0, g, t, th.stud, th.roll, 0)
       case WEnd =>
         if th.roll in g0.list then g.list == g0.list
         else g.list == g0.list[th.roll := th.stud] && New(g0, g, t, th.stud, th.roll, 1)
       case _ => false
  }

  /** delete_fn after taking the list's lock in g0. */
  ghost predicate DeleterOk(g0: World, g: World, th: Thread) {
    match th.at
    case DHas => g.list == g0.list
    case WEnd => g.list == g0.list && th.roll !in g0.list
    case _ =>
      && th.roll in g0.list && th.stud == g0.list[th.roll]
      && (th.at.ListWr() ==> g.list == g0.list - {th.roll})
      && th.stud in g.heap && g.heap[th.stud].roll == th.roll
  }

  ghost predicate IterationOk(g0: World, g: World, t: Tid) {
    && t in g.threads && !g.threads[t].at.Idle?
    && var th := g.threads[t];
       match th.role
       case Creator => CreatorOk(g0, g, t, th)
       case Deleter => DeleterOk(g0, g, th)
       case _ => UserOk(g0, g, th)
  }

  /** Whether a thread's step may lead from one line to another, given whether the list had the student
      when the thread took the list's lock. */
  predicate MayFollow(role: Role, listed: bool, at: Line, at': Line) {
    match at
    case Idle => at' == match role { case Creator => CHas case Deleter => DHas case _ => HasList }
    case HasList => at' == if listed then Found else Miss
    case Found => at' == Counted
    case Counted => at' == Locked
    case Locked => at' == Using
    case Using => at' == if role.Updater? then Added else Used
    case Added => at' == Used
    case Used => at' == Leaving
    case Leaving => at' == Killing || at' == Idle
    case CHas => at' == if listed then WEnd else CAbsent
    case CAbsent => at' == CNew
    case CNew => at' == CListed
    case CListed => at' == WEnd
    case DHas => at' == if listed then DOut else WEnd
    case DOut => at' == DRef
    case DRef => at' == DDrop
    case DDrop => at' == Leaving
    case _ => at' == Idle
  }

  // ---------------------------------------------------------------- one step of the thread itself

  /** The thread's own step takes it to the next line of its function. */
  ghost predicate NextLine(th: Thread, th': Thread, listed: bool) {
    && th'.role == th.role && MayFollow(th.role, listed, th.at, th'.at)
    && (th'.at != Idle ==> th'.roll == th.roll)
  }

  ghost predicate Fits(g: World, t: Tid) {
    && t in g.threads && g.threads[t].at.FitsRole(g.threads[t].role) && !g.threads[t].at.Idle?
    && (g.threads[t].at.Refers() ==> g.threads[t].stud in g.heap)
  }

  lemma UserLine(g: World, t: Tid, roll: nat, g': World, listed: bool)
    requires Fits(g, t) && !g.threads[t].role.Creator? && !g.threads[t].role.Deleter?
    requires g.threads[t].at.HasList? ==> (listed <==> g.threads[t].roll in g.list)
    requires UseStep(g, t, roll) == Some(g')
    ensures t in g'.threads && NextLine(g.threads[t], g'.threads[t], listed)
  {
  }

  lemma DeleterLine(g: World, t: Tid, roll: nat, g': World, listed: bool)
    requires Fits(g, t) && g.threads[t].role.Deleter?
    requires g.threads[t].at.DHas? ==> (listed <==> g.threads[t].roll in g.list)
    requires DeleteStep(g, t, roll) == Some(g')
    ensures t in g'.threads && NextLine(g.threads[t], g'.threads[t], listed)
  {
  }

  lemma FinishLine(g: World, t: Tid, g': World, listed: bool)
    requires Fits(g, t) && g.threads[t].stud in g.heap && (g.threads[t].at.Leaving? || g.threads[t].at.Killing?)
    requires Finish(g, t) == Some(g')
    ensures t in g'.threads && NextLine(g.threads[t], g'.threads[t], listed)
  {
  }

  lemma CreatorLine(g: World, t: Tid, roll: nat, g': World, listed: bool)
    requires Fits(g, t) && g.threads[t].role.Creator?
    requires g.threads[t].at.CHas? ==> (listed <==> g.threads[t].roll in g.list)
    requires CreateStep(g, t, roll) == Some(g')
    ensures t in g'.threads && NextLine(g.threads[t], g'.threads[t], listed)
  {
  }

  // ---------------------------------------------------------------- what a step leaves alone

  /** A step of t keeps the roll number of student s, and all of s unless t refers to it; and it
      changes the list only from lines that hold the list's lock for writing. */
  ghost predicate Spares(g: World, g': World, t: Tid, s: Sid)
    requires t in g.threads
  {
    && g.next <= g'.next
    && (g'.list != g.list ==> g.threads[t].at.CNew? || g.threads[t].at.DHas?)
    && (s in g.heap && s < g.next ==>
          && (s in g'.heap ==> g'.heap[s].roll == g.heap[s].roll)
          && (!RefersTo(g, t, s) ==> s in g'.heap && g'.heap[s] == g.heap[s]))
  }

  lemma UseSpares(g: World, t: Tid, roll: nat, g': World, s: Sid)
    requires t in g.threads && (g.threads[t].at.Refers() ==> g.threads[t].stud in g.heap)
    requires UseStep(g, t, roll) == Some(g')
    ensures Spares(g, g', t, s)
  {
  }

  lemma CreateSpares(g: World, t: Tid, roll: nat, g': World, s: Sid)
    requires t in g.threads && (g.threads[t].at.Refers() ==> g.threads[t].stud in g.heap)
    requires CreateStep(g, t, roll) == Some(g')
    ensures Spares(g, g', t, s)
  {
  }

  lemma DeleteSpares(g: World, t: Tid, roll: nat, g': World, s: Sid)
    requires t in g.threads && (g.threads[t].at.Refers() ==> g.threads[t].stud in g.heap)
    requires DeleteStep(g, t, roll) == Some(g')
    ensures Spares(g, g', t, s)
  {
  }

  lemma FinishSpares(g: World, t: Tid, g': World, s: Sid)
    requires t in g.threads && g.threads[t].stud in g.heap && g.threads[t].at.Refers()
    requires Finish(g, t) == Some(g')
    ensures Spares(g, g', t, s)
  {
  }

  lemma StepSpares(g: World, a: Action, g': World, s: Sid)
    requires Step(g, a, g')
    ensures Spares(g, g', a.t, s)
  {
    var th := g.threads[a.t];
    if !th.role.Creator? && (th.at == Leaving || th.at == Killing) {
      FinishSpares(g, a.t, g', s);
    } else {
      match th.role
      case Creator => CreateSpares(g, a.t, a.roll, g', s);
      case Deleter => DeleteSpares(g, a.t, a.roll, g', s);
      case _ => UseSpares(g, a.t, a.roll, g', s);
    }
  }

  // ---------------------------------------------------------------- steps of the other threads

  /** While t holds the list's lock no other thread changes the list. */
  lemma ListHeld(g: World, a: Action, g': World, t: Tid)
    requires Inv(g) && Step(g, a, g') && t in g.threads && t != a.t
    requires g.threads[t].at.ListRd() || g.threads[t].at.ListWr()
    ensures g'.list == g.list
  {
    StepSpares(g, a, g', 0);
    assert ThreadOk(g, t) && ThreadOk(g, a.t);
  }

  /** ... and while it holds it for writing no other thread finds a student. */
  lemma NothingFound(g: World, a: Action, g': World, t: Tid, s: Sid)
    requires Inv(g) && Step(g, a, g') && t in g.threads && t != a.t && g.threads[t].at.ListWr()
    requires s < g.next && RefersTo(g', a.t, s)
    ensures RefersTo(g, a.t, s)
  {
    PointerAfter(g, a, g');
    assert ThreadOk(g, t) && ThreadOk(g, a.t);
    assert a.t in g.lrd <==> g.threads[a.t].at.ListRd();
    PointersFound(g, a, g');
  }

  /** A thread that comes to a pointer has found it under the list's lock or made it. */
  lemma PointersFound(g: World, a: Action, g': World)
    requires Step(g, a, g') && a.t in g'.threads && g'.threads[a.t].at.Refers()
    ensures g.threads[a.t].at.Refers() || g.threads[a.t].at.HasList? || g.threads[a.t].at.DHas? || g.threads[a.t].at.CAbsent?
    ensures g.threads[a.t].at.Refers() ==> g'.threads[a.t].stud == g.threads[a.t].stud
  {
  }

  lemma NewStays(g0: World, g: World, a: Action, g': World, t: Tid, s: Sid, roll: nat, refs: nat)
    requires Inv(g) && Step(g, a, g') && t in g.threads && t != a.t && g.threads[t].at.ListWr()
    requires New(g0, g, t, s, roll, refs)
    ensures New(g0, g', t, s, roll, refs)
  {
    StepSpares(g, a, g', s);
    PointerAfter(g, a, g');
    forall u | RefersTo(g', u, s) ensures u == t {
      if u == a.t {
        NothingFound(g, a, g', t, s);
      } else {
        assert RefersTo(g, u, s);
      }
    }
  }

  /** Another thread's step leaves t where it is, and its student with its roll number. */
  lemma StudentStays(g: World, a: Action, g': World, t: Tid)
    requires Inv(g) && Step(g, a, g') && t in g.threads && t != a.t
    ensures t in g'.threads && g'.threads[t] == g.threads[t]
    ensures var th := g.threads[t];
            th.at.Refers() ==> th.stud in g.heap && th.stud in g'.heap && g'.heap[th.stud].roll == g.heap[th.stud].roll
  {
    PointerAfter(g, a, g');
    InvStep(g, a.t, a.roll);
    assert ThreadOk(g, t) && ThreadOk(g', t);
    var th := g.threads[t];
    StepSpares(g, a, g', th.stud);
    if th.at.Refers() { assert StudentOk(g, th.stud); }
  }

  lemma OthersKeepCreator(g0: World, g: World, a: Action, g': World, t: Tid)
    requires Inv(g) && Step(g, a, g') && t in g.threads && t != a.t && CreatorOk(g0, g, t, g.threads[t])
    ensures CreatorOk(g0, g', t, g.threads[t])
  {
    var th := g.threads[t];
    ListHeld(g, a, g', t);
    StepSpares(g, a, g', 0);
    if th.at != CHas && th.at != CAbsent && th.roll !in g0.list {
      NewStays(g0, g, a, g', t, th.stud, th.roll, if th.at == WEnd then 1 else 0);
    }
  }

  lemma OthersKeep(g0: World, g: World, a: Action, g': World, t: Tid)
    requires Inv(g) && Step(g, a, g') && t != a.t && IterationOk(g0, g, t)
    ensures IterationOk(g0, g', t) && g'.threads[t] == g.threads[t]
  {
    StudentStays(g, a, g', t);
    assert ThreadOk(g, t);
    var th := g.threads[t];
    if th.role.Creator? {
      OthersKeepCreator(g0, g, a, g', t);
    } else if th.at.ListRd() || th.at.ListWr() {
      ListHeld(g, a, g', t);
    }
  }

  // ---------------------------------------------------------------- the thread's own steps

  lemma UserFollows(g0: World, g: World, a: Action, g': World)
    requires Inv(g) && Step(g, a, g') && IterationOk(g0, g, a.t)
    requires g.threads[a.t].role.Reader? || g.threads[a.t].role.Updater?
    requires g.threads[a.t].at != Leaving && g.threads[a.t].at != Killing
    ensures a.t in g'.threads && NextLine(g.threads[a.t], g'.threads[a.t], g.threads[a.t].roll in g0.list)
    ensures g'.threads[a.t].at != Idle ==> IterationOk(g0, g', a.t)
  {
    var th := g.threads[a.t];
    assert ThreadOk(g, a.t) && ListOk(g);
    UserLine(g, a.t, a.roll, g', th.roll in g0.list);
    UseSpares(g, a.t, a.roll, g', th.stud);
    UserStud(g, a.t, a.roll, g');
    if th.at.Refers() { assert StudentOk(g, th.stud); }
  }

  /** Whom a user points to after its step. */
  lemma UserStud(g: World, t: Tid, roll: nat, g': World)
    requires Fits(g, t) && !g.threads[t].role.Creator? && !g.threads[t].role.Deleter?
    requires UseStep(g, t, roll) == Some(g')
    ensures t in g'.threads && g'.heap.Keys == g.heap.Keys
    ensures var th, th' := g.threads[t], g'.threads[t];
            && (th.at.HasList? ==> g'.heap == g.heap && if th.roll in g.list then th'.at.Found? && th'.stud == g.list[th.roll] else th'.at.Miss?)
            && (th.at.Miss? ==> th'.at.Idle?)
            && (th.at.Refers() ==> th'.stud == th.stud && th'.at.Refers() && (th'.at.ListRd() ==> th.at.ListRd()))
  {
  }

  /** The final decrement and the destruction, of users and deleters. */
  lemma FinishFollows(g0: World, g: World, a: Action, g': World)
    requires Inv(g) && Step(g, a, g') && IterationOk(g0, g, a.t) && !g.threads[a.t].role.Creator?
    requires g.threads[a.t].at == Leaving || g.threads[a.t].at == Killing
    ensures a.t in g'.threads && NextLine(g.threads[a.t], g'.threads[a.t], g.threads[a.t].roll in g0.list)
    ensures g'.threads[a.t].at != Idle ==> IterationOk(g0, g', a.t)
  {
    var th := g.threads[a.t];
    assert ThreadOk(g, a.t);
    FinishLine(g, a.t, g', th.roll in g0.list);
  }

  lemma DeleterFollows(g0: World, g: World, a: Action, g': World)
    requires Inv(g) && Step(g, a, g') && IterationOk(g0, g, a.t) && g.threads[a.t].role.Deleter?
    requires g.threads[a.t].at != Leaving && g.threads[a.t].at != Killing
    ensures a.t in g'.threads && NextLine(g.threads[a.t], g'.threads[a.t], g.threads[a.t].roll in g0.list)
    ensures g'.threads[a.t].at != Idle ==> IterationOk(g0, g', a.t)
  {
    var th := g.threads[a.t];
    assert ThreadOk(g, a.t) && ListOk(g);
    DeleterLine(g, a.t, a.roll, g', th.roll in g0.list);
    DeleteSpares(g, a.t, a.roll, g', th.stud);
    DeleterStud(g, a.t, a.roll, g');
    if th.at.Refers() { assert StudentOk(g, th.stud); }
  }

  /** What a deleter's step takes off the list, and whom it points to afterwards. */
  lemma DeleterStud(g: World, t: Tid, roll: nat, g': World)
    requires Fits(g, t) && g.threads[t].role.Deleter?
    requires DeleteStep(g, t, roll) == Some(g')
    ensures t in g'.threads && g'.heap.Keys == g.heap.Keys
    ensures var th, th' := g.threads[t], g'.threads[t];
            && (th.at.DHas? ==> g'.heap == g.heap && if th.roll in g.list
                then th'.at.DOut? && th'.stud == g.list[th.roll] && g'.list == g.list - {th.roll}
                else th'.at.WEnd? && g'.list == g.list)
            && (th.at.WEnd? ==> th'.at.Idle?)
            && (th.at.Refers() ==> g'.list == g.list && th'.stud == th.stud && th'.at.Refers() && (th'.at.ListWr() ==> th.at.ListWr()))
  {
  }

  lemma CreatorFollows(g0: World, g: World, a: Action, g': World)
    requires Inv(g) && Step(g, a, g') && IterationOk(g0, g, a.t) && g.threads[a.t].role.Creator?
    ensures a.t in g'.threads && NextLine(g.threads[a.t], g'.threads[a.t], g.threads[a.t].roll in g0.list)
    ensures g'.threads[a.t].at != Idle ==> IterationOk(g0, g', a.t)
  {
    var th := g.threads[a.t];
    assert ThreadOk(g, a.t);
    CreatorLine(g, a.t, a.roll, g', th.roll in g0.list);
    PointerAfter(g, a, g');
    if th.at.CAbsent? {
      CreatorMakes(g0, g, a, g');
    } else if th.at.CNew? || th.at.CListed? {
      CreatorGrows(g0, g, a, g');
    }
  }

  /** The student a creator makes is new, and known to it alone. */
  lemma CreatorMakes(g0: World, g: World, a: Action, g': World)
    requires Inv(g) && Step(g, a, g') && a.t in g.threads && g.threads[a.t].role.Creator? && g.threads[a.t].at.CAbsent?
    requires g0.next <= g.next
    ensures a.t in g'.threads && g'.threads[a.t].stud == g.next && New(g0, g', a.t, g.next, g.threads[a.t].roll, 0)
  {
    PointerAfter(g, a, g');
    PointersOld(g);
    forall u | RefersTo(g', u, g.next) ensures u == a.t {
      assert u != a.t ==> RefersTo(g, u, g.next);
    }
  }

  lemma PointersOld(g: World)
    requires Inv(g)
    ensures forall u, s: Sid :: RefersTo(g, u, s) ==> s < g.next
  {
    forall u, s: Sid | RefersTo(g, u, s) ensures s < g.next {
      assert ThreadOk(g, u) && StudentOk(g, s);
    }
  }

  /** It lists the student and counts the list's reference. */
  lemma CreatorGrows(g0: World, g: World, a: Action, g': World)
    requires Inv(g) && Step(g, a, g') && a.t in g.threads && g.threads[a.t].role.Creator?
    requires var th := g.threads[a.t]; (th.at.CNew? || th.at.CListed?) && New(g0, g, a.t, th.stud, th.roll, 0)
    ensures a.t in g'.threads && g'.threads[a.t].stud == g.threads[a.t].stud
    ensures var th := g.threads[a.t]; New(g0, g', a.t, th.stud, th.roll, if th.at.CNew? then 0 else 1)
    ensures var th := g.threads[a.t]; g'.list == if th.at.CNew? then g.list[th.roll := th.stud] else g.list
  {
    PointerAfter(g, a, g');
    var s := g.threads[a.t].stud;
    forall u | RefersTo(g', u, s) ensures u == a.t {
      assert u != a.t ==> RefersTo(g, u, s);
    }
  }

  lemma Follows(g0: World, g: World, a: Action, g': World)
    requires Inv(g) && Step(g, a, g') && IterationOk(g0, g, a.t)
    ensures a.t in g'.threads && NextLine(g.threads[a.t], g'.threads[a.t], g.threads[a.t].roll in g0.list)
    ensures g'.threads[a.t].at != Idle ==> IterationOk(g0, g', a.t)
  {
    var th := g.threads[a.t];
    if th.role.Creator? {
      CreatorFollows(g0, g, a, g');
    } else if th.at == Leaving || th.at == Killing {
      FinishFollows(g0, g, a, g');
    } else if th.role.Deleter? {
      DeleterFollows(g0, g, a, g');
    } else {
      UserFollows(g0, g, a, g');
    }
  }

  // ---------------------------------------------------------------- an iteration in a run

  /** Thread t is as its function says in state k of the iteration it began with step i: it works with
      the roll number it drew, and what it has found, made or taken off the list is what the list held
      when it took the list's lock. */
  ghost predicate Underway(gs: seq<World>, acts: seq<Action>, i: nat, k: nat, t: Tid)
    requires i < k < |gs| && k <= |acts|
  {
    IterationOk(gs[i + 1], gs[k], t) && gs[k].threads[t].roll == acts[i].roll
  }

  ghost predicate Goes(gs: seq<World>, acts: seq<Action>, i: nat, k: nat, t: Tid)
    requires i < k < |gs| && k <= |acts|
  {
    && t in gs[k].threads && t in gs[i].threads && gs[k].threads[t].role == gs[i].threads[t].role
    && (gs[k].threads[t].at != Idle ==> Underway(gs, acts, i, k, t))
  }

  lemma GoesFirst(gs: seq<World>, acts: seq<Action>, i: nat, t: Tid)
    requires Iteration(gs, acts, i, i + 1, t)
    ensures Goes(gs, acts, i, i + 1, t) && MayFollow(gs[i].threads[t].role, false, Idle, gs[i + 1].threads[t].at)
  {
    RunInv(gs, acts, i);
    assert ThreadOk(gs[i], t);
    assert Step(gs[i], acts[i], gs[i + 1]);
  }

  lemma OwnStep(gs: seq<World>, acts: seq<Action>, i: nat, k: nat, t: Tid)
    requires i + 1 < k && Iteration(gs, acts, i, k, t) && Underway(gs, acts, i, k - 1, t) && acts[k - 1].t == t
    ensures t in gs[k].threads && NextLine(gs[k - 1].threads[t], gs[k].threads[t], acts[i].roll in gs[i + 1].list)
    ensures gs[k].threads[t].at != Idle ==> Underway(gs, acts, i, k, t)
  {
    RunInv(gs, acts, k - 1);
    assert Step(gs[k - 1], acts[k - 1], gs[k]);
    Follows(gs[i + 1], gs[k - 1], acts[k - 1], gs[k]);
  }

  lemma OthersStep(gs: seq<World>, acts: seq<Action>, i: nat, k: nat, t: Tid)
    requires i + 1 < k && Iteration(gs, acts, i, k, t) && Underway(gs, acts, i, k - 1, t) && acts[k - 1].t != t
    ensures t in gs[k].threads && gs[k].threads[t] == gs[k - 1].threads[t] && Underway(gs, acts, i, k, t)
  {
    RunInv(gs, acts, k - 1);
    assert Step(gs[k - 1], acts[k - 1], gs[k]);
    OthersKeep(gs[i + 1], gs[k - 1], acts[k - 1], gs[k], t);
  }

  lemma GoesNext(gs: seq<World>, acts: seq<Action>, i: nat, k: nat, t: Tid)
    requires i + 1 < k && Iteration(gs, acts, i, k, t) && Goes(gs, acts, i, k - 1, t)
    ensures Goes(gs, acts, i, k, t)
  {
    assert gs[k - 1].threads[t].at != Idle;
    if acts[k - 1].t == t {
      OwnStep(gs, acts, i, k, t);
    } else {
      OthersStep(gs, acts, i, k, t);
    }
  }

  lemma IterationBefore(gs: seq<World>, acts: seq<Action>, i: nat, k: nat, t: Tid)
    requires i + 1 < k && Iteration(gs, acts, i, k, t)
    ensures Iteration(gs, acts, i, k - 1, t)
  {
  }

  /** Every iteration of every thread is as its function says, for as long as it lasts. */
  lemma {:induction false} IterationGoes(gs: seq<World>, acts: seq<Action>, i: nat, k: nat, t: Tid)
    requires Iteration(gs, acts, i, k, t)
    ensures Goes(gs, acts, i, k, t)
    decreases k
  {
    if k == i + 1 {
      GoesFirst(gs, acts, i, t);
    } else {
      IterationBefore(gs, acts, i, k, t);
      IterationGoes(gs, acts, i, k - 1, t);
      GoesNext(gs, acts, i, k, t);
    }
  }

  /** Each step of a thread within an iteration leads to the line its function says, skipping none and
      ending the iteration nowhere else. */
  lemma StepsInOrder(gs: seq<World>, acts: seq<Action>, i: nat, k: nat, t: Tid)
    requires Iteration(gs, acts, i, k, t) && k < |acts| && acts[k].t == t && t in gs[k].threads && gs[k].threads[t].at != Idle
    ensures t in gs[k + 1].threads
    ensures MayFollow(gs[k].threads[t].role, acts[i].roll in gs[i + 1].list, gs[k].threads[t].at, gs[k + 1].threads[t].at)
  {
    IterationGoes(gs, acts, i, k, t);
    OwnStep(gs, acts, i, k + 1, t);
  }

  /** Whoever is not between iterations has begun one. */
  lemma {:induction false} HasBegun(gs: seq<World>, acts: seq<Action>, k: nat, t: Tid) returns (i: nat)
    requires Run(gs, acts) && k < |gs| && t in gs[k].threads && gs[k].threads[t].at != Idle
    ensures Iteration(gs, acts, i, k, t)
    decreases k
  {
    assert k > 0 && Step(gs[k - 1], acts[k - 1], gs[k]);
    PointerAfter(gs[k - 1], acts[k - 1], gs[k]);
    if gs[k - 1].threads[t].at == Idle {
      i := k - 1;
    } else {
      i := HasBegun(gs, acts, k - 1, t);
    }
  }

  // ---------------------------------------------------------------- what each function achieves

  /** A user that drew a roll number misses exactly when the list has none such, and works with the
      student listed under it otherwise; the list stays as it is until the user lets go of it. */
  lemma UserFinds(gs: seq<World>, acts: seq<Action>, i: nat, k: nat, t: Tid)
    requires Iteration(gs, acts, i, k, t) && t in gs[k].threads && gs[k].threads[t].at != Idle && gs[k].threads[t].at != HasList
    requires gs[k].threads[t].role.Reader? || gs[k].threads[t].role.Updater?
    ensures var th, roll, list := gs[k].threads[t], acts[i].roll, gs[i + 1].list;
            && (th.at == Miss <==> roll !in list)
            && (roll in list ==> th.stud == list[roll] && th.stud in gs[k].heap && gs[k].heap[th.stud].roll == roll)
            && (t in gs[k].lrd ==> gs[k].list == list)
  {
    IterationGoes(gs, acts, i, k, t);
    RunInv(gs, acts, k);
    assert ThreadOk(gs[k], t);
  }

  /** When a creator is about to release the list its roll number is listed, with a live student.
      If it was listed before, the list is as it was; otherwise it has gained exactly a student that
      did not exist before, with marks 0 and counted once. */
  lemma CreatorCreates(gs: seq<World>, acts: seq<Action>, i: nat, k: nat, t: Tid)
    requires Iteration(gs, acts, i, k, t) && t in gs[k].threads && gs[k].threads[t].at == WEnd && gs[k].threads[t].role.Creator?
    ensures Created(gs[i + 1], gs[k], acts[i].roll)
  {
    IterationGoes(gs, acts, i, k, t);
    RunInv(gs, acts, k);
    assert ListOk(gs[k]);
    if acts[i].roll !in gs[i + 1].list {
      RunInv(gs, acts, i + 1);
      NotYetLive(gs[i + 1], gs[k].threads[t].stud);
    }
  }

  ghost predicate Created(g0: World, g: World, roll: nat) {
    && roll in g.list && g.list[roll] in g.heap
    && if roll in g0.list then g.list == g0.list
       else && g.list == g0.list[roll := g.list[roll]]
            && g.list[roll] !in g0.heap && g0.next <= g.list[roll]
            && g.heap[g.list[roll]] == Student(roll, 0, 1, {}, {})
  }

  lemma NotYetLive(g: World, s: Sid)
    requires Inv(g) && g.next <= s
    ensures s !in g.heap
  {
    assert s in g.heap ==> StudentOk(g, s);
  }

  /** And a creator that finds its roll number listed changes nothing but its own place. */
  lemma CreatorLeavesListed(gs: seq<World>, acts: seq<Action>, i: nat, k: nat, t: Tid)
    requires Iteration(gs, acts, i, k, t) && t in gs[k].threads && gs[k].threads[t].role.Creator?
    requires gs[k].threads[t].at != Idle && gs[k].threads[t].at != WEnd
    requires k < |acts| && acts[k].t == t && acts[i].roll in gs[i + 1].list
    ensures gs[k + 1].(threads := gs[k].threads) == gs[k]
  {
    IterationGoes(gs, acts, i, k, t);
    assert Step(gs[k], acts[k], gs[k + 1]);
  }

  /** A deleter gives up exactly when its roll number is not listed.  Otherwise, whatever the count
      of the student listed, it takes exactly that entry off the list and works with that student. */
  lemma DeleterDeletes(gs: seq<World>, acts: seq<Action>, i: nat, k: nat, t: Tid)
    requires Iteration(gs, acts, i, k, t) && t in gs[k].threads && gs[k].threads[t].role.Deleter?
    requires gs[k].threads[t].at != Idle && gs[k].threads[t].at != DHas
    ensures var th, roll, list := gs[k].threads[t], acts[i].roll, gs[i + 1].list;
            && (th.at == WEnd <==> roll !in list)
            && (roll in list ==> th.stud == list[roll] && th.stud in gs[k].heap && gs[k].heap[th.stud].roll == roll)
            && (t in gs[k].lwr ==> gs[k].list == list - {roll} && roll !in gs[k].list)
  {
    IterationGoes(gs, acts, i, k, t);
    RunInv(gs, acts, k);
    assert ThreadOk(gs[k], t);
  }

  /** So in every reachable state, whoever still holds the list's lock stands where the list says: a
      user that missed and a deleter about to let go find their roll number unlisted, a user that has
      found a student finds it listed under that number, and a creator about to let go finds its number
      listed with a live student. */
  lemma ListSays(gs: seq<World>, acts: seq<Action>, k: nat, t: Tid)
    requires Run(gs, acts) && k < |gs| && t in gs[k].threads && gs[k].threads[t].at != Idle
    ensures AsListed(gs[k], gs[k].threads[t])
  {
    var i := HasBegun(gs, acts, k, t);
    IterationGoes(gs, acts, i, k, t);
    RunInv(gs, acts, k);
    ListedOk(gs[i + 1], gs[k], t);
  }

  ghost predicate AsListed(g: World, th: Thread) {
    && (th.at == Miss || th.at == DOut || th.at == DRef || th.at == DDrop ==> th.roll !in g.list)
    && (th.at == Found || th.at == Counted || th.at == Locked ==> th.roll in g.list && g.list[th.roll] == th.stud)
    && (th.at == WEnd && th.role.Deleter? ==> th.roll !in g.list)
    && (th.at == WEnd && th.role.Creator? ==> th.roll in g.list && g.list[th.roll] in g.heap)
  }

  lemma ListedOk(g0: World, g: World, t: Tid)
    requires Inv(g) && IterationOk(g0, g, t)
    ensures AsListed(g, g.threads[t])
  {
    assert ThreadOk(g, t) && ListOk(g);
  }

  // ---------------------------------------------------------------- reading and updating

  predicate Past(at: Line) {
    at.Used? || at.Leaving? || at.Killing?
  }

  /** A thread that is past its reading or updating was so before the step, with the same pointer and
      the same marks seen, or has just read the marks or finished the update. */
  ghost predicate PastStep(g: World, a: Action, g': World, t: Tid) {
    && t in g.threads && t in g'.threads && g.threads[t].at != Idle
    && var th, th' := g.threads[t], g'.threads[t];
       && th.role == th'.role && th'.stud == th.stud
       && if a.t != t || Past(th.at) then Past(th.at) && th'.seen == th.seen
          else if th.role.Updater? then
            th.at.Added? && th.stud in g.heap && th.stud in g'.heap && g'.heap[th.stud].marks == g.heap[th.stud].marks % 100
          else th.at.Using? && th.stud in g.heap && th'.seen == g.heap[th.stud].marks
  }

  lemma PastOwn(g: World, a: Action, g': World)
    requires Step(g, a, g') && a.t in g'.threads && Past(g'.threads[a.t].at)
    requires g'.threads[a.t].role.Reader? || g'.threads[a.t].role.Updater?
    requires g.threads[a.t].at.FitsRole(g.threads[a.t].role)
    ensures PastStep(g, a, g', a.t)
  {
    if Past(g.threads[a.t].at) {
      PastStays(g, a, g');
    }
  }

  lemma PastStays(g: World, a: Action, g': World)
    requires Step(g, a, g') && a.t in g'.threads && Past(g'.threads[a.t].at) && Past(g.threads[a.t].at)
    ensures var th, th' := g.threads[a.t], g'.threads[a.t];
            th'.role == th.role && th'.stud == th.stud && th'.seen == th.seen
  {
  }

  ghost predicate PastAt(gs: seq<World>, k: nat, t: Tid)
    requires k < |gs|
  {
    && t in gs[k].threads && Past(gs[k].threads[t].at)
    && (gs[k].threads[t].role.Reader? || gs[k].threads[t].role.Updater?)
  }

  ghost predicate Traced(gs: seq<World>, acts: seq<Action>, t: Tid) {
    && |gs| == |acts| + 1
    && forall k: nat {:trigger PastAt(gs, k, t)} :: k < |gs| && PastAt(gs, k, t) ==> k > 0 && PastStep(gs[k - 1], acts[k - 1], gs[k], t)
  }

  lemma RunTraced(gs: seq<World>, acts: seq<Action>, t: Tid)
    requires Run(gs, acts)
    ensures Traced(gs, acts, t)
  {
    forall k: nat | k < |gs| && PastAt(gs, k, t) ensures k > 0 && PastStep(gs[k - 1], acts[k - 1], gs[k], t) {
      PastBefore(gs, acts, k, t);
    }
  }

  lemma PastBefore(gs: seq<World>, acts: seq<Action>, k: nat, t: Tid)
    requires Run(gs, acts) && k < |gs| && PastAt(gs, k, t)
    ensures k > 0 && PastStep(gs[k - 1], acts[k - 1], gs[k], t)
  {
    assert k > 0 && Step(gs[k - 1], acts[k - 1], gs[k]);
    RunInv(gs, acts, k - 1);
    PastBackward(gs[k - 1], acts[k - 1], gs[k], t);
  }

  lemma PastBackward(g: World, a: Action, g': World, t: Tid)
    requires Inv(g) && Step(g, a, g') && t in g'.threads && Past(g'.threads[t].at)
    requires g'.threads[t].role.Reader? || g'.threads[t].role.Updater?
    ensures PastStep(g, a, g', t)
  {
    PointerAfter(g, a, g');
    assert ThreadOk(g, t);
    if a.t == t {
      PastOwn(g, a, g');
    }
  }

  /** The thread stays in its iteration from state m (exclusive) to state k. */
  ghost predicate Stays(gs: seq<World>, m: nat, k: nat, t: Tid)
    requires k < |gs|
  {
    forall j {:trigger gs[j]} :: m < j <= k ==> t in gs[j].threads && gs[j].threads[t].at != Idle
  }

  /** The last step by which a thread that is past its reading or updating came to be so. */
  lemma {:induction false} PastSince(gs: seq<World>, acts: seq<Action>, k: nat, t: Tid) returns (n: nat)
    requires Traced(gs, acts, t) && k < |gs| && PastAt(gs, k, t)
    ensures n < k && acts[n].t == t && PastStep(gs[n], acts[n], gs[n + 1], t) && !Past(gs[n].threads[t].at)
    ensures var th, th' := gs[n + 1].threads[t], gs[k].threads[t];
            th.role == th'.role && th.stud == th'.stud && th.seen == th'.seen
    ensures Stays(gs, n, k, t)
    decreases k
  {
    assert PastStep(gs[k - 1], acts[k - 1], gs[k], t);
    if Past(gs[k - 1].threads[t].at) {
      assert PastAt(gs, k - 1, t);
      n := PastSince(gs, acts, k - 1, t);
    } else {
      n := k - 1;
    }
  }

  /** What a reader has read are the marks its student had at one of its own earlier steps, taken
      inside the student's lock: 5 for every update completed by then, modulo 100. */
  lemma ReaderSaw(gs: seq<World>, acts: seq<Action>, k: nat, t: Tid) returns (m: nat)
    requires Run(gs, acts) && k < |gs| && t in gs[k].threads && gs[k].threads[t].role.Reader? && Past(gs[k].threads[t].at)
    ensures m < k && acts[m].t == t && t in gs[m].threads && gs[m].threads[t].at == Using
    ensures var s := gs[k].threads[t].stud;
            && gs[m].threads[t].stud == s && s in gs[m].heap && t in gs[m].heap[s].rd
            && gs[k].threads[t].seen == gs[m].heap[s].marks == (5 * Updates(gs, acts, m, s)) % 100
    ensures Stays(gs, m, k, t)
  {
    RunTraced(gs, acts, t);
    assert PastAt(gs, k, t);
    m := PastSince(gs, acts, k, t);
    ReadsWhole(gs, acts, m, t);
  }

  lemma ReadsWhole(gs: seq<World>, acts: seq<Action>, m: nat, t: Tid)
    requires Run(gs, acts) && m < |gs| && t in gs[m].threads && gs[m].threads[t].role.Reader? && gs[m].threads[t].at == Using
    ensures var s := gs[m].threads[t].stud;
            s in gs[m].heap && t in gs[m].heap[s].rd && gs[m].heap[s].marks == (5 * Updates(gs, acts, m, s)) % 100
  {
    RunInv(gs, acts, m);
    var s := gs[m].threads[t].stud;
    assert ThreadOk(gs[m], t) && StudentOk(gs[m], s);
    MarksCountUpdates(gs, acts, m, s);
    forall u ensures !Completes(gs[m], u, s) {
      assert u in gs[m].threads ==> ThreadOk(gs[m], u);
      assert gs[m].heap[s].wr == {};
    }
  }

  /** A half-done update began with the marks the updater has in hand. */
  lemma {:induction false} AddedSince(gs: seq<World>, acts: seq<Action>, k: nat, t: Tid) returns (m: nat)
    requires Run(gs, acts) && k < |gs| && t in gs[k].threads && gs[k].threads[t].at == Added
    ensures m < k && acts[m].t == t && t in gs[m].threads && gs[m].threads[t].at == Using
    ensures var s := gs[k].threads[t].stud;
            gs[m].threads[t].stud == s && s in gs[m].heap && gs[m].heap[s].marks == gs[k].threads[t].seen
    ensures forall n {:trigger gs[n]} :: m < n <= k ==> t in gs[n].threads && gs[n].threads[t] == gs[k].threads[t]
    decreases k
  {
    assert k > 0;
    AddedBefore(gs[k - 1], acts[k - 1], gs[k], t);
    if acts[k - 1].t == t {
      m := k - 1;
    } else {
      m := AddedSince(gs, acts, k - 1, t);
    }
  }

  lemma AddedBefore(g: World, a: Action, g': World, t: Tid)
    requires Step(g, a, g') && t in g'.threads && g'.threads[t].at == Added
    ensures t in g.threads
    ensures if a.t != t then g.threads[t] == g'.threads[t]
            else var th := g.threads[t];
                 th.at == Using && th.stud == g'.threads[t].stud && th.stud in g.heap && g.heap[th.stud].marks == g'.threads[t].seen
  {
    PointerAfter(g, a, g');
  }

  /** While an update is half done the student's marks are 5 more than those the updater has in hand. */
  lemma AddedMarks(gs: seq<World>, acts: seq<Action>, j: nat, t: Tid)
    requires Run(gs, acts) && j < |gs| && t in gs[j].threads && gs[j].threads[t].at == Added
    ensures var th := gs[j].threads[t]; th.stud in gs[j].heap && gs[j].heap[th.stud].marks == th.seen + 5
  {
    RunInv(gs, acts, j);
    assert ThreadOk(gs[j], t);
  }

  /** Thread t adds 5 to the marks of student s with step m and reduces them modulo 100 with step n,
      and in between nobody else touches them. */
  ghost predicate Updated(gs: seq<World>, acts: seq<Action>, m: nat, n: nat, t: Tid, s: Sid)
    requires m < n < |acts| < |gs|
  {
    && acts[m].t == t == acts[n].t && s in gs[m].heap && s in gs[n + 1].heap
    && gs[n + 1].heap[s].marks == (gs[m].heap[s].marks + 5) % 100
    && forall j {:trigger gs[j]} :: m < j <= n ==> s in gs[j].heap && gs[j].heap[s].marks == gs[m].heap[s].marks + 5
  }

  /** An updater that is past its update has updated its student, in this iteration. */
  lemma UpdaterUpdated(gs: seq<World>, acts: seq<Action>, k: nat, t: Tid) returns (m: nat, n: nat)
    requires Run(gs, acts) && k < |gs| && t in gs[k].threads && gs[k].threads[t].role.Updater? && Past(gs[k].threads[t].at)
    ensures m < n < k && Updated(gs, acts, m, n, t, gs[k].threads[t].stud) && Stays(gs, m, k, t)
  {
    RunTraced(gs, acts, t);
    assert PastAt(gs, k, t);
    n := PastSince(gs, acts, k, t);
    m := AddedSince(gs, acts, n, t);
    HalfDone(gs, acts, m, n, t);
    StaysOn(gs, m, n, k, t);
  }

  lemma StaysOn(gs: seq<World>, m: nat, n: nat, k: nat, t: Tid)
    requires m < n < k < |gs| && Stays(gs, n, k, t) && t in gs[n].threads && gs[n].threads[t].at != Idle
    requires forall j {:trigger gs[j]} :: m < j <= n ==> t in gs[j].threads && gs[j].threads[t] == gs[n].threads[t]
    ensures Stays(gs, m, k, t)
  {
  }

  lemma HalfDone(gs: seq<World>, acts: seq<Action>, m: nat, n: nat, t: Tid)
    requires Run(gs, acts) && m < n < |gs| && t in gs[n].threads && gs[n].threads[t].at == Added
    requires forall j {:trigger gs[j]} :: m < j <= n ==> t in gs[j].threads && gs[j].threads[t] == gs[n].threads[t]
    ensures var th := gs[n].threads[t];
            forall j {:trigger gs[j]} :: m < j <= n ==> th.stud in gs[j].heap && gs[j].heap[th.stud].marks == th.seen + 5
  {
    var th := gs[n].threads[t];
    forall j | m < j <= n ensures th.stud in gs[j].heap && gs[j].heap[th.stud].marks == th.seen + 5 {
      AddedMarks(gs, acts, j, t);
    }
  }
}
