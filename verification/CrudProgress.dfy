/** No thread of the CRUD protocol is ever stuck: from every reachable state the other threads can
    bring it to where it can take its next step. */
module CrudProgress {
  import opened Base
  import opened CrudProtocol
  import opened CrudSteps
  import opened CrudTheorems

  // ---------------------------------------------------------------- paths that spare a thread

  ghost predicate Path(gs: seq<World>, acts: seq<Action>, t: Tid) {
    && |gs| == |acts| + 1
    && forall i {:trigger acts[i]} :: 0 <= i < |acts| ==> Step(gs[i], acts[i], gs[i + 1]) && acts[i].t != t
  }

  /** Steps of threads other than t lead from g to g'. */
  ghost predicate Leads(g: World, t: Tid, g': World) {
    exists gs: seq<World>, acts: seq<Action> {:trigger Path(gs, acts, t)} :: Path(gs, acts, t) && gs[0] == g && gs[|acts|] == g'
  }

  lemma LeadsNowhere(g: World, t: Tid)
    ensures Leads(g, t, g)
  {
    assert Path([g], [], t);
  }

  lemma LeadsStep(g: World, a: Action, g1: World, t: Tid)
    requires Step(g, a, g1) && a.t != t
    ensures Leads(g, t, g1)
  {
    var acts := [a];
    assert acts[0] == a;
    assert Path([g, g1], acts, t);
  }

  lemma LeadsOn(g: World, g1: World, g2: World, t: Tid)
    requires Leads(g, t, g1) && Leads(g1, t, g2)
    ensures Leads(g, t, g2)
  {
    var gs: seq<World>, acts: seq<Action> :| Path(gs, acts, t) && gs[0] == g && gs[|acts|] == g1;
    var gs': seq<World>, acts': seq<Action> :| Path(gs', acts', t) && gs'[0] == g1 && gs'[|acts'|] == g2;
    var hs, bs := gs + gs'[1..], acts + acts';
    forall i {:trigger bs[i]} | 0 <= i < |bs| ensures Step(hs[i], bs[i], hs[i + 1]) && bs[i].t != t {
      if i < |acts| {
        assert bs[i] == acts[i];
      } else {
        assert bs[i] == acts'[i - |acts|];
        assert hs[i] == gs'[i - |acts|] && hs[i + 1] == gs'[i - |acts| + 1];
      }
    }
    assert Path(hs, bs, t);
  }

  // ---------------------------------------------------------------- one step of a thread

  /** How far a line is from the end of the iteration at most. */
  function ToEnd(at: Line): nat {
    match at
    case Idle => 0
    case Miss => 1
    case WEnd => 1
    case Killing => 2
    case Leaving => 3
    case Used => 4
    case Added => 5
    case Using => 6
    case Locked => 7
    case Counted => 8
    case Found => 9
    case HasList => 10
    case DDrop => 4
    case DRef => 5
    case DOut => 6
    case DHas => 7
    case CListed => 2
    case CNew => 3
    case CAbsent => 4
    case CHas => 5
  }

  predicate OnList(at: Line) {
    at.ListRd() || at.ListWr()
  }

  /** A step within an iteration brings its end nearer; a thread inside a student stays there or
      leaves it altogether. */
  ghost predicate Nearer(g: World, g': World, u: Tid) {
    && OnlyThread(g, g', u)
    && var th, th' := g.threads[u], g'.threads[u];
       && ToEnd(th'.at) < ToEnd(th.at)
       && (th.at.HasObject() ==> th'.at == Leaving || (th'.at.HasObject() && th'.stud == th.stud))
  }

  lemma UseNearer(g: World, u: Tid, g': World)
    requires u in g.threads && (g.threads[u].at.Refers() ==> g.threads[u].stud in g.heap) && g.threads[u].at != Idle
    requires UseStep(g, u, 0) == Some(g')
    ensures Nearer(g, g', u)
  {
  }

  lemma CreateNearer(g: World, u: Tid, g': World)
    requires u in g.threads && (g.threads[u].at.Refers() ==> g.threads[u].stud in g.heap) && g.threads[u].at != Idle
    requires CreateStep(g, u, 0) == Some(g')
    ensures Nearer(g, g', u)
  {
  }

  lemma DeleteNearer(g: World, u: Tid, g': World)
    requires u in g.threads && (g.threads[u].at.Refers() ==> g.threads[u].stud in g.heap) && g.threads[u].at != Idle
    requires DeleteStep(g, u, 0) == Some(g')
    ensures Nearer(g, g', u)
  {
  }

  lemma FinishNearer(g: World, u: Tid, g': World)
    requires u in g.threads && g.threads[u].stud in g.heap && (g.threads[u].at == Leaving || g.threads[u].at == Killing)
    requires Finish(g, u) == Some(g')
    ensures Nearer(g, g', u)
  {
  }

  lemma GoNearer(g: World, u: Tid) returns (g': World)
    requires Inv(g) && Enabled(g, u) && g.threads[u].at != Idle
    ensures Step(g, Act(u, 0), g') && Inv(g') && Nearer(g, g', u)
  {
    InvStep(g, u, 0);
    g' := Apply(g, u, 0).value;
    var th := g.threads[u];
    if !th.role.Creator? && (th.at == Leaving || th.at == Killing) {
      FinishNearer(g, u, g');
    } else {
      match th.role
      case Creator => CreateNearer(g, u, g');
      case Deleter => DeleteNearer(g, u, g');
      case _ => UseNearer(g, u, g');
    }
  }

  // ---------------------------------------------------------------- clearing a student

  ghost function Inside(g: World, s: Sid): set<Tid> {
    set u | u in g.threads && HoldsObject(g.threads[u], s)
  }

  /** A thread inside a student never waits, so it can be brought out of it. */
  lemma {:induction false} LeaveObject(g: World, u: Tid, t: Tid) returns (g': World)
    requires Inv(g) && u in g.threads && u != t && g.threads[u].at.HasObject()
    ensures Leads(g, t, g') && Inv(g') && OnlyThread(g, g', u) && g'.threads[u].at == Leaving
    decreases ToEnd(g.threads[u].at)
  {
    var g1 := GoNearer(g, u);
    LeadsStep(g, Act(u, 0), g1, t);
    if g1.threads[u].at == Leaving {
      g' := g1;
    } else {
      g' := LeaveObject(g1, u, t);
      LeadsOn(g, g1, g', t);
    }
  }

  /** Some threads that were inside a student have left it; the others stand where they stood. */
  ghost predicate SomeLeft(g: World, g': World, who: set<Tid>) {
    && g'.threads.Keys == g.threads.Keys && who <= g.threads.Keys
    && (forall u :: u in g.threads && u !in who ==> g'.threads[u] == g.threads[u])
    && (forall u :: u in who ==> g'.threads[u].at == Leaving)
  }

  lemma {:induction false} ClearObject(g: World, s: Sid, t: Tid) returns (g': World)
    requires Inv(g) && t !in Inside(g, s)
    ensures Leads(g, t, g') && Inv(g') && SomeLeft(g, g', Inside(g, s)) && Inside(g', s) == {}
    decreases Inside(g, s)
  {
    if Inside(g, s) == {} {
      g' := g;
      LeadsNowhere(g, t);
    } else {
      var u :| u in Inside(g, s);
      var g1 := LeaveObject(g, u, t);
      assert Inside(g1, s) == Inside(g, s) - {u};
      g' := ClearObject(g1, s, t);
      LeadsOn(g, g1, g', t);
    }
  }

  /** A student nobody is inside has its lock free. */
  lemma ClearedLock(g: World, s: Sid)
    requires Inv(g) && s in g.heap && Inside(g, s) == {}
    ensures g.heap[s].rd == {} == g.heap[s].wr
  {
    assert StudentOk(g, s);
    forall u ensures u !in g.heap[s].rd && u !in g.heap[s].wr {
      assert u !in Inside(g, s);
    }
  }

  // ---------------------------------------------------------------- clearing the list

  ghost function OnTheList(g: World): set<Tid> {
    set u | u in g.threads && OnList(g.threads[u].at)
  }

  /** A thread that wants a student's lock can be given it. */
  lemma ToLocked(g: World, u: Tid, t: Tid) returns (g': World)
    requires Inv(g) && u in g.threads && g.threads[u].at == Counted && t !in Inside(g, g.threads[u].stud)
    ensures Leads(g, t, g') && Inv(g') && Enabled(g', u) && g'.threads[u] == g.threads[u]
    ensures SomeLeft(g, g', Inside(g, g.threads[u].stud))
  {
    var s := g.threads[u].stud;
    g' := ClearObject(g, s, t);
    assert ThreadOk(g', u);
    ClearedLock(g', s);
  }

  /** A thread that holds the list's lock can be brought to release it. */
  lemma {:induction false} LeaveList(g: World, u: Tid, t: Tid) returns (g': World)
    requires Inv(g) && u in g.threads && t in g.threads && u != t && OnList(g.threads[u].at) && g.threads[t].at == Idle
    ensures Leads(g, t, g') && Inv(g') && g'.threads.Keys == g.threads.Keys && g'.threads[t] == g.threads[t]
    ensures OnTheList(g') <= OnTheList(g) - {u}
    decreases ToEnd(g.threads[u].at)
  {
    var g1 := g;
    LeadsNowhere(g, t);
    if g.threads[u].at == Counted {
      g1 := ToLocked(g, u, t);
      LeftOffList(g, g1, Inside(g, g.threads[u].stud));
    }
    var g2 := GoNearer(g1, u);
    LeadsStep(g1, Act(u, 0), g2, t);
    LeadsOn(g, g1, g2, t);
    assert OnTheList(g2) <= OnTheList(g1) + {u};
    if OnList(g2.threads[u].at) {
      g' := LeaveList(g2, u, t);
      LeadsOn(g, g2, g', t);
    } else {
      g' := g2;
      assert u !in OnTheList(g2);
    }
  }

  lemma LeftOffList(g: World, g': World, who: set<Tid>)
    requires SomeLeft(g, g', who)
    ensures OnTheList(g') <= OnTheList(g)
  {
    forall u | u in OnTheList(g') ensures u in OnTheList(g) {
      assert u !in who;
    }
  }

  lemma {:induction false} ClearList(g: World, t: Tid) returns (g': World)
    requires Inv(g) && t in g.threads && g.threads[t].at == Idle
    ensures Leads(g, t, g') && Inv(g') && t in g'.threads && g'.threads[t] == g.threads[t] && OnTheList(g') == {}
    decreases |OnTheList(g)|
  {
    if OnTheList(g) == {} {
      g' := g;
      LeadsNowhere(g, t);
    } else {
      var u :| u in OnTheList(g);
      var g1 := LeaveList(g, u, t);
      SubsetSize(OnTheList(g1), OnTheList(g) - {u});
      g' := ClearList(g1, t);
      LeadsOn(g, g1, g', t);
    }
  }

  /** A list nobody is on has its lock free. */
  lemma ClearedList(g: World)
    requires Inv(g) && OnTheList(g) == {}
    ensures g.lrd == {} == g.lwr
  {
    forall u ensures u !in g.lrd && u !in g.lwr {
      assert u !in OnTheList(g);
      if u in g.threads { assert ThreadOk(g, u); }
    }
  }

  // ---------------------------------------------------------------- no thread is stuck

  lemma CanGoOn(g: World, t: Tid) returns (g': World)
    requires Inv(g) && t in g.threads
    ensures Leads(g, t, g') && Enabled(g', t) && g'.threads[t] == g.threads[t]
  {
    if Enabled(g, t) {
      g' := g;
      LeadsNowhere(g, t);
    } else if g.threads[t].at == Counted {
      g' := ToLocked(g, t, t);
    } else {
      g' := ClearList(g, t);
      ClearedList(g');
    }
  }

  /** In every reachable state every thread can take its next step, or the others can take steps that
      let it: there is no partial deadlock. */
  lemma NoThreadStuck(gs: seq<World>, acts: seq<Action>, k: nat, t: Tid)
    requires Run(gs, acts) && k < |gs| && t in gs[k].threads
    ensures exists g' :: Leads(gs[k], t, g') && Enabled(g', t) && g'.threads[t] == gs[k].threads[t]
  {
    RunInv(gs, acts, k);
    var g' := CanGoOn(gs[k], t);
  }
}
