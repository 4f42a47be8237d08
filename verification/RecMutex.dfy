/** The recursive mutex of recursive_mutex/rec_mutex.c.

    A call runs as one critical section of the state mutex, or as several when it waits: a wait
    ends one section, and the section after the wake-up re-tests the loop condition.  A step that
    would make an assertion of the code fail has no result (None). */
module RecMutex {
  import opened Base

  /** The fields of rec_mutex_t; the condition variable is the threads asleep on it and the
      threads woken from it that have not run yet. */
  datatype Mutex = Mutex(n: nat, owner: nat, waited: int, asleep: set<Tid>, woken: set<Tid>)
  {
    ghost predicate Blocked(t: Tid) { t in asleep || t in woken }
  }

  function LockEnter(m: Mutex, t: Tid): Option<Mutex> {
    if m.n == 0 then
      if m.owner != NO_THREAD then None else Some(m.(n := 1, owner := t))
    else if m.owner == t then
      Some(m.(n := m.n + 1))
    else
      WaitLoop(m, t)
  }

  /** The loop test and what follows it, up to the wait or the return. */
  function WaitLoop(m: Mutex, t: Tid): Option<Mutex> {
    if m.owner != NO_THREAD && m.owner != t then
      Some(m.(waited := m.waited + 1, asleep := m.asleep + {t}))
    else if m.n != 0 || m.owner != NO_THREAD then
      None
    else
      Some(m.(n := 1, owner := t))
  }

  function LockResume(m: Mutex, t: Tid): Option<Mutex> {
    WaitLoop(m.(waited := m.waited - 1, woken := m.woken - {t}), t)
  }

  /** w is the thread the signal wakes, if one is sent and somebody sleeps. */
  function Unlock(m: Mutex, t: Tid, w: Option<Tid>): Option<Mutex> {
    if m.n == 0 || m.owner != t then
      None
    else if m.n > 1 then
      Some(m.(n := m.n - 1))
    else
      var m' := if m.waited != 0
                then m.(asleep := m.asleep - Picked(w), woken := m.woken + Picked(w))
                else m;
      Some(m'.(n := 0, owner := NO_THREAD))
  }

  // ---------------------------------------------------------------- the system of threads

  /** The mutex and, for every thread, how many of its lock calls have returned and have not been
      unlocked yet.  The holds follow the outcome of the calls, never the fields of the mutex. */
  datatype System = System(mutex: Mutex, holds: multiset<Tid>)

  datatype Action = CallLock(t: Tid) | Resume(t: Tid) | CallUnlock(t: Tid, w: Option<Tid>) | Spurious(t: Tid)

  ghost predicate Enabled(s: System, a: Action) {
    match a
    case CallLock(t) => !s.mutex.Blocked(t)
    case Resume(t) => t in s.mutex.woken
    case CallUnlock(t, w) => !s.mutex.Blocked(t) && s.holds[t] > 0 && SignalPicks(s.mutex.asleep, w)
    case Spurious(t) => t in s.mutex.asleep
  }

  /** A lock call that does not leave its caller asleep has returned. */
  function Returned(m: Option<Mutex>, holds: multiset<Tid>, t: Tid): Option<System> {
    if m.None? then None
    else Some(System(m.value, if t in m.value.asleep then holds else holds + multiset{t}))
  }

  function Apply(s: System, a: Action): Option<System> {
    match a
    case CallLock(t) => Returned(LockEnter(s.mutex, t), s.holds, t)
    case Resume(t) => Returned(LockResume(s.mutex, t), s.holds, t)
    case CallUnlock(t, w) =>
      var m := Unlock(s.mutex, t, w);
      if m.None? then None else Some(System(m.value, s.holds - multiset{t}))
    case Spurious(t) =>
      Some(s.(mutex := s.mutex.(asleep := s.mutex.asleep - {t}, woken := s.mutex.woken + {t})))
  }

  ghost predicate Init(s: System) {
    s == System(Mutex(0, NO_THREAD, 0, {}, {}), multiset{})
  }

  /** What the fields and the waiting threads keep, whoever calls. */
  ghost predicate Consistent(m: Mutex) {
    && (m.n == 0 <==> m.owner == NO_THREAD)
    && m.asleep !! m.woken
    && m.waited == |m.asleep| + |m.woken|
    && m.owner !in m.asleep + m.woken
    && (m.n == 0 && m.asleep != {} ==> m.woken != {})
  }

  ghost predicate Inv(s: System) {
    && Consistent(s.mutex)
    && s.mutex.n == |s.holds|
    && (forall t :: t in s.holds ==> t == s.mutex.owner)
  }

  lemma ConsistentLock(m: Mutex, t: Tid)
    requires Consistent(m) && !m.Blocked(t)
    ensures LockEnter(m, t).Some? && Consistent(LockEnter(m, t).value)
  {
    AddSize(m.asleep, t);
  }

  lemma ConsistentResume(m: Mutex, t: Tid)
    requires Consistent(m) && t in m.woken
    ensures LockResume(m, t).Some? && Consistent(LockResume(m, t).value)
  {
    RemoveSize(m.woken, t);
    AddSize(m.asleep, t);
  }

  lemma ConsistentWake(m: Mutex, t: Tid)
    requires Consistent(m) && t in m.asleep
    ensures Consistent(m.(asleep := m.asleep - {t}, woken := m.woken + {t}))
  {
    RemoveSize(m.asleep, t);
    AddSize(m.woken, t);
  }

  lemma ConsistentUnlock(m: Mutex, t: Tid, w: Option<Tid>)
    requires Consistent(m) && m.owner == t && SignalPicks(m.asleep, w)
    ensures Unlock(m, t, w).Some? && Consistent(Unlock(m, t, w).value)
  {
    match w
    case None =>
    case Some(x) => ConsistentWake(m, x);
  }

  lemma InvUnlock(s: System, t: Tid, w: Option<Tid>)
    requires Inv(s) && Enabled(s, CallUnlock(t, w))
    ensures Apply(s, CallUnlock(t, w)).Some? && Inv(Apply(s, CallUnlock(t, w)).value)
  {
    assert t in s.holds;
    ConsistentUnlock(s.mutex, t, w);
    assert |s.holds - multiset{t}| == |s.holds| - 1;
  }

  lemma InvStep(s: System, a: Action)
    requires Inv(s) && Enabled(s, a)
    ensures Apply(s, a).Some? && Inv(Apply(s, a).value)
  {
    match a
    case CallLock(t) => ConsistentLock(s.mutex, t);
    case Resume(t) => ConsistentResume(s.mutex, t);
    case CallUnlock(t, w) => InvUnlock(s, t, w);
    case Spurious(t) => ConsistentWake(s.mutex, t);
  }

  /** A run from the initial state; its last action, if it fails an assertion, is left out. */
  ghost predicate Run(ss: seq<System>, acts: seq<Action>) {
    && |ss| == |acts| + 1
    && Init(ss[0])
    && forall i {:trigger acts[i]} :: 0 <= i < |acts| ==> Enabled(ss[i], acts[i]) && Apply(ss[i], acts[i]) == Some(ss[i + 1])
  }

  lemma {:induction false} RunInv(ss: seq<System>, acts: seq<Action>, k: nat)
    requires Run(ss, acts) && k < |ss|
    ensures Inv(ss[k])
    decreases k
  {
    if k > 0 {
      RunInv(ss, acts, k - 1);
      InvStep(ss[k - 1], acts[k - 1]);
    }
  }

  // ---------------------------------------------------------------- what the mutex promises

  /** No assertion of the code fails, newcomers, spurious wake-ups and all, when threads unlock
      only what they hold. */
  lemma AssertionsHold(ss: seq<System>, acts: seq<Action>, k: nat, a: Action)
    requires Run(ss, acts) && k < |ss| && Enabled(ss[k], a)
    ensures Apply(ss[k], a).Some?
  {
    RunInv(ss, acts, k);
    InvStep(ss[k], a);
  }

  /** An unlock by a thread that holds nothing is caught, and no other unlock is. */
  lemma UnlockCaughtExactly(ss: seq<System>, acts: seq<Action>, k: nat, t: Tid, w: Option<Tid>)
    requires Run(ss, acts) && k < |ss|
    ensures Unlock(ss[k].mutex, t, w) == None <==> ss[k].holds[t] == 0
  {
    RunInv(ss, acts, k);
    var s := ss[k];
    if s.mutex.n > 0 {
      var x :| x in s.holds;
    }
  }

  /** The abstract recursive mutex: an owner and its nesting depth. */
  datatype Abstract = Free | Held(holder: Tid, depth: nat)

  function Abs(s: System): Abstract {
    if s.mutex.owner == NO_THREAD then Free else Held(s.mutex.owner, s.mutex.n)
  }

  function AbstractLock(l: Abstract, t: Tid): Abstract {
    match l
    case Free => Held(t, 1)
    case Held(holder, depth) => if holder == t then Held(holder, depth + 1) else l
  }

  function AbstractUnlock(l: Abstract, t: Tid): Abstract {
    match l
    case Free => Free
    case Held(holder, depth) => if holder != t then l else if depth <= 1 then Free else Held(holder, depth - 1)
  }

  /** n is the number of lock calls the owner has still to undo, and nobody else has any. */
  lemma DepthIsHolds(ss: seq<System>, acts: seq<Action>, k: nat, t: Tid)
    requires Run(ss, acts) && k < |ss|
    ensures ss[k].holds[t] == if t == ss[k].mutex.owner then ss[k].mutex.n else 0
    ensures ss[k].mutex.n == 0 <==> ss[k].mutex.owner == NO_THREAD
  {
    RunInv(ss, acts, k);
    AllOnOne(ss[k].holds, ss[k].mutex.owner);
  }

  lemma {:induction false} AllOnOne(h: multiset<Tid>, o: nat)
    requires forall t :: t in h ==> t == o
    ensures forall t: Tid :: h[t] == if t == o then |h| else 0
    decreases |h|
  {
    if h != multiset{} {
      var x :| x in h;
      AllOnOne(h - multiset{x}, o);
    }
  }

  /** Refinement: every step of a run is the abstract lock, the abstract unlock or a stutter, and
      a lock call returns at once exactly when the abstract mutex is free or already the caller's. */
  lemma Refines(ss: seq<System>, acts: seq<Action>, k: nat)
    requires Run(ss, acts) && k < |acts|
    ensures match acts[k]
            case CallLock(t) =>
              && Abs(ss[k + 1]) == AbstractLock(Abs(ss[k]), t)
              && (ss[k + 1].mutex.Blocked(t) <==> Abs(ss[k]).Held? && Abs(ss[k]).holder != t)
            case Resume(t) =>
              && Abs(ss[k + 1]) == AbstractLock(Abs(ss[k]), t)
              && (ss[k + 1].mutex.Blocked(t) <==> Abs(ss[k]).Held?)
            case CallUnlock(t, w) => Abs(ss[k + 1]) == AbstractUnlock(Abs(ss[k]), t)
            case Spurious(t) => Abs(ss[k + 1]) == Abs(ss[k])
  {
    RunInv(ss, acts, k);
    InvStep(ss[k], acts[k]);
    if acts[k].CallUnlock? && ss[k].mutex.n > 0 {
      var x :| x in ss[k].holds;
    }
  }

  /** No wake-up is lost: whenever the mutex is free and somebody waits, somebody has been woken,
      and any woken thread that runs next becomes the owner. */
  lemma NoLostWakeup(ss: seq<System>, acts: seq<Action>, k: nat)
    requires Run(ss, acts) && k < |ss| && Abs(ss[k]) == Free
    requires ss[k].mutex.asleep + ss[k].mutex.woken != {}
    ensures ss[k].mutex.woken != {}
    ensures forall t :: t in ss[k].mutex.woken ==>
              Apply(ss[k], Resume(t)).Some? && Abs(Apply(ss[k], Resume(t)).value) == Held(t, 1)
  {
    RunInv(ss, acts, k);
  }

  /** The owner's last unlock wakes one sleeper if there is one; an inner unlock wakes nobody. */
  lemma UnlockWakesExactly(ss: seq<System>, acts: seq<Action>, k: nat)
    requires Run(ss, acts) && k < |acts| && acts[k].CallUnlock?
    ensures var m, m', w := ss[k].mutex, ss[k + 1].mutex, acts[k].w;
            if ss[k].holds[acts[k].t] == 1 && m.asleep != {}
            then w.Some? && w.value in m.asleep && m'.asleep == m.asleep - {w.value} && m'.woken == m.woken + {w.value}
            else m'.asleep == m.asleep && m'.woken == m.woken
  {
    RunInv(ss, acts, k);
    DepthIsHolds(ss, acts, k, acts[k].t);
    assert Apply(ss[k], acts[k]) == Some(ss[k + 1]);
    UnlockWakes(ss[k], acts[k].t, acts[k].w, ss[k + 1]);
  }

  lemma UnlockWakes(s: System, t: Tid, w: Option<Tid>, s': System)
    requires Inv(s) && SignalPicks(s.mutex.asleep, w) && Apply(s, CallUnlock(t, w)) == Some(s')
    ensures var who := if s.mutex.n == 1 then Picked(w) else {};
            s'.mutex.asleep == s.mutex.asleep - who && s'.mutex.woken == s.mutex.woken + who
  {
    assert s.mutex.waited == 0 ==> s.mutex.asleep == {};
  }

  // ---------------------------------------------------------------- the object

  /** rec_mutex_t, each critical section of its calls one method. */
  class RecursiveMutex {
    var n: nat
    var lockingThread: nat
    var nWaited: int
    var asleep: set<Tid>
    var woken: set<Tid>

    ghost function View(): Mutex
      reads this
    {
      Mutex(n, lockingThread, nWaited, asleep, woken)
    }

    ghost predicate Valid()
      reads this
    {
      Consistent(View())
    }

    constructor ()
      ensures Valid() && Init(System(View(), multiset{}))
    {
      n, lockingThread, nWaited := 0, NO_THREAD, 0;
      asleep, woken := {}, {};
    }

    /** rec_mutex_lock up to its return or its first wait. */
    method Lock(t: Tid) returns (granted: bool)
      requires Valid() && !View().Blocked(t)
      modifies this
      ensures Valid() && Some(View()) == old(LockEnter(View(), t))
      ensures granted <==> t !in asleep
      ensures granted <==> lockingThread == t
    {
      ConsistentLock(View(), t);
      if n == 0 {
        assert lockingThread == 0;
        n := 1;
        lockingThread := t;
        return true;
      }
      if lockingThread == t {
        assert n != 0;
        n := n + 1;
        return true;
      }
      granted := AwaitGrant(t);
    }

    /** rec_mutex_lock from a wake-up to its return or its next wait. */
    method ResumeLock(t: Tid) returns (granted: bool)
      requires Valid() && t in woken
      modifies this
      ensures Valid() && Some(View()) == old(LockResume(View(), t))
      ensures granted <==> t !in asleep
      ensures granted <==> lockingThread == t
    {
      ConsistentResume(View(), t);
      ghost var m := View();
      nWaited := nWaited - 1;
      woken := woken - {t};
      assert View() == m.(waited := m.waited - 1, woken := m.woken - {t});
      granted := AwaitGrant(t);
    }

    method AwaitGrant(t: Tid) returns (granted: bool)
      requires WaitLoop(View(), t).Some? && t !in asleep
      modifies this
      ensures Some(View()) == old(WaitLoop(View(), t))
      ensures granted <==> t !in asleep
      ensures granted <==> lockingThread == t
    {
      if lockingThread != 0 && lockingThread != t {
        nWaited := nWaited + 1;
        asleep := asleep + {t};
        return false;
      }
      assert n == 0;
      assert lockingThread == 0;
      n := 1;
      lockingThread := t;
      return true;
    }

    /** rec_mutex_unlock by the owner; w is the thread the signal picked. */
    method Release(t: Tid) returns (w: Option<Tid>)
      requires Valid() && lockingThread == t
      modifies this
      ensures SignalPicks(old(asleep), w)
      ensures Valid() && Some(View()) == old(Unlock(View(), t, w))
    {
      w := None;
      if asleep != {} {
        var x :| x in asleep;
        w := Some(x);
      }
      ConsistentUnlock(View(), t, w);
      assert n != 0;
      n := n - 1;
      if n > 0 {
        return;
      }
      if nWaited != 0 {
        asleep, woken := asleep - Picked(w), woken + Picked(w);
      }
      lockingThread := 0;
    }
  }
}
