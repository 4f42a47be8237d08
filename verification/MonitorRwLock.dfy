/** The bounded reader/writer monitor of rw_locks/monitor/rw_locks.c: at most n_max_readers readers
    or n_max_writers writers inside, and a session of one kind is handed over to waiting threads of
    the other kind.

    Critical sections, waits and failing assertions are treated as in module RecMutex.  The code
    treats readers and writers alike with the names exchanged, so the fields that come in pairs are
    one record per kind, and a writer step is the reader step of the lock with the pair swapped. */
module MonitorRwLock {
  import opened Base

  /** One kind of thread: dont_allow_*, n_*_waiting, is_locked_by_*, n_max_* and the asleep and
      woken threads of cv_*. */
  datatype Side = Side(barred: bool, waiting: int, locked: bool, max: nat, asleep: set<Tid>, woken: set<Tid>)
  {
    function Wake(who: set<Tid>): Side {
      this.(asleep := asleep - who, woken := woken + who)
    }
  }

  /** The fields of rwlock_t: n_locks, the readers' side and the writers' side. */
  datatype Lock = Lock(n: int, r: Side, w: Side)
  {
    function Swap(): Lock { Lock(n, w, r) }

    ghost predicate Free() { !r.locked && !w.locked }

    ghost predicate Blocked(t: Tid) {
      t in r.asleep || t in r.woken || t in w.asleep || t in w.woken
    }
  }

  function Swapped(l: Option<Lock>): Option<Lock> {
    if l.None? then None else Some(l.value.Swap())
  }

  function RdEnter(l: Lock, t: Tid): Option<Lock> {
    if !l.r.locked && !l.w.locked && l.r.max >= 1 && !l.r.barred then
      if l.n != 0 then None else Some(l.(n := l.n + 1, r := l.r.(locked := true)))
    else
      RdLoop(l, t)
  }

  /** The loop test and what follows it, up to the wait or the return. */
  function RdLoop(l: Lock, t: Tid): Option<Lock> {
    if l.w.locked || l.n == l.r.max || l.r.barred then
      Some(l.(r := l.r.(waiting := l.r.waiting + 1, asleep := l.r.asleep + {t})))
    else
      Some(l.(n := l.n + 1, r := l.r.(locked := l.r.locked || l.n == 0)))
  }

  function RdResume(l: Lock, t: Tid): Option<Lock> {
    RdLoop(l.(r := l.r.(waiting := l.r.waiting - 1, woken := l.r.woken - {t})), t)
  }

  function WrEnter(l: Lock, t: Tid): Option<Lock> { Swapped(RdEnter(l.Swap(), t)) }

  function WrResume(l: Lock, t: Tid): Option<Lock> { Swapped(RdResume(l.Swap(), t)) }

  /** x is the thread the replacement signal wakes, if one is sent. */
  function Unlock(l: Lock, x: Option<Tid>): Option<Lock> {
    if l.n == 0 then None
    else if l.w.locked then
      if l.r.locked then None else Some(ReaderLeaves(l.Swap(), x).Swap())
    else if l.r.locked then
      Some(ReaderLeaves(l, x))
    else
      None
  }

  /** One of the readers inside leaves; the last one ends the session. */
  function ReaderLeaves(l: Lock, x: Option<Tid>): Lock {
    if l.n != 1 then
      l.(n := l.n - 1, r := if l.r.waiting != 0 then l.r.Wake(Picked(x)) else l.r)
    else if l.w.waiting != 0 then
      Lock(0, l.r.(locked := false, barred := true), l.w.Wake(l.w.asleep).(barred := false))
    else
      Lock(0, (if l.r.waiting != 0 then l.r.Wake(l.r.asleep) else l.r).(locked := false), l.w.(barred := false))
  }

  // ---------------------------------------------------------------- the system of threads

  /** The lock and the threads inside, once per call that has returned and has not been unlocked. */
  datatype System = System(lock: Lock, inR: multiset<Tid>, inW: multiset<Tid>)
  {
    function Swap(): System { System(lock.Swap(), inW, inR) }
  }

  datatype Kind = Reader | Writer

  /** The steps of a thread of some kind. */
  datatype Action =
    | Call(k: Kind, t: Tid)
    | Resume(k: Kind, t: Tid)
    | CallUnlock(k: Kind, t: Tid, x: Option<Tid>)
    | Spurious(k: Kind, t: Tid)
  {
    function Swap(): Action {
      this.(k := if k == Reader then Writer else Reader)
    }
  }

  function AsReader(s: System, k: Kind): System {
    if k == Reader then s else s.Swap()
  }

  /** Threads unlock only what they hold. */
  ghost predicate EnabledAsReader(s: System, a: Action) {
    match a
    case Call(_, t) => !s.lock.Blocked(t)
    case Resume(_, t) => t in s.lock.r.woken
    case CallUnlock(_, t, x) => t in s.inR && SignalPicks(s.lock.r.asleep, x)
    case Spurious(_, t) => t in s.lock.r.asleep
  }

  ghost predicate Enabled(s: System, a: Action) {
    EnabledAsReader(AsReader(s, a.k), a)
  }

  function Returned(l: Option<Lock>, s: System, t: Tid): Option<System> {
    if l.None? then None
    else Some(s.(lock := l.value, inR := if t in l.value.r.asleep then s.inR else s.inR + multiset{t}))
  }

  function ApplyAsReader(s: System, a: Action): Option<System> {
    match a
    case Call(_, t) => Returned(RdEnter(s.lock, t), s, t)
    case Resume(_, t) => Returned(RdResume(s.lock, t), s, t)
    case CallUnlock(_, t, x) =>
      var l := Unlock(s.lock, x);
      if l.None? then None else Some(s.(lock := l.value, inR := s.inR - multiset{t}))
    case Spurious(_, t) => Some(s.(lock := s.lock.(r := s.lock.r.Wake({t}))))
  }

  function Apply(s: System, a: Action): Option<System> {
    var r := ApplyAsReader(AsReader(s, a.k), a);
    if r.None? then None else Some(AsReader(r.value, a.k))
  }

  /** The state after rw_lock_init and rw_lock_set_max_readers_writers, with n_locks, which the
      code leaves unset, taken to be 0. */
  function Initial(maxReaders: nat, maxWriters: nat): Lock {
    Lock(0, Side(false, 0, false, maxReaders, {}, {}), Side(false, 0, false, maxWriters, {}, {}))
  }

  ghost predicate Init(s: System) {
    && s.lock.r.max >= 1 && s.lock.w.max >= 1
    && s == System(Initial(s.lock.r.max, s.lock.w.max), multiset{}, multiset{})
  }

  ghost predicate Counted(d: Side) {
    d.max >= 1 && d.asleep !! d.woken && d.waiting == |d.asleep| + |d.woken|
  }

  /** What holds of one kind's side next to the other's. */
  ghost predicate Ordered(n: int, mine: Side, other: Side) {
    && (mine.locked ==> !other.locked && n <= mine.max && !mine.barred)
    && !(mine.barred && other.barred)
    && (n == 0 && other.barred ==> mine.woken != {})
    && (n == 0 && mine.asleep != {} ==> mine.barred)
    && (mine.locked && mine.asleep != {} ==> |mine.woken| >= mine.max - n)
  }

  ghost predicate Consistent(l: Lock) {
    && 0 <= l.n
    && (l.n == 0 <==> l.Free())
    && Counted(l.r) && Counted(l.w)
    && Ordered(l.n, l.r, l.w) && Ordered(l.n, l.w, l.r)
  }

  ghost predicate Inv(s: System) {
    && Consistent(s.lock)
    && s.lock.n == |s.inR| + |s.inW|
    && (s.lock.r.locked <==> s.inR != multiset{})
    && (s.lock.w.locked <==> s.inW != multiset{})
  }

  lemma CountedWake(d: Side, who: set<Tid>)
    requires Counted(d) && who <= d.asleep
    ensures Counted(d.Wake(who)) && |d.Wake(who).woken| == |d.woken| + |who|
  {
    UnionSize(d.asleep - who, who);
    assert (d.asleep - who) + who == d.asleep;
    UnionSize(d.woken, who);
  }

  lemma CountedSleep(d: Side, t: Tid)
    requires Counted(d) && t !in d.asleep && t !in d.woken
    ensures Counted(d.(waiting := d.waiting + 1, asleep := d.asleep + {t}))
  {
    AddSize(d.asleep, t);
  }

  lemma CountedRun(d: Side, t: Tid)
    requires Counted(d) && t in d.woken
    ensures Counted(d.(waiting := d.waiting - 1, woken := d.woken - {t})) && |d.woken - {t}| == |d.woken| - 1
  {
    RemoveSize(d.woken, t);
  }

  lemma ConsistentEnter(l: Lock, t: Tid)
    requires Consistent(l) && !l.Blocked(t)
    ensures RdEnter(l, t).Some? && Consistent(RdEnter(l, t).value)
  {
    CountedSleep(l.r, t);
  }

  lemma ConsistentResume(l: Lock, t: Tid)
    requires Consistent(l) && t in l.r.woken
    ensures RdResume(l, t).Some? && Consistent(RdResume(l, t).value)
  {
    CountedRun(l.r, t);
    CountedSleep(l.r.(waiting := l.r.waiting - 1, woken := l.r.woken - {t}), t);
  }

  lemma ConsistentSpurious(l: Lock, t: Tid)
    requires Consistent(l) && t in l.r.asleep
    ensures Consistent(l.(r := l.r.Wake({t})))
  {
    CountedWake(l.r, {t});
  }

  lemma ConsistentLeave(l: Lock, x: Option<Tid>)
    requires Consistent(l) && l.r.locked && SignalPicks(l.r.asleep, x)
    ensures Unlock(l, x) == Some(ReaderLeaves(l, x)) && Consistent(ReaderLeaves(l, x))
    ensures l.n == 1 ==> (ReaderLeaves(l, x).r.barred <==> l.w.asleep + l.w.woken != {})
  {
    CountedWake(l.r, Picked(x));
    CountedWake(l.r, l.r.asleep);
    CountedWake(l.w, l.w.asleep);
    assert l.w.waiting == 0 <==> l.w.asleep == {} && l.w.woken == {};
    assert l.w.asleep + l.w.woken == {} <==> l.w.asleep == {} && l.w.woken == {};
  }

  lemma InvLeave(s: System, t: Tid, x: Option<Tid>)
    requires Inv(s) && t in s.inR && SignalPicks(s.lock.r.asleep, x)
    ensures ApplyAsReader(s, CallUnlock(Reader, t, x)).Some? && Inv(ApplyAsReader(s, CallUnlock(Reader, t, x)).value)
  {
    ConsistentLeave(s.lock, x);
    assert |s.inR - multiset{t}| == |s.inR| - 1;
  }

  /** A return counts the thread among those inside; a wait leaves them as they were. */
  lemma InvReturned(s: System, l: Option<Lock>, t: Tid)
    requires Inv(s) && l.Some? && Consistent(l.value) && l.value.w.locked == s.lock.w.locked
    requires if t in l.value.r.asleep then l.value.n == s.lock.n && l.value.r.locked == s.lock.r.locked
             else l.value.n == s.lock.n + 1 && l.value.r.locked
    ensures Returned(l, s, t).Some? && Inv(Returned(l, s, t).value)
  {
    assert t in s.inR + multiset{t};
  }

  lemma InvAsReader(s: System, a: Action)
    requires Inv(s) && EnabledAsReader(s, a)
    ensures ApplyAsReader(s, a).Some? && Inv(ApplyAsReader(s, a).value)
  {
    match a
    case Call(_, t) =>
      ConsistentEnter(s.lock, t);
      InvReturned(s, RdEnter(s.lock, t), t);
    case Resume(_, t) =>
      ConsistentResume(s.lock, t);
      InvReturned(s, RdResume(s.lock, t), t);
    case CallUnlock(_, t, x) => InvLeave(s, t, x);
    case Spurious(_, t) => ConsistentSpurious(s.lock, t);
  }

  lemma InvView(s: System, k: Kind)
    requires Inv(s)
    ensures Inv(AsReader(s, k))
  {
  }

  lemma InvStep(s: System, a: Action)
    requires Inv(s) && Enabled(s, a)
    ensures Apply(s, a).Some? && Inv(Apply(s, a).value)
  {
    InvView(s, a.k);
    InvAsReader(AsReader(s, a.k), a);
    InvView(ApplyAsReader(AsReader(s, a.k), a).value, a.k);
  }

  ghost predicate Step(s: System, a: Action, s': System) {
    Enabled(s, a) && Apply(s, a) == Some(s')
  }

  /** Steps from any state. */
  ghost predicate Steps(ss: seq<System>, acts: seq<Action>) {
    && |ss| == |acts| + 1
    && forall i {:trigger acts[i]} :: 0 <= i < |acts| ==> Step(ss[i], acts[i], ss[i + 1])
  }

  /** A run of a lock with limits of at least 1. */
  ghost predicate Run(ss: seq<System>, acts: seq<Action>) {
    Steps(ss, acts) && Init(ss[0])
  }

  lemma StepKeeps(s: System, a: Action, s': System)
    requires Inv(s) && Step(s, a, s')
    ensures Inv(s')
  {
    InvStep(s, a);
  }

  lemma NextInv(ss: seq<System>, acts: seq<Action>, k: nat)
    requires Steps(ss, acts) && k < |acts| && Inv(ss[k])
    ensures Inv(ss[k + 1])
  {
    StepKeeps(ss[k], acts[k], ss[k + 1]);
  }

  lemma {:induction false} RunInv(ss: seq<System>, acts: seq<Action>, k: nat)
    requires Run(ss, acts) && k < |ss|
    ensures Inv(ss[k])
    decreases k
  {
    if k > 0 {
      RunInv(ss, acts, k - 1);
      NextInv(ss, acts, k - 1);
    }
  }

  // ---------------------------------------------------------------- what the monitor promises

  /** No assertion of the code fails. */
  lemma AssertionsHold(ss: seq<System>, acts: seq<Action>, k: nat, a: Action)
    requires Run(ss, acts) && k < |ss| && Enabled(ss[k], a)
    ensures Apply(ss[k], a).Some?
  {
    RunInv(ss, acts, k);
    InvStep(ss[k], a);
  }

  /** Sessions: only one kind is inside, never more than its limit, and n_locks counts them. */
  lemma Sessions(ss: seq<System>, acts: seq<Action>, k: nat)
    requires Run(ss, acts) && k < |ss|
    ensures var s := ss[k];
            && (s.lock.r.locked ==> s.inW == multiset{} && 1 <= s.lock.n == |s.inR| <= s.lock.r.max)
            && (s.lock.w.locked ==> s.inR == multiset{} && 1 <= s.lock.n == |s.inW| <= s.lock.w.max)
            && (s.lock.Free() ==> s.inR + s.inW == multiset{} && s.lock.n == 0)
  {
    RunInv(ss, acts, k);
  }

  ghost function Inside(s: System, k: Kind): multiset<Tid> {
    AsReader(s, k).inR
  }

  /** If the lock is free and somebody waits, somebody has been woken who would be inside if it ran
      next. */
  ghost predicate Wakeful(s: System) {
    s.lock.Free() && (exists t: Tid :: s.lock.Blocked(t)) ==>
      exists a: Action :: a.Resume? && Enabled(s, a) && Apply(s, a).Some? && a.t in Inside(Apply(s, a).value, a.k)
  }

  /** No wake-up is lost. */
  lemma NoLostWakeup(ss: seq<System>, acts: seq<Action>, k: nat)
    requires Run(ss, acts) && k < |ss|
    ensures Wakeful(ss[k])
  {
    RunInv(ss, acts, k);
    if ss[k].lock.Free() && exists t: Tid :: ss[k].lock.Blocked(t) {
      SomebodyGetsIn(ss[k]);
    }
  }

  lemma SomebodyGetsIn(s: System)
    requires Inv(s) && s.lock.Free() && exists t: Tid :: s.lock.Blocked(t)
    ensures Wakeful(s)
  {
    if s.lock.r.woken != {} && !s.lock.r.barred {
      var t :| t in s.lock.r.woken;
      WokenGetsIn(s, Resume(Reader, t));
    } else {
      var t :| t in s.lock.w.woken;
      WokenGetsIn(s, Resume(Writer, t));
    }
  }

  lemma WokenGetsIn(s: System, a: Action)
    requires Inv(s) && s.lock.Free() && a.Resume? && Enabled(s, a) && !AsReader(s, a.k).lock.r.barred
    ensures Apply(s, a).Some? && a.t in Inside(Apply(s, a).value, a.k)
  {
  }

  /** Freed capacity is never left to sleepers: in a session either nobody of the kind sleeps or
      at least as many have been woken as there are free places. */
  lemma Replacement(ss: seq<System>, acts: seq<Action>, k: nat)
    requires Run(ss, acts) && k < |ss|
    ensures var l := ss[k].lock;
            && (l.r.locked && l.r.asleep != {} ==> |l.r.woken| >= l.r.max - l.n)
            && (l.w.locked && l.w.asleep != {} ==> |l.w.woken| >= l.w.max - l.n)
  {
    RunInv(ss, acts, k);
  }

  /** The lock stays free from i (exclusive) to j (exclusive) and is taken at j. */
  ghost predicate NextSession(ss: seq<System>, i: nat, j: nat)
    requires i < j < |ss|
  {
    !ss[i].lock.Free() && !ss[j].lock.Free() && forall k :: i < k < j ==> ss[k].lock.Free()
  }

  /** Hand-over, readers to writers: in every run, a reader session that ends while a writer waits
      is followed next by a writer session. */
  lemma HandOverToWriters(ss: seq<System>, acts: seq<Action>, i: nat, j: nat)
    requires Run(ss, acts) && i + 1 < j < |ss| && NextSession(ss, i, j)
    requires ss[i].lock.r.locked && ss[i].lock.w.asleep + ss[i].lock.w.woken != {}
    ensures ss[j].lock.w.locked
  {
    assert ss[i + 1].lock.Free() && ss[j - 1].lock.Free();
    assert ss[i + 1].lock.r.barred by {
      RunInv(ss, acts, i);
      LastReaderBars(ss[i], acts[i], ss[i + 1]);
    }
    BarredWhileFree(ss, acts, i, j - 1);
    BarredNextState(ss, acts, j - 1);
  }

  /** The step that frees a reader-held lock is the last reader's unlock; it bars further readers
      exactly when a writer waits. */
  lemma LastReaderBars(s: System, a: Action, s': System)
    requires Inv(s) && Step(s, a, s') && s.lock.r.locked && s'.lock.Free()
    ensures s'.lock.r.barred <==> s.lock.w.asleep + s.lock.w.woken != {}
  {
    match a
    case CallUnlock(Reader, t, x) => ConsistentLeave(s.lock, x);
    case _ =>
  }

  /** Whom a reader's unlock wakes, and whom it bars.  One that leaves others inside wakes at most the
      replacement and bars nobody.  The last one wakes all writers and no reader if a writer waits, and
      all readers if not; writers are free to come either way. */
  lemma ReaderLeavesExactly(ss: seq<System>, acts: seq<Action>, k: nat)
    requires Run(ss, acts) && k < |acts| && acts[k].CallUnlock? && acts[k].k == Reader
    ensures var s, l, l', who := ss[k], ss[k].lock, ss[k + 1].lock, Picked(acts[k].x);
            if |s.inR| > 1 then
              && l'.r.asleep == l.r.asleep - who && l'.r.woken == l.r.woken + who && l'.w == l.w
              && !l'.r.barred && !l'.Free()
            else
              && l'.Free() && !l'.w.barred
              && if l.w.asleep + l.w.woken != {}
                 then l'.r.barred && l'.r.asleep == l.r.asleep && l'.r.woken == l.r.woken
                      && l'.w.asleep == {} && l'.w.woken == l.w.woken + l.w.asleep
                 else !l'.r.barred && l'.r.asleep == {} && l'.r.woken == l.r.woken + l.r.asleep
  {
    RunInv(ss, acts, k);
    RunInv(ss, acts, k + 1);
    assert Step(ss[k], acts[k], ss[k + 1]);
    ConsistentLeave(ss[k].lock, acts[k].x);
    NobodyWaits(ss[k].lock.r);
    NobodyWaits(ss[k].lock.w);
  }

  lemma NobodyWaits(d: Side)
    requires Counted(d)
    ensures d.waiting == 0 <==> d.asleep + d.woken == {}
    ensures d.waiting == 0 ==> d.asleep == {} == d.woken
  {
    if d.asleep + d.woken == {} {
      assert d.asleep == {} && d.woken == {};
    }
  }

  /** Nothing lifts the bar of a free lock, and no reader session starts under it. */
  lemma BarredStays(s: System, a: Action, s': System)
    requires Inv(s) && Step(s, a, s') && s.lock.Free() && s.lock.r.barred
    ensures s'.lock.r.barred && !s'.lock.r.locked
  {
  }

  lemma BarredNextState(ss: seq<System>, acts: seq<Action>, k: nat)
    requires Run(ss, acts) && k < |acts| && ss[k].lock.Free() && ss[k].lock.r.barred
    ensures ss[k + 1].lock.r.barred && !ss[k + 1].lock.r.locked
  {
    RunInv(ss, acts, k);
    BarredStays(ss[k], acts[k], ss[k + 1]);
  }

  lemma {:induction false} BarredWhileFree(ss: seq<System>, acts: seq<Action>, i: nat, k: nat)
    requires Run(ss, acts) && i < k < |ss| && ss[i + 1].lock.r.barred
    requires forall m :: i < m <= k ==> ss[m].lock.Free()
    ensures ss[k].lock.r.barred
    decreases k
  {
    if k > i + 1 {
      BarredWhileFree(ss, acts, i, k - 1);
      BarredNextState(ss, acts, k - 1);
    }
  }

  ghost function SwapStates(ss: seq<System>): seq<System> {
    seq(|ss|, i requires 0 <= i < |ss| => ss[i].Swap())
  }

  ghost function SwapActions(acts: seq<Action>): seq<Action> {
    seq(|acts|, i requires 0 <= i < |acts| => acts[i].Swap())
  }

  lemma StepSwap(s: System, a: Action)
    ensures Enabled(s.Swap(), a.Swap()) <==> Enabled(s, a)
    ensures Apply(s.Swap(), a.Swap()) == if Apply(s, a).None? then None else Some(Apply(s, a).value.Swap())
  {
    assert s.Swap().Swap() == s;
    assert AsReader(s.Swap(), a.Swap().k) == AsReader(s, a.k);
    assert ApplyAsReader(AsReader(s, a.k), a.Swap()) == ApplyAsReader(AsReader(s, a.k), a);
  }

  lemma SwapRun(ss: seq<System>, acts: seq<Action>)
    requires Steps(ss, acts)
    ensures Steps(SwapStates(ss), SwapActions(acts))
    ensures Run(ss, acts) ==> Run(SwapStates(ss), SwapActions(acts))
  {
    forall i | 0 <= i < |acts|
      ensures Step(SwapStates(ss)[i], SwapActions(acts)[i], SwapStates(ss)[i + 1])
    {
      StepSwap(ss[i], acts[i]);
    }
  }

  /** Hand-over, writers to readers. */
  lemma HandOverToReaders(ss: seq<System>, acts: seq<Action>, i: nat, j: nat)
    requires Run(ss, acts) && i + 1 < j < |ss| && NextSession(ss, i, j)
    requires ss[i].lock.w.locked && ss[i].lock.r.asleep + ss[i].lock.r.woken != {}
    ensures ss[j].lock.r.locked
  {
    SwapRun(ss, acts);
    HandOverToWriters(SwapStates(ss), SwapActions(acts), i, j);
  }

  // ---------------------------------------------------------------- limits of 0

  /** A run of a lock with any limits. */
  ghost predicate RunWith(ss: seq<System>, acts: seq<Action>, maxReaders: nat, maxWriters: nat) {
    Steps(ss, acts) && ss[0] == System(Initial(maxReaders, maxWriters), multiset{}, multiset{})
  }

  /** What holds with a reader limit of 0: there are only writers to count. */
  ghost predicate NoReaders(s: System) {
    && s.lock.r.max == 0 && !s.lock.r.locked && s.inR == multiset{}
    && s.lock.n == |s.inW| && (s.lock.w.locked <==> s.inW != multiset{})
    && s.lock.w.asleep !! s.lock.w.woken
  }

  lemma NoReadersReader(s: System, a: Action)
    requires NoReaders(s) && EnabledAsReader(s, a)
    ensures ApplyAsReader(s, a).Some? ==> NoReaders(ApplyAsReader(s, a).value)
  {
  }

  lemma NoReadersWriter(s: System, a: Action)
    requires NoReaders(s) && EnabledAsReader(s.Swap(), a)
    ensures ApplyAsReader(s.Swap(), a).Some? ==> NoReaders(ApplyAsReader(s.Swap(), a).value.Swap())
  {
    if a.CallUnlock? {
      assert |s.inW - multiset{a.t}| == |s.inW| - 1;
    } else {
      assert a.t in s.inW + multiset{a.t};
    }
  }

  lemma NoReadersStep(s: System, a: Action, s': System)
    requires NoReaders(s) && Step(s, a, s')
    ensures NoReaders(s')
  {
    if a.k == Reader {
      NoReadersReader(s, a);
    } else {
      NoReadersWriter(s, a);
    }
  }

  /** With a reader limit of 0 no reader is ever inside. */
  lemma {:induction false} ZeroLimitBarsReaders(ss: seq<System>, acts: seq<Action>, maxWriters: nat, k: nat)
    requires RunWith(ss, acts, 0, maxWriters) && k < |ss|
    ensures NoReaders(ss[k])
    decreases k
  {
    if k > 0 {
      ZeroLimitBarsReaders(ss, acts, maxWriters, k - 1);
      NoReadersStep(ss[k - 1], acts[k - 1], ss[k]);
    }
  }

  /** ... and with a writer limit of 0 no writer. */
  lemma ZeroLimitBarsWriters(ss: seq<System>, acts: seq<Action>, maxReaders: nat, k: nat)
    requires RunWith(ss, acts, maxReaders, 0) && k < |ss|
    ensures ss[k].inW == multiset{} && NoReaders(ss[k].Swap())
  {
    SwapRun(ss, acts);
    ZeroLimitBarsReaders(SwapStates(ss), SwapActions(acts), maxReaders, k);
  }

  /** A free lock that admits nobody: the readers' limit is 0 and the writers are barred. */
  ghost predicate Dead(s: System) {
    NoReaders(s) && s.lock.Free() && s.lock.w.barred && s.inW == multiset{}
  }

  lemma DeadReader(s: System, a: Action)
    requires Dead(s) && EnabledAsReader(s, a)
    ensures ApplyAsReader(s, a).Some? ==> Dead(ApplyAsReader(s, a).value)
  {
  }

  lemma DeadWriter(s: System, a: Action)
    requires Dead(s) && EnabledAsReader(s.Swap(), a)
    ensures ApplyAsReader(s.Swap(), a).Some? ==> Dead(ApplyAsReader(s.Swap(), a).value.Swap())
  {
  }

  /** Such a lock never admits anybody again. */
  lemma {:induction false} DeadForEver(ss: seq<System>, acts: seq<Action>, k: nat)
    requires Steps(ss, acts) && Dead(ss[0]) && k < |ss|
    ensures Dead(ss[k])
    decreases k
  {
    if k > 0 {
      DeadForEver(ss, acts, k - 1);
      assert Step(ss[k - 1], acts[k - 1], ss[k]);
      if acts[k - 1].k == Reader {
        DeadReader(ss[k - 1], acts[k - 1]);
      } else {
        DeadWriter(ss[k - 1], acts[k - 1]);
      }
    }
  }

  /** A reader limit of 0 shuts out the writers too: once a reader has waited for a writer, that
      writer's unlock bars the writers in favour of a reader that is never admitted. */
  lemma ZeroLimitStrandsWriters(maxWriters: nat, t1: Tid, t2: Tid) returns (ss: seq<System>, acts: seq<Action>)
    requires maxWriters >= 1 && t1 != t2
    ensures RunWith(ss, acts, 0, maxWriters) && Dead(ss[|acts|])
    ensures var l := ss[|acts|].lock; l.w.asleep == {t1} && l.r.asleep == {t2} && l.r.woken == l.w.woken == {}
  {
    var r, w := Side(false, 0, false, 0, {}, {}), Side(false, 0, false, maxWriters, {}, {});
    var s0 := System(Initial(0, maxWriters), multiset{}, multiset{});
    var s1 := System(Lock(1, r, w.(locked := true)), multiset{}, multiset{t1});
    var s2 := System(Lock(1, r.(waiting := 1, asleep := {t2}), w.(locked := true)), multiset{}, multiset{t1});
    var s3 := System(Lock(0, r.(waiting := 1, woken := {t2}), w.(barred := true)), multiset{}, multiset{});
    var s4 := System(Lock(0, r.(waiting := 1, asleep := {t2}), w.(barred := true)), multiset{}, multiset{});
    var s5 := System(Lock(0, r.(waiting := 1, asleep := {t2}), w.(barred := true, waiting := 1, asleep := {t1})), multiset{}, multiset{});
    assert multiset{} + multiset{t1} == multiset{t1} && multiset{t1} - multiset{t1} == multiset{};
    assert {} + {t1} == {t1} && {} + {t2} == {t2};
    assert Step(s0, Call(Writer, t1), s1);
    assert Step(s1, Call(Reader, t2), s2);
    assert Step(s2, CallUnlock(Writer, t1, None), s3);
    assert Step(s3, Resume(Reader, t2), s4);
    assert Step(s4, Call(Writer, t1), s5);
    ss := [s0, s1, s2, s3, s4, s5];
    acts := [Call(Writer, t1), Call(Reader, t2), CallUnlock(Writer, t1, None), Resume(Reader, t2), Call(Writer, t1)];
  }

  /** ... and a writer limit of 0 shuts out the readers. */
  lemma ZeroLimitStrandsReaders(maxReaders: nat, t1: Tid, t2: Tid) returns (ss: seq<System>, acts: seq<Action>)
    requires maxReaders >= 1 && t1 != t2
    ensures RunWith(ss, acts, maxReaders, 0) && Dead(ss[|acts|].Swap())
    ensures var l := ss[|acts|].lock; l.r.asleep == {t1} && l.w.asleep == {t2} && l.r.woken == l.w.woken == {}
  {
    ss, acts := ZeroLimitStrandsWriters(maxReaders, t1, t2);
    SwapRun(ss, acts);
    ss, acts := SwapStates(ss), SwapActions(acts);
  }

  /** Exactly when no wake-up is lost in any run: when both limits are at least 1. */
  ghost predicate AlwaysWakeful(maxReaders: nat, maxWriters: nat) {
    forall ss, acts {:trigger RunWith(ss, acts, maxReaders, maxWriters)} ::
      RunWith(ss, acts, maxReaders, maxWriters) ==> Wakeful(ss[|acts|])
  }

  lemma WakefulExactly(maxReaders: nat, maxWriters: nat)
    ensures AlwaysWakeful(maxReaders, maxWriters) <==> maxReaders >= 1 && maxWriters >= 1
  {
    if maxReaders >= 1 && maxWriters >= 1 {
      forall ss, acts | RunWith(ss, acts, maxReaders, maxWriters) ensures Wakeful(ss[|acts|]) {
        NoLostWakeup(ss, acts, |acts|);
      }
    } else {
      AsleepAtOnce(maxReaders, maxWriters);
    }
  }

  /** The first thread of a kind with limit 0 sleeps on a free lock. */
  lemma AsleepAtOnce(maxReaders: nat, maxWriters: nat)
    requires maxReaders == 0 || maxWriters == 0
    ensures !AlwaysWakeful(maxReaders, maxWriters)
  {
    var a := Call(if maxReaders == 0 then Reader else Writer, 1);
    var s0 := System(Initial(maxReaders, maxWriters), multiset{}, multiset{});
    var s1 := Apply(s0, a).value;
    assert Step(s0, a, s1);
    assert RunWith([s0, s1], [a], maxReaders, maxWriters);
    assert s1.lock.Blocked(1) && s1.lock.r.woken == s1.lock.w.woken == {};
    assert !Wakeful([s0, s1][1]);
  }

  // ---------------------------------------------------------------- the object

  /** rwlock_t, each critical section of its calls one method. */
  class Monitor {
    var dontAllowReaders: bool
    var dontAllowWriters: bool
    var nLocks: int
    var nReaderWaiting: int
    var nWriterWaiting: int
    var isLockedByReader: bool
    var isLockedByWriter: bool
    var nMaxReaders: nat
    var nMaxWriters: nat
    var asleepR: set<Tid>
    var wokenR: set<Tid>
    var asleepW: set<Tid>
    var wokenW: set<Tid>

    ghost function View(): Lock
      reads this
    {
      Lock(nLocks,
           Side(dontAllowReaders, nReaderWaiting, isLockedByReader, nMaxReaders, asleepR, wokenR),
           Side(dontAllowWriters, nWriterWaiting, isLockedByWriter, nMaxWriters, asleepW, wokenW))
    }

    ghost predicate Valid()
      reads this
    {
      Consistent(View())
    }

    constructor (maxReaders: nat, maxWriters: nat)
      ensures View() == Initial(maxReaders, maxWriters)
      ensures maxReaders >= 1 && maxWriters >= 1 ==> Valid()
    {
      dontAllowReaders, dontAllowWriters := false, false;
      nLocks, nReaderWaiting, nWriterWaiting := 0, 0, 0;
      isLockedByReader, isLockedByWriter := false, false;
      nMaxReaders, nMaxWriters := maxReaders, maxWriters;
      asleepR, wokenR, asleepW, wokenW := {}, {}, {}, {};
    }

    /** rw_lock_rd_lock up to its return or its first wait. */
    method RdLock(t: Tid) returns (granted: bool)
      requires Valid() && !View().Blocked(t)
      modifies this
      ensures Valid() && Some(View()) == old(RdEnter(View(), t))
      ensures granted <==> t !in asleepR
    {
      ConsistentEnter(View(), t);
      if !isLockedByReader && !isLockedByWriter && nMaxReaders >= 1 && !dontAllowReaders {
        assert nLocks == 0;
        nLocks := nLocks + 1;
        isLockedByReader := true;
        return true;
      }
      granted := AwaitRead(t);
    }

    /** rw_lock_rd_lock from a wake-up to its return or its next wait. */
    method RdLockResume(t: Tid) returns (granted: bool)
      requires Valid() && t in wokenR
      modifies this
      ensures Valid() && Some(View()) == old(RdResume(View(), t))
      ensures granted <==> t !in asleepR
    {
      ConsistentResume(View(), t);
      nReaderWaiting := nReaderWaiting - 1;
      wokenR := wokenR - {t};
      granted := AwaitRead(t);
    }

    method AwaitRead(t: Tid) returns (granted: bool)
      requires t !in asleepR
      modifies this
      ensures Some(View()) == old(RdLoop(View(), t))
      ensures granted <==> t !in asleepR
    {
      if isLockedByWriter || nLocks == nMaxReaders || dontAllowReaders {
        nReaderWaiting := nReaderWaiting + 1;
        asleepR := asleepR + {t};
        return false;
      }
      if nLocks == 0 {
        isLockedByReader := true;
      }
      nLocks := nLocks + 1;
      assert !isLockedByWriter;
      return true;
    }

    /** rw_lock_wr_lock up to its return or its first wait. */
    method WrLock(t: Tid) returns (granted: bool)
      requires Valid() && !View().Blocked(t)
      modifies this
      ensures Valid() && Some(View()) == old(WrEnter(View(), t))
      ensures granted <==> t !in asleepW
    {
      ConsistentEnter(View().Swap(), t);
      if !isLockedByReader && !isLockedByWriter && nMaxWriters >= 1 && !dontAllowWriters {
        assert nLocks == 0;
        nLocks := nLocks + 1;
        isLockedByWriter := true;
        return true;
      }
      granted := AwaitWrite(t);
    }

    /** rw_lock_wr_lock from a wake-up to its return or its next wait. */
    method WrLockResume(t: Tid) returns (granted: bool)
      requires Valid() && t in wokenW
      modifies this
      ensures Valid() && Some(View()) == old(WrResume(View(), t))
      ensures granted <==> t !in asleepW
    {
      ConsistentResume(View().Swap(), t);
      nWriterWaiting := nWriterWaiting - 1;
      wokenW := wokenW - {t};
      granted := AwaitWrite(t);
    }

    method AwaitWrite(t: Tid) returns (granted: bool)
      requires t !in asleepW
      modifies this
      ensures Some(View()) == old(Swapped(RdLoop(View().Swap(), t)))
      ensures granted <==> t !in asleepW
    {
      if isLockedByReader || nLocks == nMaxWriters || dontAllowWriters {
        nWriterWaiting := nWriterWaiting + 1;
        asleepW := asleepW + {t};
        return false;
      }
      if nLocks == 0 {
        isLockedByWriter := true;
      }
      nLocks := nLocks + 1;
      assert !isLockedByReader;
      return true;
    }

    /** rw_lock_unlock on a held lock; w is the sleeper a replacement signal picks. */
    method Release() returns (w: Option<Tid>)
      requires Valid() && nLocks != 0
      modifies this
      ensures SignalPicks(old(if isLockedByWriter then asleepW else asleepR), w)
      ensures Valid() && Some(View()) == old(Unlock(View(), w))
    {
      w := Pick(if isLockedByWriter then asleepW else asleepR);
      if isLockedByWriter {
        ConsistentLeave(View().Swap(), w);
        LeaveWrite(w);
      } else {
        ConsistentLeave(View(), w);
        LeaveRead(w);
      }
    }

    static method Pick(asleep: set<Tid>) returns (w: Option<Tid>)
      ensures SignalPicks(asleep, w)
    {
      if asleep == {} {
        return None;
      }
      var x :| x in asleep;
      return Some(x);
    }

    method LeaveWrite(w: Option<Tid>)
      requires nLocks != 0 && isLockedByWriter && !isLockedByReader
      modifies this
      ensures Some(View()) == old(Unlock(View(), w))
    {
      nLocks := nLocks - 1;
      if nLocks != 0 {
        if nWriterWaiting != 0 {
          asleepW, wokenW := asleepW - Picked(w), wokenW + Picked(w);
        }
        return;
      }
      if nReaderWaiting != 0 {
        WakeReaders();
        dontAllowWriters := true;
        dontAllowReaders := false;
      } else if nWriterWaiting != 0 {
        WakeWriters();
        dontAllowReaders := false;
      } else {
        dontAllowReaders := false;
      }
      isLockedByWriter := false;
    }

    method LeaveRead(w: Option<Tid>)
      requires nLocks != 0 && isLockedByReader && !isLockedByWriter
      modifies this
      ensures Some(View()) == old(Unlock(View(), w))
    {
      nLocks := nLocks - 1;
      if nLocks != 0 {
        if nReaderWaiting != 0 {
          asleepR, wokenR := asleepR - Picked(w), wokenR + Picked(w);
        }
        return;
      }
      if nWriterWaiting != 0 {
        WakeWriters();
        dontAllowWriters := false;
        dontAllowReaders := true;
      } else if nReaderWaiting != 0 {
        WakeReaders();
        dontAllowWriters := false;
      } else {
        dontAllowWriters := false;
      }
      isLockedByReader := false;
    }

    method WakeReaders()
      modifies this`asleepR, this`wokenR
      ensures asleepR == old(asleepR) - old(asleepR) && wokenR == old(wokenR) + old(asleepR)
    {
      asleepR, wokenR := {}, wokenR + asleepR;
    }

    method WakeWriters()
      modifies this`asleepW, this`wokenW
      ensures asleepW == old(asleepW) - old(asleepW) && wokenW == old(wokenW) + old(asleepW)
    {
      asleepW, wokenW := {}, wokenW + asleepW;
    }
  }
}
