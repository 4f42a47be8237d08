/** The recursive reader/writer lock of rw_locks/rw_locks.c.

    Critical sections, waits and failing assertions are treated as in module RecMutex. */
module RecRwLock {
  import opened Base

  /** The fields of rwlock_t.  Readers and writers wait on one condition variable; the threads on
      it are kept apart by the call they wait in. */
  datatype Lock = Lock(
    n: int, rdWaiting: int, wrWaiting: int,
    byReader: bool, byWriter: bool, writer: nat,
    asleepR: set<Tid>, asleepW: set<Tid>, wokenR: set<Tid>, wokenW: set<Tid>)
  {
    ghost predicate Blocked(t: Tid) {
      t in asleepR || t in asleepW || t in wokenR || t in wokenW
    }
  }

  function RdEnter(l: Lock, t: Tid): Option<Lock> {
    if !l.byReader && !l.byWriter then
      if l.n != 0 || l.writer != NO_THREAD then None
      else Some(l.(n := l.n + 1, byReader := true))
    else if l.byReader then
      if l.byWriter || l.n == 0 || l.writer != NO_THREAD then None
      else Some(l.(n := l.n + 1))
    else
      RdLoop(l, t)
  }

  function RdLoop(l: Lock, t: Tid): Option<Lock> {
    if l.byWriter then
      if l.n == 0 || l.byReader || l.writer == NO_THREAD then None
      else Some(l.(rdWaiting := l.rdWaiting + 1, asleepR := l.asleepR + {t}))
    else if l.writer != NO_THREAD then
      None
    else
      Some(l.(byReader := l.byReader || l.n == 0, n := l.n + 1))
  }

  function RdResume(l: Lock, t: Tid): Option<Lock> {
    RdLoop(l.(rdWaiting := l.rdWaiting - 1, wokenR := l.wokenR - {t}), t)
  }

  function WrEnter(l: Lock, t: Tid): Option<Lock> {
    if !l.byReader && !l.byWriter then
      if l.n != 0 || l.writer != NO_THREAD then None
      else Some(l.(n := l.n + 1, byWriter := true, writer := t))
    else if l.byWriter && l.writer == t then
      if l.byReader || l.n == 0 then None
      else Some(l.(n := l.n + 1))
    else
      WrLoop(l, t)
  }

  function WrLoop(l: Lock, t: Tid): Option<Lock> {
    if l.byReader || l.byWriter then
      if (l.byReader && l.byWriter) || l.n == 0 || (l.byReader <==> l.writer != NO_THREAD) then None
      else Some(l.(wrWaiting := l.wrWaiting + 1, asleepW := l.asleepW + {t}))
    else if l.n != 0 || l.writer != NO_THREAD then
      None
    else
      Some(l.(byWriter := true, n := l.n + 1, writer := t))
  }

  function WrResume(l: Lock, t: Tid): Option<Lock> {
    WrLoop(l.(wrWaiting := l.wrWaiting - 1, wokenW := l.wokenW - {t}), t)
  }

  function Broadcast(l: Lock): Lock {
    l.(asleepR := {}, asleepW := {}, wokenR := l.wokenR + l.asleepR, wokenW := l.wokenW + l.asleepW)
  }

  /** The unlock call made by t: the lock itself decides which kind of hold goes. */
  function Unlock(l: Lock, t: Tid): Option<Lock> {
    if l.n == 0 then
      None
    else if l.byWriter then
      if t != l.writer || l.byReader then None
      else if l.n != 1 then Some(l.(n := l.n - 1))
      else Some(LastOut(l).(byWriter := false, writer := NO_THREAD))
    else if l.byReader then
      if l.writer != NO_THREAD then None
      else if l.n != 1 then Some(l.(n := l.n - 1))
      else Some(LastOut(l).(byReader := false))
    else
      None
  }

  function LastOut(l: Lock): Lock {
    if l.rdWaiting != 0 || l.wrWaiting != 0 then Broadcast(l).(n := 0) else l.(n := 0)
  }

  // ---------------------------------------------------------------- the system of threads

  /** The lock with, for every thread, its read and write lock calls that have returned and have
      not been unlocked.  This is the abstract lock: it never looks at the fields. */
  datatype System = System(lock: Lock, rHolds: multiset<Tid>, wHolds: multiset<Tid>)

  datatype Action =
    | CallRead(t: Tid) | ResumeRead(t: Tid)
    | CallWrite(t: Tid) | ResumeWrite(t: Tid)
    | CallUnlock(t: Tid) | Spurious(t: Tid)

  /** Threads unlock only what they hold. */
  ghost predicate Enabled(s: System, a: Action) {
    match a
    case CallRead(t) => !s.lock.Blocked(t)
    case ResumeRead(t) => t in s.lock.wokenR
    case CallWrite(t) => !s.lock.Blocked(t)
    case ResumeWrite(t) => t in s.lock.wokenW
    case CallUnlock(t) => !s.lock.Blocked(t) && (t in s.rHolds || t in s.wHolds)
    case Spurious(t) => t in s.lock.asleepR || t in s.lock.asleepW
  }

  function ReadReturned(l: Option<Lock>, s: System, t: Tid): Option<System> {
    if l.None? then None
    else Some(s.(lock := l.value, rHolds := if t in l.value.asleepR then s.rHolds else s.rHolds + multiset{t}))
  }

  function WriteReturned(l: Option<Lock>, s: System, t: Tid): Option<System> {
    if l.None? then None
    else Some(s.(lock := l.value, wHolds := if t in l.value.asleepW then s.wHolds else s.wHolds + multiset{t}))
  }

  /** An unlock gives back a write hold of the caller if it has one, and a read hold otherwise. */
  function Unlocked(l: Option<Lock>, s: System, t: Tid): Option<System> {
    if l.None? then None
    else if t in s.wHolds then Some(s.(lock := l.value, wHolds := s.wHolds - multiset{t}))
    else Some(s.(lock := l.value, rHolds := s.rHolds - multiset{t}))
  }

  function Wake(l: Lock, t: Tid): Lock {
    if t in l.asleepR then l.(asleepR := l.asleepR - {t}, wokenR := l.wokenR + {t})
    else l.(asleepW := l.asleepW - {t}, wokenW := l.wokenW + {t})
  }

  function Apply(s: System, a: Action): Option<System> {
    match a
    case CallRead(t) => ReadReturned(RdEnter(s.lock, t), s, t)
    case ResumeRead(t) => ReadReturned(RdResume(s.lock, t), s, t)
    case CallWrite(t) => WriteReturned(WrEnter(s.lock, t), s, t)
    case ResumeWrite(t) => WriteReturned(WrResume(s.lock, t), s, t)
    case CallUnlock(t) => Unlocked(Unlock(s.lock, t), s, t)
    case Spurious(t) => Some(s.(lock := Wake(s.lock, t)))
  }

  /** rw_lock_init leaves n_locks unset; it is taken to be 0. */
  ghost predicate Init(s: System) {
    s == System(Lock(0, 0, 0, false, false, NO_THREAD, {}, {}, {}, {}), multiset{}, multiset{})
  }

  ghost predicate Modes(l: Lock) {
    && 0 <= l.n
    && !(l.byReader && l.byWriter)
    && (l.n == 0 <==> !l.byReader && !l.byWriter)
    && (l.byWriter <==> l.writer != NO_THREAD)
  }

  ghost predicate Waiters(l: Lock) {
    && l.asleepR !! l.wokenR && l.asleepW !! l.wokenW && (l.asleepR + l.wokenR) !! (l.asleepW + l.wokenW)
    && l.rdWaiting == |l.asleepR| + |l.wokenR|
    && l.wrWaiting == |l.asleepW| + |l.wokenW|
    && (l.asleepR != {} ==> l.byWriter)
    && (l.n == 0 ==> l.asleepW == {})
  }

  ghost predicate Consistent(l: Lock) {
    Modes(l) && Waiters(l)
  }

  ghost predicate Holds(s: System) {
    && s.lock.n == |s.rHolds| + |s.wHolds|
    && (s.lock.byReader <==> s.rHolds != multiset{})
    && (s.lock.byWriter <==> s.wHolds != multiset{})
    && (forall t :: t in s.wHolds ==> t == s.lock.writer)
  }

  ghost predicate Inv(s: System) {
    Consistent(s.lock) && Holds(s)
  }

  lemma ConsistentRead(l: Lock, t: Tid)
    requires Consistent(l) && !l.Blocked(t)
    ensures RdEnter(l, t).Some? && Consistent(RdEnter(l, t).value)
  {
    AddSize(l.asleepR, t);
  }

  lemma ConsistentReadResume(l: Lock, t: Tid)
    requires Consistent(l) && t in l.wokenR
    ensures RdResume(l, t).Some? && Consistent(RdResume(l, t).value)
  {
    RemoveSize(l.wokenR, t);
    AddSize(l.asleepR, t);
  }

  lemma ConsistentWrite(l: Lock, t: Tid)
    requires Consistent(l) && !l.Blocked(t)
    ensures WrEnter(l, t).Some? && Consistent(WrEnter(l, t).value)
  {
    AddSize(l.asleepW, t);
  }

  lemma ConsistentWriteResume(l: Lock, t: Tid)
    requires Consistent(l) && t in l.wokenW
    ensures WrResume(l, t).Some? && Consistent(WrResume(l, t).value)
  {
    RemoveSize(l.wokenW, t);
    AddSize(l.asleepW, t);
  }

  lemma ConsistentWake(l: Lock, t: Tid)
    requires Consistent(l) && (t in l.asleepR || t in l.asleepW)
    ensures Consistent(Wake(l, t))
  {
    if t in l.asleepR {
      WakeSize(l.asleepR, l.wokenR, t);
    } else {
      WakeSize(l.asleepW, l.wokenW, t);
    }
  }

  lemma WakeSize(asleep: set<Tid>, woken: set<Tid>, t: Tid)
    requires t in asleep && asleep !! woken
    ensures |asleep - {t}| + |woken + {t}| == |asleep| + |woken| && asleep - {t} !! woken + {t}
  {
    RemoveSize(asleep, t);
    AddSize(woken, t);
  }

  lemma BroadcastWaiters(l: Lock)
    requires Waiters(l)
    ensures Waiters(Broadcast(l)) && Waiters(LastOut(l))
    ensures LastOut(l).asleepR == {} == LastOut(l).asleepW
  {
    UnionSize(l.wokenR, l.asleepR);
    UnionSize(l.wokenW, l.asleepW);
  }

  lemma ConsistentUnlock(l: Lock, t: Tid)
    requires Consistent(l) && l.n != 0 && (l.byWriter ==> t == l.writer)
    ensures Unlock(l, t).Some? && Consistent(Unlock(l, t).value)
  {
    BroadcastWaiters(l);
  }

  lemma InvUnlock(s: System, t: Tid)
    requires Inv(s) && Enabled(s, CallUnlock(t))
    ensures Apply(s, CallUnlock(t)).Some? && Inv(Apply(s, CallUnlock(t)).value)
  {
    assert t in s.wHolds ==> t == s.lock.writer;
    ConsistentUnlock(s.lock, t);
    assert t in s.rHolds ==> |s.rHolds - multiset{t}| == |s.rHolds| - 1;
    assert t in s.wHolds ==> |s.wHolds - multiset{t}| == |s.wHolds| - 1;
  }

  lemma InvRead(s: System, a: Action)
    requires Inv(s) && Enabled(s, a) && (a.CallRead? || a.ResumeRead?)
    ensures Apply(s, a).Some? && Inv(Apply(s, a).value)
  {
    match a
    case CallRead(t) => ConsistentRead(s.lock, t);
    case ResumeRead(t) => ConsistentReadResume(s.lock, t);
  }

  lemma InvWrite(s: System, a: Action)
    requires Inv(s) && Enabled(s, a) && (a.CallWrite? || a.ResumeWrite?)
    ensures Apply(s, a).Some? && Inv(Apply(s, a).value)
  {
    match a
    case CallWrite(t) => ConsistentWrite(s.lock, t);
    case ResumeWrite(t) => ConsistentWriteResume(s.lock, t);
  }

  lemma InvStep(s: System, a: Action)
    requires Inv(s) && Enabled(s, a)
    ensures Apply(s, a).Some? && Inv(Apply(s, a).value)
  {
    match a
    case CallRead(t) => InvRead(s, a);
    case ResumeRead(t) => InvRead(s, a);
    case CallWrite(t) => InvWrite(s, a);
    case ResumeWrite(t) => InvWrite(s, a);
    case CallUnlock(t) => InvUnlock(s, t);
    case Spurious(t) => ConsistentWake(s.lock, t);
  }

  ghost predicate Run(ss: seq<System>, acts: seq<Action>) {
    && |ss| == |acts| + 1
    && Init(ss[0])
    && forall i {:trigger acts[i]} :: 0 <= i < |acts| ==> Enabled(ss[i], acts[i]) && Apply(ss[i], acts[i]) == Some(ss[i + 1])
  }

  lemma {:induction false} RunInv(ss: seq<System>, acts: seq<Action>, k: nat)
    requires Run(ss, acts) && k < |ss|
    ensures Inv(ss[k])
    decreases k
  {
    if k > 0 {
      RunInv(ss, acts, k - 1);
      InvStep(ss[k - 1], acts[k - 1]);
    }
  }

  // ---------------------------------------------------------------- what the lock promises

  /** No assertion in the lock and unlock calls fails. */
  lemma AssertionsHold(ss: seq<System>, acts: seq<Action>, k: nat, a: Action)
    requires Run(ss, acts) && k < |ss| && Enabled(ss[k], a)
    ensures Apply(ss[k], a).Some?
  {
    RunInv(ss, acts, k);
    InvStep(ss[k], a);
  }

  /** Readers and writers exclude each other, all write holds are one thread's, and n_locks is the
      number of holds. */
  lemma Exclusion(ss: seq<System>, acts: seq<Action>, k: nat)
    requires Run(ss, acts) && k < |ss|
    ensures ss[k].rHolds == multiset{} || ss[k].wHolds == multiset{}
    ensures forall t, u :: t in ss[k].wHolds && u in ss[k].wHolds ==> t == u == ss[k].lock.writer
    ensures ss[k].lock.n == |ss[k].rHolds| + |ss[k].wHolds|
  {
    RunInv(ss, acts, k);
  }

  /** A thread may read unless somebody holds a write lock, itself included. */
  ghost predicate MayRead(s: System) {
    s.wHolds == multiset{}
  }

  /** A thread may write unless somebody reads, itself included, or another thread writes. */
  ghost predicate MayWrite(s: System, t: Tid) {
    s.rHolds == multiset{} && forall u :: u in s.wHolds ==> u == t
  }

  /** Refinement of the abstract lock: a call returns exactly when the abstract lock admits it,
      and blocks otherwise; an unlock always returns and no other step changes a hold. */
  lemma Refines(ss: seq<System>, acts: seq<Action>, k: nat)
    requires Run(ss, acts) && k < |acts|
    ensures var s, s' := ss[k], ss[k + 1];
            match acts[k]
            case CallRead(t) =>
              && s'.wHolds == s.wHolds && s'.rHolds == (if MayRead(s) then s.rHolds + multiset{t} else s.rHolds)
              && (s'.lock.Blocked(t) <==> !MayRead(s))
            case ResumeRead(t) =>
              && s'.wHolds == s.wHolds && s'.rHolds == (if MayRead(s) then s.rHolds + multiset{t} else s.rHolds)
              && (s'.lock.Blocked(t) <==> !MayRead(s))
            case CallWrite(t) =>
              && s'.rHolds == s.rHolds && s'.wHolds == (if MayWrite(s, t) then s.wHolds + multiset{t} else s.wHolds)
              && (s'.lock.Blocked(t) <==> !MayWrite(s, t))
            case ResumeWrite(t) =>
              && s'.rHolds == s.rHolds
              && (s'.lock.Blocked(t) <==> s.rHolds + s.wHolds != multiset{})
              && s'.wHolds == (if s.rHolds + s.wHolds == multiset{} then s.wHolds + multiset{t} else s.wHolds)
            case CallUnlock(t) =>
              && s'.rHolds + s'.wHolds == s.rHolds + s.wHolds - multiset{t}
              && !s'.lock.Blocked(t)
            case Spurious(t) => s'.rHolds == s.rHolds && s'.wHolds == s.wHolds
  {
    RunInv(ss, acts, k);
    var s := ss[k];
    var a := acts[k];
    if s.lock.byWriter {
      var x :| x in s.wHolds;
    }
    match a
    case CallRead(t) =>
    case ResumeRead(t) =>
    case CallWrite(t) =>
    case ResumeWrite(t) =>
    case CallUnlock(t) => UnlockKeepsUnblocked(s.lock, t);
    case Spurious(t) =>
  }

  lemma UnlockKeepsUnblocked(l: Lock, t: Tid)
    requires Unlock(l, t).Some? && !l.Blocked(t)
    ensures !Unlock(l, t).value.Blocked(t)
  {
  }

  /** No wake-up is lost: no reader sleeps unless a writer holds the lock, nobody sleeps while the
      lock is free, the counters count everybody waiting, and in a free lock whichever waiting
      thread runs next gets in. */
  lemma NoLostWakeup(ss: seq<System>, acts: seq<Action>, k: nat)
    requires Run(ss, acts) && k < |ss|
    ensures var s, l := ss[k], ss[k].lock;
            && (l.asleepR != {} ==> s.wHolds != multiset{})
            && (s.rHolds + s.wHolds == multiset{} ==>
                  && l.asleepR + l.asleepW == {}
                  && (forall t :: t in l.wokenR ==> Apply(s, ResumeRead(t)).Some? && t in Apply(s, ResumeRead(t)).value.rHolds)
                  && (forall t :: t in l.wokenW ==> Apply(s, ResumeWrite(t)).Some? && t in Apply(s, ResumeWrite(t)).value.wHolds))
            && l.rdWaiting == |l.asleepR| + |l.wokenR|
            && l.wrWaiting == |l.asleepW| + |l.wokenW|
  {
    RunInv(ss, acts, k);
  }

  /** The unlock that gives back the last hold wakes every sleeper; any other unlock wakes nobody. */
  lemma UnlockWakesExactly(ss: seq<System>, acts: seq<Action>, k: nat)
    requires Run(ss, acts) && k < |acts| && acts[k].CallUnlock?
    ensures var s, l, l' := ss[k], ss[k].lock, ss[k + 1].lock;
            if |s.rHolds| + |s.wHolds| == 1
            then l'.asleepR == {} == l'.asleepW && l'.wokenR == l.wokenR + l.asleepR && l'.wokenW == l.wokenW + l.asleepW
            else l'.asleepR == l.asleepR && l'.asleepW == l.asleepW && l'.wokenR == l.wokenR && l'.wokenW == l.wokenW
  {
    RunInv(ss, acts, k);
    assert Apply(ss[k], acts[k]) == Some(ss[k + 1]);
    UnlockWakes(ss[k].lock, acts[k].t, ss[k + 1].lock);
  }

  lemma UnlockWakes(l: Lock, t: Tid, l': Lock)
    requires Consistent(l) && Unlock(l, t) == Some(l')
    ensures if l.n == 1
            then l'.asleepR == {} == l'.asleepW && l'.wokenR == l.wokenR + l.asleepR && l'.wokenW == l.wokenW + l.asleepW
            else l'.asleepR == l.asleepR && l'.asleepW == l.asleepW && l'.wokenR == l.wokenR && l'.wokenW == l.wokenW
  {
    if l.rdWaiting == 0 { assert l.asleepR == {}; }
    if l.wrWaiting == 0 { assert l.asleepW == {}; }
  }

  /** The admitted misuse: an unlock by a thread that holds nothing is caught exactly when no
      reader holds the lock. */
  lemma StrangerUnlockCaughtExactly(ss: seq<System>, acts: seq<Action>, k: nat, t: Tid)
    requires Run(ss, acts) && k < |ss|
    requires t !in ss[k].rHolds && t !in ss[k].wHolds
    ensures Unlock(ss[k].lock, t) == None <==> ss[k].rHolds == multiset{}
  {
    RunInv(ss, acts, k);
    if ss[k].lock.byWriter {
      var x :| x in ss[k].wHolds;
    }
  }

  // ---------------------------------------------------------------- the object

  /** rwlock_t, each critical section of its calls one method. */
  class ReaderWriterLock {
    var nLocks: int
    var nReaderWaiting: int
    var nWriterWaiting: int
    var isLockedByReader: bool
    var isLockedByWriter: bool
    var writerThread: nat
    var asleepR: set<Tid>
    var asleepW: set<Tid>
    var wokenR: set<Tid>
    var wokenW: set<Tid>

    ghost function View(): Lock
      reads this
    {
      Lock(nLocks, nReaderWaiting, nWriterWaiting, isLockedByReader, isLockedByWriter, writerThread,
           asleepR, asleepW, wokenR, wokenW)
    }

    ghost predicate Valid()
      reads this
    {
      Consistent(View())
    }

    constructor ()
      ensures Valid() && Init(System(View(), multiset{}, multiset{}))
    {
      nLocks, nReaderWaiting, nWriterWaiting := 0, 0, 0;
      isLockedByReader, isLockedByWriter, writerThread := false, false, NO_THREAD;
      asleepR, asleepW, wokenR, wokenW := {}, {}, {}, {};
    }

    /** rw_lock_rd_lock up to its return or its first wait. */
    method RdLock(t: Tid) returns (granted: bool)
      requires Valid() && !View().Blocked(t)
      modifies this
      ensures Valid() && Some(View()) == old(RdEnter(View(), t))
      ensures granted <==> t !in asleepR
    {
      ConsistentRead(View(), t);
      if !isLockedByReader && !isLockedByWriter {
        assert nLocks == 0 && writerThread == 0;
        nLocks := nLocks + 1;
        isLockedByReader := true;
        return true;
      }
      if isLockedByReader {
        assert !isLockedByWriter && nLocks != 0 && writerThread == 0;
        nLocks := nLocks + 1;
        return true;
      }
      granted := AwaitRead(t);
    }

    /** rw_lock_rd_lock from a wake-up to its return or its next wait. */
    method RdLockResume(t: Tid) returns (granted: bool)
      requires Valid() && t in wokenR
      modifies this
      ensures Valid() && Some(View()) == old(RdResume(View(), t))
      ensures granted <==> t !in asleepR
    {
      ConsistentReadResume(View(), t);
      nReaderWaiting := nReaderWaiting - 1;
      wokenR := wokenR - {t};
      granted := AwaitRead(t);
    }

    method AwaitRead(t: Tid) returns (granted: bool)
      requires RdLoop(View(), t).Some? && t !in asleepR
      modifies this
      ensures Some(View()) == old(RdLoop(View(), t))
      ensures granted <==> t !in asleepR
    {
      if isLockedByWriter {
        assert nLocks != 0 && !isLockedByReader && writerThread != 0;
        nReaderWaiting := nReaderWaiting + 1;
        asleepR := asleepR + {t};
        return false;
      }
      if nLocks == 0 {
        isLockedByReader := true;
      }
      nLocks := nLocks + 1;
      assert !isLockedByWriter && writerThread == 0;
      return true;
    }

    /** rw_lock_wr_lock up to its return or its first wait. */
    method WrLock(t: Tid) returns (granted: bool)
      requires Valid() && !View().Blocked(t)
      modifies this
      ensures Valid() && Some(View()) == old(WrEnter(View(), t))
      ensures granted <==> t !in asleepW
    {
      ConsistentWrite(View(), t);
      if !isLockedByReader && !isLockedByWriter {
        assert nLocks == 0 && writerThread == 0;
        nLocks := nLocks + 1;
        isLockedByWriter := true;
        writerThread := t;
        return true;
      }
      if isLockedByWriter && writerThread == t {
        assert !isLockedByReader && nLocks != 0;
        nLocks := nLocks + 1;
        return true;
      }
      granted := AwaitWrite(t);
    }

    /** rw_lock_wr_lock from a wake-up to its return or its next wait. */
    method WrLockResume(t: Tid) returns (granted: bool)
      requires Valid() && t in wokenW
      modifies this
      ensures Valid() && Some(View()) == old(WrResume(View(), t))
      ensures granted <==> t !in asleepW
    {
      ConsistentWriteResume(View(), t);
      nWriterWaiting := nWriterWaiting - 1;
      wokenW := wokenW - {t};
      granted := AwaitWrite(t);
    }

    method AwaitWrite(t: Tid) returns (granted: bool)
      requires WrLoop(View(), t).Some? && t !in asleepW
      modifies this
      ensures Some(View()) == old(WrLoop(View(), t))
      ensures granted <==> t !in asleepW
    {
      if isLockedByReader || isLockedByWriter {
        if isLockedByReader {
          assert !isLockedByWriter && nLocks != 0 && writerThread == 0;
        } else if isLockedByWriter {
          assert !isLockedByReader && nLocks != 0 && writerThread != 0;
        }
        nWriterWaiting := nWriterWaiting + 1;
        asleepW := asleepW + {t};
        return false;
      }
      assert !isLockedByReader && !isLockedByWriter && nLocks == 0 && writerThread == 0;
      isLockedByWriter := true;
      nLocks := nLocks + 1;
      writerThread := t;
      return true;
    }

    /** rw_lock_unlock; only the writer may call it while a writer holds the lock. */
    method Release(t: Tid)
      requires Valid() && nLocks != 0 && (isLockedByWriter ==> t == writerThread)
      modifies this
      ensures Valid() && Some(View()) == old(Unlock(View(), t))
    {
      ConsistentUnlock(View(), t);
      Drop(t);
    }

    method Drop(t: Tid)
      requires Unlock(View(), t).Some?
      modifies this
      ensures Some(View()) == old(Unlock(View(), t))
    {
      assert nLocks != 0;
      if isLockedByWriter {
        assert t == writerThread && !isLockedByReader;
        nLocks := nLocks - 1;
        if nLocks != 0 {
          return;
        }
        if nReaderWaiting != 0 || nWriterWaiting != 0 {
          WakeAll();
        }
        isLockedByWriter := false;
        writerThread := 0;
        return;
      } else if isLockedByReader {
        assert !isLockedByWriter && writerThread == 0;
        nLocks := nLocks - 1;
        if nLocks != 0 {
          return;
        }
        if nReaderWaiting != 0 || nWriterWaiting != 0 {
          WakeAll();
        }
        isLockedByReader := false;
        return;
      }
      assert false;
    }

    method WakeAll()
      modifies this
      ensures View() == old(Broadcast(View()))
    {
      wokenR, wokenW := wokenR + asleepR, wokenW + asleepW;
      asleepR, asleepW := {}, {};
    }
  }
}
