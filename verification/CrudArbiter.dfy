/** The read and write requests of ThreadSafeCruds/CrudMgr.cpp over any number of nodes.

    A request runs under the node's mutex up to its wait or its return; a release first looks at
    the node's operation without the mutex and acts on it in a later step.  A step that fails an
    assertion has no result.  Create and delete requests are not part of this model. */
module CrudArbiter {
  import opened Base
  import opened CrudManager

  datatype Reply = Rejected | Blocked(m: Manager) | Granted(m: Manager) | Aborted

  function GrantIf(r: Option<Manager>): Reply {
    if r.None? then Aborted else Granted(r.value)
  }

  function BlockIf(r: Option<Manager>): Reply {
    if r.None? then Aborted else Blocked(r.value)
  }

  /** A create or delete operation is pending or in progress on the node. */
  predicate Reserved(m: Manager, x: Nid) {
    Set(m, x, PendingDelete) || Set(m, x, PendingCreate) || Set(m, x, DeleteInProgress) || Set(m, x, CreateInProgress)
  }

  /** The loop of crud_request_read from its top to a wait or a return. */
  function ReadLoop(m: Manager, x: Nid): Reply
    requires Shaped(m) && x in m.nodes
  {
    if Set(m, x, PendingDelete) then Rejected
    else if Set(m, x, PendingCreate) || Set(m, x, DeleteInProgress) || Set(m, x, CreateInProgress) then Aborted
    else if Set(m, x, WriteInProgress) then BlockIf(Enter(m, x, PendingRead))
    else if Set(m, x, NoOp) then if InUse(m, x) then Aborted else GrantIf(Enter(m, x, ReadInProgress))
    else if Set(m, x, ReadInProgress) then GrantIf(Enter(m, x, ReadInProgress))
    else if Set(m, x, PendingRead) then GrantIf(Enter(m, x, ReadInProgress))
    else if Set(m, x, PendingWrite) then BlockIf(Enter(m, x, PendingRead))
    else Aborted
  }

  /** The loop of crud_request_write from its top to a wait or a return. */
  function WriteLoop(m: Manager, x: Nid): Reply
    requires Shaped(m) && x in m.nodes
  {
    if Set(m, x, PendingDelete) then Rejected
    else if Set(m, x, PendingCreate) || Set(m, x, DeleteInProgress) || Set(m, x, CreateInProgress) then Aborted
    else if Set(m, x, WriteInProgress) then BlockIf(Enter(m, x, PendingWrite))
    else if Set(m, x, NoOp) then if InUse(m, x) then Aborted else GrantIf(Enter(m, x, WriteInProgress))
    else if Set(m, x, ReadInProgress) then BlockIf(Enter(m, x, PendingWrite))
    else if Set(m, x, PendingRead) then GrantIf(Enter(m, x, WriteInProgress))
    else if Set(m, x, PendingWrite) then GrantIf(Enter(m, x, WriteInProgress))
    else Aborted
  }

  function RequestRead(m: Manager, x: Nid): Reply
    requires Shaped(m) && x in m.nodes
  {
    if Reserved(m, x) then Rejected else ReadLoop(m, x)
  }

  function RequestWrite(m: Manager, x: Nid): Reply
    requires Shaped(m) && x in m.nodes
  {
    if Reserved(m, x) then Rejected else WriteLoop(m, x)
  }

  function ResumeRead(m: Manager, x: Nid): Reply
    requires Shaped(m) && x in m.nodes
  {
    var r := Exit(m, x, PendingRead);
    if r.None? then Aborted else ReadLoop(r.value, x)
  }

  function ResumeWrite(m: Manager, x: Nid): Reply
    requires Shaped(m) && x in m.nodes
  {
    var r := Exit(m, x, PendingWrite);
    if r.None? then Aborted else WriteLoop(r.value, x)
  }

  datatype Wakes = Nobody | AllReaders | OneWriter | OneDeleter

  /** Whom the end of an operation wakes: readers before writers before deleters. */
  function Next(m: Manager, x: Nid): Wakes {
    if Set(m, x, PendingRead) then AllReaders
    else if Set(m, x, PendingWrite) then OneWriter
    else if Set(m, x, PendingDelete) then OneDeleter
    else Nobody
  }

  /** The read and write arms of crud_request_release; the other operations do not occur here. */
  function Release(m: Manager, x: Nid, op: Op): Option<(Manager, Wakes)>
    requires Shaped(m) && x in m.nodes
  {
    match op
    case OpRead =>
      var r := Exit(m, x, ReadInProgress);
      if r.None? then None
      else Some((r.value, if Set(r.value, x, ReadInProgress) then Nobody else Next(r.value, x)))
    case OpWrite =>
      var r := Exit(m, x, WriteInProgress);
      if r.None? then None else Some((r.value, Next(r.value, x)))
    case _ => None
  }

  // ---------------------------------------------------------------- the system of threads

  /** The threads on one node: granted readers and writers, the asleep and woken waiters of each
      kind, and the operation seen by each thread that has begun its release. */
  datatype Clients = Clients(
    rd: set<Tid>, wr: set<Tid>,
    asleepR: set<Tid>, wokenR: set<Tid>, asleepW: set<Tid>, wokenW: set<Tid>,
    op: map<Tid, Op>)
  {
    function Readers(): set<Tid> { asleepR + wokenR }
    function Writers(): set<Tid> { asleepW + wokenW }
  }

  datatype System = System(m: Manager, c: map<Nid, Clients>, threads: set<Tid>)

  datatype Action =
    | ReadCall(x: Nid, t: Tid) | ReadWake(x: Nid, t: Tid)
    | WriteCall(x: Nid, t: Tid) | WriteWake(x: Nid, t: Tid)
    | ReleaseLook(x: Nid, t: Tid) | ReleaseAct(x: Nid, t: Tid, w: Option<Tid>)
    | Spurious(x: Nid, t: Tid)

  /** A thread that has nothing to do with the node. */
  ghost predicate Stranger(c: Clients, t: Tid, threads: set<Tid>) {
    && t in threads && t !in c.rd && t !in c.wr
    && t !in c.asleepR && t !in c.wokenR && t !in c.asleepW && t !in c.wokenW
  }

  /** A thread asks only for a node it has nothing to do with, and releases what it was granted. */
  ghost predicate Ready(c: Clients, a: Action, threads: set<Tid>) {
    match a
    case ReadCall(_, t) => Stranger(c, t, threads)
    case WriteCall(_, t) => Stranger(c, t, threads)
    case ReadWake(_, t) => t in c.wokenR
    case WriteWake(_, t) => t in c.wokenW
    case ReleaseLook(_, t) => (t in c.rd || t in c.wr) && t !in c.op
    case ReleaseAct(_, t, w) => (t in c.rd || t in c.wr) && t in c.op && SignalPicks(c.asleepW, w)
    case Spurious(_, t) => t in c.asleepR || t in c.asleepW
  }

  ghost predicate Enabled(s: System, a: Action) {
    a.x in s.c && a.x in s.m.nodes && Ready(s.c[a.x], a, s.threads)
  }

  function ReadReply(r: Reply, c: Clients, t: Tid): Option<(Manager, Clients)> {
    match r
    case Granted(m) => Some((m, c.(rd := c.rd + {t}, wokenR := c.wokenR - {t})))
    case Blocked(m) => Some((m, c.(asleepR := c.asleepR + {t}, wokenR := c.wokenR - {t})))
    case _ => None
  }

  function WriteReply(r: Reply, c: Clients, t: Tid): Option<(Manager, Clients)> {
    match r
    case Granted(m) => Some((m, c.(wr := c.wr + {t}, wokenW := c.wokenW - {t})))
    case Blocked(m) => Some((m, c.(asleepW := c.asleepW + {t}, wokenW := c.wokenW - {t})))
    case _ => None
  }

  function Wake(c: Clients, k: Wakes, w: Option<Tid>): Clients {
    match k
    case AllReaders => c.(asleepR := {}, wokenR := c.wokenR + c.asleepR)
    case OneWriter => c.(asleepW := c.asleepW - Picked(w), wokenW := c.wokenW + Picked(w))
    case _ => c
  }

  /** One step on node x with its clients c. */
  function OnNode(m: Manager, c: Clients, a: Action): Option<(Manager, Clients)>
    requires Shaped(m) && a.x in m.nodes
  {
    match a
    case ReadCall(x, t) => ReadReply(RequestRead(m, x), c, t)
    case ReadWake(x, t) => ReadReply(ResumeRead(m, x), c, t)
    case WriteCall(x, t) => WriteReply(RequestWrite(m, x), c, t)
    case WriteWake(x, t) => WriteReply(ResumeWrite(m, x), c, t)
    case ReleaseLook(x, t) => Some((m, c.(op := c.op[t := m.nodes[x].currOp])))
    case ReleaseAct(x, t, w) =>
      if t !in c.op then None else
      var r := Release(m, x, c.op[t]);
      if r.None? then None
      else Some((r.value.0, Wake(c.(rd := c.rd - {t}, wr := c.wr - {t}, op := c.op - {t}), r.value.1, w)))
    case Spurious(x, t) =>
      Some((m, if t in c.asleepR then c.(asleepR := c.asleepR - {t}, wokenR := c.wokenR + {t})
               else c.(asleepW := c.asleepW - {t}, wokenW := c.wokenW + {t})))
  }

  function Apply(s: System, a: Action): Option<System>
    requires Shaped(s.m) && a.x in s.m.nodes && a.x in s.c
  {
    var r := OnNode(s.m, s.c[a.x], a);
    if r.None? then None else Some(s.(m := r.value.0, c := s.c[a.x := r.value.1]))
  }

  const NO_CLIENTS: Clients := Clients({}, {}, {}, {}, {}, {}, map[])

  /** Any manager of idle nodes, and at most as many threads as an 8-bit counter can count. */
  ghost predicate Init(s: System) {
    && Agree(s.m) && s.c.Keys == s.m.nodes.Keys && |s.threads| <= 255
    && (forall x :: x in s.c ==> s.c[x] == NO_CLIENTS)
    && (forall x, st :: x in s.m.nodes && st != NoOp ==> Counter(s.m, x, st) == 0)
    && (forall x :: x in s.m.nodes ==> s.m.nodes[x].currOp == OpNone)
  }

  // ---------------------------------------------------------------- the invariant

  /** The counter a node must show for a state, given its clients. */
  ghost function Due(c: Clients, st: NodeState): nat {
    match st
    case ReadInProgress => |c.rd|
    case WriteInProgress => |c.wr|
    case PendingRead => |c.asleepR| + |c.wokenR|
    case PendingWrite => |c.asleepW| + |c.wokenW|
    case _ => 0
  }

  ghost function DueOp(c: Clients): Op {
    if c.rd != {} then OpRead else if c.wr != {} then OpWrite else OpNone
  }

  /** A thread is in one set at most; the operation it saw before its release is the right one. */
  ghost predicate ThreadOk(c: Clients, t: Tid, threads: set<Tid>) {
    && (t in c.rd ==> t in threads && t !in c.wr && t !in c.asleepR && t !in c.wokenR && t !in c.asleepW && t !in c.wokenW)
    && (t in c.wr ==> t in threads && t !in c.asleepR && t !in c.wokenR && t !in c.asleepW && t !in c.wokenW)
    && (t in c.asleepR ==> t in threads && t !in c.wokenR && t !in c.asleepW && t !in c.wokenW)
    && (t in c.wokenR ==> t in threads && t !in c.asleepW && t !in c.wokenW)
    && (t in c.asleepW ==> t in threads && t !in c.wokenW)
    && (t in c.wokenW ==> t in threads)
    && (t in c.op ==> if t in c.rd then c.op[t] == OpRead else t in c.wr && c.op[t] == OpWrite)
  }

  ghost predicate ClientsOk(c: Clients, threads: set<Tid>) {
    && (forall t {:trigger ThreadOk(c, t, threads)} :: ThreadOk(c, t, threads))
    && |c.wr| <= 1 && (c.wr != {} ==> c.rd == {})
  }

  ghost predicate CountsDue(n: Node, c: Clients) {
    && |n.counter| == 9
    && forall st: NodeState {:trigger Due(c, st)} :: st != NoOp ==> n.counter[st.Index()] == Due(c, st)
  }

  ghost predicate NodeOk(n: Node, c: Clients, threads: set<Tid>) {
    CountsDue(n, c) && n.currOp == DueOp(c) && ClientsOk(c, threads)
  }

  ghost predicate Inv(s: System) {
    && Agree(s.m) && s.c.Keys == s.m.nodes.Keys && |s.threads| <= 255
    && forall x {:trigger NodeOk(s.m.nodes[x], s.c[x], s.threads)} :: x in s.c ==> NodeOk(s.m.nodes[x], s.c[x], s.threads)
  }

  // ---------------------------------------------------------------- when requests are admitted

  /** A reader is let in when no writer is in, and a reader is in or waiting or no writer waits. */
  predicate AdmitsRead(c: Clients) {
    c.wr == {} && (c.rd != {} || c.Readers() != {} || c.Writers() == {})
  }

  /** A writer is let in when nobody is in. */
  predicate AdmitsWrite(c: Clients) {
    c.wr == {} && c.rd == {}
  }

  lemma SumZero(a: set<Tid>, b: set<Tid>)
    ensures |a| + |b| == 0 <==> a + b == {}
  {
    if a + b == {} {
      assert a == {} && b == {};
    }
  }

  /** The status bits tell which sets of clients are not empty. */
  lemma StatusIs(m: Manager, x: Nid, c: Clients)
    requires Agree(m) && x in m.nodes && CountsDue(m.nodes[x], c)
    ensures Set(m, x, ReadInProgress) <==> c.rd != {}
    ensures Set(m, x, WriteInProgress) <==> c.wr != {}
    ensures Set(m, x, PendingRead) <==> c.Readers() != {}
    ensures Set(m, x, PendingWrite) <==> c.Writers() != {}
    ensures Set(m, x, NoOp) <==> !InUse(m, x)
    ensures !Reserved(m, x)
  {
    assert NoOpAgrees(m, x);
    forall st | st != NoOp ensures Set(m, x, st) <==> Due(c, st) > 0 {
      SetIs(m, x, st);
      assert Counter(m, x, st) == Due(c, st);
    }
    SumZero(c.asleepR, c.wokenR);
    SumZero(c.asleepW, c.wokenW);
  }

  // ---------------------------------------------------------------- what a request does

  /** The answer to a request for state st: admitted or not, and the counter of the state entered
      is one higher. */
  ghost predicate Joined(m: Manager, m': Manager, x: Nid, st: NodeState, op: Op)
    requires Shaped(m) && x in m.nodes
  {
    Agree(m') && x in m'.nodes && OnlyNode(m, m', x) && Counts(m, m', x, st, 1) && m'.nodes[x].currOp == op
  }

  ghost predicate ReadAnswer(m: Manager, x: Nid, c: Clients, r: Reply)
    requires Shaped(m) && x in m.nodes
  {
    match r
    case Granted(m') => AdmitsRead(c) && Joined(m, m', x, ReadInProgress, OpRead)
    case Blocked(m') => !AdmitsRead(c) && Joined(m, m', x, PendingRead, m.nodes[x].currOp)
    case _ => false
  }

  ghost predicate WriteAnswer(m: Manager, x: Nid, c: Clients, r: Reply)
    requires Shaped(m) && x in m.nodes
  {
    match r
    case Granted(m') => AdmitsWrite(c) && Joined(m, m', x, WriteInProgress, OpWrite)
    case Blocked(m') => !AdmitsWrite(c) && Joined(m, m', x, PendingWrite, m.nodes[x].currOp)
    case _ => false
  }

  /** The branch of the loop a node's clients lead to. */
  lemma ReadBranch(m: Manager, x: Nid, c: Clients)
    requires Agree(m) && x in m.nodes && CountsDue(m.nodes[x], c)
    ensures ReadLoop(m, x) == if AdmitsRead(c) then GrantIf(Enter(m, x, ReadInProgress)) else BlockIf(Enter(m, x, PendingRead))
  {
    StatusIs(m, x, c);
  }

  lemma WriteBranch(m: Manager, x: Nid, c: Clients)
    requires Agree(m) && x in m.nodes && CountsDue(m.nodes[x], c)
    ensures WriteLoop(m, x) == if AdmitsWrite(c) then GrantIf(Enter(m, x, WriteInProgress)) else BlockIf(Enter(m, x, PendingWrite))
  {
    StatusIs(m, x, c);
  }

  /** An entry of one more client, stated for its result. */
  lemma Entered(m: Manager, x: Nid, st: NodeState, r: Option<Manager>)
    requires Agree(m) && x in m.nodes && st != NoOp && r == Enter(m, x, st)
    requires if st.Exclusive() then Counter(m, x, st) == 0 else Counter(m, x, st) < 255
    ensures r.Some? && Joined(m, r.value, x, st, if Counter(m, x, st) > 0 then m.nodes[x].currOp else OpOnEnter(st, m.nodes[x].currOp))
  {
    SetIs(m, x, st);
    EnterEffect(m, x, st);
  }

  lemma ReadLoopIs(m: Manager, x: Nid, c: Clients, threads: set<Tid>)
    requires Agree(m) && x in m.nodes && NodeOk(m.nodes[x], c, threads)
    requires |c.rd| < 255 && |c.asleepR| + |c.wokenR| < 255
    ensures ReadAnswer(m, x, c, ReadLoop(m, x))
  {
    ReadBranch(m, x, c);
    var st := if AdmitsRead(c) then ReadInProgress else PendingRead;
    assert Counter(m, x, st) == Due(c, st);
    Entered(m, x, st, Enter(m, x, st));
  }

  lemma WriteLoopIs(m: Manager, x: Nid, c: Clients, threads: set<Tid>)
    requires Agree(m) && x in m.nodes && NodeOk(m.nodes[x], c, threads)
    requires |c.asleepW| + |c.wokenW| < 255
    ensures WriteAnswer(m, x, c, WriteLoop(m, x))
  {
    WriteBranch(m, x, c);
    var st := if AdmitsWrite(c) then WriteInProgress else PendingWrite;
    assert Counter(m, x, st) == Due(c, st);
    Entered(m, x, st, Enter(m, x, st));
  }

  // ---------------------------------------------------------------- requests beside deletion and creation

  /** The node has one client more (or, with delta -1, one fewer) in a state, and nothing else changes. */
  ghost predicate Moved(m: Manager, m': Manager, x: Nid, st: NodeState, delta: int)
    requires Shaped(m) && x in m.nodes
  {
    Agree(m') && x in m'.nodes && OnlyNode(m, m', x) && Counts(m, m', x, st, delta)
  }

  /** Whatever states a node is in, a read request is rejected exactly beside a pending or running
      deletion or creation.  Otherwise it is granted exactly if no write runs, and a read runs or waits
      or no write waits; and it waits if not.  It never fails an assertion. */
  lemma ReadRequestExactly(m: Manager, x: Nid)
    requires Agree(m) && x in m.nodes && Counter(m, x, ReadInProgress) < 255 && Counter(m, x, PendingRead) < 255
    ensures var r := RequestRead(m, x);
            var closed := Set(m, x, PendingDelete) || Set(m, x, DeleteInProgress) || Set(m, x, PendingCreate) || Set(m, x, CreateInProgress);
            var open := !Set(m, x, WriteInProgress) && (Set(m, x, ReadInProgress) || Set(m, x, PendingRead) || !Set(m, x, PendingWrite));
            && (r.Rejected? <==> closed)
            && (r.Granted? <==> !closed && open) && (r.Granted? ==> Moved(m, r.m, x, ReadInProgress, 1))
            && (r.Blocked? <==> !closed && !open) && (r.Blocked? ==> Moved(m, r.m, x, PendingRead, 1))
  {
    assert NoOpAgrees(m, x);
    SetIs(m, x, ReadInProgress);
    SetIs(m, x, PendingRead);
    EnterEffect(m, x, ReadInProgress);
    EnterEffect(m, x, PendingRead);
  }

  /** The same for a write request, which is granted exactly if no read and no write runs. */
  lemma WriteRequestExactly(m: Manager, x: Nid)
    requires Agree(m) && x in m.nodes && Counter(m, x, PendingWrite) < 255
    ensures var r := RequestWrite(m, x);
            var closed := Set(m, x, PendingDelete) || Set(m, x, DeleteInProgress) || Set(m, x, PendingCreate) || Set(m, x, CreateInProgress);
            var open := !Set(m, x, WriteInProgress) && !Set(m, x, ReadInProgress);
            && (r.Rejected? <==> closed)
            && (r.Granted? <==> !closed && open) && (r.Granted? ==> Moved(m, r.m, x, WriteInProgress, 1))
            && (r.Blocked? <==> !closed && !open) && (r.Blocked? ==> Moved(m, r.m, x, PendingWrite, 1))
  {
    assert NoOpAgrees(m, x);
    SetIs(m, x, WriteInProgress);
    SetIs(m, x, PendingWrite);
    if !Set(m, x, WriteInProgress) { EnterEffect(m, x, WriteInProgress); }
    EnterEffect(m, x, PendingWrite);
  }

  /** What the exit of a woken waiter from its pending state leaves. */
  lemma WaiterLeaves(m: Manager, x: Nid, st: NodeState)
    requires Agree(m) && x in m.nodes && Set(m, x, st) && (st == PendingRead || st == PendingWrite)
    ensures Exit(m, x, st).Some? && Moved(m, Exit(m, x, st).value, x, st, -1)
    ensures forall s :: s != NoOp && s != st ==> (Set(Exit(m, x, st).value, x, s) <==> Set(m, x, s))
    ensures Set(Exit(m, x, st).value, x, st) <==> Counter(m, x, st) > 1
  {
    ExitEffect(m, x, st);
    var m' := Exit(m, x, st).value;
    forall s | s != NoOp ensures Set(m', x, s) <==> Counter(m, x, s) + (if s == st then -1 else 0) > 0 {
      SetAfter(m, m', x, st, -1, s);
    }
    forall s ensures Set(m, x, s) <==> Counter(m, x, s) > 0 { SetIs(m, x, s); }
  }

  /** A woken reader leaves its pending state.  It then quits exactly if a deletion is pending, fails an
      assertion exactly if a creation is pending or a deletion or creation runs, and is granted or waits
      again as a new request would be. */
  lemma ReadResumeExactly(m: Manager, x: Nid)
    requires Agree(m) && x in m.nodes && Set(m, x, PendingRead) && Counter(m, x, ReadInProgress) < 255
    ensures Exit(m, x, PendingRead).Some? && Moved(m, Exit(m, x, PendingRead).value, x, PendingRead, -1)
    ensures var r := ResumeRead(m, x);
            var shut := Set(m, x, PendingCreate) || Set(m, x, DeleteInProgress) || Set(m, x, CreateInProgress);
            && (r.Rejected? <==> Set(m, x, PendingDelete))
            && (r.Aborted? <==> !Set(m, x, PendingDelete) && shut)
            && (!Set(m, x, PendingDelete) && !shut ==> r == RequestRead(Exit(m, x, PendingRead).value, x))
  {
    WaiterLeaves(m, x, PendingRead);
    var m' := Exit(m, x, PendingRead).value;
    SetIs(m, x, PendingRead);
    assert Counter(m', x, ReadInProgress) == Counter(m, x, ReadInProgress);
    assert Counter(m', x, PendingRead) < 255 by { SetIs(m, x, PendingRead); }
    ReadRequestExactly(m', x);
  }

  /** The same for a woken writer. */
  lemma WriteResumeExactly(m: Manager, x: Nid)
    requires Agree(m) && x in m.nodes && Set(m, x, PendingWrite)
    ensures Exit(m, x, PendingWrite).Some? && Moved(m, Exit(m, x, PendingWrite).value, x, PendingWrite, -1)
    ensures var r := ResumeWrite(m, x);
            var shut := Set(m, x, PendingCreate) || Set(m, x, DeleteInProgress) || Set(m, x, CreateInProgress);
            && (r.Rejected? <==> Set(m, x, PendingDelete))
            && (r.Aborted? <==> !Set(m, x, PendingDelete) && shut)
            && (!Set(m, x, PendingDelete) && !shut ==> r == RequestWrite(Exit(m, x, PendingWrite).value, x))
  {
    WaiterLeaves(m, x, PendingWrite);
    var m' := Exit(m, x, PendingWrite).value;
    SetIs(m, x, PendingWrite);
    WriteRequestExactly(m', x);
  }

  /** A release succeeds exactly if the operation is running.  The last reader and every writer wake all
      readers if some wait, else one writer, else one deleter; an earlier reader wakes nobody. */
  lemma ReleaseExactly(m: Manager, x: Nid, op: Op)
    requires Agree(m) && x in m.nodes && (op == OpRead || op == OpWrite)
    ensures var st := if op == OpRead then ReadInProgress else WriteInProgress;
            && (Release(m, x, op).Some? <==> Set(m, x, st))
            && (Set(m, x, st) ==>
                  var (m', k) := Release(m, x, op).value;
                  && Moved(m, m', x, st, -1)
                  && (k == AllReaders <==> Counter(m, x, st) == 1 && Set(m, x, PendingRead))
                  && (k == OneWriter <==> Counter(m, x, st) == 1 && !Set(m, x, PendingRead) && Set(m, x, PendingWrite))
                  && (k == OneDeleter <==> Counter(m, x, st) == 1 && !Set(m, x, PendingRead) && !Set(m, x, PendingWrite) && Set(m, x, PendingDelete)))
  {
    var st := if op == OpRead then ReadInProgress else WriteInProgress;
    ExitEffect(m, x, st);
    SetIs(m, x, st);
    if Set(m, x, st) {
      var m' := Exit(m, x, st).value;
      SetAfter(m, m', x, st, -1, st);
      SetAfter(m, m', x, st, -1, PendingRead);
      SetAfter(m, m', x, st, -1, PendingWrite);
      SetAfter(m, m', x, st, -1, PendingDelete);
    }
  }

  // ---------------------------------------------------------------- what each step keeps

  /** A step on node x succeeds, leaves the other nodes alone and keeps the bookkeeping. */
  ghost predicate Kept(m: Manager, x: Nid, r: Option<(Manager, Clients)>, threads: set<Tid>)
    requires Shaped(m)
  {
    && r.Some? && Agree(r.value.0) && OnlyNode(m, r.value.0, x)
    && NodeOk(r.value.0.nodes[x], r.value.1, threads)
  }

  /** One client more (or, with delta -1, one fewer) in the sets that state st counts. */
  ghost predicate DueMoves(c: Clients, c': Clients, st: NodeState, delta: int) {
    forall s: NodeState {:trigger Due(c', s)} :: Due(c', s) == Due(c, s) + if s == st then delta else 0
  }

  lemma Recount(m: Manager, m': Manager, x: Nid, c: Clients, c': Clients, st: NodeState, delta: int)
    requires Shaped(m) && Shaped(m') && x in m.nodes && x in m'.nodes && CountsDue(m.nodes[x], c)
    requires Counts(m, m', x, st, delta) && DueMoves(c, c', st, delta)
    ensures CountsDue(m'.nodes[x], c')
  {
    forall s: NodeState | s != NoOp ensures m'.nodes[x].counter[s.Index()] == Due(c', s) {
      assert Counter(m', x, s) == Counter(m, x, s) + if s == st then delta else 0;
      assert Counter(m, x, s) == Due(c, s);
    }
  }

  /** A thread outside a set of threads leaves room in an 8-bit counter for one more. */
  lemma Room(a: set<Tid>, b: set<Tid>, t: Tid, threads: set<Tid>)
    requires a !! b && a + b <= threads && t in threads && t !in a + b && |threads| <= 255
    ensures |a| + |b| < 255
  {
    UnionSize(a, b);
    AddSize(a + b, t);
    SubsetSize(a + b + {t}, threads);
  }

  lemma RoomForAll(c: Clients, t: Tid, threads: set<Tid>)
    requires ClientsOk(c, threads) && Stranger(c, t, threads) && |threads| <= 255
    ensures |c.rd| < 255 && |c.asleepR| + |c.wokenR| < 255 && |c.asleepW| + |c.wokenW| < 255
  {
    forall u ensures u in c.rd || u in c.asleepR || u in c.wokenR || u in c.asleepW || u in c.wokenW ==> u in threads
      ensures !(u in c.asleepR && u in c.wokenR) && !(u in c.asleepW && u in c.wokenW)
    {
      assert ThreadOk(c, u, threads);
    }
    Room(c.rd, {}, t, threads);
    Room(c.asleepR, c.wokenR, t, threads);
    Room(c.asleepW, c.wokenW, t, threads);
  }

  lemma ReaderIn(c: Clients, t: Tid, threads: set<Tid>)
    requires ClientsOk(c, threads) && Stranger(c, t, threads) && c.wr == {}
    ensures var c' := c.(rd := c.rd + {t}); ClientsOk(c', threads) && DueMoves(c, c', ReadInProgress, 1)
  {
    var c' := c.(rd := c.rd + {t});
    AddSize(c.rd, t);
    forall u ensures ThreadOk(c', u, threads) { assert ThreadOk(c, u, threads); }
  }

  lemma ReaderWaits(c: Clients, t: Tid, threads: set<Tid>)
    requires ClientsOk(c, threads) && Stranger(c, t, threads)
    ensures var c' := c.(asleepR := c.asleepR + {t}); ClientsOk(c', threads) && DueMoves(c, c', PendingRead, 1)
  {
    var c' := c.(asleepR := c.asleepR + {t});
    AddSize(c.asleepR, t);
    forall u ensures ThreadOk(c', u, threads) { assert ThreadOk(c, u, threads); }
  }

  lemma WriterIn(c: Clients, t: Tid, threads: set<Tid>)
    requires ClientsOk(c, threads) && Stranger(c, t, threads) && c.wr == {} && c.rd == {}
    ensures var c' := c.(wr := c.wr + {t}); ClientsOk(c', threads) && DueMoves(c, c', WriteInProgress, 1)
  {
    var c' := c.(wr := c.wr + {t});
    AddSize(c.wr, t);
    forall u ensures ThreadOk(c', u, threads) { assert ThreadOk(c, u, threads); }
  }

  lemma WriterWaits(c: Clients, t: Tid, threads: set<Tid>)
    requires ClientsOk(c, threads) && Stranger(c, t, threads)
    ensures var c' := c.(asleepW := c.asleepW + {t}); ClientsOk(c', threads) && DueMoves(c, c', PendingWrite, 1)
  {
    var c' := c.(asleepW := c.asleepW + {t});
    AddSize(c.asleepW, t);
    forall u ensures ThreadOk(c', u, threads) { assert ThreadOk(c, u, threads); }
  }

  /** A thread that is not among the clients is counted where the answer puts it. */
  lemma ReaderPlaced(m: Manager, x: Nid, c: Clients, t: Tid, r: Reply, threads: set<Tid>)
    requires Agree(m) && x in m.nodes && NodeOk(m.nodes[x], c, threads)
    requires Stranger(c, t, threads) && ReadAnswer(m, x, c, r)
    ensures Kept(m, x, ReadReply(r, c, t), threads)
  {
    assert c.wokenR - {t} == c.wokenR;
    match r
    case Granted(m') =>
      ReaderIn(c, t, threads);
      assert t in c.rd + {t};
      Recount(m, m', x, c, c.(rd := c.rd + {t}), ReadInProgress, 1);
    case Blocked(m') =>
      ReaderWaits(c, t, threads);
      Recount(m, m', x, c, c.(asleepR := c.asleepR + {t}), PendingRead, 1);
  }

  lemma WriterPlaced(m: Manager, x: Nid, c: Clients, t: Tid, r: Reply, threads: set<Tid>)
    requires Agree(m) && x in m.nodes && NodeOk(m.nodes[x], c, threads)
    requires Stranger(c, t, threads) && WriteAnswer(m, x, c, r)
    ensures Kept(m, x, WriteReply(r, c, t), threads)
  {
    assert c.wokenW - {t} == c.wokenW;
    match r
    case Granted(m') =>
      WriterIn(c, t, threads);
      assert t in c.wr + {t};
      Recount(m, m', x, c, c.(wr := c.wr + {t}), WriteInProgress, 1);
    case Blocked(m') =>
      WriterWaits(c, t, threads);
      Recount(m, m', x, c, c.(asleepW := c.asleepW + {t}), PendingWrite, 1);
  }

  lemma ReadArrives(m: Manager, x: Nid, c: Clients, t: Tid, threads: set<Tid>)
    requires Agree(m) && x in m.nodes && NodeOk(m.nodes[x], c, threads) && |threads| <= 255
    requires Stranger(c, t, threads)
    ensures ReadAnswer(m, x, c, ReadLoop(m, x))
    ensures Kept(m, x, ReadReply(ReadLoop(m, x), c, t), threads)
  {
    RoomForAll(c, t, threads);
    ReadLoopIs(m, x, c, threads);
    ReaderPlaced(m, x, c, t, ReadLoop(m, x), threads);
  }

  lemma WriteArrives(m: Manager, x: Nid, c: Clients, t: Tid, threads: set<Tid>)
    requires Agree(m) && x in m.nodes && NodeOk(m.nodes[x], c, threads) && |threads| <= 255
    requires Stranger(c, t, threads)
    ensures WriteAnswer(m, x, c, WriteLoop(m, x))
    ensures Kept(m, x, WriteReply(WriteLoop(m, x), c, t), threads)
  {
    RoomForAll(c, t, threads);
    WriteLoopIs(m, x, c, threads);
    WriterPlaced(m, x, c, t, WriteLoop(m, x), threads);
  }

  // A woken waiter first leaves the pending state ...

  lemma ReaderWakes(c: Clients, t: Tid, threads: set<Tid>)
    requires ClientsOk(c, threads) && t in c.wokenR
    ensures var c' := c.(wokenR := c.wokenR - {t});
            ClientsOk(c', threads) && DueMoves(c, c', PendingRead, -1) && Stranger(c', t, threads)
  {
    var c' := c.(wokenR := c.wokenR - {t});
    RemoveSize(c.wokenR, t);
    assert ThreadOk(c, t, threads);
    forall u ensures ThreadOk(c', u, threads) { assert ThreadOk(c, u, threads); }
  }

  lemma WriterWakes(c: Clients, t: Tid, threads: set<Tid>)
    requires ClientsOk(c, threads) && t in c.wokenW
    ensures var c' := c.(wokenW := c.wokenW - {t});
            ClientsOk(c', threads) && DueMoves(c, c', PendingWrite, -1) && Stranger(c', t, threads)
  {
    var c' := c.(wokenW := c.wokenW - {t});
    RemoveSize(c.wokenW, t);
    assert ThreadOk(c, t, threads);
    forall u ensures ThreadOk(c', u, threads) { assert ThreadOk(c, u, threads); }
  }

  /** An exit of one client, stated for its result. */
  ghost predicate Left(m: Manager, r: Option<Manager>, x: Nid, st: NodeState)
    requires Shaped(m) && x in m.nodes
  {
    && r.Some? && Agree(r.value) && OnlyNode(m, r.value, x) && Counts(m, r.value, x, st, -1)
    && r.value.nodes[x].currOp == (if Counter(m, x, st) > 1 then m.nodes[x].currOp
                                   else if InUse(r.value, x) then OpOnExit(st, m.nodes[x].currOp) else OpNone)
  }

  lemma Exited(m: Manager, x: Nid, st: NodeState, r: Option<Manager>)
    requires Agree(m) && x in m.nodes && r == Exit(m, x, st) && Counter(m, x, st) > 0
    ensures Left(m, r, x, st)
  {
    SetIs(m, x, st);
    ExitEffect(m, x, st);
  }

  lemma LeavePending(m: Manager, x: Nid, c: Clients, c': Clients, st: NodeState, r: Option<Manager>, threads: set<Tid>)
    requires Agree(m) && x in m.nodes && NodeOk(m.nodes[x], c, threads) && Left(m, r, x, st)
    requires st.PendingRead? || st.PendingWrite?
    requires DueMoves(c, c', st, -1) && c'.rd == c.rd && c'.wr == c.wr && ClientsOk(c', threads)
    ensures NodeOk(r.value.nodes[x], c', threads)
  {
    Recount(m, r.value, x, c, c', st, -1);
    StatusIs(r.value, x, c');
  }

  // ... and then is as a thread that has just arrived.

  lemma ReadResumes(m: Manager, x: Nid, c: Clients, t: Tid, threads: set<Tid>)
    requires Agree(m) && x in m.nodes && NodeOk(m.nodes[x], c, threads) && |threads| <= 255
    requires t in c.wokenR
    ensures Kept(m, x, ReadReply(ResumeRead(m, x), c, t), threads)
  {
    var c1 := c.(wokenR := c.wokenR - {t});
    ReaderWakes(c, t, threads);
    assert Counter(m, x, PendingRead) == Due(c, PendingRead) && |c.wokenR| > 0;
    Exited(m, x, PendingRead, Exit(m, x, PendingRead));
    LeavePending(m, x, c, c1, PendingRead, Exit(m, x, PendingRead), threads);
    ReadArrives(Exit(m, x, PendingRead).value, x, c1, t, threads);
    Through(m, Exit(m, x, PendingRead).value, x, ReadReply(ResumeRead(m, x), c1, t), threads);
    SameReply(ResumeRead(m, x), c, t);
  }

  /** Leaving the woken set is part of the reply, so it may have happened before. */
  lemma SameReply(r: Reply, c: Clients, t: Tid)
    ensures ReadReply(r, c.(wokenR := c.wokenR - {t}), t) == ReadReply(r, c, t)
    ensures WriteReply(r, c.(wokenW := c.wokenW - {t}), t) == WriteReply(r, c, t)
  {
    assert c.wokenR - {t} - {t} == c.wokenR - {t};
    assert c.wokenW - {t} - {t} == c.wokenW - {t};
  }

  lemma Through(m: Manager, m1: Manager, x: Nid, r: Option<(Manager, Clients)>, threads: set<Tid>)
    requires Shaped(m) && Shaped(m1) && OnlyNode(m, m1, x) && Kept(m1, x, r, threads)
    ensures Kept(m, x, r, threads)
  {
    OnlyNodeTwice(m, m1, r.value.0, x);
  }

  lemma WriteResumes(m: Manager, x: Nid, c: Clients, t: Tid, threads: set<Tid>)
    requires Agree(m) && x in m.nodes && NodeOk(m.nodes[x], c, threads) && |threads| <= 255
    requires t in c.wokenW
    ensures Kept(m, x, WriteReply(ResumeWrite(m, x), c, t), threads)
  {
    var c1 := c.(wokenW := c.wokenW - {t});
    WriterWakes(c, t, threads);
    assert Counter(m, x, PendingWrite) == Due(c, PendingWrite) && |c.wokenW| > 0;
    Exited(m, x, PendingWrite, Exit(m, x, PendingWrite));
    LeavePending(m, x, c, c1, PendingWrite, Exit(m, x, PendingWrite), threads);
    WriteArrives(Exit(m, x, PendingWrite).value, x, c1, t, threads);
    Through(m, Exit(m, x, PendingWrite).value, x, WriteReply(ResumeWrite(m, x), c1, t), threads);
    SameReply(ResumeWrite(m, x), c, t);
  }

  // ---------------------------------------------------------------- releases

  function Dropped(c: Clients, t: Tid): Clients {
    c.(rd := c.rd - {t}, wr := c.wr - {t}, op := c.op - {t})
  }

  lemma ReaderDrops(c: Clients, t: Tid, threads: set<Tid>)
    requires ClientsOk(c, threads) && t in c.rd
    ensures c.wr == {} && Dropped(c, t).wr == {}
    ensures ClientsOk(Dropped(c, t), threads) && DueMoves(c, Dropped(c, t), ReadInProgress, -1)
  {
    var c' := Dropped(c, t);
    RemoveSize(c.rd, t);
    assert c.wr - {t} == {};
    forall u ensures ThreadOk(c', u, threads) { assert ThreadOk(c, u, threads); }
  }

  lemma WriterDrops(c: Clients, t: Tid, threads: set<Tid>)
    requires ClientsOk(c, threads) && t in c.wr
    ensures c.rd == {} && Dropped(c, t).rd == Dropped(c, t).wr == {}
    ensures ClientsOk(Dropped(c, t), threads) && DueMoves(c, Dropped(c, t), WriteInProgress, -1)
  {
    var c' := Dropped(c, t);
    RemoveSize(c.wr, t);
    assert |c.wr - {t}| == 0;
    assert c.rd - {t} == {} && c.wr - {t} == {};
    forall u ensures ThreadOk(c', u, threads) { assert ThreadOk(c, u, threads); }
  }

  // Waking threads moves them between sets and changes no count.

  lemma BroadcastKeeps(c: Clients, threads: set<Tid>)
    requires ClientsOk(c, threads)
    ensures var c' := c.(asleepR := {}, wokenR := c.wokenR + c.asleepR);
            ClientsOk(c', threads) && DueMoves(c, c', PendingRead, 0)
  {
    var c' := c.(asleepR := {}, wokenR := c.wokenR + c.asleepR);
    forall u ensures ThreadOk(c', u, threads) { assert ThreadOk(c, u, threads); }
    forall u ensures !(u in c.wokenR && u in c.asleepR) { assert ThreadOk(c, u, threads); }
    UnionSize(c.wokenR, c.asleepR);
  }

  lemma ReaderStirs(c: Clients, t: Tid, threads: set<Tid>)
    requires ClientsOk(c, threads) && t in c.asleepR
    ensures var c' := c.(asleepR := c.asleepR - {t}, wokenR := c.wokenR + {t});
            ClientsOk(c', threads) && DueMoves(c, c', PendingRead, 0)
  {
    var c' := c.(asleepR := c.asleepR - {t}, wokenR := c.wokenR + {t});
    forall u ensures ThreadOk(c', u, threads) { assert ThreadOk(c, u, threads); }
    assert ThreadOk(c, t, threads);
    RemoveSize(c.asleepR, t);
    AddSize(c.wokenR, t);
  }

  lemma WriterStirs(c: Clients, t: Tid, threads: set<Tid>)
    requires ClientsOk(c, threads) && t in c.asleepW
    ensures var c' := c.(asleepW := c.asleepW - {t}, wokenW := c.wokenW + {t});
            ClientsOk(c', threads) && DueMoves(c, c', PendingWrite, 0)
  {
    var c' := c.(asleepW := c.asleepW - {t}, wokenW := c.wokenW + {t});
    forall u ensures ThreadOk(c', u, threads) { assert ThreadOk(c, u, threads); }
    assert ThreadOk(c, t, threads);
    RemoveSize(c.asleepW, t);
    AddSize(c.wokenW, t);
  }

  lemma SameCounts(n: Node, c: Clients, c': Clients, st: NodeState, threads: set<Tid>)
    requires NodeOk(n, c, threads) && ClientsOk(c', threads) && DueMoves(c, c', st, 0) && c'.rd == c.rd && c'.wr == c.wr
    ensures NodeOk(n, c', threads)
  {
    forall s: NodeState | s != NoOp ensures n.counter[s.Index()] == Due(c', s) { assert Due(c', s) == Due(c, s); }
  }

  lemma WakeKeeps(n: Node, c: Clients, k: Wakes, w: Option<Tid>, threads: set<Tid>)
    requires NodeOk(n, c, threads) && SignalPicks(c.asleepW, w)
    ensures NodeOk(n, Wake(c, k, w), threads)
  {
    match k
    case AllReaders =>
      BroadcastKeeps(c, threads);
      SameCounts(n, c, Wake(c, k, w), PendingRead, threads);
    case OneWriter =>
      if w.Some? {
        WriterStirs(c, w.value, threads);
        SameCounts(n, c, Wake(c, k, w), PendingWrite, threads);
      } else {
        assert c.asleepW - {} == c.asleepW && c.wokenW + {} == c.wokenW;
      }
    case _ =>
  }

  /** Whom a release wakes, told by the clients that remain. */
  function WakesFor(c: Clients): Wakes {
    if c.rd != {} then Nobody
    else if c.Readers() != {} then AllReaders
    else if c.Writers() != {} then OneWriter
    else Nobody
  }

  lemma NextIs(m: Manager, x: Nid, c: Clients)
    requires Agree(m) && x in m.nodes && CountsDue(m.nodes[x], c)
    ensures Set(m, x, ReadInProgress) <==> c.rd != {}
    ensures c.rd == {} ==> Next(m, x) == WakesFor(c)
  {
    StatusIs(m, x, c);
  }

  /** A release by a holder leaves the state it was granted and wakes as the remaining clients say. */
  lemma ReleaseIs(m: Manager, x: Nid, c: Clients, t: Tid, st: NodeState, threads: set<Tid>)
    requires Agree(m) && x in m.nodes && NodeOk(m.nodes[x], c, threads)
    requires (t in c.rd || t in c.wr) && t in c.op && st == if t in c.rd then ReadInProgress else WriteInProgress
    ensures Left(m, Exit(m, x, st), x, st) && NodeOk(Exit(m, x, st).value.nodes[x], Dropped(c, t), threads)
    ensures var m' := Exit(m, x, st).value;
            Release(m, x, c.op[t]) == Some((m', WakesFor(Dropped(c, t))))
  {
    ReleaseExits(m, x, c, t, st, threads);
    ReleaseArm(m, x, Dropped(c, t), st, c.op[t]);
  }

  lemma ReleaseExits(m: Manager, x: Nid, c: Clients, t: Tid, st: NodeState, threads: set<Tid>)
    requires Agree(m) && x in m.nodes && NodeOk(m.nodes[x], c, threads)
    requires (t in c.rd || t in c.wr) && t in c.op && st == if t in c.rd then ReadInProgress else WriteInProgress
    ensures Left(m, Exit(m, x, st), x, st) && NodeOk(Exit(m, x, st).value.nodes[x], Dropped(c, t), threads)
    ensures c.op[t] == (if st == ReadInProgress then OpRead else OpWrite)
    ensures st == WriteInProgress ==> Dropped(c, t).rd == {}
  {
    assert ThreadOk(c, t, threads);
    assert Counter(m, x, st) == Due(c, st) > 0;
    Exited(m, x, st, Exit(m, x, st));
    LeaveProgress(m, x, c, t, Exit(m, x, st), threads);
    NoReaderBeside(c, t, threads);
  }

  /** The arm of the switch that the operation selects, told by the clients that remain. */
  lemma ReleaseArm(m: Manager, x: Nid, d: Clients, st: NodeState, op: Op)
    requires Shaped(m) && x in m.nodes && st in {ReadInProgress, WriteInProgress}
    requires op == if st == ReadInProgress then OpRead else OpWrite
    requires var r := Exit(m, x, st); r.Some? && Agree(r.value) && CountsDue(r.value.nodes[x], d)
    requires st == WriteInProgress ==> d.rd == {}
    ensures Release(m, x, op) == Some((Exit(m, x, st).value, WakesFor(d)))
  {
    NextIs(Exit(m, x, st).value, x, d);
  }

  lemma NoReaderBeside(c: Clients, t: Tid, threads: set<Tid>)
    requires ClientsOk(c, threads) && (t in c.rd || t in c.wr)
    ensures t !in c.rd ==> Dropped(c, t).rd == {}
  {
    if t !in c.rd { WriterDrops(c, t, threads); }
  }

  lemma ReleaseOnNode(m: Manager, x: Nid, c: Clients, t: Tid, w: Option<Tid>, r: Option<(Manager, Wakes)>)
    requires Shaped(m) && x in m.nodes && t in c.op && r == Release(m, x, c.op[t]) && r.Some?
    ensures OnNode(m, c, ReleaseAct(x, t, w)) == Some((r.value.0, Wake(Dropped(c, t), r.value.1, w)))
  {
  }

  lemma WokenKept(m: Manager, m': Manager, x: Nid, c: Clients, k: Wakes, w: Option<Tid>, threads: set<Tid>)
    requires Shaped(m) && Agree(m') && OnlyNode(m, m', x) && NodeOk(m'.nodes[x], c, threads) && SignalPicks(c.asleepW, w)
    ensures Kept(m, x, Some((m', Wake(c, k, w))), threads)
  {
    WakeKeeps(m'.nodes[x], c, k, w, threads);
  }

  lemma ReleaseKeeps(m: Manager, x: Nid, c: Clients, t: Tid, w: Option<Tid>, threads: set<Tid>)
    requires Agree(m) && x in m.nodes && NodeOk(m.nodes[x], c, threads)
    requires (t in c.rd || t in c.wr) && t in c.op && SignalPicks(c.asleepW, w)
    ensures Kept(m, x, OnNode(m, c, ReleaseAct(x, t, w)), threads)
    ensures OnNode(m, c, ReleaseAct(x, t, w)).value.1 == Wake(Dropped(c, t), WakesFor(Dropped(c, t)), w)
  {
    var st := if t in c.rd then ReadInProgress else WriteInProgress;
    ReleaseIs(m, x, c, t, st, threads);
    ReleaseOnNode(m, x, c, t, w, Release(m, x, c.op[t]));
    WokenKept(m, Exit(m, x, st).value, x, Dropped(c, t), WakesFor(Dropped(c, t)), w, threads);
  }

  lemma LeaveProgress(m: Manager, x: Nid, c: Clients, t: Tid, r: Option<Manager>, threads: set<Tid>)
    requires Agree(m) && x in m.nodes && NodeOk(m.nodes[x], c, threads) && (t in c.rd || t in c.wr)
    requires Left(m, r, x, if t in c.rd then ReadInProgress else WriteInProgress)
    ensures NodeOk(r.value.nodes[x], Dropped(c, t), threads)
  {
    var st := if t in c.rd then ReadInProgress else WriteInProgress;
    if t in c.rd { ReaderDrops(c, t, threads); } else { WriterDrops(c, t, threads); }
    assert Counter(m, x, st) == Due(c, st) == Due(Dropped(c, t), st) + 1;
    Recount(m, r.value, x, c, Dropped(c, t), st, -1);
  }

  // ---------------------------------------------------------------- the two steps with no effect on the node

  lemma LookKeeps(m: Manager, x: Nid, c: Clients, t: Tid, threads: set<Tid>)
    requires Agree(m) && x in m.nodes && NodeOk(m.nodes[x], c, threads) && (t in c.rd || t in c.wr)
    ensures Kept(m, x, OnNode(m, c, ReleaseLook(x, t)), threads)
  {
    var c' := c.(op := c.op[t := m.nodes[x].currOp]);
    assert ThreadOk(c, t, threads);
    forall u ensures ThreadOk(c', u, threads) { assert ThreadOk(c, u, threads); }
    SameCounts(m.nodes[x], c, c', PendingRead, threads);
  }

  lemma SpuriousKeeps(m: Manager, x: Nid, c: Clients, t: Tid, threads: set<Tid>)
    requires Agree(m) && x in m.nodes && NodeOk(m.nodes[x], c, threads) && (t in c.asleepR || t in c.asleepW)
    ensures Kept(m, x, OnNode(m, c, Spurious(x, t)), threads)
  {
    var c' := OnNode(m, c, Spurious(x, t)).value.1;
    if t in c.asleepR {
      ReaderStirs(c, t, threads);
      SameCounts(m.nodes[x], c, c', PendingRead, threads);
    } else {
      WriterStirs(c, t, threads);
      SameCounts(m.nodes[x], c, c', PendingWrite, threads);
    }
  }

  // ---------------------------------------------------------------- whole runs

  /** No step fails an assertion, and every step keeps the bookkeeping of its node. */
  lemma NodeStep(s: System, a: Action)
    requires Inv(s) && Enabled(s, a)
    ensures Kept(s.m, a.x, OnNode(s.m, s.c[a.x], a), s.threads)
  {
    var c := s.c[a.x];
    assert NodeOk(s.m.nodes[a.x], s.c[a.x], s.threads);
    match a
    case ReadCall(x, t) =>
      StatusIs(s.m, x, c);
      ReadArrives(s.m, x, c, t, s.threads);
    case WriteCall(x, t) =>
      StatusIs(s.m, x, c);
      WriteArrives(s.m, x, c, t, s.threads);
    case ReadWake(x, t) => ReadResumes(s.m, x, c, t, s.threads);
    case WriteWake(x, t) => WriteResumes(s.m, x, c, t, s.threads);
    case ReleaseLook(x, t) => LookKeeps(s.m, x, c, t, s.threads);
    case ReleaseAct(x, t, w) => ReleaseKeeps(s.m, x, c, t, w, s.threads);
    case Spurious(x, t) => SpuriousKeeps(s.m, x, c, t, s.threads);
  }

  lemma Lift(s: System, s': System, x: Nid, r: Option<(Manager, Clients)>)
    requires Inv(s) && x in s.c && Kept(s.m, x, r, s.threads)
    requires s' == s.(m := r.value.0, c := s.c[x := r.value.1])
    ensures Inv(s')
  {
    forall y | y in s'.c ensures NodeOk(s'.m.nodes[y], s'.c[y], s'.threads) {
      assert NodeOk(s.m.nodes[y], s.c[y], s.threads);
    }
  }

  lemma InvStep(s: System, a: Action)
    requires Inv(s) && Enabled(s, a)
    ensures Apply(s, a).Some? && Inv(Apply(s, a).value)
  {
    NodeStep(s, a);
    Lift(s, Apply(s, a).value, a.x, OnNode(s.m, s.c[a.x], a));
  }

  lemma InvInit(s: System)
    requires Init(s)
    ensures Inv(s)
  {
    forall x | x in s.c ensures NodeOk(s.m.nodes[x], s.c[x], s.threads) {
      assert s.c[x] == NO_CLIENTS;
      forall t ensures ThreadOk(s.c[x], t, s.threads) {}
      forall st: NodeState | st != NoOp ensures s.m.nodes[x].counter[st.Index()] == Due(s.c[x], st) {
        assert Counter(s.m, x, st) == 0;
      }
    }
  }

  ghost predicate Step(s: System, a: Action, s': System) {
    Shaped(s.m) && Enabled(s, a) && Apply(s, a) == Some(s')
  }

  ghost predicate Run(ss: seq<System>, acts: seq<Action>) {
    && |ss| == |acts| + 1
    && Init(ss[0])
    && forall i {:trigger acts[i]} :: 0 <= i < |acts| ==> Step(ss[i], acts[i], ss[i + 1])
  }

  lemma {:induction false} RunInv(ss: seq<System>, acts: seq<Action>, k: nat)
    requires Run(ss, acts) && k < |ss|
    ensures Inv(ss[k])
    decreases k
  {
    if k == 0 {
      InvInit(ss[0]);
    } else {
      RunInv(ss, acts, k - 1);
      InvStep(ss[k - 1], acts[k - 1]);
    }
  }

  /** No assertion fails: whatever may happen next in any run, it has a result.  In particular the
      assertion that ends each request loop and the one for a release with no operation are never
      reached, and no request is rejected. */
  lemma NoStepFails(ss: seq<System>, acts: seq<Action>, k: nat, a: Action)
    requires Run(ss, acts) && k < |ss|
    requires a.x in ss[k].c && Shaped(ss[k].m) && Enabled(ss[k], a)
    ensures Apply(ss[k], a).Some?
  {
    RunInv(ss, acts, k);
    InvStep(ss[k], a);
  }

  /** Granted writers exclude each other and all granted readers; the counters of a node are the
      numbers of its clients; its operation is the one in progress. */
  lemma Exclusion(ss: seq<System>, acts: seq<Action>, k: nat, x: Nid)
    requires Run(ss, acts) && k < |ss| && x in ss[k].c
    ensures Shaped(ss[k].m) && x in ss[k].m.nodes
    ensures var c := ss[k].c[x];
            var m := ss[k].m;
            && |c.wr| <= 1 && (c.wr != {} ==> c.rd == {})
            && Counter(m, x, ReadInProgress) == |c.rd| && Counter(m, x, WriteInProgress) == |c.wr|
            && Counter(m, x, PendingRead) == |c.Readers()| && Counter(m, x, PendingWrite) == |c.Writers()|
            && (m.nodes[x].currOp == OpRead <==> c.rd != {}) && (m.nodes[x].currOp == OpWrite <==> c.wr != {})
            && (Set(m, x, NoOp) <==> c.rd + c.wr + c.Readers() + c.Writers() == {})
  {
    RunInv(ss, acts, k);
    var c := ss[k].c[x];
    var m := ss[k].m;
    assert NodeOk(ss[k].m.nodes[x], ss[k].c[x], ss[k].threads);
    forall st: NodeState | st != NoOp ensures Counter(m, x, st) == Due(c, st) {}
    assert Due(c, ReadInProgress) == |c.rd| && Due(c, WriteInProgress) == |c.wr|;
    assert Due(c, PendingRead) == |c.asleepR| + |c.wokenR| && Due(c, PendingWrite) == |c.asleepW| + |c.wokenW|;
    forall u ensures !(u in c.asleepR && u in c.wokenR) && !(u in c.asleepW && u in c.wokenW) {
      assert ThreadOk(c, u, ss[k].threads);
    }
    UnionSize(c.asleepR, c.wokenR);
    UnionSize(c.asleepW, c.wokenW);
    StatusIs(m, x, c);
    NobodyThere(m, x, c);
  }

  lemma NobodyThere(m: Manager, x: Nid, c: Clients)
    requires Agree(m) && x in m.nodes && CountsDue(m.nodes[x], c)
    ensures Set(m, x, NoOp) <==> c.rd + c.wr + c.Readers() + c.Writers() == {}
  {
    StatusIs(m, x, c);
    if c.rd + c.wr + c.Readers() + c.Writers() == {} {
      assert c.rd == {} && c.wr == {} && c.Readers() == {} && c.Writers() == {};
    }
  }

  /** The operation a thread saw without the mutex is still the right one when it acts on it, so its
      release takes the arm of what the thread was granted. */
  lemma ReleaseTakesRightArm(ss: seq<System>, acts: seq<Action>, k: nat, x: Nid, t: Tid)
    requires Run(ss, acts) && k < |ss| && x in ss[k].c && t in ss[k].c[x].op
    ensures ss[k].c[x].op[t] == OpRead <==> t in ss[k].c[x].rd
    ensures ss[k].c[x].op[t] == OpWrite <==> t in ss[k].c[x].wr
    ensures ss[k].c[x].op[t] == OpRead || ss[k].c[x].op[t] == OpWrite
  {
    RunInv(ss, acts, k);
    assert NodeOk(ss[k].m.nodes[x], ss[k].c[x], ss[k].threads);
    assert ThreadOk(ss[k].c[x], t, ss[k].threads);
  }

  // ---------------------------------------------------------------- the arbiter without bits, counters and lists

  function JoinRead(c: Clients, t: Tid): Clients {
    if AdmitsRead(c) then c.(rd := c.rd + {t}) else c.(asleepR := c.asleepR + {t})
  }

  function JoinWrite(c: Clients, t: Tid): Clients {
    if AdmitsWrite(c) then c.(wr := c.wr + {t}) else c.(asleepW := c.asleepW + {t})
  }

  /** What a step does to the clients of its node, told by the clients alone: the last to leave
      wakes all readers if any wait, else one writer. */
  function Arbitrate(c: Clients, a: Action): Clients {
    match a
    case ReadCall(x, t) => JoinRead(c, t)
    case WriteCall(x, t) => JoinWrite(c, t)
    case ReadWake(x, t) => JoinRead(c.(wokenR := c.wokenR - {t}), t)
    case WriteWake(x, t) => JoinWrite(c.(wokenW := c.wokenW - {t}), t)
    case ReleaseLook(x, t) => c.(op := c.op[t := if t in c.rd then OpRead else OpWrite])
    case ReleaseAct(x, t, w) =>
      Wake(Dropped(c, t), WakesFor(Dropped(c, t)), w)
    case Spurious(x, t) =>
      if t in c.asleepR then c.(asleepR := c.asleepR - {t}, wokenR := c.wokenR + {t})
      else c.(asleepW := c.asleepW - {t}, wokenW := c.wokenW + {t})
  }

  lemma ReadReplyIs(m: Manager, x: Nid, c: Clients, t: Tid, r: Reply)
    requires Shaped(m) && x in m.nodes && ReadAnswer(m, x, c, r) && t !in c.wokenR
    ensures ReadReply(r, c, t).Some? && ReadReply(r, c, t).value.1 == JoinRead(c, t)
  {
    assert c.wokenR - {t} == c.wokenR;
  }

  lemma WriteReplyIs(m: Manager, x: Nid, c: Clients, t: Tid, r: Reply)
    requires Shaped(m) && x in m.nodes && WriteAnswer(m, x, c, r) && t !in c.wokenW
    ensures WriteReply(r, c, t).Some? && WriteReply(r, c, t).value.1 == JoinWrite(c, t)
  {
    assert c.wokenW - {t} == c.wokenW;
  }

  lemma ReadResumeIs(m: Manager, x: Nid, c: Clients, t: Tid, threads: set<Tid>)
    requires Agree(m) && x in m.nodes && NodeOk(m.nodes[x], c, threads) && |threads| <= 255
    requires t in c.wokenR && ReadReply(ResumeRead(m, x), c, t).Some?
    ensures ReadReply(ResumeRead(m, x), c, t).value.1 == JoinRead(c.(wokenR := c.wokenR - {t}), t)
  {
    var c1 := c.(wokenR := c.wokenR - {t});
    ReaderWakes(c, t, threads);
    assert Counter(m, x, PendingRead) == Due(c, PendingRead) && |c.wokenR| > 0;
    Exited(m, x, PendingRead, Exit(m, x, PendingRead));
    LeavePending(m, x, c, c1, PendingRead, Exit(m, x, PendingRead), threads);
    ReadArrives(Exit(m, x, PendingRead).value, x, c1, t, threads);
    ReadReplyIs(Exit(m, x, PendingRead).value, x, c1, t, ResumeRead(m, x));
    SameReply(ResumeRead(m, x), c, t);
  }

  lemma WriteResumeIs(m: Manager, x: Nid, c: Clients, t: Tid, threads: set<Tid>)
    requires Agree(m) && x in m.nodes && NodeOk(m.nodes[x], c, threads) && |threads| <= 255
    requires t in c.wokenW && WriteReply(ResumeWrite(m, x), c, t).Some?
    ensures WriteReply(ResumeWrite(m, x), c, t).value.1 == JoinWrite(c.(wokenW := c.wokenW - {t}), t)
  {
    var c1 := c.(wokenW := c.wokenW - {t});
    WriterWakes(c, t, threads);
    assert Counter(m, x, PendingWrite) == Due(c, PendingWrite) && |c.wokenW| > 0;
    Exited(m, x, PendingWrite, Exit(m, x, PendingWrite));
    LeavePending(m, x, c, c1, PendingWrite, Exit(m, x, PendingWrite), threads);
    WriteArrives(Exit(m, x, PendingWrite).value, x, c1, t, threads);
    WriteReplyIs(Exit(m, x, PendingWrite).value, x, c1, t, ResumeWrite(m, x));
    SameReply(ResumeWrite(m, x), c, t);
  }

  /** Bits, counters and lists drive the node exactly as the clients alone say. */
  lemma NodeRefines(s: System, a: Action)
    requires Inv(s) && Enabled(s, a)
    ensures OnNode(s.m, s.c[a.x], a).Some? && OnNode(s.m, s.c[a.x], a).value.1 == Arbitrate(s.c[a.x], a)
  {
    var c := s.c[a.x];
    NodeStep(s, a);
    assert NodeOk(s.m.nodes[a.x], s.c[a.x], s.threads);
    match a
    case ReadCall(x, t) =>
      StatusIs(s.m, x, c);
      ReadArrives(s.m, x, c, t, s.threads);
      ReadReplyIs(s.m, x, c, t, ReadLoop(s.m, x));
    case WriteCall(x, t) =>
      StatusIs(s.m, x, c);
      WriteArrives(s.m, x, c, t, s.threads);
      WriteReplyIs(s.m, x, c, t, WriteLoop(s.m, x));
    case ReadWake(x, t) => ReadResumeIs(s.m, x, c, t, s.threads);
    case WriteWake(x, t) => WriteResumeIs(s.m, x, c, t, s.threads);
    case ReleaseLook(x, t) => assert ThreadOk(c, t, s.threads);
    case ReleaseAct(x, t, w) => ReleaseKeeps(s.m, x, c, t, w, s.threads);
    case Spurious(x, t) =>
  }

  /** In every run the program refines the arbiter over sets of clients: a reader is let in exactly
      when no writer is in, and a reader is in or waiting or no writer waits; a writer exactly when
      nobody is in; and the last to leave wakes exactly whom the arbiter wakes. */
  lemma Refines(ss: seq<System>, acts: seq<Action>, k: nat)
    requires Run(ss, acts) && k < |acts|
    ensures acts[k].x in ss[k].c
    ensures ss[k + 1].c == ss[k].c[acts[k].x := Arbitrate(ss[k].c[acts[k].x], acts[k])]
  {
    RunInv(ss, acts, k);
    assert Step(ss[k], acts[k], ss[k + 1]);
    NodeRefines(ss[k], acts[k]);
  }

  // ---------------------------------------------------------------- when a wake-up is lost

  predicate Free(c: Clients) {
    c.rd == {} && c.wr == {}
  }

  /** Somebody waits for a node nobody uses, and nobody is about to wake. */
  predicate Dozing(c: Clients) {
    Free(c) && c.wokenR == {} && c.wokenW == {} && (c.asleepR != {} || c.asleepW != {})
  }

  /** A free node whose waiters are all of one kind has one of them woken. */
  predicate OneKindAwake(c: Clients) {
    Free(c) ==>
      && (c.Readers() != {} && c.Writers() == {} ==> c.wokenR != {})
      && (c.Writers() != {} && c.Readers() == {} ==> c.wokenW != {})
  }

  /** The last waiting reader re-tests a free node while a writer waits and none is woken. */
  predicate LosesWake(c: Clients, a: Action) {
    a.ReadWake? && Free(c) && c.Readers() == {a.t} && c.Writers() != {} && c.wokenW == {}
  }

  lemma ReadersLess(c: Clients, t: Tid, threads: set<Tid>)
    requires ClientsOk(c, threads) && t in c.wokenR
    ensures c.(wokenR := c.wokenR - {t}).Readers() == c.Readers() - {t} && t in c.Readers()
    ensures (c.asleepR + {t}) + (c.wokenR - {t}) == c.Readers()
  {
    assert ThreadOk(c, t, threads);
  }

  /** A woken reader that re-tests either gets in or is asleep among the same waiters. */
  lemma WokenReaderIs(c: Clients, a: Action, threads: set<Tid>)
    requires ClientsOk(c, threads) && Ready(c, a, threads) && a.ReadWake?
    ensures var c', c1 := Arbitrate(c, a), c.(wokenR := c.wokenR - {a.t});
            && c1.Readers() == c.Readers() - {a.t} && a.t in c.Readers()
            && (if AdmitsRead(c1) then !Free(c')
                else c' == c1.(asleepR := c.asleepR + {a.t}) && c'.Readers() == c.Readers() && c'.asleepR != {})
  {
    ReadersLess(c, a.t, threads);
    assert a.t in c.rd + {a.t} && a.t in c.asleepR + {a.t};
  }

  lemma WokenReaderStep(c: Clients, a: Action, threads: set<Tid>)
    requires ClientsOk(c, threads) && Ready(c, a, threads) && OneKindAwake(c) && a.ReadWake?
    ensures OneKindAwake(Arbitrate(c, a))
    ensures !Dozing(c) ==> (Dozing(Arbitrate(c, a)) <==> LosesWake(c, a))
  {
    WokenReaderIs(c, a, threads);
    OnlyReader(c, a.t);
    var c1 := c.(wokenR := c.wokenR - {a.t});
    assert Free(c) && !AdmitsRead(c1) ==> c1.Readers() == {} && c1.wokenR == {};
  }

  lemma OnlyReader(c: Clients, t: Tid)
    requires t in c.Readers()
    ensures c.Readers() - {t} == {} <==> c.Readers() == {t}
  {
    if c.Readers() - {t} == {} {
      forall u | u in c.Readers() ensures u in {t} { assert u !in c.Readers() - {t}; }
    }
  }

  lemma CallStep(c: Clients, a: Action, threads: set<Tid>)
    requires Ready(c, a, threads) && OneKindAwake(c) && (a.ReadCall? || a.WriteCall? || a.WriteWake?)
    ensures OneKindAwake(Arbitrate(c, a))
    ensures !Dozing(c) ==> !Dozing(Arbitrate(c, a))
  {
    assert a.t in c.rd + {a.t} && a.t in c.wr + {a.t} && a.t in c.asleepR + {a.t};
  }

  lemma SpuriousStep(c: Clients, a: Action, threads: set<Tid>)
    requires Ready(c, a, threads) && OneKindAwake(c) && (a.Spurious? || a.ReleaseLook?)
    ensures OneKindAwake(Arbitrate(c, a))
    ensures !Dozing(c) ==> !Dozing(Arbitrate(c, a))
  {
    if a.Spurious? {
      assert a.t in c.wokenR + {a.t} && a.t in c.wokenW + {a.t};
      assert (c.asleepR - {a.t}) + (c.wokenR + {a.t}) == c.Readers() + {a.t};
      assert (c.asleepW - {a.t}) + (c.wokenW + {a.t}) == c.Writers() + {a.t};
    }
  }

  lemma ReleaseStep(c: Clients, w: Option<Tid>)
    requires SignalPicks(c.asleepW, w)
    ensures OneKindAwake(Wake(c, WakesFor(c), w)) && !Dozing(Wake(c, WakesFor(c), w))
  {
    var c' := Wake(c, WakesFor(c), w);
    if WakesFor(c) == AllReaders {
      assert c'.wokenR == c.Readers();
    } else if WakesFor(c) == OneWriter {
      assert w.Some? ==> w.value in c'.wokenW;
    }
  }

  lemma OneKindStep(c: Clients, a: Action, threads: set<Tid>)
    requires ClientsOk(c, threads) && Ready(c, a, threads) && OneKindAwake(c)
    ensures OneKindAwake(Arbitrate(c, a))
    ensures !Dozing(c) ==> (Dozing(Arbitrate(c, a)) <==> LosesWake(c, a))
  {
    if a.ReadWake? {
      WokenReaderStep(c, a, threads);
    } else if a.ReadCall? || a.WriteCall? || a.WriteWake? {
      CallStep(c, a, threads);
    } else if a.ReleaseAct? {
      ReleaseStep(Dropped(c, a.t), a.w);
    } else {
      SpuriousStep(c, a, threads);
    }
  }

  /** No wake-up is lost among waiters of one kind: in every reachable state a free node whose
      waiters are all readers, or all writers, has one of them woken. */
  lemma {:induction false} OneKindIsLive(ss: seq<System>, acts: seq<Action>, k: nat, x: Nid)
    requires Run(ss, acts) && k < |ss| && x in ss[k].c
    ensures OneKindAwake(ss[k].c[x])
    decreases k
  {
    if k == 0 {
      assert ss[0].c[x] == NO_CLIENTS;
    } else {
      Refines(ss, acts, k - 1);
      RunInv(ss, acts, k - 1);
      var s := ss[k - 1];
      assert Step(s, acts[k - 1], ss[k]);
      OneKindIsLive(ss, acts, k - 1, x);
      if x == acts[k - 1].x {
        assert NodeOk(s.m.nodes[x], s.c[x], s.threads);
        OneKindStep(s.c[x], acts[k - 1], s.threads);
      }
    }
  }

  /** Exactly how a wake-up is lost: the only step after which waiters sleep on a free node with
      nobody woken is that of the last waiting reader, re-testing a free node for which a writer
      waits that nobody has woken. */
  lemma WakeUpLostExactly(ss: seq<System>, acts: seq<Action>, k: nat, x: Nid)
    requires Run(ss, acts) && k < |acts| && x in ss[k].c && !Dozing(ss[k].c[x])
    ensures x in ss[k + 1].c
    ensures Dozing(ss[k + 1].c[x]) <==> acts[k].x == x && LosesWake(ss[k].c[x], acts[k])
  {
    Refines(ss, acts, k);
    RunInv(ss, acts, k);
    var s := ss[k];
    assert Step(s, acts[k], ss[k + 1]);
    OneKindIsLive(ss, acts, k, x);
    if x == acts[k].x {
      assert NodeOk(s.m.nodes[x], s.c[x], s.threads);
      OneKindStep(s.c[x], acts[k], s.threads);
    }
  }

  lemma StepIs(s: System, a: Action)
    requires Inv(s) && Enabled(s, a)
    ensures Apply(s, a).Some?
    ensures var s' := Apply(s, a).value;
            s'.c == s.c[a.x := Arbitrate(s.c[a.x], a)] && s'.threads == s.threads
  {
    NodeRefines(s, a);
  }

  /** Extend a run by an enabled action. */
  lemma Extend(ss: seq<System>, acts: seq<Action>, a: Action) returns (ss': seq<System>)
    requires Run(ss, acts) && a.x in ss[|acts|].c && Enabled(ss[|acts|], a)
    ensures Run(ss', acts + [a]) && ss'[..|ss|] == ss
    ensures ss'[|ss|].c == ss[|acts|].c[a.x := Arbitrate(ss[|acts|].c[a.x], a)]
    ensures ss'[|ss|].threads == ss[|acts|].threads
  {
    var s := ss[|acts|];
    RunInv(ss, acts, |acts|);
    StepIs(s, a);
    ss' := ss + [Apply(s, a).value];
    var acts' := acts + [a];
    forall i {:trigger acts'[i]} | 0 <= i < |acts'| ensures Step(ss'[i], acts'[i], ss'[i + 1]) {
      if i < |acts| {
        assert Step(ss[i], acts[i], ss[i + 1]);
      }
    }
  }

  /** A run from s0 that has brought node x to clients c and left the other nodes alone. */
  ghost predicate At(s0: System, x: Nid, ss: seq<System>, acts: seq<Action>, c: Clients) {
    && Run(ss, acts) && ss[0] == s0 && x in s0.c
    && ss[|acts|].c == s0.c[x := c] && ss[|acts|].threads == s0.threads
  }

  lemma Advance(s0: System, x: Nid, ss: seq<System>, acts: seq<Action>, c: Clients, a: Action, c': Clients)
    returns (ss': seq<System>)
    requires At(s0, x, ss, acts, c) && a.x == x && Ready(c, a, s0.threads) && Arbitrate(c, a) == c'
    ensures At(s0, x, ss', acts + [a], c')
  {
    RunInv(ss, acts, |acts|);
    ss' := Extend(ss, acts, a);
    assert ss'[0] == ss'[..|ss|][0] == ss[0];
    assert s0.c[x := c][x := c'] == s0.c[x := c'];
  }

  /** Requests are not live.  From any start, a writer t1 that releases while a reader t2 and a
      writer t3 wait wakes only t2; t2 sees the pending writer and sleeps again; and then both sleep
      on a node nobody uses and nobody is about to wake. */
  lemma Stranded(s: System, x: Nid, t1: Tid, t2: Tid, t3: Tid) returns (ss: seq<System>, acts: seq<Action>)
    requires Init(s) && x in s.c && {t1, t2, t3} <= s.threads && t1 != t2 && t1 != t3 && t2 != t3
    ensures At(s, x, ss, acts, NO_CLIENTS.(asleepR := {t2}, asleepW := {t3}))
  {
    var c1 := NO_CLIENTS.(wr := {t1});
    var c2 := c1.(asleepR := {t2});
    var c3 := c2.(asleepW := {t3});
    var c4 := c3.(op := map[t1 := OpWrite]);
    var c5 := NO_CLIENTS.(wokenR := {t2}, asleepW := {t3});
    assert s.c[x] == NO_CLIENTS && s.c[x := NO_CLIENTS] == s.c;
    assert t1 in s.threads && t2 in s.threads && t3 in s.threads;
    ss, acts := [s], [];
    ss := Advance(s, x, ss, acts, NO_CLIENTS, WriteCall(x, t1), c1);
    acts := acts + [WriteCall(x, t1)];
    ss := Advance(s, x, ss, acts, c1, ReadCall(x, t2), c2);
    acts := acts + [ReadCall(x, t2)];
    ss := Advance(s, x, ss, acts, c2, WriteCall(x, t3), c3);
    acts := acts + [WriteCall(x, t3)];
    ss := Advance(s, x, ss, acts, c3, ReleaseLook(x, t1), c4);
    acts := acts + [ReleaseLook(x, t1)];
    ReleaseWakesReader(x, t1, t2, t3);
    ss := Advance(s, x, ss, acts, c4, ReleaseAct(x, t1, Some(t3)), c5);
    acts := acts + [ReleaseAct(x, t1, Some(t3))];
    ReaderSleepsAgain(x, t2, t3);
    ss := Advance(s, x, ss, acts, c5, ReadWake(x, t2), NO_CLIENTS.(asleepR := {t2}, asleepW := {t3}));
    acts := acts + [ReadWake(x, t2)];
  }

  lemma ReleaseWakesReader(x: Nid, t1: Tid, t2: Tid, t3: Tid)
    ensures Arbitrate(Clients({}, {t1}, {t2}, {}, {t3}, {}, map[t1 := OpWrite]), ReleaseAct(x, t1, Some(t3)))
            == Clients({}, {}, {}, {t2}, {t3}, {}, map[])
  {
    var c := Clients({}, {t1}, {t2}, {}, {t3}, {}, map[t1 := OpWrite]);
    assert Dropped(c, t1) == Clients({}, {}, {t2}, {}, {t3}, {}, map[]);
    assert t2 in Dropped(c, t1).Readers();
  }

  lemma ReaderSleepsAgain(x: Nid, t2: Tid, t3: Tid)
    ensures Arbitrate(Clients({}, {}, {}, {t2}, {t3}, {}, map[]), ReadWake(x, t2)) == Clients({}, {}, {t2}, {}, {t3}, {}, map[])
  {
    var c := Clients({}, {}, {}, {}, {t3}, {}, map[]);
    assert Clients({}, {}, {}, {t2}, {t3}, {}, map[]).(wokenR := {t2} - {t2}) == c;
    assert t3 in c.Writers() && c.Readers() == {};
  }

  // ---------------------------------------------------------------- who is safe from losing one

  /** Some run from s comes to a free node x with sleepers and nobody woken. */
  ghost predicate LossReachable(s: System, x: Nid) {
    exists ss: seq<System>, acts: seq<Action> {:trigger Run(ss, acts)} ::
      Run(ss, acts) && ss[0] == s && x in ss[|acts|].c && Dozing(ss[|acts|].c[x])
  }

  /** A free node with waiters of both kinds has a writer woken. */
  predicate WriterAwake(c: Clients) {
    Free(c) && c.Readers() != {} && c.Writers() != {} ==> c.wokenW != {}
  }

  lemma ThreeDistinct(a: set<Tid>, x: Tid, y: Tid, z: Tid)
    requires x in a && y in a && z in a && x != y && x != z && y != z
    ensures |a| >= 3
  {
    SubsetSize({x, y, z}, a);
  }

  /** Among two threads a release cannot leave waiters of both kinds. */
  lemma FewRelease(c: Clients, a: Action, threads: set<Tid>)
    requires ClientsOk(c, threads) && Ready(c, a, threads) && |threads| <= 2 && a.ReleaseAct?
    ensures WriterAwake(Arbitrate(c, a))
  {
    if c.Readers() != {} && c.Writers() != {} {
      var r :| r in c.Readers();
      var w :| w in c.Writers();
      assert ThreadOk(c, a.t, threads) && ThreadOk(c, r, threads) && ThreadOk(c, w, threads);
      ThreeDistinct(threads, a.t, r, w);
    }
    var d := Dropped(c, a.t);
    assert Wake(d, WakesFor(d), a.w).Readers() == c.Readers();
    assert c.Writers() == {} ==> Wake(d, WakesFor(d), a.w).Writers() == {};
  }

  lemma FewStep(c: Clients, a: Action, threads: set<Tid>)
    requires ClientsOk(c, threads) && Ready(c, a, threads) && |threads| <= 2
    requires OneKindAwake(c) && WriterAwake(c)
    ensures WriterAwake(Arbitrate(c, a))
  {
    if a.ReleaseAct? {
      FewRelease(c, a, threads);
    } else if a.ReadWake? {
      WokenReaderIs(c, a, threads);
    } else if a.Spurious? || a.ReleaseLook? {
      FewSpurious(c, a, threads);
    } else {
      assert a.t in c.rd + {a.t} && a.t in c.wr + {a.t};
    }
  }

  lemma FewSpurious(c: Clients, a: Action, threads: set<Tid>)
    requires Ready(c, a, threads) && WriterAwake(c) && (a.Spurious? || a.ReleaseLook?)
    ensures WriterAwake(Arbitrate(c, a))
  {
    if a.Spurious? {
      assert a.t in c.wokenW + {a.t};
      assert a.t in c.asleepR ==> (c.asleepR - {a.t}) + (c.wokenR + {a.t}) == c.Readers();
    }
  }

  lemma {:induction false} FewAwake(ss: seq<System>, acts: seq<Action>, k: nat, x: Nid)
    requires Run(ss, acts) && k < |ss| && x in ss[k].c && |ss[0].threads| <= 2
    ensures ss[k].threads == ss[0].threads && WriterAwake(ss[k].c[x])
    decreases k
  {
    if k == 0 {
      assert ss[0].c[x] == NO_CLIENTS;
    } else {
      Refines(ss, acts, k - 1);
      RunInv(ss, acts, k - 1);
      var s := ss[k - 1];
      assert Step(s, acts[k - 1], ss[k]);
      FewAwake(ss, acts, k - 1, x);
      OneKindIsLive(ss, acts, k - 1, x);
      if x == acts[k - 1].x {
        assert NodeOk(s.m.nodes[x], s.c[x], s.threads);
        FewStep(s.c[x], acts[k - 1], s.threads);
      }
    }
  }

  /** A wake-up can be lost if and only if at least three threads may use the node. */
  lemma LossReachableExactly(s: System, x: Nid)
    requires Init(s) && x in s.c
    ensures LossReachable(s, x) <==> |s.threads| >= 3
  {
    if |s.threads| >= 3 {
      var t1, t2, t3 := PickThree(s.threads);
      var ss, acts := Stranded(s, x, t1, t2, t3);
      assert t2 in ss[|acts|].c[x].asleepR;
    } else {
      forall ss: seq<System>, acts: seq<Action> | Run(ss, acts) && ss[0] == s && x in ss[|acts|].c
        ensures !Dozing(ss[|acts|].c[x])
      {
        FewAwake(ss, acts, |acts|, x);
        OneKindIsLive(ss, acts, |acts|, x);
        AwakeIsNotDozing(ss[|acts|].c[x]);
      }
    }
  }

  lemma AwakeIsNotDozing(c: Clients)
    requires OneKindAwake(c) && WriterAwake(c)
    ensures !Dozing(c)
  {
    assert c.asleepR != {} ==> c.Readers() != {};
    assert c.asleepW != {} ==> c.Writers() != {};
  }

  lemma PickThree(a: set<Tid>) returns (x: Tid, y: Tid, z: Tid)
    requires |a| >= 3
    ensures {x, y, z} <= a && x != y && x != z && y != z
  {
    x :| x in a;
    RemoveSize(a, x);
    y :| y in a - {x};
    RemoveSize(a - {x}, y);
    z :| z in a - {x} - {y};
  }
}
