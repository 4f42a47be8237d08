/** The bookkeeping of ThreadSafeCruds/CrudMgr.cpp: status bits, counters and manager-wide lists. */
module CrudManager {
  import opened Base

  /** The nine states of crud_node_state_t. */
  datatype NodeState =
    | PendingRead | ReadInProgress | PendingWrite | WriteInProgress
    | PendingDelete | DeleteInProgress | PendingCreate | CreateInProgress | NoOp
  {
    function Bit(): bv32 {
      match this
      case PendingRead => 1
      case ReadInProgress => 2
      case PendingWrite => 4
      case WriteInProgress => 8
      case PendingDelete => 16
      case DeleteInProgress => 32
      case PendingCreate => 64
      case CreateInProgress => 128
      case NoOp => 256
    }

    function Index(): (i: nat)
      ensures i < 9
    {
      match this
      case PendingRead => 0
      case ReadInProgress => 1
      case PendingWrite => 2
      case WriteInProgress => 3
      case PendingDelete => 4
      case DeleteInProgress => 5
      case PendingCreate => 6
      case CreateInProgress => 7
      case NoOp => 8
    }

    /** States that at most one thread may be in, and of which a second entry is an error. */
    predicate Exclusive() {
      WriteInProgress? || DeleteInProgress? || PendingCreate? || CreateInProgress? || NoOp?
    }
  }

  datatype Op = OpDelete | OpCreate | OpRead | OpWrite | OpNone

  /** crud_node_t: the states whose bits are set, the nine 8-bit counters and the operation in
      progress. */
  datatype Node = Node(status: set<NodeState>, counter: seq<nat>, currOp: Op)

  type Nid = nat

  /** The manager's nodes and its nine lists of nodes, most recent first. */
  datatype Manager = Manager(nodes: map<Nid, Node>, lists: seq<seq<Nid>>)

  // ---------------------------------------------------------------- entering and leaving states

  predicate Set(m: Manager, x: Nid, st: NodeState) {
    x in m.nodes && st in m.nodes[x].status
  }

  /** crud_node_in_use: any state but no_op. */
  predicate InUse(m: Manager, x: Nid) {
    Set(m, x, PendingRead) || Set(m, x, ReadInProgress) || Set(m, x, PendingWrite) || Set(m, x, WriteInProgress)
    || Set(m, x, PendingDelete) || Set(m, x, DeleteInProgress) || Set(m, x, PendingCreate) || Set(m, x, CreateInProgress)
  }

  /** The nine counters and nine lists are there. */
  predicate Shaped(m: Manager) {
    |m.lists| == 9 && forall x :: x in m.nodes ==> |m.nodes[x].counter| == 9
  }

  function Counter(m: Manager, x: Nid, st: NodeState): nat
    requires Shaped(m) && x in m.nodes
  {
    m.nodes[x].counter[st.Index()]
  }

  function OnList(m: Manager, st: NodeState): seq<Nid>
    requires Shaped(m)
  {
    m.lists[st.Index()]
  }

  /** The operation a node shows while it is in a state: unchanged for the pending ones. */
  function OpOnEnter(st: NodeState, op: Op): Op {
    match st
    case ReadInProgress => OpRead
    case WriteInProgress => OpWrite
    case DeleteInProgress => OpDelete
    case CreateInProgress => OpCreate
    case NoOp => OpNone
    case _ => op
  }

  function OpOnExit(st: NodeState, op: Op): Op {
    if st.ReadInProgress? || st.WriteInProgress? || st.DeleteInProgress? || st.CreateInProgress? then OpNone else op
  }

  function SetCounter(n: Node, st: NodeState, c: nat): Node
    requires |n.counter| == 9
  {
    n.(counter := n.counter[st.Index() := c])
  }

  function Without(s: seq<Nid>, x: Nid): seq<Nid> {
    if s == [] then [] else if s[0] == x then s[1..] else [s[0]] + Without(s[1..], x)
  }

  function Put(m: Manager, x: Nid, n: Node): Manager {
    m.(nodes := m.nodes[x := n])
  }

  function Link(m: Manager, x: Nid, st: NodeState): Manager
    requires Shaped(m)
  {
    m.(lists := m.lists[st.Index() := [x] + m.lists[st.Index()]])
  }

  function Unlink(m: Manager, x: Nid, st: NodeState): Manager
    requires Shaped(m)
  {
    m.(lists := m.lists[st.Index() := Without(m.lists[st.Index()], x)])
  }

  /** The node in a new state: bit set, counter 1, linked in. */
  function With(m: Manager, x: Nid, st: NodeState, op: Op): (r: Manager)
    requires Shaped(m) && x in m.nodes
    ensures Shaped(r) && x in r.nodes
  {
    var n := m.nodes[x];
    Link(Put(m, x, SetCounter(n, st, 1).(status := n.status + {st}, currOp := op)), x, st)
  }

  /** The node out of a state: bit cleared, counter 0, unlinked. */
  function Out(m: Manager, x: Nid, st: NodeState, op: Op): (r: Manager)
    requires Shaped(m) && x in m.nodes
    ensures Shaped(r) && x in r.nodes
  {
    var n := m.nodes[x];
    Unlink(Put(m, x, SetCounter(n, st, 0).(status := n.status - {st}, currOp := op)), x, st)
  }

  /** crud_node_enter_state; no result if an assertion fails.  The counters wrap at 256. */
  function Enter(m: Manager, x: Nid, st: NodeState): (r: Option<Manager>)
    requires Shaped(m) && x in m.nodes
    ensures r.Some? ==> Shaped(r.value) && x in r.value.nodes
    decreases if st == NoOp then 0 else 2
  {
    var n := m.nodes[x];
    if st in n.status then
      if st.Exclusive() then None
      else Some(Put(m, x, SetCounter(n, st, (Counter(m, x, st) + 1) % 256)))
    else if Counter(m, x, st) != 0 || x in OnList(m, st) then
      None
    else
      var m' := With(m, x, st, OpOnEnter(st, n.currOp));
      if st != NoOp && Set(m', x, NoOp) then Exit(m', x, NoOp) else Some(m')
  }

  /** crud_node_exit_state; no result if an assertion fails. */
  function Exit(m: Manager, x: Nid, st: NodeState): (r: Option<Manager>)
    requires Shaped(m) && x in m.nodes
    ensures r.Some? ==> Shaped(r.value) && x in r.value.nodes
    decreases 1
  {
    var n := m.nodes[x];
    var c := Counter(m, x, st);
    if st !in n.status || c == 0 || x !in OnList(m, st) then
      None
    else if c > 1 then
      Some(Put(m, x, SetCounter(n, st, c - 1)))
    else
      var m' := Out(m, x, st, OpOnExit(st, n.currOp));
      if InUse(m', x) then Some(m')
      else
        var r := Enter(m', x, NoOp);
        if r.None? then None else Some(Put(r.value, x, r.value.nodes[x].(currOp := OpNone)))
  }

  /** crud_node_init: all zero (which reads as a delete operation), then no_op. */
  function Initialise(m: Manager, x: Nid): Option<Manager>
    requires Shaped(m) && x !in m.nodes
  {
    Enter(Put(m, x, Node({}, [0, 0, 0, 0, 0, 0, 0, 0, 0], OpDelete)), x, NoOp)
  }

  /** crud_node_destroy: only a node in no state but no_op may go. */
  function Destroy(m: Manager, x: Nid): Option<Manager>
    requires Shaped(m) && x in m.nodes
  {
    if m.nodes[x].currOp != OpNone || InUse(m, x)
       || (exists st :: st != NoOp && x in OnList(m, st)) || x !in OnList(m, NoOp)
    then None
    else Some(Unlink(m, x, NoOp).(nodes := m.nodes - {x}))
  }

  // ---------------------------------------------------------------- agreement

  /** A node's bit, counter and place on the manager's list for one state agree. */
  ghost predicate Agrees(m: Manager, x: Nid, st: NodeState)
    requires Shaped(m) && x in m.nodes
  {
    && (Set(m, x, st) <==> Counter(m, x, st) > 0)
    && (Set(m, x, st) <==> x in OnList(m, st))
    && Counter(m, x, st) < 256
    && (Set(m, x, st) && st.Exclusive() ==> Counter(m, x, st) == 1)
  }

  ghost predicate NodeAgrees(m: Manager, x: Nid)
    requires Shaped(m) && x in m.nodes
  {
    forall st {:trigger Agrees(m, x, st)} :: Agrees(m, x, st)
  }

  /** no_op is set exactly on the nodes that are in no other state. */
  ghost predicate NoOpAgrees(m: Manager, x: Nid) {
    Set(m, x, NoOp) <==> !InUse(m, x)
  }

  ghost predicate Distinct(s: seq<Nid>) {
    forall i, j :: 0 <= i < j < |s| ==> s[i] != s[j]
  }

  ghost predicate ListAgrees(m: Manager, st: NodeState)
    requires Shaped(m)
  {
    Distinct(OnList(m, st)) && forall x :: x in OnList(m, st) ==> x in m.nodes
  }

  ghost predicate Coherent(m: Manager) {
    && Shaped(m)
    && (forall st {:trigger ListAgrees(m, st)} :: ListAgrees(m, st))
    && (forall x {:trigger NodeAgrees(m, x)} :: x in m.nodes ==> NodeAgrees(m, x))
  }

  ghost predicate Agree(m: Manager) {
    Coherent(m) && forall x {:trigger NoOpAgrees(m, x)} :: x in m.nodes ==> NoOpAgrees(m, x)
  }

  /** Two managers differ at most in node x. */
  ghost predicate OnlyNode(m: Manager, m': Manager, x: Nid)
    requires Shaped(m) && Shaped(m')
  {
    && m'.nodes.Keys == m.nodes.Keys && x in m.nodes
    && (forall y :: y in m.nodes && y != x ==> m'.nodes[y] == m.nodes[y])
    && (forall y, st {:trigger y in OnList(m', st)} :: y != x ==> (y in OnList(m', st) <==> y in OnList(m, st)))
  }

  lemma {:induction false} WithoutIs(s: seq<Nid>, x: Nid)
    requires Distinct(s)
    ensures Distinct(Without(s, x))
    ensures forall y :: y in Without(s, x) <==> y in s && y != x
  {
    if s != [] && s[0] != x {
      WithoutIs(s[1..], x);
      assert s[0] !in Without(s[1..], x);
    }
  }

  lemma IndexInjective(a: NodeState, b: NodeState)
    ensures a.Index() == b.Index() <==> a == b
  {
  }

  lemma OtherNodesAgree(m: Manager, m': Manager, x: Nid, y: Nid)
    requires Coherent(m) && Shaped(m') && OnlyNode(m, m', x) && y in m.nodes && y != x
    ensures NodeAgrees(m', y)
  {
    assert NodeAgrees(m, y);
    forall st ensures Agrees(m', y, st) {
      assert Agrees(m, y, st);
      assert y in OnList(m', st) <==> y in OnList(m, st);
    }
  }

  lemma CoherentIf(m: Manager, m': Manager, x: Nid)
    requires Coherent(m) && Shaped(m') && OnlyNode(m, m', x)
    requires forall st {:trigger ListAgrees(m', st)} :: ListAgrees(m', st)
    requires NodeAgrees(m', x)
    ensures Coherent(m')
  {
    forall y | y in m'.nodes ensures NodeAgrees(m', y) {
      if y != x {
        OtherNodesAgree(m, m', x, y);
      }
    }
  }

  /** Setting a bit, putting its counter to 1 and linking the node in keep the three together. */
  lemma RawSet(m: Manager, x: Nid, st: NodeState, op: Op)
    requires Coherent(m) && x in m.nodes && !Set(m, x, st)
    ensures var m' := With(m, x, st, op);
            && Coherent(m') && OnlyNode(m, m', x)
            && forall s :: Counter(m', x, s) == if s == st then 1 else Counter(m, x, s)
  {
    var m' := With(m, x, st, op);
    assert NodeAgrees(m, x);
    forall s
      ensures ListAgrees(m', s) && Agrees(m', x, s)
      ensures forall y :: y != x ==> (y in OnList(m', s) <==> y in OnList(m, s))
      ensures Counter(m', x, s) == if s == st then 1 else Counter(m, x, s)
    {
      assert ListAgrees(m, s) && Agrees(m, x, s);
      IndexInjective(s, st);
      assert Agrees(m, x, st);
    }
    CoherentIf(m, m', x);
  }

  /** ... and so do clearing it, putting the counter to 0 and unlinking the node. */
  lemma RawUnset(m: Manager, x: Nid, st: NodeState, op: Op)
    requires Coherent(m) && x in m.nodes && Set(m, x, st)
    ensures var m' := Out(m, x, st, op);
            && Coherent(m') && OnlyNode(m, m', x)
            && forall s :: Counter(m', x, s) == if s == st then 0 else Counter(m, x, s)
  {
    var m' := Out(m, x, st, op);
    assert NodeAgrees(m, x);
    forall s
      ensures ListAgrees(m', s) && Agrees(m', x, s)
      ensures forall y :: y != x ==> (y in OnList(m', s) <==> y in OnList(m, s))
      ensures Counter(m', x, s) == if s == st then 0 else Counter(m, x, s)
    {
      assert ListAgrees(m, s) && Agrees(m, x, s);
      IndexInjective(s, st);
      WithoutIs(OnList(m, s), x);
    }
    CoherentIf(m, m', x);
  }

  /** A further entry, or an exit that is not the last, changes the counter only. */
  lemma RawCount(m: Manager, x: Nid, st: NodeState, c: nat)
    requires Coherent(m) && x in m.nodes && Set(m, x, st) && !st.Exclusive() && 0 < c < 256
    ensures var m' := Put(m, x, SetCounter(m.nodes[x], st, c));
            && Coherent(m') && OnlyNode(m, m', x)
            && forall s :: Counter(m', x, s) == if s == st then c else Counter(m, x, s)
  {
    var m' := Put(m, x, SetCounter(m.nodes[x], st, c));
    assert NodeAgrees(m, x);
    forall s
      ensures ListAgrees(m', s) && Agrees(m', x, s)
      ensures Counter(m', x, s) == if s == st then c else Counter(m, x, s)
    {
      assert ListAgrees(m, s) && Agrees(m, x, s);
      IndexInjective(s, st);
    }
    CoherentIf(m, m', x);
  }

  // ---------------------------------------------------------------- what enter and exit do

  /** The counters after an entry (or exit, with delta -1) of node x into state st; no_op follows. */
  ghost predicate Counts(m: Manager, m': Manager, x: Nid, st: NodeState, delta: int)
    requires Shaped(m) && Shaped(m') && x in m.nodes && x in m'.nodes
  {
    forall s :: s != NoOp ==> Counter(m', x, s) == Counter(m, x, s) + if s == st then delta else 0
  }

  lemma AgreeIf(m: Manager, m': Manager, x: Nid)
    requires Agree(m) && Coherent(m') && OnlyNode(m, m', x) && NoOpAgrees(m', x)
    ensures Agree(m')
  {
    forall y | y in m'.nodes ensures NoOpAgrees(m', y) {
      assert NoOpAgrees(m, y);
    }
  }

  lemma SetIs(m: Manager, x: Nid, st: NodeState)
    requires Coherent(m) && x in m.nodes
    ensures Set(m, x, st) <==> Counter(m, x, st) > 0
    ensures Set(m, x, st) <==> x in OnList(m, st)
    ensures Set(m, x, st) && st.Exclusive() ==> Counter(m, x, st) == 1
    ensures Counter(m, x, st) < 256
  {
    assert NodeAgrees(m, x) && Agrees(m, x, st);
  }

  lemma OnlyNodeTwice(m0: Manager, m1: Manager, m2: Manager, x: Nid)
    requires Shaped(m0) && Shaped(m1) && Shaped(m2) && OnlyNode(m0, m1, x) && OnlyNode(m1, m2, x)
    ensures OnlyNode(m0, m2, x)
  {
    forall y, st | y != x ensures y in OnList(m2, st) <==> y in OnList(m0, st) {
      assert y in OnList(m2, st) <==> y in OnList(m1, st);
    }
  }

  /** The first entry of an idle node: no_op goes. */
  lemma EntryFromIdle(m: Manager, x: Nid, st: NodeState)
    requires Agree(m) && x in m.nodes && st != NoOp && Set(m, x, NoOp) && !Set(m, x, st)
    ensures var op := OpOnEnter(st, m.nodes[x].currOp);
            var m2 := Out(With(m, x, st, op), x, NoOp, op);
            && Enter(m, x, st) == Some(m2) && Coherent(m2) && OnlyNode(m, m2, x) && Counts(m, m2, x, st, 1)
            && Set(m2, x, st) && !Set(m2, x, NoOp) && m2.nodes[x].currOp == op
  {
    SetIs(m, x, st);
    var op := OpOnEnter(st, m.nodes[x].currOp);
    RawSet(m, x, st, op);
    var m1 := With(m, x, st, op);
    SetIs(m1, x, NoOp);
    RawUnset(m1, x, NoOp, op);
    OnlyNodeTwice(m, m1, Out(m1, x, NoOp, op), x);
  }

  /** A permitted entry succeeds and keeps the agreement: the state's counter goes up by one, no_op
      goes, and nothing else changes. */
  lemma EnterEffect(m: Manager, x: Nid, st: NodeState)
    requires Agree(m) && x in m.nodes && st != NoOp
    requires Set(m, x, st) ==> !st.Exclusive() && Counter(m, x, st) < 255
    ensures var r := Enter(m, x, st);
            && r.Some? && Agree(r.value) && OnlyNode(m, r.value, x) && Counts(m, r.value, x, st, 1)
            && r.value.nodes[x].currOp == (if Set(m, x, st) then m.nodes[x].currOp else OpOnEnter(st, m.nodes[x].currOp))
  {
    if Set(m, x, st) {
      EntryAgain(m, x, st);
    } else if Set(m, x, NoOp) {
      EntryFromIdle(m, x, st);
      AgreeIf(m, Enter(m, x, st).value, x);
    } else {
      EntryWhileBusy(m, x, st);
    }
  }

  /** A node that enters a state it was not in goes to the front of the state's list. */
  lemma EntryAtFront(m: Manager, x: Nid, st: NodeState)
    requires Agree(m) && x in m.nodes && st != NoOp && !Set(m, x, st)
    ensures Enter(m, x, st).Some? && OnList(Enter(m, x, st).value, st) == [x] + OnList(m, st)
  {
    SetIs(m, x, st);
    if Set(m, x, NoOp) {
      EntryFromIdle(m, x, st);
    }
  }

  lemma EntryAgain(m: Manager, x: Nid, st: NodeState)
    requires Agree(m) && x in m.nodes && st != NoOp && Set(m, x, st) && !st.Exclusive() && Counter(m, x, st) < 255
    ensures var m' := Put(m, x, SetCounter(m.nodes[x], st, Counter(m, x, st) + 1));
            && Enter(m, x, st) == Some(m') && Agree(m') && OnlyNode(m, m', x) && Counts(m, m', x, st, 1)
  {
    var c := Counter(m, x, st) + 1;
    EnterCounts(m, x, st);
    RawCount(m, x, st, c);
    CountKeepsAgree(m, x, st, c);
  }

  lemma EnterCounts(m: Manager, x: Nid, st: NodeState)
    requires Shaped(m) && x in m.nodes && Set(m, x, st) && !st.Exclusive() && Counter(m, x, st) < 255
    ensures Enter(m, x, st) == Some(Put(m, x, SetCounter(m.nodes[x], st, Counter(m, x, st) + 1)))
  {
    var c := Counter(m, x, st) + 1;
    assert c % 256 == c;
  }

  lemma CountKeepsAgree(m: Manager, x: Nid, st: NodeState, c: nat)
    requires Agree(m) && x in m.nodes && Coherent(Put(m, x, SetCounter(m.nodes[x], st, c)))
    requires OnlyNode(m, Put(m, x, SetCounter(m.nodes[x], st, c)), x)
    ensures Agree(Put(m, x, SetCounter(m.nodes[x], st, c)))
  {
    assert NoOpAgrees(m, x);
    AgreeIf(m, Put(m, x, SetCounter(m.nodes[x], st, c)), x);
  }

  lemma EntryWhileBusy(m: Manager, x: Nid, st: NodeState)
    requires Agree(m) && x in m.nodes && st != NoOp && !Set(m, x, st) && !Set(m, x, NoOp)
    ensures var m' := With(m, x, st, OpOnEnter(st, m.nodes[x].currOp));
            && Enter(m, x, st) == Some(m') && Agree(m') && OnlyNode(m, m', x) && Counts(m, m', x, st, 1)
  {
    SetIs(m, x, st);
    RawSet(m, x, st, OpOnEnter(st, m.nodes[x].currOp));
    AgreeIf(m, With(m, x, st, OpOnEnter(st, m.nodes[x].currOp)), x);
  }

  /** An exit succeeds exactly from a state the node is in; the counter goes down by one, and a
      node that is left in no state shows no_op and no operation. */
  lemma ExitEffect(m: Manager, x: Nid, st: NodeState)
    requires Agree(m) && x in m.nodes
    ensures Exit(m, x, st).Some? <==> Set(m, x, st)
    ensures Set(m, x, st) ==>
              var m' := Exit(m, x, st).value;
              && Agree(m') && OnlyNode(m, m', x) && Counts(m, m', x, st, -1)
              && m'.nodes[x].currOp == (if Counter(m, x, st) > 1 then m.nodes[x].currOp
                                        else if InUse(m', x) then OpOnExit(st, m.nodes[x].currOp) else OpNone)
  {
    SetIs(m, x, st);
    assert NoOpAgrees(m, x);
    if Set(m, x, st) {
      if Counter(m, x, st) > 1 {
        RawCount(m, x, st, Counter(m, x, st) - 1);
        CountKeepsAgree(m, x, st, Counter(m, x, st) - 1);
      } else {
        LastExit(m, x, st);
      }
    }
  }

  /** The last exit of a node from its only state: no_op comes back. */
  lemma ExitToIdle(m: Manager, x: Nid, st: NodeState)
    requires Agree(m) && x in m.nodes && Set(m, x, st) && Counter(m, x, st) == 1
    requires !InUse(Out(m, x, st, OpOnExit(st, m.nodes[x].currOp)), x)
    ensures var m2 := With(Out(m, x, st, OpOnExit(st, m.nodes[x].currOp)), x, NoOp, OpNone);
            && Exit(m, x, st) == Some(m2) && Coherent(m2) && OnlyNode(m, m2, x) && Counts(m, m2, x, st, -1)
            && !InUse(m2, x) && Set(m2, x, NoOp)
  {
    SetIs(m, x, st);
    var op := OpOnExit(st, m.nodes[x].currOp);
    NoOpCleared(m, x, st, op);
    RawUnset(m, x, st, op);
    var m1 := Out(m, x, st, op);
    EnterNoOp(m1, x);
    var m2 := With(m1, x, NoOp, OpNone);
    assert Put(m2, x, m2.nodes[x].(currOp := OpNone)) == m2;
    OnlyNodeTwice(m, m1, m2, x);
  }

  lemma NoOpCleared(m: Manager, x: Nid, st: NodeState, op: Op)
    requires Agree(m) && x in m.nodes && Set(m, x, st)
    ensures !Set(Out(m, x, st, op), x, NoOp)
  {
    assert NoOpAgrees(m, x);
  }

  lemma EnterNoOp(m: Manager, x: Nid)
    requires Coherent(m) && x in m.nodes && !Set(m, x, NoOp)
    ensures var m' := With(m, x, NoOp, OpNone);
            && Enter(m, x, NoOp) == Some(m') && Coherent(m') && OnlyNode(m, m', x) && Counts(m, m', x, NoOp, 1)
            && (InUse(m', x) <==> InUse(m, x)) && Set(m', x, NoOp)
  {
    SetIs(m, x, NoOp);
    RawSet(m, x, NoOp, OpNone);
  }

  lemma LastExit(m: Manager, x: Nid, st: NodeState)
    requires Agree(m) && x in m.nodes && Set(m, x, st) && Counter(m, x, st) == 1
    ensures var r := Exit(m, x, st);
            && r.Some? && Agree(r.value) && OnlyNode(m, r.value, x) && Counts(m, r.value, x, st, -1)
            && r.value.nodes[x].currOp == (if InUse(r.value, x) then OpOnExit(st, m.nodes[x].currOp) else OpNone)
  {
    SetIs(m, x, st);
    assert NoOpAgrees(m, x);
    var op := OpOnExit(st, m.nodes[x].currOp);
    if InUse(Out(m, x, st, op), x) {
      RawUnset(m, x, st, op);
    } else {
      ExitToIdle(m, x, st);
    }
    AgreeIf(m, Exit(m, x, st).value, x);
  }

  /** When exactly an entry fails an assertion, and when exactly it keeps the agreement: not when it
      enters no_op beside another state, and not when an 8-bit counter wraps. */
  lemma EnterExactly(m: Manager, x: Nid, st: NodeState)
    requires Agree(m) && x in m.nodes
    ensures Enter(m, x, st) == None <==>
              && Set(m, x, st)
              && (st == WriteInProgress || st == DeleteInProgress || st == PendingCreate || st == CreateInProgress || st == NoOp)
    ensures Enter(m, x, st).Some? ==>
              (Agree(Enter(m, x, st).value) <==> st != NoOp && !(Set(m, x, st) && Counter(m, x, st) == 255))
  {
    SetIs(m, x, st);
    if Set(m, x, st) && st.Exclusive() {
    } else if Set(m, x, st) && Counter(m, x, st) == 255 {
      CounterWraps(m, x, st);
    } else if st == NoOp {
      NoOpBesideAnother(m, x);
    } else {
      EnterEffect(m, x, st);
    }
  }

  /** The counter of a state entered for the 256th time is 0 while its bit is set. */
  lemma CounterWraps(m: Manager, x: Nid, st: NodeState)
    requires Agree(m) && x in m.nodes && Set(m, x, st) && !st.Exclusive() && Counter(m, x, st) == 255
    ensures Enter(m, x, st).Some? && !Agree(Enter(m, x, st).value)
  {
    var m' := Enter(m, x, st).value;
    assert NodeAgrees(m', x) ==> Agrees(m', x, st);
  }

  lemma NoOpBesideAnother(m: Manager, x: Nid)
    requires Agree(m) && x in m.nodes && !Set(m, x, NoOp)
    ensures Enter(m, x, NoOp).Some? && !Agree(Enter(m, x, NoOp).value)
  {
    assert NoOpAgrees(m, x);
    SetIs(m, x, NoOp);
    var m' := Enter(m, x, NoOp).value;
    assert !NoOpAgrees(m', x);
  }

  // ---------------------------------------------------------------- the operation in progress

  /** The node shows the operation of the state in progress that it is in, and none if it is in none. */
  ghost predicate ShowsOp(m: Manager, x: Nid)
    requires x in m.nodes
  {
    var op := m.nodes[x].currOp;
    && (op == OpRead <==> Set(m, x, ReadInProgress))
    && (op == OpWrite <==> Set(m, x, WriteInProgress))
    && (op == OpDelete <==> Set(m, x, DeleteInProgress))
    && (op == OpCreate <==> Set(m, x, CreateInProgress))
    && (op == OpNone <==> !Set(m, x, ReadInProgress) && !Set(m, x, WriteInProgress)
                          && !Set(m, x, DeleteInProgress) && !Set(m, x, CreateInProgress))
  }

  /** A state in progress is entered beside no other state in progress. */
  ghost predicate Alone(m: Manager, x: Nid, st: NodeState) {
    st == ReadInProgress || st == WriteInProgress || st == DeleteInProgress || st == CreateInProgress ==>
      && (Set(m, x, ReadInProgress) ==> st == ReadInProgress)
      && (Set(m, x, WriteInProgress) ==> st == WriteInProgress)
      && (Set(m, x, DeleteInProgress) ==> st == DeleteInProgress)
      && (Set(m, x, CreateInProgress) ==> st == CreateInProgress)
  }

  lemma SetAfter(m: Manager, m': Manager, x: Nid, st: NodeState, delta: int, s: NodeState)
    requires Coherent(m) && Coherent(m') && x in m.nodes && x in m'.nodes && Counts(m, m', x, st, delta) && s != NoOp
    ensures Set(m', x, s) <==> Counter(m, x, s) + (if s == st then delta else 0) > 0
    ensures Set(m, x, s) <==> Counter(m, x, s) > 0
  {
    SetIs(m, x, s);
    SetIs(m', x, s);
  }

  /** When exactly a permitted entry keeps the operation right: when it is alone. */
  lemma EntryShowsOp(m: Manager, x: Nid, st: NodeState)
    requires Agree(m) && x in m.nodes && ShowsOp(m, x) && Permitted(m, CallEnter(x, st))
    ensures Enter(m, x, st).Some? && (ShowsOp(Enter(m, x, st).value, x) <==> Alone(m, x, st))
  {
    EnterEffect(m, x, st);
    var m' := Enter(m, x, st).value;
    SetAfter(m, m', x, st, 1, ReadInProgress);
    SetAfter(m, m', x, st, 1, WriteInProgress);
    SetAfter(m, m', x, st, 1, DeleteInProgress);
    SetAfter(m, m', x, st, 1, CreateInProgress);
    SetIs(m, x, st);
  }

  lemma ExitShowsOp(m: Manager, x: Nid, st: NodeState)
    requires Agree(m) && x in m.nodes && ShowsOp(m, x) && Set(m, x, st)
    ensures Exit(m, x, st).Some? && ShowsOp(Exit(m, x, st).value, x)
  {
    ExitEffect(m, x, st);
    var m' := Exit(m, x, st).value;
    SetAfter(m, m', x, st, -1, ReadInProgress);
    SetAfter(m, m', x, st, -1, WriteInProgress);
    SetAfter(m, m', x, st, -1, DeleteInProgress);
    SetAfter(m, m', x, st, -1, CreateInProgress);
  }

  // ---------------------------------------------------------------- creation and destruction of nodes

  /** A new node agrees: it is in no_op only. */
  lemma InitialiseEffect(m: Manager, x: Nid)
    requires Agree(m) && x !in m.nodes
    ensures var r := Initialise(m, x);
            && r.Some? && Agree(r.value) && r.value.nodes.Keys == m.nodes.Keys + {x}
            && (forall y :: y in m.nodes ==> r.value.nodes[y] == m.nodes[y])
            && (forall s :: s != NoOp ==> Counter(r.value, x, s) == 0)
            && r.value.nodes[x].currOp == OpNone
  {
    var m0 := Put(m, x, Node({}, [0, 0, 0, 0, 0, 0, 0, 0, 0], OpDelete));
    BlankCoherent(m, x);
    RawSet(m0, x, NoOp, OpNone);
    SetIs(m0, x, NoOp);
    var m1 := With(m0, x, NoOp, OpNone);
    assert Initialise(m, x) == Some(m1);
    forall y | y in m1.nodes ensures NoOpAgrees(m1, y) {
      if y != x { assert NoOpAgrees(m, y); }
    }
  }

  lemma BlankCoherent(m: Manager, x: Nid)
    requires Agree(m) && x !in m.nodes
    ensures Coherent(Put(m, x, Node({}, [0, 0, 0, 0, 0, 0, 0, 0, 0], OpDelete)))
  {
    var m0 := Put(m, x, Node({}, [0, 0, 0, 0, 0, 0, 0, 0, 0], OpDelete));
    forall y | y in m0.nodes ensures NodeAgrees(m0, y) {
      forall st ensures Agrees(m0, y, st) {
        assert ListAgrees(m, st);
        if y != x { assert NodeAgrees(m, y) && Agrees(m, y, st); }
      }
    }
    forall st ensures ListAgrees(m0, st) { assert ListAgrees(m, st); }
  }

  /** A node can be destroyed exactly when it is in no state and shows no operation. */
  lemma DestroyEffect(m: Manager, x: Nid)
    requires Agree(m) && x in m.nodes
    ensures Destroy(m, x).Some? <==> !InUse(m, x) && m.nodes[x].currOp == OpNone
    ensures Destroy(m, x).Some? ==> Agree(Destroy(m, x).value) && Destroy(m, x).value.nodes == m.nodes - {x}
  {
    assert NoOpAgrees(m, x);
    forall st ensures Set(m, x, st) <==> x in OnList(m, st) { SetIs(m, x, st); }
    if !InUse(m, x) && m.nodes[x].currOp == OpNone {
      forall st | st != NoOp ensures x !in OnList(m, st) { assert !Set(m, x, st); }
      var m' := Destroy(m, x).value;
      forall st ensures ListAgrees(m', st) {
        assert ListAgrees(m, st);
        IndexInjective(st, NoOp);
        WithoutIs(OnList(m, st), x);
      }
      forall y | y in m'.nodes ensures NodeAgrees(m', y) && NoOpAgrees(m', y) {
        assert NodeAgrees(m, y) && NoOpAgrees(m, y);
        forall st ensures Agrees(m', y, st) {
          assert Agrees(m, y, st) && ListAgrees(m, st);
          IndexInjective(st, NoOp);
          WithoutIs(OnList(m, st), x);
        }
      }
    }
  }

  // ---------------------------------------------------------------- any sequence of calls

  datatype Call =
    | CallInit(x: Nid) | CallEnter(x: Nid, st: NodeState) | CallExit(x: Nid, st: NodeState) | CallDestroy(x: Nid)

  /** crud_mgr_init. */
  const EMPTY_MANAGER: Manager := Manager(map[], [[], [], [], [], [], [], [], [], []])

  /** Enter a state other than no_op, not a second time if it is exclusive, and not past what the
      counter holds; exit a state the node is in; destroy an idle node. */
  ghost predicate Permitted(m: Manager, c: Call)
    requires Shaped(m)
  {
    match c
    case CallInit(x) => x !in m.nodes
    case CallEnter(x, st) =>
      x in m.nodes && st != NoOp && (Set(m, x, st) ==> !st.Exclusive() && Counter(m, x, st) < 255)
    case CallExit(x, st) => Set(m, x, st)
    case CallDestroy(x) => x in m.nodes && !InUse(m, x) && m.nodes[x].currOp == OpNone
  }

  function Do(m: Manager, c: Call): Option<Manager>
    requires Shaped(m)
  {
    match c
    case CallInit(x) => if x in m.nodes then None else Initialise(m, x)
    case CallEnter(x, st) => if x in m.nodes then Enter(m, x, st) else None
    case CallExit(x, st) => if x in m.nodes then Exit(m, x, st) else None
    case CallDestroy(x) => if x in m.nodes then Destroy(m, x) else None
  }

  lemma PermittedCall(m: Manager, c: Call)
    requires Agree(m) && Permitted(m, c)
    ensures Do(m, c).Some? && Agree(Do(m, c).value)
  {
    match c
    case CallInit(x) => InitialiseEffect(m, x);
    case CallEnter(x, st) => EnterEffect(m, x, st);
    case CallExit(x, st) => ExitEffect(m, x, st);
    case CallDestroy(x) => DestroyEffect(m, x);
  }

  ghost predicate CallStep(m: Manager, c: Call, m': Manager) {
    Shaped(m) && Permitted(m, c) && Do(m, c) == Some(m')
  }

  ghost predicate Calls(ms: seq<Manager>, calls: seq<Call>) {
    && |ms| == |calls| + 1
    && ms[0] == EMPTY_MANAGER
    && forall i {:trigger calls[i]} :: 0 <= i < |calls| ==> CallStep(ms[i], calls[i], ms[i + 1])
  }

  lemma EmptyAgrees()
    ensures Agree(EMPTY_MANAGER)
  {
    forall st ensures ListAgrees(EMPTY_MANAGER, st) {}
  }

  /** After any sequence of permitted calls on any number of nodes, bits, counters and lists agree,
      and the next permitted call fails no assertion. */
  lemma {:induction false} AgreementOverCalls(ms: seq<Manager>, calls: seq<Call>, k: nat)
    requires Calls(ms, calls) && k < |ms|
    ensures Agree(ms[k])
    ensures forall c :: Permitted(ms[k], c) ==> Do(ms[k], c).Some?
    decreases k
  {
    if k == 0 {
      EmptyAgrees();
    } else {
      AgreementOverCalls(ms, calls, k - 1);
      PermittedCall(ms[k - 1], calls[k - 1]);
    }
    forall c | Permitted(ms[k], c) ensures Do(ms[k], c).Some? {
      PermittedCall(ms[k], c);
    }
  }

  /** So the list of a state is empty exactly when a scan of all nodes finds none in it, and the
      no_op list holds exactly the nodes in no other state. */
  lemma ListsAreScans(ms: seq<Manager>, calls: seq<Call>, k: nat, st: NodeState)
    requires Calls(ms, calls) && k < |ms|
    ensures Shaped(ms[k])
    ensures OnList(ms[k], st) == [] <==> forall x :: x in ms[k].nodes ==> !Set(ms[k], x, st)
    ensures forall x :: x in ms[k].nodes ==> (x in OnList(ms[k], NoOp) <==> !InUse(ms[k], x))
  {
    AgreementOverCalls(ms, calls, k);
    var m := ms[k];
    assert ListAgrees(m, st);
    forall x | x in m.nodes ensures x in OnList(m, NoOp) <==> !InUse(m, x) {
      SetIs(m, x, NoOp);
      assert NoOpAgrees(m, x);
    }
    forall x | x in m.nodes ensures Set(m, x, st) <==> x in OnList(m, st) {
      SetIs(m, x, st);
    }
    if OnList(m, st) != [] {
      assert OnList(m, st)[0] in m.nodes;
    }
  }

  ghost predicate ShowOps(m: Manager) {
    forall x {:trigger ShowsOp(m, x)} :: x in m.nodes ==> ShowsOp(m, x)
  }

  /** The call, if it is an entry into a state in progress, is beside no other. */
  ghost predicate AloneCall(m: Manager, c: Call) {
    c.CallEnter? ==> Alone(m, c.x, c.st)
  }

  lemma CallShowsOps(m: Manager, c: Call)
    requires Agree(m) && ShowOps(m) && Permitted(m, c) && AloneCall(m, c)
    ensures Do(m, c).Some? && ShowOps(Do(m, c).value)
  {
    PermittedCall(m, c);
    var m' := Do(m, c).value;
    forall y | y in m'.nodes ensures ShowsOp(m', y) {
      if y in m.nodes { assert ShowsOp(m, y); }
      match c
      case CallInit(x) =>
        InitialiseEffect(m, x);
        if y == x { InitShowsOp(m, x); }
      case CallEnter(x, st) => EnterEffect(m, x, st); EntryShowsOp(m, x, st);
      case CallExit(x, st) => ExitEffect(m, x, st); ExitShowsOp(m, x, st);
      case CallDestroy(x) => DestroyEffect(m, x);
    }
  }

  lemma InitShowsOp(m: Manager, x: Nid)
    requires Agree(m) && x !in m.nodes
    ensures Initialise(m, x).Some? && x in Initialise(m, x).value.nodes && ShowsOp(Initialise(m, x).value, x)
  {
    InitialiseEffect(m, x);
    var m' := Initialise(m, x).value;
    SetIs(m', x, ReadInProgress);
    SetIs(m', x, WriteInProgress);
    SetIs(m', x, DeleteInProgress);
    SetIs(m', x, CreateInProgress);
  }

  /** After any calls of which each enters a state in progress only beside no other, every node shows
      the read, write, delete or create operation exactly while it is in that state in progress, and
      no operation exactly while it is in none. */
  lemma {:induction false} OpOverCalls(ms: seq<Manager>, calls: seq<Call>, k: nat)
    requires Calls(ms, calls) && k < |ms|
    requires forall i {:trigger calls[i]} :: 0 <= i < |calls| ==> AloneCall(ms[i], calls[i])
    ensures ShowOps(ms[k])
    decreases k
  {
    if k > 0 {
      OpOverCalls(ms, calls, k - 1);
      AgreementOverCalls(ms, calls, k - 1);
      assert CallStep(ms[k - 1], calls[k - 1], ms[k]);
      CallShowsOps(ms[k - 1], calls[k - 1]);
    }
  }

  /** Entries of node x into state st less its exits from it, since the node was last made. */
  ghost function Net(calls: seq<Call>, k: nat, x: Nid, st: NodeState): int
    requires k <= |calls|
  {
    if k == 0 then 0
    else match calls[k - 1]
         case CallInit(y) => if y == x then 0 else Net(calls, k - 1, x, st)
         case CallEnter(y, s) => Net(calls, k - 1, x, st) + if y == x && s == st then 1 else 0
         case CallExit(y, s) => Net(calls, k - 1, x, st) - if y == x && s == st then 1 else 0
         case CallDestroy(y) => Net(calls, k - 1, x, st)
  }

  /** The counter of a state is the number of entries not yet matched by an exit. */
  lemma {:induction false} CounterIsNet(ms: seq<Manager>, calls: seq<Call>, k: nat, x: Nid, st: NodeState)
    requires Calls(ms, calls) && k < |ms| && st != NoOp
    ensures Shaped(ms[k]) && (x in ms[k].nodes ==> Counter(ms[k], x, st) == Net(calls, k, x, st))
    decreases k
  {
    AgreementOverCalls(ms, calls, k);
    if k > 0 {
      AgreementOverCalls(ms, calls, k - 1);
      CounterIsNet(ms, calls, k - 1, x, st);
      if x in ms[k].nodes {
        CounterStep(ms[k - 1], calls[k - 1], ms[k], x, st);
      }
    }
  }

  /** The wrap of a counter is reached: after 255 permitted entries into a state that is not
      exclusive, the 256th is accepted and leaves the counter at 0 with the bit set. */
  lemma WrapReached(x: Nid, st: NodeState) returns (ms: seq<Manager>, calls: seq<Call>)
    requires st != NoOp && !st.Exclusive()
    ensures Calls(ms, calls) && Shaped(ms[|calls|]) && x in ms[|calls|].nodes && Counter(ms[|calls|], x, st) == 255
    ensures var r := Enter(ms[|calls|], x, st);
            r.Some? && Counter(r.value, x, st) == 0 && Set(r.value, x, st)
  {
    ms, calls := EnteredTimes(x, st, 255);
    AgreementOverCalls(ms, calls, |calls|);
    SetIs(ms[|calls|], x, st);
  }

  lemma {:induction false} EnteredTimes(x: Nid, st: NodeState, n: nat) returns (ms: seq<Manager>, calls: seq<Call>)
    requires st != NoOp && !st.Exclusive() && n <= 255
    ensures Calls(ms, calls) && Shaped(ms[|calls|]) && x in ms[|calls|].nodes && Counter(ms[|calls|], x, st) == n
    decreases n
  {
    if n == 0 {
      EmptyAgrees();
      InitialiseEffect(EMPTY_MANAGER, x);
      ms, calls := [EMPTY_MANAGER], [];
      ms := ExtendCalls(ms, calls, CallInit(x));
      calls := calls + [CallInit(x)];
    } else {
      ms, calls := EnteredTimes(x, st, n - 1);
      AgreementOverCalls(ms, calls, |calls|);
      SetIs(ms[|calls|], x, st);
      EnterEffect(ms[|calls|], x, st);
      ms := ExtendCalls(ms, calls, CallEnter(x, st));
      calls := calls + [CallEnter(x, st)];
    }
  }

  lemma ExtendCalls(ms: seq<Manager>, calls: seq<Call>, c: Call) returns (ms': seq<Manager>)
    requires Calls(ms, calls) && Shaped(ms[|calls|]) && Permitted(ms[|calls|], c) && Do(ms[|calls|], c).Some?
    ensures Calls(ms', calls + [c]) && ms'[|calls| + 1] == Do(ms[|calls|], c).value
  {
    ms' := ms + [Do(ms[|calls|], c).value];
    var calls' := calls + [c];
    forall i {:trigger calls'[i]} | 0 <= i < |calls'| ensures CallStep(ms'[i], calls'[i], ms'[i + 1]) {
      assert i < |calls| ==> CallStep(ms[i], calls[i], ms[i + 1]);
    }
  }

  lemma CounterStep(m: Manager, c: Call, m': Manager, x: Nid, st: NodeState)
    requires Agree(m) && Agree(m') && CallStep(m, c, m') && st != NoOp && x in m'.nodes
    ensures x in m.nodes || c == CallInit(x)
    ensures Counter(m', x, st) ==
            match c
            case CallInit(y) => if y == x then 0 else Counter(m, x, st)
            case CallEnter(y, s) => Counter(m, x, st) + if y == x && s == st then 1 else 0
            case CallExit(y, s) => Counter(m, x, st) - if y == x && s == st then 1 else 0
            case CallDestroy(y) => Counter(m, x, st)
  {
    match c
    case CallInit(y) => InitialiseEffect(m, y);
    case CallEnter(y, s) => EnterEffect(m, y, s);
    case CallExit(y, s) => ExitEffect(m, y, s);
    case CallDestroy(y) => DestroyEffect(m, y);
  }
}
