/** Nodes and manager of ThreadSafeCruds/CrudMgr.cpp as objects: the status is a word of bits. */
module CrudObjects {
  import opened Base
  import opened CrudManager
  import opened CrudArbiter

  // ---------------------------------------------------------------- the status word

  predicate Has(word: bv32, p: bv32) {
    word & p != 0
  }

  predicate IsSet(status: bv32, st: NodeState) {
    Has(status, st.Bit())
  }

  lemma SetSame(s: bv32, p: bv32)
    ensures (s | p) & p == p
  {
  }

  lemma SetOther(s: bv32, p: bv32, q: bv32)
    requires p & q == 0
    ensures (s | p) & q == s & q
  {
  }

  lemma UnsetSame(s: bv32, p: bv32)
    ensures (s & !p) & p == 0
  {
  }

  lemma UnsetOther(s: bv32, p: bv32, q: bv32)
    requires p & q == 0
    ensures (s & !p) & q == s & q
  {
  }

  /** Setting or clearing a bit p, seen at p and at another bit q. */
  lemma WordSet(s: bv32, p: bv32, q: bv32)
    ensures p != 0 ==> Has(s | p, p)
    ensures !Has(p, q) ==> (Has(s | p, q) <==> Has(s, q))
  {
    SetSame(s, p);
    if !Has(p, q) { SetOther(s, p, q); }
  }

  lemma WordUnset(s: bv32, p: bv32, q: bv32)
    ensures !Has(s & !p, p)
    ensures !Has(p, q) ==> (Has(s & !p, q) <==> Has(s, q))
  {
    UnsetSame(s, p);
    if !Has(p, q) { UnsetOther(s, p, q); }
  }

  lemma BitsDiffer(a: NodeState, b: NodeState)
    ensures a.Bit() != 0
    ensures a != b ==> !Has(a.Bit(), b.Bit())
  {
  }

  lemma BitSet(status: bv32, a: NodeState, b: NodeState)
    ensures IsSet(status | a.Bit(), b) <==> a == b || IsSet(status, b)
  {
    BitsDiffer(a, b);
    WordSet(status, a.Bit(), b.Bit());
  }

  lemma BitUnset(status: bv32, a: NodeState, b: NodeState)
    ensures IsSet(status & !a.Bit(), b) <==> a != b && IsSet(status, b)
  {
    BitsDiffer(a, b);
    WordUnset(status, a.Bit(), b.Bit());
  }

  /** The states whose bits are set in a status word. */
  function States(status: bv32): set<NodeState> {
    set st: NodeState | IsSet(status, st)
  }

  lemma StatesSet(status: bv32, a: NodeState)
    ensures States(status | a.Bit()) == States(status) + {a}
  {
    forall b ensures b in States(status | a.Bit()) <==> b in States(status) + {a} { BitSet(status, a, b); }
  }

  lemma StatesUnset(status: bv32, a: NodeState)
    ensures States(status & !a.Bit()) == States(status) - {a}
  {
    forall b ensures b in States(status & !a.Bit()) <==> b in States(status) - {a} { BitUnset(status, a, b); }
  }

  method WithFlag(word: bv32, st: NodeState) returns (r: bv32)
    ensures States(r) == States(word) + {st}
  {
    StatesSet(word, st);
    r := word | st.Bit();
  }

  method WithoutFlag(word: bv32, st: NodeState) returns (r: bv32)
    ensures States(r) == States(word) - {st}
  {
    StatesUnset(word, st);
    r := word & !st.Bit();
  }

  // ---------------------------------------------------------------- the objects

  /** How a request ends its critical section: refused, asleep or granted. */
  datatype Answer = Refuse | Wait | Go

  ghost predicate Answers(r: Reply, before: Manager, after: Manager, a: Answer) {
    match r
    case Rejected => a == Refuse && after == before
    case Blocked(m) => a == Wait && after == m
    case Granted(m) => a == Go && after == m
    case Aborted => false
  }

  class CrudNode {
    var status: bv32
    var counter: seq<nat>
    var currOp: Op

    constructor ()
      ensures status == 0 && counter == [0, 0, 0, 0, 0, 0, 0, 0, 0] && currOp == OpDelete
    {
      status, counter, currOp := 0, [0, 0, 0, 0, 0, 0, 0, 0, 0], OpDelete;
    }

    function View(): Node
      reads this
    {
      Node(States(status), counter, currOp)
    }

    predicate InState(st: NodeState)
      reads this
      ensures InState(st) <==> st in View().status
    {
      IsSet(status, st)
    }

    method SetFlag(st: NodeState)
      modifies `status
      ensures View() == old(View()).(status := old(View()).status + {st})
    {
      status := WithFlag(status, st);
    }

    method UnsetFlag(st: NodeState)
      modifies `status
      ensures View() == old(View()).(status := old(View()).status - {st})
    {
      status := WithoutFlag(status, st);
    }

    /** The node's own part of a first entry. */
    method Begin(st: NodeState)
      requires |counter| == 9
      modifies this
      ensures View() == old(Node(View().status + {st}, counter[st.Index() := 1], OpOnEnter(st, currOp)))
    {
      currOp := OpOnEnter(st, currOp);
      SetFlag(st);
      counter := counter[st.Index() := 1];
    }

    /** The node's own part of a last exit. */
    method End(st: NodeState)
      requires |counter| == 9
      modifies this
      ensures View() == old(Node(View().status - {st}, counter[st.Index() := 0], OpOnExit(st, currOp)))
    {
      counter := counter[st.Index() := 0];
      UnsetFlag(st);
      currOp := OpOnExit(st, currOp);
    }

    predicate NodeInUse()
      reads this
      ensures NodeInUse() <==> exists st :: st != NoOp && st in View().status
    {
      InState(PendingRead) || InState(ReadInProgress) || InState(PendingWrite) || InState(WriteInProgress)
      || InState(PendingDelete) || InState(DeleteInProgress) || InState(PendingCreate) || InState(CreateInProgress)
    }
  }

  class CrudMgr {
    var nodes: map<Nid, CrudNode>
    var lists: seq<seq<Nid>>

    constructor ()
      ensures Valid() && View() == EMPTY_MANAGER
    {
      nodes, lists := map[], [[], [], [], [], [], [], [], [], []];
    }

    /** Different nodes are different objects, and every array has its nine entries. */
    ghost predicate Valid()
      reads this, nodes.Values
    {
      && |lists| == 9
      && (forall x :: x in nodes ==> |nodes[x].counter| == 9)
      && (forall x, y :: x in nodes && y in nodes && x != y ==> nodes[x] != nodes[y])
    }

    ghost function View(): Manager
      reads this, nodes.Values
    {
      Manager(map x | x in nodes :: nodes[x].View(), lists)
    }

    /** The counter of a state, when the state is neither first entered nor last left. */
    method PutCounter(x: Nid, st: NodeState, c: nat)
      requires Valid() && x in nodes
      modifies nodes[x]
      ensures Valid() && View() == old(Put(View(), x, SetCounter(View().nodes[x], st, c)))
    {
      ghost var m := View();
      var n := nodes[x];
      n.counter := n.counter[st.Index() := c];
      assert View() == Put(m, x, n.View());
    }

    method PutOp(x: Nid, op: Op)
      requires Valid() && x in nodes
      modifies nodes[x]
      ensures Valid() && View() == old(Put(View(), x, View().nodes[x].(currOp := op)))
    {
      ghost var m := View();
      nodes[x].currOp := op;
      assert View() == Put(m, x, nodes[x].View());
    }

    method BeginNode(x: Nid, st: NodeState)
      requires Valid() && x in nodes
      modifies nodes[x]
      ensures Valid()
      ensures var n := old(View().nodes[x]);
              View() == Put(old(View()), x, SetCounter(n, st, 1).(status := n.status + {st}, currOp := OpOnEnter(st, n.currOp)))
    {
      ghost var m := View();
      nodes[x].Begin(st);
      assert View() == Put(m, x, nodes[x].View());
    }

    method EndNode(x: Nid, st: NodeState)
      requires Valid() && x in nodes
      modifies nodes[x]
      ensures Valid()
      ensures var n := old(View().nodes[x]);
              View() == Put(old(View()), x, SetCounter(n, st, 0).(status := n.status - {st}, currOp := OpOnExit(st, n.currOp)))
    {
      ghost var m := View();
      nodes[x].End(st);
      assert View() == Put(m, x, nodes[x].View());
    }

    /** First entry: operation, bit, counter and list. */
    method LinkIn(x: Nid, st: NodeState)
      requires Valid() && x in nodes
      modifies `lists, nodes[x]
      ensures Valid() && View() == old(With(View(), x, st, OpOnEnter(st, View().nodes[x].currOp)))
    {
      BeginNode(x, st);
      ghost var m := View();
      lists := lists[st.Index() := [x] + lists[st.Index()]];
      assert View() == Link(m, x, st);
    }

    /** Last exit: bit, operation and list; the counter is at 0 by now. */
    method LinkOut(x: Nid, st: NodeState)
      requires Valid() && x in nodes
      modifies `lists, nodes[x]
      ensures Valid() && View() == old(Out(View(), x, st, OpOnExit(st, View().nodes[x].currOp)))
    {
      EndNode(x, st);
      ghost var m := View();
      lists := lists[st.Index() := Without(lists[st.Index()], x)];
      assert View() == Unlink(m, x, st);
    }

    predicate InState(x: Nid, st: NodeState)
      requires x in nodes
      reads this, nodes.Values
      ensures InState(x, st) <==> CrudManager.Set(View(), x, st)
    {
      nodes[x].InState(st)
    }

    predicate NodeInUse(x: Nid)
      requires x in nodes
      reads this, nodes.Values
      ensures NodeInUse(x) <==> InUse(View(), x)
    {
      nodes[x].NodeInUse()
    }

    /** crud_node_enter_state, for calls that fail none of its assertions. */
    method EnterState(x: Nid, st: NodeState)
      requires Valid() && x in nodes && Enter(View(), x, st).Some?
      modifies `lists, nodes[x]
      ensures Valid() && Some(View()) == old(Enter(View(), x, st))
      decreases if st == NoOp then 0 else 2
    {
      if InState(x, st) {
        PutCounter(x, st, (nodes[x].counter[st.Index()] + 1) % 256);
      } else {
        LinkIn(x, st);
        if st != NoOp && InState(x, NoOp) {
          ExitState(x, NoOp);
        }
      }
    }

    /** crud_node_exit_state, for calls that fail none of its assertions. */
    method ExitState(x: Nid, st: NodeState)
      requires Valid() && x in nodes && Exit(View(), x, st).Some?
      modifies `lists, nodes[x]
      ensures Valid() && Some(View()) == old(Exit(View(), x, st))
      decreases 1
    {
      var c := nodes[x].counter[st.Index()];
      if c > 1 {
        PutCounter(x, st, c - 1);
      } else {
        LinkOut(x, st);
        if !NodeInUse(x) {
          EnterState(x, NoOp);
          PutOp(x, OpNone);
        }
      }
    }

    // -------------------------------------------------------------- requests, up to a wait or a return

    /** The loop of crud_request_read from its top. */
    method TryRead(x: Nid) returns (a: Answer)
      requires Valid() && x in nodes && !ReadLoop(View(), x).Aborted?
      modifies `lists, nodes[x]
      ensures Valid() && Answers(old(ReadLoop(View(), x)), old(View()), View(), a)
    {
      if InState(x, PendingDelete) {
        return Refuse;
      }
      if InState(x, WriteInProgress) {
        EnterState(x, PendingRead);
        return Wait;
      }
      if InState(x, NoOp) {
        assert !NodeInUse(x);
      }
      if InState(x, NoOp) || InState(x, ReadInProgress) || InState(x, PendingRead) {
        EnterState(x, ReadInProgress);
        return Go;
      }
      EnterState(x, PendingRead);
      return Wait;
    }

    /** The loop of crud_request_write from its top. */
    method TryWrite(x: Nid) returns (a: Answer)
      requires Valid() && x in nodes && !WriteLoop(View(), x).Aborted?
      modifies `lists, nodes[x]
      ensures Valid() && Answers(old(WriteLoop(View(), x)), old(View()), View(), a)
    {
      if InState(x, PendingDelete) {
        return Refuse;
      }
      if InState(x, WriteInProgress) {
        EnterState(x, PendingWrite);
        return Wait;
      }
      if InState(x, NoOp) {
        assert !NodeInUse(x);
        EnterState(x, WriteInProgress);
        return Go;
      }
      if InState(x, ReadInProgress) {
        EnterState(x, PendingWrite);
        return Wait;
      }
      EnterState(x, WriteInProgress);
      return Go;
    }

    method ReadRequest(x: Nid) returns (a: Answer)
      requires Valid() && x in nodes && !RequestRead(View(), x).Aborted?
      modifies `lists, nodes[x]
      ensures Valid() && Answers(old(RequestRead(View(), x)), old(View()), View(), a)
    {
      if InState(x, PendingDelete) || InState(x, PendingCreate) || InState(x, DeleteInProgress) || InState(x, CreateInProgress) {
        return Refuse;
      }
      a := TryRead(x);
    }

    method WriteRequest(x: Nid) returns (a: Answer)
      requires Valid() && x in nodes && !RequestWrite(View(), x).Aborted?
      modifies `lists, nodes[x]
      ensures Valid() && Answers(old(RequestWrite(View(), x)), old(View()), View(), a)
    {
      if InState(x, PendingDelete) || InState(x, PendingCreate) || InState(x, DeleteInProgress) || InState(x, CreateInProgress) {
        return Refuse;
      }
      a := TryWrite(x);
    }

    /** After the wait. */
    method ReadResume(x: Nid) returns (a: Answer)
      requires Valid() && x in nodes && !ResumeRead(View(), x).Aborted?
      modifies `lists, nodes[x]
      ensures Valid()
      ensures Answers(old(ResumeRead(View(), x)), old(Exit(View(), x, PendingRead).value), View(), a)
    {
      ExitState(x, PendingRead);
      a := TryRead(x);
    }

    method WriteResume(x: Nid) returns (a: Answer)
      requires Valid() && x in nodes && !ResumeWrite(View(), x).Aborted?
      modifies `lists, nodes[x]
      ensures Valid()
      ensures Answers(old(ResumeWrite(View(), x)), old(Exit(View(), x, PendingWrite).value), View(), a)
    {
      ExitState(x, PendingWrite);
      a := TryWrite(x);
    }

    /** The read and write arms of crud_request_release, for the operation seen before the mutex. */
    method ReleaseRequest(x: Nid, op: Op) returns (k: Wakes)
      requires Valid() && x in nodes && Release(View(), x, op).Some?
      modifies `lists, nodes[x]
      ensures Valid() && Some((View(), k)) == old(Release(View(), x, op))
    {
      if op == OpRead {
        ExitState(x, ReadInProgress);
        if InState(x, ReadInProgress) {
          return Nobody;
        }
      } else {
        ExitState(x, WriteInProgress);
      }
      k := if InState(x, PendingRead) then AllReaders
           else if InState(x, PendingWrite) then OneWriter
           else if InState(x, PendingDelete) then OneDeleter
           else Nobody;
    }
  }
}
