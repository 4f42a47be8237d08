/** Insertion by priority, as a function on sequences. */
module PriorityOrder {

  /** A comparison with results -1, 0 and 1 that orders the values up to equality. */
  ghost predicate TotalPreorder(comp: (int, int) -> int) {
    (forall a, b :: Flips(comp, a, b)) && (forall a, b, c :: Transitive(comp, a, b, c))
  }

  ghost predicate Flips(comp: (int, int) -> int, a: int, b: int) {
    -1 <= comp(a, b) <= 1 && comp(a, b) == -comp(b, a)
  }

  ghost predicate Transitive(comp: (int, int) -> int, a: int, b: int, c: int) {
    comp(a, b) != 1 && comp(b, c) != 1 ==> comp(a, c) != 1
  }

  ghost predicate Sorted(s: seq<int>, comp: (int, int) -> int) {
    forall i, j :: 0 <= i < j < |s| ==> comp(s[i], s[j]) != 1
  }

  /** The first place whose value comes after x, or the end. */
  function Place(s: seq<int>, x: int, comp: (int, int) -> int): (k: nat)
    ensures k <= |s|
    ensures forall i :: 0 <= i < k ==> comp(x, s[i]) != -1
    ensures k < |s| ==> comp(x, s[k]) == -1
  {
    if s == [] || comp(x, s[0]) == -1 then 0 else 1 + Place(s[1..], x, comp)
  }

  function Insert(s: seq<int>, x: int, comp: (int, int) -> int): seq<int> {
    var k := Place(s, x, comp);
    s[..k] + [x] + s[k..]
  }

  /** Insertion into a sorted sequence keeps it sorted and puts the new value behind every value it
      equals: exactly those in front of it are not greater. */
  lemma InsertSorted(s: seq<int>, x: int, comp: (int, int) -> int)
    requires TotalPreorder(comp) && Sorted(s, comp)
    ensures Sorted(Insert(s, x, comp), comp)
    ensures forall i :: 0 <= i < |s| ==> (i < Place(s, x, comp) <==> comp(s[i], x) != 1)
  {
    var k := Place(s, x, comp);
    forall i | 0 <= i < |s| ensures i < k <==> comp(s[i], x) != 1 {
      assert Flips(comp, s[i], x);
      if k <= i {
        assert Flips(comp, s[k], x) && Flips(comp, s[k], s[k]) && Flips(comp, s[i], s[k]);
        assert Transitive(comp, s[k], s[i], x);
      }
    }
    var t := Insert(s, x, comp);
    forall i, j | 0 <= i < j < |t| ensures comp(t[i], t[j]) != 1 {
      if i == k { assert Flips(comp, s[j - 1], x); }
    }
  }

  lemma InsertMultiset(s: seq<int>, x: int, comp: (int, int) -> int)
    ensures multiset(Insert(s, x, comp)) == multiset(s) + multiset{x}
  {
    var k := Place(s, x, comp);
    assert s == s[..k] + s[k..];
  }

  /** The values of s that equal z in the order. */
  function Class(s: seq<int>, z: int, comp: (int, int) -> int): seq<int> {
    if s == [] then []
    else (if comp(z, s[0]) == 0 then [s[0]] else []) + Class(s[1..], z, comp)
  }

  lemma {:induction false} ClassConcat(a: seq<int>, b: seq<int>, z: int, comp: (int, int) -> int)
    ensures Class(a + b, z, comp) == Class(a, z, comp) + Class(b, z, comp)
  {
    if a == [] {
      assert a + b == b;
    } else {
      assert (a + b)[1..] == a[1..] + b;
      ClassConcat(a[1..], b, z, comp);
    }
  }

  lemma {:induction false} ClassEmpty(s: seq<int>, z: int, comp: (int, int) -> int)
    ensures Class(s, z, comp) == [] <==> forall i :: 0 <= i < |s| ==> comp(z, s[i]) != 0
  {
    if s != [] {
      ClassEmpty(s[1..], z, comp);
      assert forall i :: 0 < i < |s| ==> s[i] == s[1..][i - 1];
    }
  }

  /** Insertion puts the new value last in its class and moves no other value in or between the
      classes. */
  lemma InsertClass(s: seq<int>, x: int, z: int, comp: (int, int) -> int)
    requires TotalPreorder(comp) && Sorted(s, comp)
    ensures Class(Insert(s, x, comp), z, comp) == Class(s + [x], z, comp)
  {
    var k := Place(s, x, comp);
    var a, b := s[..k], s[k..];
    assert s == a + b;
    ClassConcat(a, [x], z, comp);
    ClassConcat(a + [x], b, z, comp);
    ClassConcat(a, b, z, comp);
    ClassConcat(s, [x], z, comp);
    if comp(z, x) == 0 {
      InsertSorted(s, x, comp);
      forall i | 0 <= i < |b| ensures comp(z, b[i]) != 0 {
        assert comp(s[k + i], x) == 1;
        assert Flips(comp, z, b[i]) && Transitive(comp, b[i], z, x);
      }
      ClassEmpty(b, z, comp);
    }
  }

  /** What is left in a list after xs have been inserted in this order. */
  function InsertAll(xs: seq<int>, comp: (int, int) -> int): seq<int> {
    if xs == [] then [] else Insert(InsertAll(xs[..|xs| - 1], comp), xs[|xs| - 1], comp)
  }

  /** Repeated insertion is a stable sort: sorted, and in every class of equal values the order of
      arrival is kept. */
  lemma {:induction false} StableSort(xs: seq<int>, comp: (int, int) -> int)
    requires TotalPreorder(comp)
    ensures Sorted(InsertAll(xs, comp), comp)
    ensures forall z :: Class(InsertAll(xs, comp), z, comp) == Class(xs, z, comp)
    ensures multiset(InsertAll(xs, comp)) == multiset(xs)
  {
    if xs != [] {
      var n := |xs| - 1;
      StableSort(xs[..n], comp);
      var s := InsertAll(xs[..n], comp);
      assert xs == xs[..n] + [xs[n]];
      InsertSorted(s, xs[n], comp);
      InsertMultiset(s, xs[n], comp);
      forall z ensures Class(InsertAll(xs, comp), z, comp) == Class(xs, z, comp) {
        InsertClass(s, xs[n], z, comp);
        ClassConcat(s, [xs[n]], z, comp);
        ClassConcat(xs[..n], [xs[n]], z, comp);
      }
    }
  }

  /** ... and the only one: a sorted sequence is determined by its classes. */
  lemma {:induction false} StableSortUnique(s: seq<int>, t: seq<int>, comp: (int, int) -> int)
    requires TotalPreorder(comp) && Sorted(s, comp) && Sorted(t, comp)
    requires forall z :: Class(s, z, comp) == Class(t, z, comp)
    ensures s == t
  {
    if s == [] {
      if t != [] { HeadNotGreater(t, s, comp); }
    } else {
      HeadsAgree(s, t, comp);
      assert s[0] == t[0];
      forall z ensures Class(s[1..], z, comp) == Class(t[1..], z, comp) {
        var h := if comp(z, s[0]) == 0 then [s[0]] else [];
        assert h + Class(s[1..], z, comp) == Class(s, z, comp) == Class(t, z, comp) == h + Class(t[1..], z, comp);
        assert Class(s[1..], z, comp) == (h + Class(s[1..], z, comp))[|h|..];
      }
      StableSortUnique(s[1..], t[1..], comp);
    }
  }

  lemma HeadsAgree(s: seq<int>, t: seq<int>, comp: (int, int) -> int)
    requires TotalPreorder(comp) && Sorted(s, comp) && Sorted(t, comp) && s != []
    requires forall z :: Class(s, z, comp) == Class(t, z, comp)
    ensures t != [] && s[0] == t[0]
  {
    HeadNotGreater(s, t, comp);
    HeadNotGreater(t, s, comp);
    assert Flips(comp, s[0], t[0]) && Flips(comp, t[0], s[0]) && Flips(comp, s[0], s[0]);
    assert Class(s, s[0], comp)[0] == s[0] && Class(t, s[0], comp)[0] == t[0];
  }

  lemma HeadNotGreater(s: seq<int>, t: seq<int>, comp: (int, int) -> int)
    requires TotalPreorder(comp) && Sorted(s, comp) && Sorted(t, comp) && s != []
    requires forall z :: Class(s, z, comp) == Class(t, z, comp)
    ensures t != [] && comp(t[0], s[0]) != 1
  {
    var z := s[0];
    assert Flips(comp, z, z);
    assert Class(s, z, comp) == Class(t, z, comp);
    ClassEmpty(s, z, comp);
    ClassEmpty(t, z, comp);
    var i :| 0 <= i < |t| && comp(z, t[i]) == 0;
    assert Flips(comp, t[0], t[0]) && Flips(comp, t[i], z) && Transitive(comp, t[0], t[i], z);
  }

  // ---------------------------------------------------------------- the list as a priority queue

  /** A priority insertion, or the dequeuing of the first value. */
  datatype QueueOp = Put(x: int) | Take

  /** The values in the list after a sequence of operations. */
  function After(ops: seq<QueueOp>, comp: (int, int) -> int): seq<int> {
    if ops == [] then []
    else
      var s := After(ops[..|ops| - 1], comp);
      match ops[|ops| - 1]
      case Put(x) => Insert(s, x, comp)
      case Take => if s == [] then [] else s[1..]
  }

  /** The values equal to z in the order that have arrived and have not been taken, first come first. */
  function Pending(ops: seq<QueueOp>, z: int, comp: (int, int) -> int): seq<int> {
    if ops == [] then []
    else
      var s, q := After(ops[..|ops| - 1], comp), Pending(ops[..|ops| - 1], z, comp);
      match ops[|ops| - 1]
      case Put(x) => if comp(z, x) == 0 then q + [x] else q
      case Take => if s != [] && comp(z, s[0]) == 0 && q != [] then q[1..] else q
  }

  /** After any operations the list is sorted, and equal values stand in it in order of arrival. */
  lemma {:induction false} QueueInOrder(ops: seq<QueueOp>, comp: (int, int) -> int)
    requires TotalPreorder(comp)
    ensures Sorted(After(ops, comp), comp)
    ensures forall z :: Class(After(ops, comp), z, comp) == Pending(ops, z, comp)
  {
    if ops != [] {
      var n := |ops| - 1;
      QueueInOrder(ops[..n], comp);
      var s := After(ops[..n], comp);
      match ops[n]
      case Put(x) =>
        InsertSorted(s, x, comp);
        forall z ensures Class(After(ops, comp), z, comp) == Pending(ops, z, comp) {
          InsertClass(s, x, z, comp);
          ClassConcat(s, [x], z, comp);
        }
      case Take =>
        forall z ensures Class(After(ops, comp), z, comp) == Pending(ops, z, comp) {
          assert Class(s, z, comp) == Pending(ops[..n], z, comp);
        }
    }
  }

  /** What is dequeued next is a least value of the list, and of its equals the first to have arrived. */
  lemma TakesFirstOfLeast(ops: seq<QueueOp>, comp: (int, int) -> int)
    requires TotalPreorder(comp) && After(ops, comp) != []
    ensures var s := After(ops, comp);
            && (forall i :: 0 <= i < |s| ==> comp(s[0], s[i]) != 1)
            && Pending(ops, s[0], comp) != [] && Pending(ops, s[0], comp)[0] == s[0]
  {
    QueueInOrder(ops, comp);
    var s := After(ops, comp);
    assert Flips(comp, s[0], s[0]);
    assert Class(s, s[0], comp) == Pending(ops, s[0], comp);
  }
}

/** The intrusive doubly linked list of gluethread/glthread.c. */
module GlueThread {
  import opened PriorityOrder

  /** A glthread_t together with the value of the record it is embedded in. */
  class Node {
    var left: Node?
    var right: Node?
    const data: int

    constructor (data: int)
      ensures left == null == right && this.data == data
    {
      left, right := null, null;
      this.data := data;
    }
  }

  /** The nodes of a list in order, its base first: distinct, linked both ways, ended by NULL. */
  ghost predicate Chain(c: seq<Node>)
    reads c
  {
    && |c| >= 1
    && (forall i, j :: 0 <= i < j < |c| ==> c[i] != c[j])
    && c[0].left == null && c[|c| - 1].right == null
    && (forall i {:trigger c[i].right} :: 0 <= i < |c| - 1 ==> c[i].right == c[i + 1])
    && (forall i {:trigger c[i].left} :: 0 < i < |c| ==> c[i].left == c[i - 1])
  }

  /** The values of the nodes behind the base. */
  ghost function Values(c: seq<Node>): (s: seq<int>)
    requires |c| >= 1
    ensures |s| == |c| - 1
  {
    seq(|c| - 1, i requires 0 <= i < |c| - 1 => c[i + 1].data)
  }

  /** Links a node in behind a node of a list.  Behind the last one the node keeps its right link, so
      there it must have none for the result to be a list. */
  method AddNext(curr: Node, node: Node, ghost c: seq<Node>, ghost i: nat)
    requires Chain(c) && i < |c| && c[i] == curr && node !in c
    modifies curr, node, curr.right
    ensures i < |c| - 1 || old(node.right) == null ==> Chain(c[..i + 1] + [node] + c[i + 1..])
    ensures i == |c| - 1 ==> curr.right == node && node.left == curr && node.right == old(node.right)
  {
    if curr.right == null {
      curr.right := node;
      node.left := curr;
      assert c[..i + 1] == c && c[i + 1..] == [];
      return;
    }
    var temp := curr.right;
    curr.right := node;
    node.left := curr;
    node.right := temp;
    temp.left := node;
  }

  /** Takes a node out of its list; the node is left with no links. */
  method Remove(curr: Node, ghost c: seq<Node>, ghost i: nat)
    requires Chain(c) && i < |c| && c[i] == curr
    modifies curr, curr.left, curr.right
    ensures curr.left == null == curr.right
    ensures |c| > 1 ==> Chain(c[..i] + c[i + 1..])
  {
    if curr.left == null {
      if curr.right != null {
        curr.right.left := null;
        curr.right := null;
        return;
      }
      return;
    }
    if curr.right == null {
      curr.left.right := null;
      curr.left := null;
      return;
    }
    curr.left.right := curr.right;
    curr.right.left := curr.left;
    curr.left := null;
    curr.right := null;
  }

  /** Takes out the node behind the base. */
  method Unlink(curr: Node, ghost c: seq<Node>)
    requires Chain(c) && |c| > 1 && c[1] == curr
    modifies c[0], curr, curr.right
    ensures curr.left == null == curr.right
    ensures Chain(c[..1] + c[2..])
  {
    Remove(curr, c, 1);
  }

  /** Takes out the first node behind the base. */
  method DequeueFirst(base: Node, ghost c: seq<Node>) returns (first: Node?)
    requires Chain(c) && c[0] == base
    modifies c
    ensures |c| == 1 ==> first == null && Chain(c)
    ensures |c| > 1 ==> first == c[1] && c[1].left == null == c[1].right && Chain([base] + c[2..])
    ensures |c| > 1 ==> first.data == Values(c)[0] && Values([base] + c[2..]) == Values(c)[1..]
  {
    if base.right == null {
      return null;
    }
    first := base.right;
    Remove(first, c, 1);
    assert c[..1] + c[2..] == [base] + c[2..];
  }

  /** Empties the list: every node that was behind the base is loose. */
  method DeleteList(base: Node, ghost c: seq<Node>)
    requires Chain(c) && c[0] == base
    modifies c
    ensures Chain([base])
    ensures forall i :: 0 < i < |c| ==> c[i].left == null == c[i].right
  {
    var ptr := base.right;
    ghost var k, rest := 1, c;
    while ptr != null
      invariant 1 <= k <= |c| && Chain(rest) && rest[0] == base && rest[1..] == c[k..]
      invariant ptr == if k < |c| then c[k] else null
      invariant forall i :: 0 < i < k ==> c[i].left == null == c[i].right
      invariant forall i, j :: 0 <= i < j < |c| ==> c[i] != c[j]
      decreases |c| - k
    {
      assert rest[1] == rest[1..][0] == c[k] && (k + 1 < |c| ==> rest[2] == rest[1..][1] == c[k + 1]);
      var next := ptr.right;
      Unlink(ptr, rest);
      rest := rest[..1] + rest[2..];
      ptr := next;
      k := k + 1;
      assert rest[1..] == c[k..];
    }
    assert rest == [base];
  }

  lemma ValuesInsert(c: seq<Node>, node: Node, comp: (int, int) -> int)
    requires |c| >= 1
    ensures var k := Place(Values(c), node.data, comp);
            Values(c[..k + 1] + [node] + c[k + 1..]) == Insert(Values(c), node.data, comp)
  {
  }

  /** The walk over a list of two values or more to the first one that comes after the new one. */
  method InsertByWalk(base: Node, node: Node, comp: (int, int) -> int, ghost c: seq<Node>, ghost k: nat)
    requires Chain(c) && c[0] == base && node !in c && node.right == null && |c| > 2
    requires k == Place(Values(c), node.data, comp)
    modifies c, node
    ensures Chain(c[..k + 1] + [node] + c[k + 1..])
  {
    var curr, prev: Node? := base.right, null;
    ghost var i := 1;
    while curr != null
      invariant 1 <= i <= |c| && i <= k + 1
      invariant curr == if i < |c| then c[i] else null
      invariant prev == (if i == 1 then null else c[i - 1])
      decreases |c| - i
    {
      var next := curr.right;
      assert Values(c)[i - 1] == curr.data;
      if comp(node.data, curr.data) != -1 {
        prev := curr;
        curr := next;
        i := i + 1;
        continue;
      }
      if prev == null {
        AddNext(base, node, c, 0);
      } else {
        AddNext(prev, node, c, i - 1);
      }
      return;
    }
    AddNext(prev, node, c, |c| - 1);
  }

  /** Links a loose node in at the place its value has in the order; k is that place. */
  method PriorityInsert(base: Node, node: Node, comp: (int, int) -> int, ghost c: seq<Node>) returns (ghost k: nat)
    requires Chain(c) && c[0] == base && node !in c
    modifies c, node
    ensures k == Place(Values(c), node.data, comp)
    ensures Chain(c[..k + 1] + [node] + c[k + 1..])
    ensures Values(c[..k + 1] + [node] + c[k + 1..]) == Insert(Values(c), node.data, comp)
  {
    node.left, node.right := null, null;
    k := Place(Values(c), node.data, comp);
    ValuesInsert(c, node, comp);
    if base.right == null && base.left == null {
      AddNext(base, node, c, 0);
      return;
    }
    if base.right != null && base.right.right == null {
      assert |c| == 2 && Values(c)[0] == c[1].data;
      if comp(node.data, base.right.data) == -1 {
        AddNext(base, node, c, 0);
      } else {
        AddNext(base.right, node, c, 1);
      }
      return;
    }
    InsertByWalk(base, node, comp, c, k);
  }
}
