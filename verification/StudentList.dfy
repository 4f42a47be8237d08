/** The singly linked list of CRUD/LinkedList/LinkedListApi.c. */
module SinglyList {

  class Node<T> {
    var data: T
    var next: Node?<T>

    constructor (data: T)
      ensures this.data == data && next == null
    {
      this.data := data;
      next := null;
    }
  }

  class LinkedList<T(==)> {
    var head: Node?<T>
    var nodeCount: nat
    ghost var spine: seq<Node<T>>

    ghost predicate Valid()
      reads this, spine
    {
      && nodeCount == |spine|
      && (forall i, j :: 0 <= i < j < |spine| ==> spine[i] != spine[j])
      && head == At(spine, 0)
      && (forall i {:trigger spine[i].next} :: 0 <= i < |spine| ==> spine[i].next == At(spine, i + 1))
    }

    /** The node at place i of a chain, NULL behind its end. */
    static ghost function At(s: seq<Node<T>>, i: nat): Node?<T> {
      if i < |s| then s[i] else null
    }

    ghost function Data(): (s: seq<T>)
      reads this, spine
      ensures |s| == |spine|
    {
      seq(|spine|, i requires 0 <= i < |spine| reads this, spine => spine[i].data)
    }

    constructor ()
      ensures Valid() && spine == []
    {
      head, nodeCount, spine := null, 0, [];
    }

    /** Links a node in at the front.  In an empty list the node keeps its next link, so there it must
        have none for the result to be a list. */
    method AddNode(node: Node?<T>) returns (rc: int)
      requires Valid() && node !in spine
      modifies this, node
      ensures rc == if node == null then -1 else 0
      ensures node == null ==> Valid() && spine == old(spine) && Data() == old(Data())
      ensures node != null ==> head == node && nodeCount == |old(spine)| + 1 && node.data == old(node.data)
      ensures node != null && (old(spine) != [] || old(node.next) == null) ==> Valid() && spine == [node] + old(spine)
      ensures node != null && old(spine) == [] ==> node.next == old(node.next)
    {
      if node == null {
        return -1;
      }
      if head == null {
        head := node;
        nodeCount := nodeCount + 1;
        spine := [node] + spine;
        return 0;
      }
      node.next := head;
      head := node;
      nodeCount := nodeCount + 1;
      spine := [node] + spine;
      return 0;
    }

    /** The first node that carries the pointer, found by a loop bounded by the node count. */
    method GetNodeByDataPtr(data: T) returns (n: Node?<T>, ghost k: nat)
      requires Valid()
      ensures k <= |spine| && n == At(spine, k) && data !in Data()[..k]
      ensures n != null <==> data in Data()
      ensures n != null ==> n.data == data
    {
      k := 0;
      n := head;
      if head == null {
        return;
      }
      var i := 0;
      while i < nodeCount
        invariant i <= |spine| && n == At(spine, i) && data !in Data()[..i] && k == i
      {
        if n.data == data {
          assert Data()[i] == data;
          return;
        }
        assert Data()[..i + 1] == Data()[..i] + [Data()[i]];
        n := n.next;
        i := i + 1;
        k := i;
      }
      assert Data()[..i] == Data();
    }

    /** Adds a node for the pointer at the front unless one is there already. */
    method AddNodeByVal(data: T) returns (rc: int)
      requires Valid()
      modifies this
      ensures Valid() && rc == (if data in old(Data()) then -1 else 0)
      ensures Data() == if data in old(Data()) then old(Data()) else [data] + old(Data())
      ensures fresh(set x | x in spine && x !in old(spine))
    {
      var n, k := GetNodeByDataPtr(data);
      if n != null {
        return -1;
      }
      ghost var was := Data();
      var node := new Node(data);
      var rc' := AddNode(node);
      assert forall i :: 0 < i < |spine| ==> spine[i] == old(spine)[i - 1];
      assert Data() == [data] + was;
      return 0;
    }

    /** Takes a node out of the list; k is its place, or the length of the list if it is not there.
        The walk is bounded by the node count. */
    method RemoveNode(node: Node?<T>) returns (rc: int, ghost k: nat)
      requires Valid()
      modifies this, spine
      ensures Valid() && k <= |old(spine)|
      ensures k == |old(spine)| <==> node !in old(spine)
      ensures rc == (if k < |old(spine)| || old(spine) == [] then 0 else -1) && (node == null ==> k == |old(spine)|)
      ensures k == |old(spine)| ==> spine == old(spine) && Data() == old(Data())
      ensures k < |old(spine)| ==>
                && old(spine)[k] == node && node.next == null
                && spine == old(spine)[..k] + old(spine)[k + 1..]
                && Data() == old(Data())[..k] + old(Data())[k + 1..]
    {
      k := |spine|;
      if head == null {
        return 0, k;
      }
      if node == null {
        return -1, k;
      }
      var curr: Node?<T> := head;
      if curr == node {
        k := 0;
        head := head.next;
        nodeCount := nodeCount - 1;
        node.next := null;
        spine := spine[1..];
        return 0, k;
      }
      var prev: Node<T> := curr;
      curr := curr.next;
      var i := 1;
      while i < nodeCount
        invariant 1 <= i <= |spine| && curr == At(spine, i) && prev == spine[i - 1]
        invariant node !in spine[..i]
        modifies {}
      {
        if curr == node {
          break;
        }
        prev := curr;
        curr := curr.next;
        i := i + 1;
      }
      if i == nodeCount {
        return -1, k;
      }
      k := i;
      UnlinkAfter(prev, curr, k);
      return 0, k;
    }

    /** Takes out the node at place k, which has a node before it. */
    method UnlinkAfter(prev: Node<T>, node: Node<T>, ghost k: nat)
      requires Valid() && 0 < k < |spine| && spine[k - 1] == prev && spine[k] == node
      modifies this, prev, node
      ensures Valid() && node.next == null && spine == old(spine)[..k] + old(spine)[k + 1..]
      ensures Data() == old(Data())[..k] + old(Data())[k + 1..]
    {
      prev.next := node.next;
      node.next := null;
      nodeCount := nodeCount - 1;
      spine := spine[..k] + spine[k + 1..];
    }

    /** Removes the first node that carries the pointer, if there is one. */
    method DeleteNodeByDataPtr(data: T) returns (ghost k: nat)
      requires Valid()
      modifies this, spine
      ensures Valid() && forall x :: x in spine ==> x in old(spine)
      ensures data !in old(Data()) ==> k == |old(Data())| && Data() == old(Data())
      ensures data in old(Data()) ==>
                && k < |old(Data())| && old(Data())[k] == data && data !in old(Data())[..k]
                && Data() == old(Data())[..k] + old(Data())[k + 1..]
    {
      var n;
      n, k := GetNodeByDataPtr(data);
      if n == null {
        return;
      }
      assert old(Data())[k] == data;
      var rc;
      ghost var k';
      rc, k' := RemoveNode(n);
      assert k' == k;
    }

    /** Reverses the list in place. */
    method Reverse()
      requires Valid()
      modifies this, spine
      ensures Valid() && spine == Reversed(old(spine)) && Data() == Reversed(old(Data()))
    {
      if nodeCount == 0 {
        return;
      }
      if nodeCount == 1 {
        return;
      }
      ghost var s, n := spine, |spine|;
      var p1, p2: Node?<T>, p3: Node?<T> := head, head.next, null;
      p1.next := null;
      ghost var k := 1;
      while true
        invariant 1 <= k < n && p1 == s[k - 1] && p2 == s[k]
        invariant forall i {:trigger s[i].next} :: 0 <= i < k ==> s[i].next == (if i == 0 then null else s[i - 1])
        invariant forall i {:trigger s[i].next} :: k <= i < n ==> s[i].next == At(s, i + 1)
        invariant Data() == old(Data())
        invariant nodeCount == n && spine == s
        decreases n - k
      {
        p3 := p2.next;
        p2.next := p1;
        p1 := p2;
        p2 := p3;
        k := k + 1;
        if p3 == null {
          break;
        }
      }
      head := p1;
      spine := Reversed(s);
      assert forall i :: 0 <= i < n ==> spine[i] == s[n - 1 - i];
    }
  }

  ghost function Reversed<T>(s: seq<T>): (r: seq<T>)
    ensures |r| == |s|
  {
    seq(|s|, i requires 0 <= i < |s| => s[|s| - 1 - i])
  }
}

/** The student container of CRUD/student_list.c. */
module StudentList {
  import opened Base
  import opened SinglyList

  /** student_t with its embedded reference count (CRUD/refcount.c), the threads that hold its
      reader/writer lock, and a name for its address. */
  class Student {
    const id: nat
    const rollNo: nat
    var marks: nat
    var refs: nat
    var rd: set<Tid>
    var wr: set<Tid>

    /** student_malloc. */
    constructor (id: nat, rollNo: nat)
      ensures this.id == id && this.rollNo == rollNo && marks == refs == 0 && rd == wr == {}
    {
      this.id, this.rollNo := id, rollNo;
      marks, refs, rd, wr := 0, 0, {}, {};
    }

    /** ref_count_inc. */
    method RefCountInc()
      modifies `refs
      ensures refs == old(refs) + 1
    {
      refs := refs + 1;
    }

    /** ref_count_dec: whether the count became zero. */
    method RefCountDec() returns (last: bool)
      requires refs > 0
      modifies `refs
      ensures refs == old(refs) - 1 && (last <==> refs == 0)
    {
      refs := refs - 1;
      last := refs == 0;
    }
  }

  /** The finite map a list of students stands for. */
  ghost function RollMap(s: seq<Student>): map<nat, Student> {
    if s == [] then map[] else RollMap(s[1..])[s[0].rollNo := s[0]]
  }

  ghost predicate UniqueRolls(s: seq<Student>) {
    forall i, j :: 0 <= i < j < |s| ==> s[i].rollNo != s[j].rollNo
  }

  lemma {:induction false} RollMapAt(s: seq<Student>, i: nat)
    requires UniqueRolls(s) && i < |s|
    ensures s[i].rollNo in RollMap(s) && RollMap(s)[s[i].rollNo] == s[i]
  {
    if i > 0 {
      RollMapAt(s[1..], i - 1);
    }
  }

  lemma {:induction false} RollMapFrom(s: seq<Student>, r: nat) returns (i: nat)
    requires r in RollMap(s)
    ensures i < |s| && s[i] == RollMap(s)[r] && s[i].rollNo == r
  {
    if r == s[0].rollNo {
      i := 0;
    } else {
      i := RollMapFrom(s[1..], r);
      i := i + 1;
    }
  }

  lemma {:induction false} RollMapWithout(s: seq<Student>, k: nat)
    requires UniqueRolls(s) && k < |s|
    ensures RollMap(s[..k] + s[k + 1..]) == RollMap(s) - {s[k].rollNo}
  {
    var t := s[..k] + s[k + 1..];
    if k == 0 {
      assert t == s[1..];
      if s[0].rollNo in RollMap(t) {
        var j := RollMapFrom(t, s[0].rollNo);
      }
    } else {
      assert t[1..] == s[1..][..k - 1] + s[1..][k..];
      RollMapWithout(s[1..], k - 1);
    }
  }

  lemma UniqueWithout(s: seq<Student>, k: nat)
    requires UniqueRolls(s) && k < |s|
    ensures UniqueRolls(s[..k] + s[k + 1..])
  {
  }

  class StudentLst {
    const lst: LinkedList<Student>

    ghost predicate Valid()
      reads this, lst, lst.spine
    {
      lst.Valid() && UniqueRolls(lst.Data())
    }

    /** The students in the container by roll number. */
    ghost function Students(): map<nat, Student>
      reads this, lst, lst.spine
    {
      RollMap(lst.Data())
    }

    constructor ()
      ensures Valid() && Students() == map[] && fresh(lst)
    {
      lst := new LinkedList<Student>();
    }

    method Lookup(rollNo: nat) returns (stud: Student?)
      requires Valid()
      ensures stud != null <==> rollNo in Students()
      ensures stud != null ==> stud == Students()[rollNo]
    {
      var node1 := lst.head;
      ghost var i := 0;
      while node1 != null
        invariant i <= |lst.spine| && node1 == LinkedList.At(lst.spine, i)
        invariant forall j :: 0 <= j < i ==> lst.Data()[j].rollNo != rollNo
        decreases |lst.spine| - i
      {
        stud := node1.data;
        assert lst.Data()[i] == stud;
        if stud.rollNo == rollNo {
          RollMapAt(lst.Data(), i);
          return;
        }
        node1 := node1.next;
        i := i + 1;
      }
      if rollNo in Students() {
        ghost var j := RollMapFrom(lst.Data(), rollNo);
      }
      return null;
    }

    /** Adds a student unless its roll number is taken. */
    method Insert(stud: Student) returns (ok: bool)
      requires Valid()
      modifies lst
      ensures Valid() && ok == (stud.rollNo !in old(Students()))
      ensures Students() == if ok then old(Students())[stud.rollNo := stud] else old(Students())
      ensures fresh(set x | x in lst.spine && x !in old(lst.spine))
    {
      var stud2 := Lookup(stud.rollNo);
      if stud2 != null {
        return false;
      }
      ghost var s := lst.Data();
      forall i | 0 <= i < |s| ensures s[i].rollNo != stud.rollNo { RollMapAt(s, i); }
      var rc := lst.AddNodeByVal(stud);
      assert lst.Data()[1..] == s;
      return true;
    }

    /** Takes the student with this roll number out. */
    method Remove(rollNo: nat) returns (stud: Student?)
      requires Valid()
      modifies lst, lst.spine
      ensures Valid() && forall x :: x in lst.spine ==> x in old(lst.spine)
      ensures stud == if rollNo in old(Students()) then old(Students())[rollNo] else null
      ensures Students() == old(Students()) - {rollNo}
    {
      stud := Lookup(rollNo);
      if stud == null {
        return null;
      }
      ghost var s := lst.Data();
      ghost var i := RollMapFrom(s, rollNo);
      ghost var k := lst.DeleteNodeByDataPtr(stud);
      RollMapWithout(s, k);
      UniqueWithout(s, k);
    }
  }
}
