/** Pointers as numbers, as far as the queues look at them. */
module Pointers {
  const NULL := 0
}

/** The upward ring of ProducerConsumer/Queue.c. */
module UpwardRing {
  import opened Pointers

  /** The slot i places after front in a ring of size cap. */
  function Up(front: nat, i: nat, cap: nat): (k: nat)
    requires front < cap && i <= cap
    ensures k < cap
  {
    if front + i < cap then front + i else front + i - cap
  }

  lemma UpShifts(f: nat, cap: nat)
    requires f < cap
    ensures forall i {:trigger Up(Up(f, 1, cap), i, cap)} ::
              0 <= i < cap - 1 ==> Up(Up(f, 1, cap), i, cap) == Up(f, i + 1, cap)
    ensures Up(Up(f, 1, cap), cap - 1, cap) == f == Up(f, 0, cap)
  {
  }

  class Queue {
    const elem: array<int>
    var front: nat
    var rear: nat
    var count: nat

    ghost function Capacity(): nat { elem.Length }

    ghost predicate Valid()
      reads this, elem
    {
      && 0 < elem.Length && front < elem.Length && rear < elem.Length && count <= elem.Length
      && rear == (if count == 0 then front else Up(front, count - 1, elem.Length))
      && (forall i {:trigger Up(front, i, elem.Length)} ::
            0 <= i < elem.Length ==> (elem[Up(front, i, elem.Length)] != NULL <==> i < count))
    }

    /** The queued pointers, oldest first. */
    ghost function Contents(): (s: seq<int>)
      requires Valid()
      reads this, elem
      ensures |s| == count
    {
      seq(count, i requires 0 <= i < count && Valid() reads this, elem => elem[Up(front, i, elem.Length)])
    }

    constructor (capacity: nat)
      requires capacity >= 1
      ensures Valid() && fresh(elem) && Capacity() == capacity && Contents() == []
    {
      elem := new int[capacity](_ => NULL);
      front, rear, count := 0, 0, 0;
    }

    method IsEmpty() returns (b: bool)
      requires Valid()
      ensures b <==> Contents() == []
    {
      b := count == 0;
    }

    method IsFull() returns (b: bool)
      requires Valid()
      ensures b <==> |Contents()| == Capacity()
    {
      b := count == elem.Length;
    }

    /** Appends a pointer unless it is NULL or the ring is full. */
    method Enqueue(p: int) returns (ok: bool)
      requires Valid()
      modifies this, elem
      ensures Valid()
      ensures ok <==> p != NULL && |old(Contents())| < Capacity()
      ensures Contents() == if ok then old(Contents()) + [p] else old(Contents())
    {
      if p == NULL || count == elem.Length {
        return false;
      }
      ghost var was := Contents();
      if count == 0 {
        elem[front] := p;
        count := count + 1;
        assert Up(front, 0, elem.Length) == front;
        return true;
      }
      if rear == elem.Length - 1 {
        rear := 0;
      } else {
        rear := rear + 1;
      }
      elem[rear] := p;
      count := count + 1;
      assert rear == Up(front, count - 1, elem.Length);
      assert forall i :: 0 <= i < elem.Length && i != count - 1 ==> Up(front, i, elem.Length) != rear;
      assert Contents() == was + [p];
      return true;
    }

    /** Removes and returns the oldest pointer, or returns NULL. */
    method Deque() returns (p: int)
      requires Valid()
      modifies this, elem
      ensures Valid()
      ensures old(Contents()) == [] ==> p == NULL && Contents() == []
      ensures old(Contents()) != [] ==> p != NULL && old(Contents()) == [p] + Contents()
    {
      if count == 0 {
        return NULL;
      }
      ghost var was, f := Contents(), front;
      assert Up(f, 0, elem.Length) == f;
      p := elem[front];
      elem[front] := NULL;
      count := count - 1;
      if front == rear {
        assert count == 0;
        return;
      }
      if front == elem.Length - 1 {
        front := 0;
      } else {
        front := front + 1;
      }
      assert front == Up(f, 1, elem.Length);
      UpShifts(f, elem.Length);
      assert Valid();
      assert was == [p] + Contents();
    }
  }
}

/** The downward ring of ThreadSyncAdv/threadlib/Fifo_Queue.c, and its other use as an array of
    slots that counts the ones in use. */
module DownwardRing {
  import opened Pointers

  /** The slot i places before front in a ring of size cap, going down. */
  function Down(front: nat, i: nat, cap: nat): (k: nat)
    requires front < cap && i <= cap
    ensures k < cap
  {
    if i <= front then front - i else front + cap - i
  }

  function InUse(s: seq<int>): (n: nat)
    ensures n <= |s|
  {
    if s == [] then 0 else InUse(s[..|s| - 1]) + if s[|s| - 1] == NULL then 0 else 1
  }

  lemma {:induction false} InUseUpdate(s: seq<int>, i: nat, x: int)
    requires i < |s|
    ensures InUse(s[i := x]) == InUse(s) - (if s[i] == NULL then 0 else 1) + (if x == NULL then 0 else 1)
  {
    var n := |s| - 1;
    if i == n {
      assert s[i := x][..n] == s[..n];
    } else {
      InUseUpdate(s[..n], i, x);
      assert s[i := x][..n] == s[..n][i := x];
    }
  }

  lemma {:induction false} InUseNone(s: seq<int>)
    ensures InUse(s) == 0 <==> forall i :: 0 <= i < |s| ==> s[i] == NULL
  {
    if s != [] {
      var n := |s| - 1;
      InUseNone(s[..n]);
      if InUse(s) == 0 {
        forall i | 0 <= i < |s| ensures s[i] == NULL { assert i < n ==> s[..n][i] == s[i]; }
      }
    }
  }

  lemma DownShifts(f: nat, cap: nat)
    requires f < cap
    ensures forall i {:trigger Down(Down(f, 1, cap), i, cap)} ::
              0 <= i < cap - 1 ==> Down(Down(f, 1, cap), i, cap) == Down(f, i + 1, cap)
    ensures Down(Down(f, 1, cap), cap - 1, cap) == f == Down(f, 0, cap)
  {
  }

  class FifoQueue {
    const elem: array<int>
    const randomAccess: bool
    var front: nat
    var rear: nat
    var count: nat

    ghost function Size(): nat { elem.Length }

    ghost predicate Valid()
      reads this, elem
    {
      && 0 < elem.Length
      && if randomAccess then count == InUse(elem[..]) else Ring()
    }

    ghost predicate Ring()
      reads this, elem
    {
      && front < elem.Length && rear < elem.Length && count <= elem.Length
      && rear == (if count == 0 then front else Down(front, count - 1, elem.Length))
      && (forall i {:trigger Down(front, i, elem.Length)} ::
            0 <= i < elem.Length ==> (elem[Down(front, i, elem.Length)] != NULL <==> i < count))
    }

    /** The queued pointers, oldest first. */
    ghost function Contents(): (s: seq<int>)
      requires Valid() && !randomAccess
      reads this, elem
      ensures |s| == count
    {
      seq(count, i requires 0 <= i < count && Ring() reads this, elem => elem[Down(front, i, elem.Length)])
    }

    constructor (size: nat, randomAccess: bool)
      requires size >= 1
      ensures Valid() && fresh(elem) && Size() == size && this.randomAccess == randomAccess && count == 0
      ensures elem[..] == seq(size, _ => NULL)
    {
      elem := new int[size](_ => NULL);
      this.randomAccess := randomAccess;
      front, rear, count := size - 1, size - 1, 0;
      new;
      InUseNone(elem[..]);
    }

    /** Appends a pointer unless it is NULL or the ring is full. */
    method Enqueue(p: int) returns (ok: bool)
      requires Valid() && !randomAccess
      modifies this, elem
      ensures Valid()
      ensures ok <==> p != NULL && |old(Contents())| < Size()
      ensures Contents() == if ok then old(Contents()) + [p] else old(Contents())
    {
      if p == NULL || count == elem.Length {
        return false;
      }
      ghost var was := Contents();
      if count == 0 {
        elem[rear] := p;
        count := count + 1;
        assert Down(front, 0, elem.Length) == front;
        return true;
      }
      if rear == 0 {
        assert count < elem.Length; // the code tests here once more for a full ring
        rear := elem.Length - 1;
      } else {
        rear := rear - 1;
      }
      elem[rear] := p;
      count := count + 1;
      assert rear == Down(front, count - 1, elem.Length);
      assert forall i :: 0 <= i < elem.Length && i != count - 1 ==> Down(front, i, elem.Length) != rear;
      assert Contents() == was + [p];
      return true;
    }

    /** Removes and returns the oldest pointer, or returns NULL. */
    method Deque() returns (p: int)
      requires Valid() && !randomAccess
      modifies this, elem
      ensures Valid()
      ensures old(Contents()) == [] ==> p == NULL && Contents() == []
      ensures old(Contents()) != [] ==> p != NULL && old(Contents()) == [p] + Contents()
    {
      if count == 0 {
        return NULL;
      }
      ghost var was, f := Contents(), front;
      assert Down(f, 0, elem.Length) == f;
      p := elem[front];
      elem[front] := NULL;
      if front == rear {
        count := count - 1;
        return;
      }
      if front == 0 {
        front := elem.Length - 1;
      } else {
        front := front - 1;
      }
      count := count - 1;
      assert front == Down(f, 1, elem.Length);
      DownShifts(f, elem.Length);
      assert Valid();
      assert was == [p] + Contents();
    }

    /** Puts a pointer (or NULL) into a slot and returns what was there; count stays the number of
        slots in use. */
    method InsertOrReplaceAtIndex(p: int, index: nat) returns (was: int)
      requires Valid() && randomAccess && index < elem.Length
      modifies this, elem
      ensures Valid()
      ensures was == old(elem[index]) && elem[..] == old(elem[..])[index := p]
    {
      was := elem[index];
      InUseUpdate(elem[..], index, p);
      ghost var s := elem[..];
      elem[index] := p;
      assert elem[..] == s[index := p];
      if was == NULL && p != NULL {
        count := count + 1;
      } else if was != NULL && p == NULL {
        count := count - 1;
      }
    }
  }
}
