/** Shared vocabulary: thread identities, optional values and facts about finite sets. */
module Base {

  /** A thread handle.  The lock structures use 0 for "no thread". */
  type Tid = t: nat | 0 < t witness 1

  const NO_THREAD: nat := 0

  datatype Option<+T> = None | Some(value: T)

  lemma {:induction false} SubsetSize<T>(a: set<T>, b: set<T>)
    requires a <= b
    ensures |a| <= |b|
    decreases a
  {
    if a != {} {
      var x :| x in a;
      SubsetSize(a - {x}, b - {x});
    }
  }

  lemma EqualSizeSubset<T>(a: set<T>, b: set<T>)
    requires a <= b && |a| == |b|
    ensures a == b
  {
    if x :| x in b && x !in a {
      SubsetSize(a, b - {x});
    }
  }

  lemma AddSize<T>(a: set<T>, x: T)
    requires x !in a
    ensures |a + {x}| == |a| + 1
  {
  }

  lemma RemoveSize<T>(a: set<T>, x: T)
    requires x in a
    ensures |a - {x}| == |a| - 1
  {
  }

  lemma UnionSize<T>(a: set<T>, b: set<T>)
    requires a !! b
    ensures |a + b| == |a| + |b|
  {
  }

  /** The thread a signal wakes: some sleeper when there is one, otherwise nobody. */
  predicate SignalPicks(asleep: set<Tid>, w: Option<Tid>) {
    match w
    case None => asleep == {}
    case Some(t) => t in asleep
  }

  function Picked(w: Option<Tid>): set<Tid> {
    if w.Some? then {w.value} else {}
  }
}
