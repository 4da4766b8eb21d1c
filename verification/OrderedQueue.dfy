/** The ordered, de-duplicating queue (pkg/types/queue.go). */
module OrderedQueues {
  import opened Basics

  ghost predicate TotalOrder<T(!new)>(compare: (T, T) -> int) {
    && (forall a, b :: compare(a, b) == 0 <==> a == b)
    && (forall a, b :: compare(a, b) < 0 <==> compare(b, a) > 0)
    && (forall a, b, c {:trigger compare(a, b), compare(b, c)} ::
          compare(a, b) < 0 && compare(b, c) < 0 ==> compare(a, c) < 0)
  }

  predicate Sorted<T>(compare: (T, T) -> int, s: seq<T>) {
    forall i, j :: 0 <= i < j < |s| ==> compare(s[i], s[j]) < 0
  }

  /** Sorted insertion that ignores an item already present. */
  function Insert<T>(compare: (T, T) -> int, s: seq<T>, item: T): seq<T> {
    if s == [] then [item]
    else if compare(s[0], item) == 0 then s
    else if compare(s[0], item) < 0 then [s[0]] + Insert(compare, s[1..], item)
    else [item] + s
  }

  predicate Below<T>(compare: (T, T) -> int, s: seq<T>, pos: nat, item: T)
    requires pos <= |s|
  {
    forall i :: 0 <= i < pos ==> compare(s[i], item) < 0
  }

  /** Where a scan that passes smaller items stops, and what insertion does there. */
  lemma {:induction false} InsertPoint<T>(compare: (T, T) -> int, s: seq<T>, pos: nat, item: T)
    requires pos <= |s| && Below(compare, s, pos, item)
    ensures pos < |s| && compare(s[pos], item) == 0 ==> Insert(compare, s, item) == s
    ensures pos == |s| || compare(s[pos], item) > 0 ==> Insert(compare, s, item) == s[..pos] + [item] + s[pos..]
    decreases |s|
  {
    if pos == 0 {
    } else {
      var rest := s[1..];
      assert Below(compare, rest, pos - 1, item) by {
        assert forall i :: 0 <= i < pos - 1 ==> rest[i] == s[i + 1];
      }
      InsertPoint(compare, rest, pos - 1, item);
      assert s == [s[0]] + rest;
      assert [s[0]] + rest[..pos - 1] == s[..pos] && rest[pos - 1..] == s[pos..];
    }
  }

  class OrderedQueue<T> {
    var queue: seq<T>
    const compare: (T, T) -> int

    constructor (compare: (T, T) -> int)
      ensures queue == [] && this.compare == compare
    {
      queue := [];
      this.compare := compare;
    }

    /** The scan with early exit and the append-and-shift insert are sorted insertion, for any compare function. */
    method Push(item: T)
      modifies this
      ensures queue == Insert(compare, old(queue), item)
      ensures Step(compare, old(queue), Op.Push(item)) == (queue, None)
    {
      var insertPos := 0;
      for i := 0 to |queue|
        invariant queue == old(queue) && insertPos == i
        invariant Below(compare, queue, i, item)
      {
        var cmp := compare(queue[i], item);
        if cmp == 0 {
          InsertPoint(compare, queue, i, item);
          return;
        }
        if cmp < 0 {
          insertPos := i + 1;
        } else {
          break;
        }
      }
      InsertPoint(compare, queue, insertPos, item);
      var len := |queue|;
      queue := queue + [item];
      if insertPos != len {
        queue := queue[..insertPos + 1] + queue[insertPos..len];
        queue := queue[insertPos := item];
      }
      assert queue == old(queue)[..insertPos] + [item] + old(queue)[insertPos..];
    }

    method Pop() returns (item: Option<T>)
      modifies this
      ensures if old(queue) == [] then item == None && queue == []
              else item == Some(old(queue)[0]) && queue == old(queue)[1..]
      ensures Step(compare, old(queue), Op.Pop) == (queue, item)
    {
      if |queue| == 0 {
        return None;
      }
      item := Some(queue[0]);
      queue := queue[1..];
    }

    method Contains(item: T) returns (found: bool)
      ensures found <==> exists i :: 0 <= i < |queue| && compare(queue[i], item) == 0
    {
      for i := 0 to |queue|
        invariant forall j :: 0 <= j < i ==> compare(queue[j], item) != 0
      {
        if compare(queue[i], item) == 0 {
          return true;
        }
      }
      return false;
    }
  }

  // ---------------------------------------------------------------------------------------------
  // Refinement of a finite set with extract-min

  function Elements<T>(s: seq<T>): set<T> {
    set x | x in s
  }

  lemma {:induction false} InsertMembers<T(!new)>(compare: (T, T) -> int, s: seq<T>, item: T, x: T)
    requires TotalOrder(compare)
    ensures x in Insert(compare, s, item) <==> x in s || x == item
  {
    if s == [] {
    } else {
      assert s == [s[0]] + s[1..];
      InsertMembers(compare, s[1..], item, x);
    }
  }

  lemma {:induction false} InsertSorts<T(!new)>(compare: (T, T) -> int, s: seq<T>, item: T)
    requires TotalOrder(compare) && Sorted(compare, s)
    ensures Sorted(compare, Insert(compare, s, item))
  {
    if s != [] && compare(s[0], item) < 0 {
      InsertSorts(compare, s[1..], item);
      var rest := Insert(compare, s[1..], item);
      forall j | 0 <= j < |rest|
        ensures compare(s[0], rest[j]) < 0
      {
        InsertMembers(compare, s[1..], item, rest[j]);
        if rest[j] != item {
          var k :| 0 <= k < |s[1..]| && s[1..][k] == rest[j];
          assert s[k + 1] == rest[j];
        }
      }
    } else if s != [] && compare(s[0], item) > 0 {
      assert compare(item, s[0]) < 0;
      forall j | 0 <= j < |s|
        ensures compare(item, s[j]) < 0
      {
        assert j == 0 || compare(s[0], s[j]) < 0;
      }
    }
  }

  lemma {:induction false} InsertKeepsOrder<T(!new)>(compare: (T, T) -> int, s: seq<T>, item: T)
    requires TotalOrder(compare) && Sorted(compare, s)
    ensures Elements(Insert(compare, s, item)) == Elements(s) + {item}
    ensures Sorted(compare, Insert(compare, s, item))
  {
    InsertSorts(compare, s, item);
    forall x
      ensures x in Elements(Insert(compare, s, item)) <==> x in Elements(s) + {item}
    {
      InsertMembers(compare, s, item, x);
    }
  }

  /** The first element of a strictly increasing sequence does not come again. */
  lemma {:induction false} TailWithoutHead<T(!new)>(compare: (T, T) -> int, q: seq<T>)
    requires TotalOrder(compare) && Sorted(compare, q) && q != []
    ensures Sorted(compare, q[1..]) && Elements(q[1..]) == Elements(q) - {q[0]}
    ensures forall x :: x in Elements(q) ==> compare(q[0], x) <= 0
  {
    assert q == [q[0]] + q[1..];
    forall i | 0 <= i < |q[1..]|
      ensures q[1..][i] != q[0]
    {
      assert compare(q[0], q[i + 1]) < 0;
    }
  }

  datatype Op<T> = Push(item: T) | Pop

  function Step<T>(compare: (T, T) -> int, q: seq<T>, op: Op<T>): (seq<T>, Option<T>) {
    match op
    case Push(x) => (Insert(compare, q, x), None)
    case Pop => if q == [] then (q, None) else (q[1..], Some(q[0]))
  }

  /** The abstract queue: a set; Pop takes its least element, or nothing when it is empty. */
  ghost predicate SetStep<T(!new)>(compare: (T, T) -> int, s: set<T>, op: Op<T>, out: Option<T>, s': set<T>) {
    match op
    case Push(x) => s' == s + {x} && out == None
    case Pop =>
      if s == {} then s' == {} && out == None
      else out.Some? && out.value in s && (forall x :: x in s ==> compare(out.value, x) <= 0) && s' == s - {out.value}
  }

  ghost predicate SetRun<T(!new)>(compare: (T, T) -> int, s: set<T>, ops: seq<Op<T>>, outs: seq<Option<T>>, s': set<T>)
    decreases |ops|
  {
    |outs| == |ops| &&
    if ops == [] then s' == s
    else exists s1 :: SetStep(compare, s, ops[0], outs[0], s1) && SetRun(compare, s1, ops[1..], outs[1..], s')
  }

  function QueueAfter<T>(compare: (T, T) -> int, q: seq<T>, ops: seq<Op<T>>): seq<T>
    decreases |ops|
  {
    if ops == [] then q else QueueAfter(compare, Step(compare, q, ops[0]).0, ops[1..])
  }

  function Outputs<T>(compare: (T, T) -> int, q: seq<T>, ops: seq<Op<T>>): seq<Option<T>>
    decreases |ops|
  {
    if ops == [] then [] else [Step(compare, q, ops[0]).1] + Outputs(compare, Step(compare, q, ops[0]).0, ops[1..])
  }

  /** Every sequence of operations keeps the slice strictly increasing and answers as the set does. */
  lemma {:induction false} QueueRefinesSet<T(!new)>(compare: (T, T) -> int, q: seq<T>, ops: seq<Op<T>>)
    requires TotalOrder(compare) && Sorted(compare, q)
    ensures Sorted(compare, QueueAfter(compare, q, ops))
    ensures SetRun(compare, Elements(q), ops, Outputs(compare, q, ops), Elements(QueueAfter(compare, q, ops)))
    decreases |ops|
  {
    if ops == [] {
    } else {
      if ops[0].Push? {
        InsertKeepsOrder(compare, q, ops[0].item);
      } else if q != [] {
        TailWithoutHead(compare, q);
        assert q[0] in Elements(q);
      }
      var q1 := Step(compare, q, ops[0]).0;
      QueueRefinesSet(compare, q1, ops[1..]);
      assert Outputs(compare, q, ops)[1..] == Outputs(compare, q1, ops[1..]);
      assert SetStep(compare, Elements(q), ops[0], Outputs(compare, q, ops)[0], Elements(q1));
    }
  }

  /** The set's answers are determined, so the refinement leaves no freedom. */
  lemma {:induction false} SetRunDetermined<T(!new)>(compare: (T, T) -> int, s: set<T>, ops: seq<Op<T>>,
                                                    o1: seq<Option<T>>, s1: set<T>, o2: seq<Option<T>>, s2: set<T>)
    requires TotalOrder(compare)
    requires SetRun(compare, s, ops, o1, s1) && SetRun(compare, s, ops, o2, s2)
    ensures o1 == o2 && s1 == s2
    decreases |ops|
  {
    if ops == [] {
    } else {
      var m1 :| SetStep(compare, s, ops[0], o1[0], m1) && SetRun(compare, m1, ops[1..], o1[1..], s1);
      var m2 :| SetStep(compare, s, ops[0], o2[0], m2) && SetRun(compare, m2, ops[1..], o2[1..], s2);
      assert o1[0] == o2[0] && m1 == m2;
      SetRunDetermined(compare, m1, ops[1..], o1[1..], s1, o2[1..], s2);
      assert o1 == [o1[0]] + o1[1..] && o2 == [o2[0]] + o2[1..];
    }
  }

  lemma {:induction false} SameHead<T(!new)>(compare: (T, T) -> int, s: seq<T>, t: seq<T>)
    requires TotalOrder(compare) && Sorted(compare, s) && Sorted(compare, t)
    requires Elements(s) == Elements(t) && s != []
    ensures t != [] && s[0] == t[0]
  {
    assert s[0] in Elements(t);
    assert t[0] in Elements(s);
    TailWithoutHead(compare, s);
    TailWithoutHead(compare, t);
  }

  /** A strictly increasing sequence is determined by its elements. */
  lemma {:induction false} SortedIsCanonical<T(!new)>(compare: (T, T) -> int, s: seq<T>, t: seq<T>)
    requires TotalOrder(compare) && Sorted(compare, s) && Sorted(compare, t)
    requires Elements(s) == Elements(t)
    ensures s == t
    decreases |s|
  {
    assert t != [] ==> t[0] in Elements(t);
    if s == [] {
    } else {
      SameHead(compare, s, t);
      TailWithoutHead(compare, s);
      TailWithoutHead(compare, t);
      SortedIsCanonical(compare, s[1..], t[1..]);
      assert s == [s[0]] + s[1..] && t == [t[0]] + t[1..];
    }
  }

  function PushAll<T>(compare: (T, T) -> int, items: seq<T>): seq<T>
    decreases |items|
  {
    if items == [] then [] else Insert(compare, PushAll(compare, items[..|items| - 1]), items[|items| - 1])
  }

  lemma {:induction false} PushAllMembers<T(!new)>(compare: (T, T) -> int, items: seq<T>, x: T)
    requires TotalOrder(compare)
    ensures x in PushAll(compare, items) <==> x in items
    decreases |items|
  {
    if items == [] {
    } else {
      var n := |items| - 1;
      assert items == items[..n] + [items[n]];
      PushAllMembers(compare, items[..n], x);
      InsertMembers(compare, PushAll(compare, items[..n]), items[n], x);
    }
  }

  lemma {:induction false} PushAllSorted<T(!new)>(compare: (T, T) -> int, items: seq<T>)
    requires TotalOrder(compare)
    ensures Sorted(compare, PushAll(compare, items))
    decreases |items|
  {
    if items == [] {
    } else {
      PushAllSorted(compare, items[..|items| - 1]);
      InsertSorts(compare, PushAll(compare, items[..|items| - 1]), items[|items| - 1]);
    }
  }

  /** What pushing leaves in the queue: the pushed items, sorted, without duplicates, whatever their order. */
  lemma {:induction false} PushAllSorts<T(!new)>(compare: (T, T) -> int, items: seq<T>)
    requires TotalOrder(compare)
    ensures Sorted(compare, PushAll(compare, items)) && Elements(PushAll(compare, items)) == Elements(items)
  {
    PushAllSorted(compare, items);
    forall x
      ensures x in Elements(PushAll(compare, items)) <==> x in Elements(items)
    {
      PushAllMembers(compare, items, x);
    }
  }

  lemma {:induction false} PushOrderIrrelevant<T(!new)>(compare: (T, T) -> int, a: seq<T>, b: seq<T>)
    requires TotalOrder(compare) && Elements(a) == Elements(b)
    ensures PushAll(compare, a) == PushAll(compare, b)
  {
    PushAllSorts(compare, a);
    PushAllSorts(compare, b);
    SortedIsCanonical(compare, PushAll(compare, a), PushAll(compare, b));
  }

  /** Draining returns the contents in order. */
  lemma {:induction false} DrainReturnsContents<T>(compare: (T, T) -> int, q: seq<T>)
    ensures QueueAfter(compare, q, seq(|q|, _ => Pop)) == []
    ensures Outputs(compare, q, seq(|q|, _ => Pop)) == seq(|q|, i requires 0 <= i < |q| => Some(q[i]))
    decreases |q|
  {
    if q == [] {
    } else {
      var pops: seq<Op<T>> := seq(|q|, _ => Pop);
      var rest: seq<Op<T>> := seq(|q[1..]|, _ => Pop);
      assert pops[0] == Pop && pops[1..] == rest;
      assert Step(compare, q, Pop) == (q[1..], Some(q[0]));
      assert Outputs(compare, q, pops) == [Some(q[0])] + Outputs(compare, q[1..], rest);
      DrainReturnsContents(compare, q[1..]);
    }
  }
}
