/**
 * The pending tasks of one task queue (`fml::DelayedTaskQueue`, a priority queue of `DelayedTask`).
 *
 * The heap itself is a library container whose comparator lives outside this model. A queue is kept
 * here as the sequence of its tasks in arrival order; `Top` is the task the heap would surface and
 * `Pop` removes exactly that task. The ordering is the one stated by `Precedes` below.
 */
module DelayedTasks {

  /** Opaque identity of an `fml::closure`; closures are never run in this model. */
  type TaskId = int

  /** One registered task: its registry-wide order number, its closure and its target time in ticks. */
  datatype DelayedTask = DelayedTask(order: nat, task: TaskId, targetTime: int)

  /**
   * ASSUMED heap order: a task with an earlier target time comes first; between equal target
   * times, the one with the lower order number (registered earlier) comes first.
   */
  predicate Precedes(a: DelayedTask, b: DelayedTask)
    ensures Precedes(a, b) ==> a.targetTime <= b.targetTime && a != b
  {
    a.targetTime < b.targetTime || (a.targetTime == b.targetTime && a.order < b.order)
  }

  /**
   * The assumed order is strict (no task precedes itself, and it is transitive), and it ranks
   * any two tasks with different order numbers one way or the other.
   */
  lemma PrecedesIsStrictTotal(a: DelayedTask, b: DelayedTask, c: DelayedTask)
    ensures !Precedes(a, a)
    ensures Precedes(a, b) && Precedes(b, c) ==> Precedes(a, c)
    ensures a.order != b.order ==> (Precedes(a, b) <==> !Precedes(b, a))
  {
  }

  /** No two tasks of the queue share an order number. */
  ghost predicate DistinctOrders(s: seq<DelayedTask>) {
    forall i, j :: 0 <= i < j < |s| ==> s[i].order != s[j].order
  }

  /** Every order number in the queue is below `bound`. */
  ghost predicate OrdersBelow(s: seq<DelayedTask>, bound: nat) {
    forall t :: t in s ==> t.order < bound
  }

  /** The position of the task the heap surfaces: no task of the queue precedes it. */
  function TopIndex(s: seq<DelayedTask>): (i: nat)
    requires |s| > 0
    ensures i < |s|
    ensures forall j :: 0 <= j < |s| ==> !Precedes(s[j], s[i])
    ensures forall j :: 0 <= j < |s| ==> s[i].targetTime <= s[j].targetTime
  {
    if |s| == 1 then 0
    else
      var k := TopIndex(s[..|s| - 1]);
      if Precedes(s[|s| - 1], s[k]) then |s| - 1 else k
  }

  /** `DelayedTaskQueue::top()`. */
  function Top(s: seq<DelayedTask>): (t: DelayedTask)
    requires |s| > 0
    ensures t in s
    ensures forall u :: u in s ==> t.targetTime <= u.targetTime && !Precedes(u, t)
  {
    s[TopIndex(s)]
  }

  /** The queue without the element at position `i`, others in their order. */
  function RemoveAt(s: seq<DelayedTask>, i: nat): (r: seq<DelayedTask>)
    requires i < |s|
    ensures |r| == |s| - 1
  {
    s[..i] + s[i + 1..]
  }

  /** `DelayedTaskQueue::pop()`: removes the top task. */
  function Pop(s: seq<DelayedTask>): (r: seq<DelayedTask>)
    requires |s| > 0
    ensures |r| == |s| - 1
  {
    RemoveAt(s, TopIndex(s))
  }

  /** A pop removes exactly one task, the top one, and keeps all others. */
  lemma PopRemovesTop(s: seq<DelayedTask>)
    requires |s| > 0
    ensures multiset(Pop(s)) + multiset{Top(s)} == multiset(s)
  {
    var i := TopIndex(s);
    assert s == s[..i] + [s[i]] + s[i + 1..];
  }

  /** With distinct order numbers the top task strictly precedes every other task of the queue. */
  lemma TopIsUnique(s: seq<DelayedTask>, j: nat)
    requires |s| > 0 && DistinctOrders(s)
    requires j < |s| && j != TopIndex(s)
    ensures Precedes(Top(s), s[j])
  {
    var i := TopIndex(s);
    assert s[i].order != s[j].order by {
      if i < j { } else { }
    }
  }

  /** No task left after a pop precedes the task popped. */
  lemma PopLeavesNothingEarlier(s: seq<DelayedTask>)
    requires |s| > 0
    ensures forall t :: t in Pop(s) ==> t in s && !Precedes(t, Top(s))
  {
    RemoveAtKeepsOrders(s, TopIndex(s), 0);
    forall t | t in Pop(s) ensures !Precedes(t, Top(s)) {
      var j :| 0 <= j < |s| && s[j] == t;
    }
  }

  /** Removing one task keeps the order numbers distinct and bounded, and invents no task. */
  lemma RemoveAtKeepsOrders(s: seq<DelayedTask>, i: nat, bound: nat)
    requires i < |s|
    ensures forall t :: t in RemoveAt(s, i) ==> t in s
    ensures DistinctOrders(s) ==> DistinctOrders(RemoveAt(s, i))
    ensures OrdersBelow(s, bound) ==> OrdersBelow(RemoveAt(s, i), bound)
  {
    var r := RemoveAt(s, i);
    forall t | t in r ensures t in s {
      var k :| 0 <= k < |r| && r[k] == t;
      if k < i { assert s[k] == t; } else { assert s[k + 1] == t; }
    }
    if DistinctOrders(s) {
      forall a, b | 0 <= a < b < |r| ensures r[a].order != r[b].order {
        var a' := if a < i then a else a + 1;
        var b' := if b < i then b else b + 1;
        assert r[a] == s[a'] && r[b] == s[b'] && a' < b';
      }
    }
  }

  /** Appending a task whose order number exceeds every present one keeps the numbers distinct. */
  lemma PushKeepsOrders(s: seq<DelayedTask>, t: DelayedTask)
    requires DistinctOrders(s) && OrdersBelow(s, t.order)
    ensures DistinctOrders(s + [t]) && OrdersBelow(s + [t], t.order + 1)
  {
    var r := s + [t];
    forall a, b | 0 <= a < b < |r| ensures r[a].order != r[b].order {
      if b == |s| { assert r[a] in s; }
    }
  }
}
