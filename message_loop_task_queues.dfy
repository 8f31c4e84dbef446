/**
 * The registry of task queues (`fml::MessageLoopTaskQueues`): one entry per message loop, each with
 * its pending delayed tasks, its task observers and the wakeable that is told when to wake the loop.
 *
 * Locking is not modelled: the registry is single-threaded here. Closures, observer callbacks and
 * wakeables are opaque integer identities; `Wakeable::WakeUp` calls are recorded in a ghost log and
 * the current time is a parameter.
 */
module Fml {
  import opened Wrappers
  import opened DelayedTasks

  /** Identity of a queue: an index into the registry's per-queue sequences. */
  type TaskQueueId = nat

  /** Opaque identity of an observer callback. */
  type ObserverId = int

  /** Opaque identity of an `fml::Wakeable` (the message loop that owns the queue). */
  type WakeableId = int

  /** How much `GetTasksToRunNow` drains: one due task, or every due task. */
  datatype FlushType = Single | All

  /** A time handed to `Wakeable::WakeUp`: a tick count, or `TimePoint::Max()` ("never"). */
  datatype WakeTime = At(time: int) | Max

  /** One recorded call of `Wakeable::WakeUp`. */
  datatype WakeUpCall = WakeUpCall(wakeable: WakeableId, time: WakeTime)

  /** The tasks a drain leaves in the queue and the tasks it takes out, in the order taken. */
  datatype DrainResult = DrainResult(remaining: seq<DelayedTask>, taken: seq<DelayedTask>)

  // ---------------------------------------------------------------------------------------------
  // Draining due tasks
  // ---------------------------------------------------------------------------------------------

  /**
   * What the loop of `GetTasksToRunNow` does to one queue: while the queue is not empty and its top
   * task is due (target time not after `now`), take the top task; stop after one task for `Single`.
   */
  function Drain(tasks: seq<DelayedTask>, flush: FlushType, now: int): DrainResult
    decreases |tasks|
  {
    if |tasks| == 0 || Top(tasks).targetTime > now then DrainResult(tasks, [])
    else if flush == Single then DrainResult(Pop(tasks), [Top(tasks)])
    else
      var rest := Drain(Pop(tasks), flush, now);
      DrainResult(rest.remaining, [Top(tasks)] + rest.taken)
  }

  /** `Drain` with the tasks already taken carried along in `acc`: the state of the drain loop. */
  function DrainOnto(tasks: seq<DelayedTask>, flush: FlushType, now: int, acc: seq<DelayedTask>): DrainResult
    decreases |tasks|
  {
    if |tasks| == 0 || Top(tasks).targetTime > now then DrainResult(tasks, acc)
    else if flush == Single then DrainResult(Pop(tasks), acc + [Top(tasks)])
    else DrainOnto(Pop(tasks), flush, now, acc + [Top(tasks)])
  }

  /** Carrying the taken tasks along computes the same drain. */
  lemma {:induction false} DrainOntoIsDrain(tasks: seq<DelayedTask>, flush: FlushType, now: int, acc: seq<DelayedTask>)
    ensures DrainOnto(tasks, flush, now, acc) ==
      DrainResult(Drain(tasks, flush, now).remaining, acc + Drain(tasks, flush, now).taken)
    decreases |tasks|
  {
    if |tasks| > 0 && Top(tasks).targetTime <= now && flush == All {
      var rest := Drain(Pop(tasks), flush, now);
      DrainOntoIsDrain(Pop(tasks), flush, now, acc + [Top(tasks)]);
      assert (acc + [Top(tasks)]) + rest.taken == acc + ([Top(tasks)] + rest.taken);
    }
  }

  /** The closures of the given tasks, in the same order. */
  function Closures(tasks: seq<DelayedTask>): (r: seq<TaskId>)
    ensures |r| == |tasks|
    ensures forall i :: 0 <= i < |tasks| ==> r[i] == tasks[i].task
  {
    seq(|tasks|, i requires 0 <= i < |tasks| => tasks[i].task)
  }

  /** A drain loses and invents no task: what is left and what is taken make up the queue. */
  lemma {:induction false} DrainConserves(tasks: seq<DelayedTask>, flush: FlushType, now: int)
    ensures multiset(Drain(tasks, flush, now).remaining) + multiset(Drain(tasks, flush, now).taken) == multiset(tasks)
    ensures |Drain(tasks, flush, now).remaining| + |Drain(tasks, flush, now).taken| == |tasks|
    decreases |tasks|
  {
    if |tasks| > 0 && Top(tasks).targetTime <= now {
      PopRemovesTop(tasks);
      if flush == All {
        DrainConserves(Pop(tasks), flush, now);
      }
    }
  }

  /** A drain invents no task. */
  lemma DrainRemainingComesFromQueue(tasks: seq<DelayedTask>, flush: FlushType, now: int)
    ensures forall t :: t in Drain(tasks, flush, now).remaining ==> t in tasks
    ensures forall t :: t in Drain(tasks, flush, now).taken ==> t in tasks
  {
    DrainConserves(tasks, flush, now);
    var r := Drain(tasks, flush, now);
    forall t | t in r.remaining ensures t in tasks {
      assert t in multiset(r.remaining);
      assert t in multiset(tasks);
    }
    forall t | t in r.taken ensures t in tasks {
      assert t in multiset(r.taken);
      assert t in multiset(tasks);
    }
  }

  /** Only due tasks are taken. */
  lemma {:induction false} DrainTakesOnlyDue(tasks: seq<DelayedTask>, flush: FlushType, now: int)
    ensures forall t :: t in Drain(tasks, flush, now).taken ==> t.targetTime <= now
  {
    if |tasks| > 0 && Top(tasks).targetTime <= now && flush == All {
      DrainTakesOnlyDue(Pop(tasks), flush, now);
    }
  }

  /** A drain takes something exactly when some task of the queue is due. */
  lemma {:induction false} DrainTakesIffDue(tasks: seq<DelayedTask>, flush: FlushType, now: int)
    ensures Drain(tasks, flush, now).taken != [] <==> exists t :: t in tasks && t.targetTime <= now
  {
    if |tasks| > 0 && Top(tasks).targetTime > now {
      forall t | t in tasks ensures t.targetTime > now {
        var j :| 0 <= j < |tasks| && tasks[j] == t;
      }
    } else if |tasks| > 0 {
      assert Top(tasks) in tasks;
    }
  }

  /** Draining everything leaves no due task behind. */
  lemma {:induction false} DrainAllLeavesNothingDue(tasks: seq<DelayedTask>, now: int)
    ensures forall t :: t in Drain(tasks, All, now).remaining ==> t.targetTime > now
  {
    if |tasks| == 0 {
    } else if Top(tasks).targetTime > now {
      forall t | t in tasks ensures t.targetTime > now {
        var j :| 0 <= j < |tasks| && tasks[j] == t;
      }
    } else {
      DrainAllLeavesNothingDue(Pop(tasks), now);
    }
  }

  /** Draining one task takes at most the top task and leaves the rest of the queue. */
  lemma DrainSingleTakesAtMostTop(tasks: seq<DelayedTask>, now: int)
    ensures |Drain(tasks, Single, now).taken| <= 1
    ensures Drain(tasks, Single, now).taken != [] ==>
      |tasks| > 0 && Drain(tasks, Single, now) == DrainResult(Pop(tasks), [Top(tasks)])
  {
  }

  /** No task of the sequence precedes one that comes before it. */
  ghost predicate InHeapOrder(s: seq<DelayedTask>) {
    forall i, j :: 0 <= i < j < |s| ==> !Precedes(s[j], s[i])
  }

  /** Putting in front a task that nothing in a heap-ordered sequence precedes keeps it heap-ordered. */
  lemma PrependKeepsHeapOrder(x: DelayedTask, later: seq<DelayedTask>)
    requires InHeapOrder(later)
    requires forall t :: t in later ==> !Precedes(t, x)
    ensures InHeapOrder([x] + later)
  {
    var s := [x] + later;
    forall i, j | 0 <= i < j < |s| ensures !Precedes(s[j], s[i]) {
      assert s[j] == later[j - 1];
      if i > 0 {
        assert s[i] == later[i - 1];
      } else {
        assert later[j - 1] in later;
      }
    }
  }

  /** Tasks are taken in heap order: no later-taken task precedes an earlier-taken one. */
  lemma {:induction false} DrainTakesInHeapOrder(tasks: seq<DelayedTask>, flush: FlushType, now: int)
    ensures InHeapOrder(Drain(tasks, flush, now).taken)
  {
    if |tasks| > 0 && Top(tasks).targetTime <= now && flush == All {
      var rest := Pop(tasks);
      var later := Drain(rest, flush, now).taken;
      DrainTakesInHeapOrder(rest, flush, now);
      DrainRemainingComesFromQueue(rest, flush, now);
      PopLeavesNothingEarlier(tasks);
      assert forall t :: t in later ==> !Precedes(t, Top(tasks));
      PrependKeepsHeapOrder(Top(tasks), later);
      assert Drain(tasks, flush, now).taken == [Top(tasks)] + later;
    }
  }

  /** No task left in the queue precedes a task taken. */
  lemma {:induction false} DrainLeavesNothingEarlier(tasks: seq<DelayedTask>, flush: FlushType, now: int)
    ensures var r := Drain(tasks, flush, now);
      forall t, u :: t in r.remaining && u in r.taken ==> !Precedes(t, u)
  {
    if |tasks| > 0 && Top(tasks).targetTime <= now {
      var rest := Pop(tasks);
      PopLeavesNothingEarlier(tasks);
      if flush == All {
        DrainLeavesNothingEarlier(rest, flush, now);
        DrainRemainingComesFromQueue(rest, flush, now);
        var r := Drain(tasks, flush, now);
        assert r.taken == [Top(tasks)] + Drain(rest, flush, now).taken;
        assert r.remaining == Drain(rest, flush, now).remaining;
      }
    }
  }

  /** A drain keeps order numbers distinct and below any bound they were below. */
  lemma {:induction false} DrainKeepsOrders(tasks: seq<DelayedTask>, flush: FlushType, now: int, bound: nat)
    requires DistinctOrders(tasks) && OrdersBelow(tasks, bound)
    ensures DistinctOrders(Drain(tasks, flush, now).remaining)
    ensures OrdersBelow(Drain(tasks, flush, now).remaining, bound)
  {
    if |tasks| > 0 && Top(tasks).targetTime <= now {
      RemoveAtKeepsOrders(tasks, TopIndex(tasks), bound);
      if flush == All {
        DrainKeepsOrders(Pop(tasks), flush, now, bound);
      }
    }
  }

  /**
   * The loop of `GetTasksToRunNow` on the queue `tasks`: pops due tasks in heap order, appending
   * their closures to `invocations`, and stops at the first task not yet due, when the queue is
   * empty, or after one task for `Single`. Returns what is left of the queue and the extended list.
   */
  method TakeDueTasks(tasks: seq<DelayedTask>, flush: FlushType, now: int, invocations: seq<TaskId>)
    returns (remaining: seq<DelayedTask>, result: seq<TaskId>)
    ensures remaining == Drain(tasks, flush, now).remaining
    ensures result == invocations + Closures(Drain(tasks, flush, now).taken)
  {
    remaining := tasks;
    ghost var taken: seq<DelayedTask> := [];
    result := invocations;
    while |remaining| > 0
      invariant DrainOnto(remaining, flush, now, taken) == DrainOnto(tasks, flush, now, [])
      invariant result == invocations + Closures(taken)
      decreases |remaining|
    {
      var top := Top(remaining);
      if top.targetTime > now {
        break;
      }
      assert Closures(taken + [top]) == Closures(taken) + [top.task];
      result := result + [top.task];
      taken := taken + [top];
      remaining := Pop(remaining);
      if flush == Single {
        break;
      }
    }
    assert DrainOnto(tasks, flush, now, []) == DrainResult(remaining, taken);
    DrainOntoIsDrain(tasks, flush, now, []);
    assert [] + Drain(tasks, flush, now).taken == Drain(tasks, flush, now).taken;
    assert taken == Drain(tasks, flush, now).taken;
  }

  // ---------------------------------------------------------------------------------------------
  // Wake-up times
  // ---------------------------------------------------------------------------------------------

  /** The time the loop must next wake for a queue: `Max` when empty, else the top task's target time. */
  function NextWakeTime(tasks: seq<DelayedTask>): (w: WakeTime)
    ensures w == Max <==> tasks == []
  {
    if |tasks| == 0 then Max else At(Top(tasks).targetTime)
  }

  /** The wake-up time is the earliest target time of the queue, and `Max` only for an empty queue. */
  lemma NextWakeTimeIsEarliest(tasks: seq<DelayedTask>)
    ensures NextWakeTime(tasks) == Max <==> tasks == []
    ensures NextWakeTime(tasks).At? ==>
      (exists t :: t in tasks && t.targetTime == NextWakeTime(tasks).time) &&
      (forall t :: t in tasks ==> NextWakeTime(tasks).time <= t.targetTime)
  {
    if tasks != [] {
      assert Top(tasks) in tasks;
      forall t | t in tasks ensures NextWakeTime(tasks).time <= t.targetTime {
        var j :| 0 <= j < |tasks| && tasks[j] == t;
      }
    }
  }

  /** Registering a task moves the wake-up time to the earlier of the old one and the new target time. */
  lemma NextWakeTimeAfterPush(tasks: seq<DelayedTask>, t: DelayedTask)
    ensures NextWakeTime(tasks + [t]) ==
      match NextWakeTime(tasks)
      case Max => At(t.targetTime)
      case At(w) => At(if w <= t.targetTime then w else t.targetTime)
  {
    var s := tasks + [t];
    NextWakeTimeIsEarliest(tasks);
    NextWakeTimeIsEarliest(s);
    var w := NextWakeTime(s).time;
    assert t in s;
    var u :| u in s && u.targetTime == w;
    if tasks != [] {
      assert Top(tasks) in s;
      if u != t { assert u in tasks; }
    }
  }

  /** After draining everything due, the loop is next woken strictly after `now`, or never. */
  lemma DrainAllWakesInFuture(tasks: seq<DelayedTask>, now: int)
    ensures NextWakeTime(Drain(tasks, All, now).remaining) == Max ||
            NextWakeTime(Drain(tasks, All, now).remaining).time > now
  {
    var rest := Drain(tasks, All, now).remaining;
    DrainAllLeavesNothingDue(tasks, now);
    if rest != [] { assert Top(rest) in rest; }
  }

  /** The `Wakeable::WakeUp` calls a wake-up request makes: none when the queue has no wakeable. */
  function WakeCalls(wakeable: Option<WakeableId>, time: WakeTime): (calls: seq<WakeUpCall>)
    ensures |calls| == if wakeable.Some? then 1 else 0
    ensures forall c :: c in calls ==> wakeable == Some(c.wakeable) && c.time == time
  {
    if wakeable.Some? then [WakeUpCall(wakeable.value, time)] else []
  }

  // ---------------------------------------------------------------------------------------------
  // Observer iteration order
  // ---------------------------------------------------------------------------------------------

  /** A non-empty set of keys has a member. */
  lemma NonEmptyHasKey(keys: set<int>)
    requires keys != {}
    ensures exists k :: k in keys
  {
    if forall k :: k !in keys {
      assert false;
    }
  }

  /** The least key of a non-empty set of observer keys. */
  ghost function MinKey(keys: set<int>): (k: int)
    requires keys != {}
    ensures k in keys && forall j :: j in keys ==> k <= j
  {
    NonEmptyHasKey(keys);
    var x :| x in keys;
    if keys - {x} == {} then
      assert keys == {x};
      x
    else
      var m := MinKey(keys - {x});
      assert forall j :: j in keys ==> j == x || j in keys - {x};
      if x < m then x else m
  }

  /** Every key of the sequence is below every key that comes after it. */
  ghost predicate StrictlyIncreasing(s: seq<int>) {
    forall i, j :: 0 <= i < j < |s| ==> s[i] < s[j]
  }

  /** Putting the least key in front of an ascending listing of the other keys lists all keys. */
  lemma PrependLeast(k: int, keys: set<int>, rest: seq<int>)
    requires k in keys && forall j :: j in keys ==> k <= j
    requires |rest| == |keys - {k}| && StrictlyIncreasing(rest)
    requires forall x :: x in rest <==> x in keys - {k}
    ensures |[k] + rest| == |keys| && StrictlyIncreasing([k] + rest)
    ensures forall x :: x in [k] + rest <==> x in keys
  {
    var s := [k] + rest;
    forall i, j | 0 <= i < j < |s| ensures s[i] < s[j] {
      assert s[j] == rest[j - 1] && rest[j - 1] in rest;
      if i > 0 {
        assert s[i] == rest[i - 1];
      }
    }
  }

  /** The keys of an observer map in the order a `std::map` visits them: ascending, each once. */
  ghost function AscendingKeys(keys: set<int>): (r: seq<int>)
    ensures |r| == |keys|
    ensures forall k :: k in r <==> k in keys
    ensures StrictlyIncreasing(r)
  {
    if keys == {} then []
    else
      var k := MinKey(keys);
      var rest := AscendingKeys(keys - {k});
      PrependLeast(k, keys, rest);
      [k] + rest
  }

  /** Dropping the first key of a strictly increasing listing lists the other keys. */
  lemma TailListsRest(s: seq<int>, keys: set<int>)
    requires |s| > 0 && StrictlyIncreasing(s)
    requires forall k :: k in s <==> k in keys
    ensures StrictlyIncreasing(s[1..])
    ensures forall k :: k in s[1..] <==> k in keys - {s[0]}
  {
    var t := s[1..];
    forall i, j | 0 <= i < j < |t| ensures t[i] < t[j] {
      assert t[i] == s[i + 1] && t[j] == s[j + 1];
    }
    forall k ensures k in s[1..] <==> k in keys - {s[0]} {
      if k in s[1..] {
        var j :| 0 <= j < |s[1..]| && s[1..][j] == k;
        assert s[j + 1] == k;
      }
      if k in keys - {s[0]} {
        var j :| 0 <= j < |s| && s[j] == k;
        assert s[1..][j - 1] == k;
      }
    }
  }

  /** The ascending order of a set of keys is the only strictly increasing listing of it. */
  lemma {:induction false} AscendingKeysUnique(s: seq<int>, keys: set<int>)
    requires StrictlyIncreasing(s)
    requires forall k :: k in s <==> k in keys
    ensures s == AscendingKeys(keys)
    decreases |s|
  {
    if s == [] {
      assert keys == {};
    } else {
      assert s[0] in s;
      var least := MinKey(keys);
      assert s[0] == least by {
        var j :| 0 <= j < |s| && s[j] == least;
        assert s[0] <= s[j];
      }
      TailListsRest(s, keys);
      var rest := s[1..];
      AscendingKeysUnique(rest, keys - {least});
      assert AscendingKeys(keys) == [least] + AscendingKeys(keys - {least});
      assert s == [least] + rest;
    }
  }

  // ---------------------------------------------------------------------------------------------
  // Per-queue table helpers
  // ---------------------------------------------------------------------------------------------

  /** The sequence with the entries at `i` and `j` exchanged (`std::swap` on two vector slots). */
  function Exchange<T>(xs: seq<T>, i: nat, j: nat): (r: seq<T>)
    requires i < |xs| && j < |xs|
    ensures |r| == |xs| && r[i] == xs[j] && r[j] == xs[i]
    ensures forall k :: 0 <= k < |xs| && k != i && k != j ==> r[k] == xs[k]
  {
    xs[i := xs[j]][j := xs[i]]
  }

  /** Exchanging the same two entries twice restores the sequence. */
  lemma ExchangeTwice<T>(xs: seq<T>, i: nat, j: nat)
    requires i < |xs| && j < |xs|
    ensures Exchange(Exchange(xs, i, j), i, j) == xs
  {
    var once := Exchange(xs, i, j);
    var twice := Exchange(once, i, j);
    forall k | 0 <= k < |xs| ensures twice[k] == xs[k] {
      if k == i { assert twice[k] == once[j]; } else if k == j { assert twice[k] == once[i]; }
    }
  }

  /** Tasks of two different queues never share an order number. */
  ghost predicate OrdersDisjoint(queues: seq<seq<DelayedTask>>) {
    forall p, q, a, b ::
      0 <= p < |queues| && 0 <= q < |queues| && p != q && a in queues[p] && b in queues[q] ==>
      a.order != b.order
  }

  /** Order numbers are unique across all queues and all below `next`, the next to be issued. */
  ghost predicate RegistryOrders(queues: seq<seq<DelayedTask>>, next: nat) {
    && (forall q :: 0 <= q < |queues| ==> DistinctOrders(queues[q]) && OrdersBelow(queues[q], next))
    && OrdersDisjoint(queues)
  }

  /** Adding an empty queue keeps order numbers unique. */
  lemma AddQueueKeepsOrders(queues: seq<seq<DelayedTask>>, next: nat)
    requires RegistryOrders(queues, next)
    ensures RegistryOrders(queues + [[]], next)
  {
    var r := queues + [[]];
    forall p, q, a: DelayedTask, b: DelayedTask | 0 <= p < |r| && 0 <= q < |r| && p != q && a in r[p] && b in r[q]
      ensures a.order != b.order
    {
      assert r[p] == queues[p] && r[q] == queues[q];
    }
  }

  /** Replacing a queue by some of its own tasks, with distinct order numbers, keeps them unique. */
  lemma ShrinkQueueKeepsOrders(queues: seq<seq<DelayedTask>>, q: nat, tasks: seq<DelayedTask>, next: nat)
    requires RegistryOrders(queues, next) && q < |queues|
    requires DistinctOrders(tasks) && forall t :: t in tasks ==> t in queues[q]
    ensures RegistryOrders(queues[q := tasks], next)
  {
    var r := queues[q := tasks];
    forall p, p', a: DelayedTask, b: DelayedTask | 0 <= p < |r| && 0 <= p' < |r| && p != p' && a in r[p] && b in r[p']
      ensures a.order != b.order
    {
      assert a in queues[p] && b in queues[p'];
    }
  }

  /** Appending a task that carries the next order number keeps order numbers unique. */
  lemma PushKeepsRegistryOrders(queues: seq<seq<DelayedTask>>, q: nat, t: DelayedTask, next: nat)
    requires RegistryOrders(queues, next) && q < |queues| && t.order == next
    ensures RegistryOrders(queues[q := queues[q] + [t]], next + 1)
  {
    PushKeepsOrders(queues[q], t);
    var r := queues[q := queues[q] + [t]];
    forall p, p', a: DelayedTask, b: DelayedTask | 0 <= p < |r| && 0 <= p' < |r| && p != p' && a in r[p] && b in r[p']
      ensures a.order != b.order
    {
      if p == q && a == t {
        assert b in queues[p'];
      } else if p' == q && b == t {
        assert a in queues[p];
      } else {
        assert a in queues[p] && b in queues[p'];
      }
    }
  }

  /** Exchanging two queues keeps order numbers unique. */
  lemma ExchangeKeepsOrders(queues: seq<seq<DelayedTask>>, i: nat, j: nat, next: nat)
    requires i < |queues| && j < |queues| && RegistryOrders(queues, next)
    ensures RegistryOrders(Exchange(queues, i, j), next)
  {
    var r := Exchange(queues, i, j);
    forall p, q, a: DelayedTask, b: DelayedTask | 0 <= p < |r| && 0 <= q < |r| && p != q && a in r[p] && b in r[q]
      ensures a.order != b.order
    {
      var p' := if p == i then j else if p == j then i else p;
      var q' := if q == i then j else if q == j then i else q;
      assert r[p] == queues[p'] && r[q] == queues[q'] && p' != q';
    }
    forall q | 0 <= q < |r| ensures DistinctOrders(r[q]) && OrdersBelow(r[q], next) {
      var q' := if q == i then j else if q == j then i else q;
      assert r[q] == queues[q'];
    }
  }

  // ---------------------------------------------------------------------------------------------
  // The registry
  // ---------------------------------------------------------------------------------------------

  class MessageLoopTaskQueues {
    /** The id the next created queue receives. */
    var taskQueueIdCounter: nat
    /** Per queue: the wakeable to wake, or none. */
    var wakeables: seq<Option<WakeableId>>
    /** Per queue: the observers, one callback per key. */
    var taskObservers: seq<map<int, ObserverId>>
    /** Per queue: its pending delayed tasks. */
    var delayedTasks: seq<seq<DelayedTask>>
    /** The order number the next registered task receives, shared by all queues. */
    var order: nat
    /** Every `Wakeable::WakeUp` call made so far, in order. */
    ghost var wakeLog: seq<WakeUpCall>

    /**
     * The three per-queue tables are parallel and exactly as long as the id counter; order numbers
     * are unique across the registry and all below the counter.
     */
    ghost predicate Valid()
      reads this
    {
      && |wakeables| == taskQueueIdCounter
      && |taskObservers| == taskQueueIdCounter
      && |delayedTasks| == taskQueueIdCounter
      && RegistryOrders(delayedTasks, order)
    }

    constructor ()
      ensures Valid()
      ensures taskQueueIdCounter == 0 && order == 0
      ensures wakeables == [] && taskObservers == [] && delayedTasks == [] && wakeLog == []
    {
      taskQueueIdCounter := 0;
      wakeables := [];
      taskObservers := [];
      delayedTasks := [];
      order := 0;
      wakeLog := [];
    }

    /** Appends a new queue with no tasks, no observers and no wakeable, and returns its id. */
    method CreateTaskQueue() returns (id: TaskQueueId)
      requires Valid()
      modifies this
      ensures Valid()
      ensures id == old(taskQueueIdCounter) && taskQueueIdCounter == id + 1
      ensures delayedTasks == old(delayedTasks) + [[]]
      ensures taskObservers == old(taskObservers) + [map[]]
      ensures wakeables == old(wakeables) + [None]
      ensures order == old(order) && wakeLog == old(wakeLog)
    {
      AddQueueKeepsOrders(delayedTasks, order);
      id := taskQueueIdCounter;
      taskQueueIdCounter := taskQueueIdCounter + 1;
      taskObservers := taskObservers + [map[]];
      delayedTasks := delayedTasks + [[]];
      wakeables := wakeables + [None];
    }

    /** Drops every pending task of queue `q`; its observers, its wakeable and other queues stay. */
    method Dispose(q: TaskQueueId)
      requires Valid() && q < taskQueueIdCounter
      modifies this
      ensures Valid()
      ensures delayedTasks == old(delayedTasks)[q := []]
      ensures taskObservers == old(taskObservers) && wakeables == old(wakeables)
      ensures taskQueueIdCounter == old(taskQueueIdCounter) && order == old(order)
      ensures wakeLog == old(wakeLog)
    {
      ShrinkQueueKeepsOrders(delayedTasks, q, [], order);
      delayedTasks := delayedTasks[q := []];
    }

    /** Tells the wakeable of queue `q`, if it has one, to wake the loop at `time`. */
    method WakeUp(q: TaskQueueId, time: WakeTime)
      requires q < |wakeables|
      modifies this`wakeLog
      ensures wakeLog == old(wakeLog) + WakeCalls(wakeables[q], time)
    {
      if wakeables[q].Some? {
        wakeLog := wakeLog + [WakeUpCall(wakeables[q].value, time)];
      }
    }

    /**
     * Adds `task` to queue `q` with target time `targetTime` and the next order number, which is
     * above every order number already issued; then wakes the loop at the queue's earliest target time.
     */
    method RegisterTask(q: TaskQueueId, task: TaskId, targetTime: int)
      requires Valid() && q < taskQueueIdCounter
      modifies this
      ensures Valid()
      ensures order == old(order) + 1
      ensures delayedTasks ==
        old(delayedTasks)[q := old(delayedTasks[q]) + [DelayedTask(old(order), task, targetTime)]]
      ensures forall p, t :: 0 <= p < |old(delayedTasks)| && t in old(delayedTasks)[p] ==> t.order < old(order)
      ensures |delayedTasks[q]| == |old(delayedTasks[q])| + 1
      ensures wakeLog == old(wakeLog) + WakeCalls(wakeables[q], NextWakeTime(delayedTasks[q]))
      ensures taskObservers == old(taskObservers) && wakeables == old(wakeables)
      ensures taskQueueIdCounter == old(taskQueueIdCounter)
    {
      var t := DelayedTask(order, task, targetTime);
      PushKeepsRegistryOrders(delayedTasks, q, t, order);
      order := order + 1;
      delayedTasks := delayedTasks[q := delayedTasks[q] + [t]];
      WakeUp(q, At(Top(delayedTasks[q]).targetTime));
    }

    /** Whether queue `q` has pending tasks. */
    method HasPendingTasks(q: TaskQueueId) returns (pending: bool)
      requires q < |delayedTasks|
      ensures pending <==> NextWakeTime(delayedTasks[q]).At?
      ensures pending <==> exists t :: t in delayedTasks[q]
    {
      pending := |delayedTasks[q]| != 0;
      if pending { assert delayedTasks[q][0] in delayedTasks[q]; }
    }

    /** The number of pending tasks of queue `q`. */
    method GetNumPendingTasks(q: TaskQueueId) returns (count: nat)
      requires q < |delayedTasks|
      ensures count == |delayedTasks[q]|
      ensures count == 0 <==> NextWakeTime(delayedTasks[q]) == Max
    {
      count := |delayedTasks[q]|;
    }

    /**
     * Takes the due tasks of queue `q` (all of them, or only the first for `Single`) in heap order,
     * appends their closures to `invocations`, and wakes the loop for what is left.
     */
    method GetTasksToRunNow(q: TaskQueueId, flush: FlushType, now: int, invocations: seq<TaskId>)
      returns (result: seq<TaskId>)
      requires Valid() && q < taskQueueIdCounter
      modifies this
      ensures Valid()
      ensures var d := Drain(old(delayedTasks[q]), flush, now);
        delayedTasks == old(delayedTasks)[q := d.remaining] && result == invocations + Closures(d.taken)
      ensures result[..|invocations|] == invocations
      ensures |delayedTasks[q]| == |old(delayedTasks[q])| - (|result| - |invocations|)
      ensures wakeLog == old(wakeLog) + WakeCalls(wakeables[q], NextWakeTime(delayedTasks[q]))
      ensures taskObservers == old(taskObservers) && wakeables == old(wakeables)
      ensures taskQueueIdCounter == old(taskQueueIdCounter) && order == old(order)
    {
      var tasks;
      tasks, result := TakeDueTasks(delayedTasks[q], flush, now, invocations);
      DrainConserves(delayedTasks[q], flush, now);
      assert RegistryOrders(delayedTasks[q := tasks], order) by {
        DrainKeepsOrders(delayedTasks[q], flush, now, order);
        DrainRemainingComesFromQueue(delayedTasks[q], flush, now);
        ShrinkQueueKeepsOrders(delayedTasks, q, tasks, order);
      }
      delayedTasks := delayedTasks[q := tasks];
      if |delayedTasks[q]| == 0 {
        WakeUp(q, Max);
      } else {
        WakeUp(q, At(Top(delayedTasks[q]).targetTime));
      }
    }

    /** Registers `callback` under `key` for queue `q`, replacing any callback already under that key. */
    method AddTaskObserver(q: TaskQueueId, key: int, callback: ObserverId)
      requires Valid() && q < taskQueueIdCounter
      modifies this
      ensures Valid()
      ensures taskObservers == old(taskObservers)[q := old(taskObservers[q])[key := callback]]
      ensures delayedTasks == old(delayedTasks) && wakeables == old(wakeables)
      ensures taskQueueIdCounter == old(taskQueueIdCounter) && order == old(order)
      ensures wakeLog == old(wakeLog)
    {
      taskObservers := taskObservers[q := taskObservers[q][key := callback]];
    }

    /** Unregisters the callback under `key` for queue `q`; nothing happens when there is none. */
    method RemoveTaskObserver(q: TaskQueueId, key: int)
      requires Valid() && q < taskQueueIdCounter
      modifies this
      ensures Valid()
      ensures taskObservers == old(taskObservers)[q := old(taskObservers[q]) - {key}]
      ensures key !in old(taskObservers[q]) ==> taskObservers == old(taskObservers)
      ensures delayedTasks == old(delayedTasks) && wakeables == old(wakeables)
      ensures taskQueueIdCounter == old(taskQueueIdCounter) && order == old(order)
      ensures wakeLog == old(wakeLog)
    {
      if key !in taskObservers[q] {
        assert taskObservers[q] - {key} == taskObservers[q];
      }
      taskObservers := taskObservers[q := taskObservers[q] - {key}];
    }

    /**
     * Invokes every observer callback of queue `q` once, in ascending key order; the callbacks
     * invoked are returned in the order of invocation.
     */
    method NotifyObservers(q: TaskQueueId) returns (notified: seq<ObserverId>)
      requires q < |taskObservers|
      ensures var keys := AscendingKeys(taskObservers[q].Keys);
        |notified| == |keys| &&
        forall i :: 0 <= i < |keys| ==> notified[i] == taskObservers[q][keys[i]]
    {
      var observers := taskObservers[q];
      var pending := observers.Keys;
      notified := [];
      ghost var visited: seq<int> := [];
      while pending != {}
        invariant pending <= observers.Keys
        invariant forall k :: k in visited <==> k in observers && k !in pending
        invariant forall i :: 0 <= i < |visited| ==> visited[i] in observers
        invariant forall i, j :: 0 <= i < j < |visited| ==> visited[i] < visited[j]
        invariant forall i, k :: 0 <= i < |visited| && k in pending ==> visited[i] < k
        invariant |notified| == |visited|
        invariant forall i :: 0 <= i < |visited| ==> notified[i] == observers[visited[i]]
        decreases pending
      {
        ghost var least := MinKey(pending);
        var key :| key in pending && forall k :: k in pending ==> key <= k;
        notified := notified + [observers[key]];
        visited := visited + [key];
        pending := pending - {key};
      }
      AscendingKeysUnique(visited, observers.Keys);
    }

    /** Exchanges the pending tasks and the observers of queues `p` and `s`; wakeables stay in place. */
    method Swap(p: TaskQueueId, s: TaskQueueId)
      requires Valid() && p < taskQueueIdCounter && s < taskQueueIdCounter
      modifies this
      ensures Valid()
      ensures delayedTasks == Exchange(old(delayedTasks), p, s)
      ensures taskObservers == Exchange(old(taskObservers), p, s)
      ensures wakeables == old(wakeables)
      ensures taskQueueIdCounter == old(taskQueueIdCounter) && order == old(order)
      ensures wakeLog == old(wakeLog)
    {
      ExchangeKeepsOrders(delayedTasks, p, s, order);
      taskObservers := taskObservers[p := taskObservers[s]][s := taskObservers[p]];
      delayedTasks := delayedTasks[p := delayedTasks[s]][s := delayedTasks[p]];
    }

    /** Sets (or clears, with `None`) the wakeable of queue `q`. */
    method SetWakeable(q: TaskQueueId, wakeable: Option<WakeableId>)
      requires Valid() && q < taskQueueIdCounter
      modifies this
      ensures Valid()
      ensures wakeables == old(wakeables)[q := wakeable]
      ensures delayedTasks == old(delayedTasks) && taskObservers == old(taskObservers)
      ensures taskQueueIdCounter == old(taskQueueIdCounter) && order == old(order)
      ensures wakeLog == old(wakeLog)
    {
      wakeables := wakeables[q := wakeable];
    }
  }
}
