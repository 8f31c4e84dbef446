# Task-queue registry and Dart executor, in Dafny

This project models two stateful parts of the Flutter engine and proves properties of them.

**`fml::MessageLoopTaskQueues`** is the registry that every message loop uses for its task queue.
Queue ids are handed out as 0, 1, 2, … and index three parallel per-queue tables:

- the pending delayed tasks, a priority queue ordered by target time;
- the task observers, a map from key to callback;
- the wakeable, which is told when to wake the loop.

Tasks are registered with a target time and an order number. Every queue draws order numbers from the same counter. `GetTasksToRunNow` drains a queue's due tasks in priority order, either one or all of them, and then re-arms the wakeable. `Swap` exchanges two queues' tasks and observers.

The model is the class `Fml.MessageLoopTaskQueues` (`message_loop_task_queues.dfy`):

- The per-queue vectors are `seq` fields, and a queue id is an index into them.
- A task is the record `(order, task, targetTime)`.
- Each observer map is a `map<int, ObserverId>`.
- `Wakeable::WakeUp` calls go into a ghost log.
- The current time is a parameter.

The priority queue itself (`DelayedTaskQueue`) is modelled in `delayed_tasks.dfy` as a sequence with `Top` and `Pop`.

The drain loop of `GetTasksToRunNow` is the method `Fml.TakeDueTasks`, proved against the function `Fml.Drain`. Lemmas about `Drain` state what the loop promises:

- only due tasks are taken;
- with `All`, nothing due is left;
- with `Single`, at most one task is taken;
- tasks come out in heap order;
- nothing is lost.

The class invariant `Valid` says two things. First, the three tables always have as many entries as the id counter. Second, order numbers are distinct across the whole registry and all below the shared counter.

**`DartExecutor`** (Android embedding) starts Dart code at most once. It forwards messages to the `DartMessenger`. It caches the isolate service id reported on the reserved `flutter/isolate` channel and passes it to a single, replaceable listener, with catch-up.

The model is the class `Dart.DartExecutor` (`dart_executor.dfy`):

- The fields are `isApplicationRunning`, `isolateServiceId` and `isolateServiceIdListener`.
- A ghost log records every call the executor makes into `FlutterJNI`, the messenger or the listener.
- A ghost list records every request the executor has received.

Each method is specified by the state-machine function `Dart.Step`. Its invariant `Valid` states that the object is exactly `Dart.Replay` of its requests from `Dart.Initial`. The trace lemmas over `Replay` are therefore facts about every reachable executor:

- start-once, with the first start's arguments forwarded;
- last-write-wins for the isolate id;
- the listener is always informed.

`wrappers.dfy` holds the `Option` type.

## Model

| member | source | states |
|---|---|---|
| DelayedTasks.Precedes | fml/message_loop_task_queues.cc:73 | the assumed heap order: earlier target time first, ties broken by the lower order number; a task only precedes a different task that is not later (strictness and totality are `PrecedesIsStrictTotal`) |
| DelayedTasks.PrecedesIsStrictTotal | fml/message_loop_task_queues.cc:73 | the heap order is irreflexive and transitive, and ranks any two tasks with different order numbers exactly one way |
| DelayedTasks.Top | fml/message_loop_task_queues.cc:73 | the task at the top of a non-empty queue is in the queue, has the least target time, and no task of the queue precedes it |
| DelayedTasks.TopIndex | fml/message_loop_task_queues.cc:73-74 | the top of a non-empty queue is an element with the least target time, and no element precedes it in the assumed (target time, order) heap order |
| DelayedTasks.RemoveAt | fml/message_loop_task_queues.cc:78 | removing one element shortens the queue by exactly one |
| DelayedTasks.Pop | fml/message_loop_task_queues.cc:78 | popping shortens a non-empty queue by exactly one |
| DelayedTasks.PopRemovesTop | fml/message_loop_task_queues.cc:77-78 | popping removes exactly the top task: the remaining tasks plus the top are the old contents as a multiset |
| DelayedTasks.TopIsUnique | fml/message_loop_task_queues.cc:73 | with distinct order numbers, the top strictly precedes every other task, so the top is determined by the contents alone |
| DelayedTasks.PopLeavesNothingEarlier | fml/message_loop_task_queues.cc:77-78 | every task left after a pop was in the queue and does not precede the popped top |
| DelayedTasks.RemoveAtKeepsOrders | fml/message_loop_task_queues.cc:78 | removing a task adds no tasks, and keeps order numbers distinct and below the counter |
| DelayedTasks.PushKeepsOrders | fml/message_loop_task_queues.cc:53-54 | pushing a task whose order number is above all present ones keeps order numbers distinct and below the incremented counter |
| Fml.Drain | fml/message_loop_task_queues.cc:72-82 | the drain loop as a function; its properties are the `Drain…` lemmas below, and `TakeDueTasks` is the loop proved against it |
| Fml.DrainOntoIsDrain | fml/message_loop_task_queues.cc:72-82 | the loop state (remaining tasks and tasks taken so far) computes the same drain as `Drain`, with the tasks taken so far as a prefix |
| Fml.Closures | fml/message_loop_task_queues.cc:77 | the closures appended are those of the taken tasks, one per task, in the same order |
| Fml.DrainConserves | fml/message_loop_task_queues.cc:72-82 | draining loses and invents nothing: remaining plus taken is the old queue as a multiset, and the lengths add up |
| Fml.DrainRemainingComesFromQueue | fml/message_loop_task_queues.cc:72-82 | every remaining and every taken task was in the queue |
| Fml.DrainTakesOnlyDue | fml/message_loop_task_queues.cc:74-77 | every task taken has a target time no later than `now` |
| Fml.DrainTakesIffDue | fml/message_loop_task_queues.cc:72-82 | some task is taken exactly when the queue holds a due task, in both kinds of flush |
| Fml.DrainAllLeavesNothingDue | fml/message_loop_task_queues.cc:72-82 | after an `All` drain, no remaining task has a target time no later than `now` |
| Fml.DrainSingleTakesAtMostTop | fml/message_loop_task_queues.cc:79-81 | a `Single` drain takes at most one task, and that task is the top of the queue |
| Fml.PrependKeepsHeapOrder | fml/message_loop_task_queues.cc:77 | putting a task that nothing later precedes in front of a heap-ordered list keeps it in heap order |
| Fml.DrainTakesInHeapOrder | fml/message_loop_task_queues.cc:72-82 | tasks are taken in heap order: no later-taken task precedes an earlier-taken one |
| Fml.DrainLeavesNothingEarlier | fml/message_loop_task_queues.cc:72-82 | no task left in the queue precedes a task that was taken |
| Fml.DrainKeepsOrders | fml/message_loop_task_queues.cc:72-82 | the remaining tasks keep distinct order numbers below the counter |
| Fml.TakeDueTasks | fml/message_loop_task_queues.cc:72-82 | the drain loop leaves exactly the tasks `Drain` leaves, and returns the caller's invocations with the closures of the tasks `Drain` takes appended, in order |
| Fml.NextWakeTime | fml/message_loop_task_queues.cc:84-88 | the time the loop is woken at after a drain: `Max` exactly for an empty queue; `NextWakeTimeIsEarliest` and `NextWakeTimeAfterPush` state the rest |
| Fml.NextWakeTimeIsEarliest | fml/message_loop_task_queues.cc:84-88 | the wake time is `Max` exactly for an empty queue, and otherwise a target time of a task in the queue no later than any other |
| Fml.NextWakeTimeAfterPush | fml/message_loop_task_queues.cc:54-55 | after a push, the wake time is the earlier of the old wake time and the new task's target time |
| Fml.DrainAllWakesInFuture | fml/message_loop_task_queues.cc:84-88 | after an `All` drain, the loop is woken at `Max` or at a time after `now` |
| Fml.WakeCalls | fml/message_loop_task_queues.cc:93-95 | one wake-up call with the given time to the queue's wakeable when it has one, and none otherwise |
| Fml.MinKey | fml/message_loop_task_queues.cc:118 | the least key of a non-empty observer key set is one of its keys and no larger than any other |
| Fml.PrependLeast | fml/message_loop_task_queues.h:80 | the least key followed by an ascending listing of the other keys is an ascending listing of all keys |
| Fml.AscendingKeys | fml/message_loop_task_queues.h:80 | the iteration order of a `std::map`: every key exactly once, in strictly ascending order |
| Fml.AscendingKeysUnique | fml/message_loop_task_queues.h:80 | any strictly increasing listing of exactly the keys of a set is that set's ascending order |
| Fml.Exchange | fml/message_loop_task_queues.cc:136-137 | `std::swap` on two entries: those two entries are exchanged and every other entry is unchanged |
| Fml.ExchangeTwice | fml/message_loop_task_queues.cc:136-137 | exchanging the same two entries twice restores the original sequence |
| Fml.AddQueueKeepsOrders | fml/message_loop_task_queues.cc:33 | appending an empty queue keeps registry order numbers distinct and below the counter |
| Fml.ShrinkQueueKeepsOrders | fml/message_loop_task_queues.cc:46 | replacing a queue by a sub-collection of its tasks keeps registry order numbers distinct and below the counter |
| Fml.PushKeepsRegistryOrders | fml/message_loop_task_queues.h:107 | a task given the shared counter's current value keeps order numbers distinct across all queues, and below the incremented counter |
| Fml.ExchangeKeepsOrders | fml/message_loop_task_queues.cc:136-137 | swapping two queues keeps registry order numbers distinct and below the counter |
| Fml.MessageLoopTaskQueues.constructor | fml/message_loop_task_queues.cc:39-40 | a new registry has id counter 0, order counter 0 and no queues |
| Fml.MessageLoopTaskQueues.CreateTaskQueue | fml/message_loop_task_queues.cc:23-37 | returns the current counter as the id and increments the counter; the new queue has no tasks, an empty observer map and no wakeable; the invariant is kept |
| Fml.MessageLoopTaskQueues.Dispose | fml/message_loop_task_queues.cc:44-47 | empties only that queue's tasks; its observers, its wakeable and every other queue are unchanged |
| Fml.MessageLoopTaskQueues.WakeUp | fml/message_loop_task_queues.cc:91-96 | one wake-up call at the given time reaches the queue's wakeable, and none when the queue has no wakeable |
| Fml.MessageLoopTaskQueues.RegisterTask | fml/message_loop_task_queues.cc:49-56 | appends the task with the current order number, which is above every order number still queued in any queue, and increments that shared counter; the queue grows by one; the wake-up is at the queue's new earliest target time; other tables are unchanged |
| Fml.MessageLoopTaskQueues.HasPendingTasks | fml/message_loop_task_queues.cc:58-61 | true exactly when the queue holds some task, and so exactly when its wake time is not `Max` |
| Fml.MessageLoopTaskQueues.GetNumPendingTasks | fml/message_loop_task_queues.cc:98-101 | the number of tasks in the queue, which is zero exactly when the queue would be woken at `Max` |
| Fml.MessageLoopTaskQueues.GetTasksToRunNow | fml/message_loop_task_queues.cc:63-89 | the queue becomes what `Drain` leaves and the closures of what `Drain` takes are appended; earlier invocations are kept; the pending count drops by the number appended; the wake-up is at `Max` for an empty queue, else at the top's target time; other queues and tables are unchanged |
| Fml.MessageLoopTaskQueues.AddTaskObserver | fml/message_loop_task_queues.cc:103-108 | inserts the callback under its key, or replaces the callback already there; nothing else changes |
| Fml.MessageLoopTaskQueues.RemoveTaskObserver | fml/message_loop_task_queues.cc:110-114 | deletes only that key from that queue's observers, and is a no-op when the key is absent |
| Fml.MessageLoopTaskQueues.NotifyObservers | fml/message_loop_task_queues.cc:116-121 | every current observer of the queue is invoked exactly once, in ascending key order |
| Fml.MessageLoopTaskQueues.Swap | fml/message_loop_task_queues.cc:124-138 | exchanges the two queues' tasks and observer maps; wakeables, counters and every other queue are unchanged |
| Fml.MessageLoopTaskQueues.SetWakeable | fml/message_loop_task_queues.cc:140-144 | sets or clears that queue's wakeable only |
| Dart.RunCalls | shell/platform/android/io/flutter/embedding/engine/dart/DartExecutor.java:122-127 | exactly the native run calls of a log: every element is a run call of the log, and every run call of the log is an element |
| Dart.RunCallsExact | shell/platform/android/io/flutter/embedding/engine/dart/DartExecutor.java:122-127 | the run calls of a log are those of the log with the same multiplicity, so counting them counts the native run calls made |
| Dart.Notifications | shell/platform/android/io/flutter/embedding/engine/dart/DartExecutor.java:58-60 | exactly the listener calls of a log: every element is a listener call of the log, and every listener call of the log is an element |
| Dart.NotificationsExact | shell/platform/android/io/flutter/embedding/engine/dart/DartExecutor.java:58-60 | the listener calls of a log are those of the log with the same multiplicity, so counting them counts the notifications made |
| Dart.Initial | shell/platform/android/io/flutter/embedding/engine/dart/DartExecutor.java:64-68 | a new executor: not running, no id, no listener, no run call and no notification made, and its own handler registered for `flutter/isolate` |
| Dart.RunCall | shell/platform/android/io/flutter/embedding/engine/dart/DartExecutor.java:122-127 | the native call of a start is a `runBundleAndSnapshotFromLibrary`, with no library path exactly for an entrypoint start (a callback passes its library path, lines 147-152) |
| Dart.Step | shell/platform/android/io/flutter/embedding/engine/dart/DartExecutor.java:114-226 | one public call or isolate message: the log only grows, by at most one call; the running flag is never cleared; the cached id changes only on an isolate message and the listener only on `setIsolateServiceIdListener`; the trace lemmas below state the rest |
| Dart.StepIsolateId | shell/platform/android/io/flutter/embedding/engine/dart/DartExecutor.java:57 | an isolate message replaces the cached id by the decoded one, and every other request leaves it unchanged |
| Dart.StartWhileRunningIsNoOp | shell/platform/android/io/flutter/embedding/engine/dart/DartExecutor.java:115-118 | starting an executor that is already running, through either variant, changes no state and makes no call |
| Dart.StepForwardsRunOnlyWhenIdle | shell/platform/android/io/flutter/embedding/engine/dart/DartExecutor.java:114-155 | a request makes a native run call only when it is a start on an idle executor, and then exactly one, with the variant's arguments; the running flag is set by a start and never cleared |
| Dart.ReplayStartsOnce | shell/platform/android/io/flutter/embedding/engine/dart/DartExecutor.java:114-155 | for any request sequence from a new executor: it runs exactly when some start came; it then made exactly one run call, carrying the first start's arguments; otherwise it made none |
| Dart.ReplayIsolateIdLastWriteWins | shell/platform/android/io/flutter/embedding/engine/dart/DartExecutor.java:53-62 | the cached isolate id is the one decoded from the last isolate-channel message, or the original one if there was no such message |
| Dart.DeliveryNotifiesListenerOnce | shell/platform/android/io/flutter/embedding/engine/dart/DartExecutor.java:56-61 | an isolate-channel message caches the decoded id and calls the installed listener once with it, or calls nothing if no listener is installed |
| Dart.ListenerCatchesUp | shell/platform/android/io/flutter/embedding/engine/dart/DartExecutor.java:221-226 | installing a listener replaces the old one; the new listener is called at once with an already cached id, and nothing is called when either is absent |
| Dart.ListenerBeforeDelivery | shell/platform/android/io/flutter/embedding/engine/dart/DartExecutor.java:53-62 | a listener installed before any id arrives is called exactly once, with the id, when it arrives |
| Dart.StepKeepsListenerInformed | shell/platform/android/io/flutter/embedding/engine/dart/DartExecutor.java:53-62 | every request preserves this: when both a listener and an id are present, the last listener call told that listener that id |
| Dart.ReplayKeepsListenerInformed | shell/platform/android/io/flutter/embedding/engine/dart/DartExecutor.java:221-226 | in every reachable executor, the installed listener's last notification is the cached id |
| Dart.SendForwardsUnchanged | shell/platform/android/io/flutter/embedding/engine/dart/DartExecutor.java:167-184 | both send forms forward the channel and payload unchanged, the two-argument form with no reply, and change no field |
| Dart.AttachDetachIdempotent | shell/platform/android/io/flutter/embedding/engine/dart/DartExecutor.java:81-96 | attaching installs the messenger as the platform message handler and detaching removes it; repeating either leaves the same handler and the same fields |
| Dart.RegisterHandlerReplaces | shell/platform/android/io/flutter/embedding/engine/dart/DartExecutor.java:196-198 | registering a handler for a channel replaces or clears that channel's handler and leaves every other channel's handler as it was |
| Dart.DartExecutor.constructor | shell/platform/android/io/flutter/embedding/engine/dart/DartExecutor.java:64-68 | a new executor is not running, has no id and no listener, and has registered its own handler for `flutter/isolate` |
| Dart.DartExecutor.ExecuteDartEntrypoint | shell/platform/android/io/flutter/embedding/engine/dart/DartExecutor.java:114-130 | one `Step` with an entrypoint start; the invariant is kept |
| Dart.DartExecutor.ExecuteDartCallback | shell/platform/android/io/flutter/embedding/engine/dart/DartExecutor.java:139-155 | one `Step` with a callback start; the invariant is kept |
| Dart.DartExecutor.IsExecutingDart | shell/platform/android/io/flutter/embedding/engine/dart/DartExecutor.java:103-105 | true exactly when some start request has come, and so exactly when one native run call has been made |
| Dart.DartExecutor.OnAttachedToJni | shell/platform/android/io/flutter/embedding/engine/dart/DartExecutor.java:81-84 | one `Step` that installs the messenger as the platform message handler |
| Dart.DartExecutor.OnDetachedFromJni | shell/platform/android/io/flutter/embedding/engine/dart/DartExecutor.java:93-96 | one `Step` that removes the platform message handler |
| Dart.DartExecutor.Send | shell/platform/android/io/flutter/embedding/engine/dart/DartExecutor.java:167-169 | one `Step` that forwards the channel and payload with no reply |
| Dart.DartExecutor.SendWithReply | shell/platform/android/io/flutter/embedding/engine/dart/DartExecutor.java:182-184 | one `Step` that forwards the channel, payload and reply callback |
| Dart.DartExecutor.SetMessageHandler | shell/platform/android/io/flutter/embedding/engine/dart/DartExecutor.java:196-198 | one `Step` that registers or clears the channel's handler with the messenger |
| Dart.DartExecutor.OnIsolateChannelMessage | shell/platform/android/io/flutter/embedding/engine/dart/DartExecutor.java:53-62 | one `Step` that caches the decoded id and notifies the listener, if any |
| Dart.DartExecutor.GetIsolateServiceId | shell/platform/android/io/flutter/embedding/engine/dart/DartExecutor.java:206-208 | absent before any isolate-channel message, and otherwise the id decoded from the last one |
| Dart.DartExecutor.SetIsolateServiceIdListener | shell/platform/android/io/flutter/embedding/engine/dart/DartExecutor.java:221-226 | one `Step` that replaces the listener and catches it up; afterwards the listener knows the cached id |

## Left out

- Locking is not modelled: the mutexes, `GetMutex`, `std::scoped_lock` and the atomicity of `order_`. The registry is single-threaded here.
- `GetInstance`, its creation mutex and the reference-counted lifetime of the registry are not modelled. They are process-wide lifecycle, not queue logic.
- Closures and observer callbacks are not run. They are opaque integer ids; the model returns the ids that would be run or notified, in order.
- `fml::TimePoint::Now()` is replaced by the `now` parameter of `GetTasksToRunNow`. Times are unbounded integers, and `Max` is a separate value.
- `Wakeable::WakeUp` is a foreign call. It is recorded in the ghost `wakeLog` and not executed.
- The comparator of `DelayedTaskQueue` is not part of this model, and neither is `delayed_task.h`. The heap order is an assumption: least target time first, ties broken by the lower order number (`DelayedTasks.Precedes`). The heap itself is a sequence, and `Top` chooses the least element under that order.
- Fml.MessageLoopTaskQueues.RegisterTask: order numbers are unbounded naturals, so the wrap-around of the `std::atomic_int` counter is not modelled.
- Fml.MessageLoopTaskQueues.GetTasksToRunNow: the source pops from the queue in place through a reference. The model drains a copy of the queue in `TakeDueTasks` and writes it back, which has the same effect on the registry.
- `GetTasksToRunNow` appends to the caller's vector in place. The model returns the extended sequence instead.
- `FlutterJNI`, `DartMessenger`, `StringCodec`, the Android `AssetManager` and `Log` are not modelled. Every call into them is a recorded `Dart.Event`. The isolate-channel payload enters already decoded, and the decoded id may be absent, as `StringCodec` gives for an absent message.
- How the messenger dispatches messages to registered handlers belongs to `DartMessenger`. `Dart.HandlerOf` reads the last registration per channel from the log. Whether the isolate handler is still registered when an isolate message arrives is not tracked.
- Dart.Step / Dart.ReplayStartsOnce: every call into `FlutterJNI`, the messenger or the listener is taken to return normally. In Java, `isApplicationRunning` is set only after `runBundleAndSnapshotFromLibrary` returns, with no `try`/`catch` (DartExecutor.java lines 122-129 and 147-154). So if that call throws, the flag stays false and a later start calls it again. The model has no exceptions, so a start always sets the flag and a second start is a no-op.
- The reply callback that the isolate-channel handler receives is ignored by the source and by the model.
- The `toString` methods of `DartEntrypoint` and `DartCallback` are not modelled. They only format log text.
- `shell/platform/darwin/macos/framework/Headers/FLEEngine.h` and `shell/platform/darwin/macos/framework/Source/FLEEngine_Internal.h` are not part of this model. They only declare an Objective-C interface and contain no logic.
