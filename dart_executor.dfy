/**
 * The Android `DartExecutor`: starts Dart code at most once, forwards messages to the messenger,
 * caches the isolate service id reported on the reserved `flutter/isolate` channel and tells one
 * replaceable listener about it.
 *
 * `FlutterJNI` and `DartMessenger` are not modelled; every call the executor makes into them (and
 * every call of the listener) is recorded as an `Event` in a ghost log. Asset managers, message
 * handlers, reply callbacks and listeners are opaque integer identities. The payload of a message on
 * the isolate channel enters already decoded by `StringCodec`.
 */
module Dart {
  import opened Wrappers

  /** Opaque identity of an Android `AssetManager`. */
  type AssetManager = int

  /** Opaque identity of a `BinaryMessageHandler` registered by a client. */
  type HandlerId = int

  /** Opaque identity of a `BinaryReply` callback. */
  type ReplyId = int

  /** Opaque identity of an `IsolateServiceIdListener`. */
  type ListenerId = int

  /** A message payload: the bytes of a `ByteBuffer`. */
  type Bytes = seq<bv8>

  /** The channel on which the engine reports the isolate service id. */
  const IsolateChannel: string := "flutter/isolate"

  /** Where to find the Dart code to run and which top-level function to start. */
  datatype DartEntrypoint = DartEntrypoint(
    androidAssetManager: AssetManager,
    pathToBundle: string,
    dartEntrypointFunctionName: string)

  /** The parts of a `FlutterCallbackInformation` the executor reads. */
  datatype CallbackInformation = CallbackInformation(callbackName: string, callbackLibraryPath: string)

  /** Where to find the Dart code to run and which registered callback to start. */
  datatype DartCallback = DartCallback(
    androidAssetManager: AssetManager,
    pathToBundle: string,
    callbackHandle: CallbackInformation)

  /** A handler given to the messenger: the executor's own isolate-channel handler, or a client's. */
  datatype MessageHandler = IsolateChannelHandler | ClientHandler(id: HandlerId)

  /** A call the executor makes into native code, the messenger or the listener. */
  datatype Event =
    | RunBundleAndSnapshotFromLibrary(
        pathToBundle: string, entrypointFunctionName: string,
        libraryPath: Option<string>, assetManager: AssetManager)
    | SetPlatformMessageHandler(toMessenger: bool)
    | MessengerSend(channel: string, message: Option<Bytes>, reply: Option<ReplyId>)
    | MessengerSetMessageHandler(channel: string, handler: Option<MessageHandler>)
    | IsolateServiceIdAvailable(listener: ListenerId, isolateServiceId: Option<string>)

  /** Everything that can happen to an executor: its public methods and isolate-channel messages. */
  datatype Request =
    | StartEntrypoint(entrypoint: DartEntrypoint)
    | StartCallback(callback: DartCallback)
    | Attach
    | Detach
    | SendMessage(channel: string, message: Option<Bytes>)
    | SendMessageWithReply(channel: string, message: Option<Bytes>, reply: Option<ReplyId>)
    | RegisterHandler(channel: string, handler: Option<HandlerId>)
    | IsolateMessage(decoded: Option<string>)
    | InstallListener(listener: Option<ListenerId>)

  /** The executor's fields together with the log of the calls it has made. */
  datatype ExecutorState = ExecutorState(
    isApplicationRunning: bool,
    isolateServiceId: Option<string>,
    isolateServiceIdListener: Option<ListenerId>,
    log: seq<Event>)

  // ---------------------------------------------------------------------------------------------
  // The executor as a state machine
  // ---------------------------------------------------------------------------------------------

  /** A new executor: not running, no id, no listener; its isolate-channel handler is registered. */
  function Initial(): (st: ExecutorState)
    ensures !st.isApplicationRunning && st.isolateServiceId.None? && st.isolateServiceIdListener.None?
    ensures RunCalls(st.log) == [] && Notifications(st.log) == []
    ensures HandlerOf(st.log, IsolateChannel) == Some(IsolateChannelHandler)
  {
    ExecutorState(false, None, None, [MessengerSetMessageHandler(IsolateChannel, Some(IsolateChannelHandler))])
  }

  predicate IsStart(r: Request) {
    r.StartEntrypoint? || r.StartCallback?
  }

  /**
   * The native call a start request makes: an entrypoint runs its function with no library path,
   * a callback runs its registered function from its library.
   */
  function RunCall(r: Request): (e: Event)
    requires IsStart(r)
    ensures e.RunBundleAndSnapshotFromLibrary?
    ensures e.libraryPath.None? <==> r.StartEntrypoint?
  {
    match r
    case StartEntrypoint(e) =>
      RunBundleAndSnapshotFromLibrary(e.pathToBundle, e.dartEntrypointFunctionName, None, e.androidAssetManager)
    case StartCallback(c) =>
      RunBundleAndSnapshotFromLibrary(
        c.pathToBundle, c.callbackHandle.callbackName,
        Some(c.callbackHandle.callbackLibraryPath), c.androidAssetManager)
  }

  /** The listener call for `id`, if a listener is installed. */
  function Notify(listener: Option<ListenerId>, id: Option<string>): seq<Event> {
    if listener.Some? then [IsolateServiceIdAvailable(listener.value, id)] else []
  }

  /** What one request does to the executor. */
  function Step(st: ExecutorState, r: Request): (next: ExecutorState)
    ensures |st.log| <= |next.log| <= |st.log| + 1 && next.log[..|st.log|] == st.log
    ensures st.isApplicationRunning ==> next.isApplicationRunning
    ensures next.isolateServiceId != st.isolateServiceId ==> r.IsolateMessage?
    ensures next.isolateServiceIdListener != st.isolateServiceIdListener ==> r.InstallListener?
  {
    match r
    case StartEntrypoint(_) | StartCallback(_) =>
      if st.isApplicationRunning then st
      else st.(isApplicationRunning := true, log := st.log + [RunCall(r)])
    case Attach =>
      st.(log := st.log + [SetPlatformMessageHandler(true)])
    case Detach =>
      st.(log := st.log + [SetPlatformMessageHandler(false)])
    case SendMessage(channel, message) =>
      st.(log := st.log + [MessengerSend(channel, message, None)])
    case SendMessageWithReply(channel, message, reply) =>
      st.(log := st.log + [MessengerSend(channel, message, reply)])
    case RegisterHandler(channel, handler) =>
      var h := if handler.Some? then Some(ClientHandler(handler.value)) else None;
      st.(log := st.log + [MessengerSetMessageHandler(channel, h)])
    case IsolateMessage(decoded) =>
      st.(isolateServiceId := decoded, log := st.log + Notify(st.isolateServiceIdListener, decoded))
    case InstallListener(listener) =>
      var catchUp := if st.isolateServiceId.Some? then Notify(listener, st.isolateServiceId) else [];
      st.(isolateServiceIdListener := listener, log := st.log + catchUp)
  }

  /** The executor after a sequence of requests, the last one applied last. */
  function Replay(st: ExecutorState, reqs: seq<Request>): ExecutorState
    decreases |reqs|
  {
    if reqs == [] then st else Step(Replay(st, reqs[..|reqs| - 1]), reqs[|reqs| - 1])
  }

  lemma ReplaySnoc(st: ExecutorState, reqs: seq<Request>, r: Request)
    ensures Replay(st, reqs + [r]) == Step(Replay(st, reqs), r)
  {
    assert (reqs + [r])[..|reqs|] == reqs;
  }

  // ---------------------------------------------------------------------------------------------
  // Reading the log
  // ---------------------------------------------------------------------------------------------

  /** The `runBundleAndSnapshotFromLibrary` calls in a log, in order. */
  function RunCalls(log: seq<Event>): (r: seq<Event>)
    ensures forall e :: e in r ==> e in log && e.RunBundleAndSnapshotFromLibrary?
    ensures forall e {:trigger e in r} :: e in log && e.RunBundleAndSnapshotFromLibrary? ==> e in r
    decreases |log|
  {
    if log == [] then []
    else
      var e := log[|log| - 1];
      assert log == log[..|log| - 1] + [e];
      RunCalls(log[..|log| - 1]) + (if e.RunBundleAndSnapshotFromLibrary? then [e] else [])
  }

  /** The listener calls in a log, in order. */
  function Notifications(log: seq<Event>): (r: seq<Event>)
    ensures forall e :: e in r ==> e in log && e.IsolateServiceIdAvailable?
    ensures forall e {:trigger e in r} :: e in log && e.IsolateServiceIdAvailable? ==> e in r
    decreases |log|
  {
    if log == [] then []
    else
      var e := log[|log| - 1];
      assert log == log[..|log| - 1] + [e];
      Notifications(log[..|log| - 1]) + (if e.IsolateServiceIdAvailable? then [e] else [])
  }

  /** Whether the last platform-message-handler registration in a log installed the messenger. */
  function PlatformHandlerIsMessenger(log: seq<Event>): Option<bool>
    decreases |log|
  {
    if log == [] then None
    else if log[|log| - 1].SetPlatformMessageHandler? then Some(log[|log| - 1].toMessenger)
    else PlatformHandlerIsMessenger(log[..|log| - 1])
  }

  /** The handler the messenger was last told to use for `channel` (none if never or cleared). */
  function HandlerOf(log: seq<Event>, channel: string): Option<MessageHandler>
    decreases |log|
  {
    if log == [] then None
    else
      var e := log[|log| - 1];
      if e.MessengerSetMessageHandler? && e.channel == channel then e.handler
      else HandlerOf(log[..|log| - 1], channel)
  }

  /** `RunCalls` lists each run call of the log as often as the log holds it, and nothing else. */
  lemma {:induction false} RunCallsExact(log: seq<Event>)
    ensures forall e ::
      multiset(RunCalls(log))[e] == (if e.RunBundleAndSnapshotFromLibrary? then multiset(log)[e] else 0)
    decreases |log|
  {
    if log != [] {
      var e := log[|log| - 1];
      assert log == log[..|log| - 1] + [e];
      RunCallsExact(log[..|log| - 1]);
    }
  }

  /** `Notifications` lists each listener call of the log as often as the log holds it, and nothing else. */
  lemma {:induction false} NotificationsExact(log: seq<Event>)
    ensures forall e ::
      multiset(Notifications(log))[e] == (if e.IsolateServiceIdAvailable? then multiset(log)[e] else 0)
    decreases |log|
  {
    if log != [] {
      var e := log[|log| - 1];
      assert log == log[..|log| - 1] + [e];
      NotificationsExact(log[..|log| - 1]);
    }
  }

  lemma RunCallsSnoc(log: seq<Event>, e: Event)
    ensures RunCalls(log + [e]) == RunCalls(log) + (if e.RunBundleAndSnapshotFromLibrary? then [e] else [])
  {
    assert (log + [e])[..|log|] == log;
  }

  lemma NotificationsSnoc(log: seq<Event>, e: Event)
    ensures Notifications(log + [e]) == Notifications(log) + (if e.IsolateServiceIdAvailable? then [e] else [])
  {
    assert (log + [e])[..|log|] == log;
  }

  // ---------------------------------------------------------------------------------------------
  // Starting Dart: at most once
  // ---------------------------------------------------------------------------------------------

  /** A start request on a running executor changes nothing and calls nothing. */
  lemma StartWhileRunningIsNoOp(st: ExecutorState, r: Request)
    requires IsStart(r) && st.isApplicationRunning
    ensures Step(st, r) == st
  {
  }

  /**
   * One request makes a native run call only if it is a start request on an idle executor, and then
   * exactly one; the running flag is set by that call and is never cleared.
   */
  lemma StepForwardsRunOnlyWhenIdle(st: ExecutorState, r: Request)
    ensures RunCalls(Step(st, r).log) ==
      RunCalls(st.log) + (if IsStart(r) && !st.isApplicationRunning then [RunCall(r)] else [])
    ensures Step(st, r).isApplicationRunning == (st.isApplicationRunning || IsStart(r))
  {
    var next := Step(st, r);
    if |next.log| == |st.log| + 1 {
      var e := next.log[|st.log|];
      assert next.log == st.log + [e];
      RunCallsSnoc(st.log, e);
    } else {
      assert next.log == st.log;
    }
  }

  /** `k` is the position of the first start request in `reqs`. */
  ghost predicate FirstStartAt(reqs: seq<Request>, k: int) {
    0 <= k < |reqs| && IsStart(reqs[k]) && forall j :: 0 <= j < k ==> !IsStart(reqs[j])
  }

  /**
   * Over any sequence of requests on a new executor: it is running exactly when some start request
   * came, it has then made exactly one native run call, and that call carries the arguments of the
   * first start request; with no start request it has made none.
   */
  lemma {:induction false} ReplayStartsOnce(reqs: seq<Request>)
    ensures Replay(Initial(), reqs).isApplicationRunning <==> exists k :: 0 <= k < |reqs| && IsStart(reqs[k])
    ensures !Replay(Initial(), reqs).isApplicationRunning ==> RunCalls(Replay(Initial(), reqs).log) == []
    ensures Replay(Initial(), reqs).isApplicationRunning ==> |RunCalls(Replay(Initial(), reqs).log)| == 1
    ensures forall k :: FirstStartAt(reqs, k) ==> RunCalls(Replay(Initial(), reqs).log) == [RunCall(reqs[k])]
    decreases |reqs|
  {
    if reqs == [] {
      assert Initial().log == [] + [Initial().log[0]];
      RunCallsSnoc([], Initial().log[0]);
    } else {
      var p := reqs[..|reqs| - 1];
      var r := reqs[|reqs| - 1];
      var prev := Replay(Initial(), p);
      ReplayStartsOnce(p);
      StepForwardsRunOnlyWhenIdle(prev, r);
      assert forall k :: 0 <= k < |p| ==> reqs[k] == p[k];
      if prev.isApplicationRunning {
        var k0 :| 0 <= k0 < |p| && IsStart(p[k0]);
        assert IsStart(reqs[k0]);
        forall k | FirstStartAt(reqs, k) ensures k < |p| && FirstStartAt(p, k) {
          if k == |p| {
            assert false;
          }
        }
      } else {
        forall k | FirstStartAt(reqs, k) ensures k == |p| {
          if k < |p| {
            assert false;
          }
        }
        if IsStart(r) {
          assert IsStart(reqs[|p|]);
        } else {
          forall k | 0 <= k < |reqs| ensures !IsStart(reqs[k]) {
            if k < |p| {
              assert reqs[k] == p[k];
            }
          }
        }
      }
    }
  }

  // ---------------------------------------------------------------------------------------------
  // The isolate service id and its listener
  // ---------------------------------------------------------------------------------------------

  /** Only a message on the isolate channel changes the cached id, and it sets the decoded one. */
  lemma StepIsolateId(st: ExecutorState, r: Request)
    ensures Step(st, r).isolateServiceId == if r.IsolateMessage? then r.decoded else st.isolateServiceId
  {
  }

  /** `k` is the position of the last isolate-channel message in `reqs`. */
  ghost predicate LastDeliveryAt(reqs: seq<Request>, k: int) {
    0 <= k < |reqs| && reqs[k].IsolateMessage? && forall j :: k < j < |reqs| ==> !reqs[j].IsolateMessage?
  }

  /**
   * The cached isolate service id is the one decoded from the last isolate-channel message; with no
   * such message it is the id the executor started with.
   */
  lemma {:induction false} ReplayIsolateIdLastWriteWins(st: ExecutorState, reqs: seq<Request>)
    ensures (forall k :: 0 <= k < |reqs| ==> !reqs[k].IsolateMessage?) ==>
      Replay(st, reqs).isolateServiceId == st.isolateServiceId
    ensures forall k :: LastDeliveryAt(reqs, k) ==> Replay(st, reqs).isolateServiceId == reqs[k].decoded
    decreases |reqs|
  {
    if reqs != [] {
      var p := reqs[..|reqs| - 1];
      var r := reqs[|reqs| - 1];
      ReplayIsolateIdLastWriteWins(st, p);
      var prev := Replay(st, p);
      assert Replay(st, reqs) == Step(prev, r);
      StepIsolateId(prev, r);
      if r.IsolateMessage? {
        forall k | LastDeliveryAt(reqs, k) ensures k == |p| {
          if k < |p| {
            assert false;
          }
        }
      } else {
        forall k | 0 <= k < |p| ensures reqs[k] == p[k] {
        }
        forall k | LastDeliveryAt(reqs, k) ensures LastDeliveryAt(p, k) {
          assert k != |p|;
        }
      }
    }
  }

  /** A message on the isolate channel calls the installed listener once, with the decoded id. */
  lemma DeliveryNotifiesListenerOnce(st: ExecutorState, decoded: Option<string>)
    ensures Notifications(Step(st, IsolateMessage(decoded)).log) ==
      Notifications(st.log) + Notify(st.isolateServiceIdListener, decoded)
    ensures Step(st, IsolateMessage(decoded)).isolateServiceId == decoded
  {
    var next := Step(st, IsolateMessage(decoded));
    assert next.log == st.log + Notify(st.isolateServiceIdListener, decoded);
    if st.isolateServiceIdListener.Some? {
      NotificationsSnoc(st.log, IsolateServiceIdAvailable(st.isolateServiceIdListener.value, decoded));
    } else {
      assert next.log == st.log;
    }
  }

  /**
   * Installing a listener replaces the old one; the new one is called at once with the cached id
   * when there is a listener and an id, and nothing is called otherwise.
   */
  lemma ListenerCatchesUp(st: ExecutorState, listener: Option<ListenerId>)
    ensures Step(st, InstallListener(listener)).isolateServiceIdListener == listener
    ensures listener.Some? && st.isolateServiceId.Some? ==>
      Notifications(Step(st, InstallListener(listener)).log) ==
        Notifications(st.log) + [IsolateServiceIdAvailable(listener.value, st.isolateServiceId)]
    ensures listener.None? || st.isolateServiceId.None? ==>
      Step(st, InstallListener(listener)).log == st.log
  {
    if listener.Some? && st.isolateServiceId.Some? {
      NotificationsSnoc(st.log, IsolateServiceIdAvailable(listener.value, st.isolateServiceId));
    }
  }

  /** A listener installed before the id arrives is called exactly once, when it arrives. */
  lemma ListenerBeforeDelivery(st: ExecutorState, listener: ListenerId, id: string)
    requires st.isolateServiceId.None?
    ensures var after := Replay(st, [InstallListener(Some(listener)), IsolateMessage(Some(id))]);
      Notifications(after.log) == Notifications(st.log) + [IsolateServiceIdAvailable(listener, Some(id))]
  {
    var mid := Step(st, InstallListener(Some(listener)));
    ListenerCatchesUp(st, Some(listener));
    DeliveryNotifiesListenerOnce(mid, Some(id));
    assert [InstallListener(Some(listener)), IsolateMessage(Some(id))][..1] == [InstallListener(Some(listener))];
    assert Replay(st, [InstallListener(Some(listener))]) == mid by {
      assert [InstallListener(Some(listener))][..0] == [];
    }
  }

  /** The last listener call told the installed listener the cached id (whenever both exist). */
  ghost predicate ListenerInformed(st: ExecutorState) {
    st.isolateServiceIdListener.Some? && st.isolateServiceId.Some? ==>
      |Notifications(st.log)| > 0 &&
      Notifications(st.log)[|Notifications(st.log)| - 1] ==
        IsolateServiceIdAvailable(st.isolateServiceIdListener.value, st.isolateServiceId)
  }

  /** Every request keeps the installed listener informed of the cached id. */
  lemma StepKeepsListenerInformed(st: ExecutorState, r: Request)
    requires ListenerInformed(st)
    ensures ListenerInformed(Step(st, r))
  {
    match r
    case IsolateMessage(decoded) =>
      DeliveryNotifiesListenerOnce(st, decoded);
    case InstallListener(listener) =>
      ListenerCatchesUp(st, listener);
    case _ =>
      var next := Step(st, r);
      if |next.log| == |st.log| + 1 {
        var e := next.log[|st.log|];
        assert next.log == st.log + [e] && !e.IsolateServiceIdAvailable?;
        NotificationsSnoc(st.log, e);
      }
  }

  /** Over any sequence of requests on a new executor, the installed listener knows the cached id. */
  lemma {:induction false} ReplayKeepsListenerInformed(reqs: seq<Request>)
    ensures ListenerInformed(Replay(Initial(), reqs))
    decreases |reqs|
  {
    if reqs != [] {
      var p := reqs[..|reqs| - 1];
      ReplayKeepsListenerInformed(p);
      StepKeepsListenerInformed(Replay(Initial(), p), reqs[|reqs| - 1]);
    }
  }

  // ---------------------------------------------------------------------------------------------
  // Forwarding to the messenger and to JNI
  // ---------------------------------------------------------------------------------------------

  /**
   * Both send forms hand the channel and the payload to the messenger unchanged and touch nothing
   * else; the two-argument form is the three-argument form with no reply callback.
   */
  lemma SendForwardsUnchanged(st: ExecutorState, channel: string, message: Option<Bytes>, reply: Option<ReplyId>)
    ensures Step(st, SendMessage(channel, message)) == Step(st, SendMessageWithReply(channel, message, None))
    ensures var next := Step(st, SendMessageWithReply(channel, message, reply));
      next.log[..|st.log|] == st.log && next.log[|next.log| - 1] == MessengerSend(channel, message, reply) &&
      next.(log := st.log) == st
  {
  }

  /**
   * Attaching makes the messenger the platform message handler and detaching removes it; doing
   * either twice leaves the same handler and the same fields as doing it once.
   */
  lemma AttachDetachIdempotent(st: ExecutorState, r: Request)
    requires r == Attach || r == Detach
    ensures PlatformHandlerIsMessenger(Step(st, r).log) == Some(r == Attach)
    ensures PlatformHandlerIsMessenger(Step(Step(st, r), r).log) == PlatformHandlerIsMessenger(Step(st, r).log)
    ensures Step(Step(st, r), r).(log := st.log) == Step(st, r).(log := st.log) == st
  {
  }

  /**
   * Registering a handler for a channel replaces whatever the channel had (or clears it), and leaves
   * every other channel's handler as it was.
   */
  lemma RegisterHandlerReplaces(st: ExecutorState, channel: string, handler: Option<HandlerId>, other: string)
    requires other != channel
    ensures HandlerOf(Step(st, RegisterHandler(channel, handler)).log, channel) ==
      if handler.Some? then Some(ClientHandler(handler.value)) else None
    ensures HandlerOf(Step(st, RegisterHandler(channel, handler)).log, other) == HandlerOf(st.log, other)
  {
    var next := Step(st, RegisterHandler(channel, handler));
    assert next.log[..|next.log| - 1] == st.log;
  }

  // ---------------------------------------------------------------------------------------------
  // The executor object
  // ---------------------------------------------------------------------------------------------

  class DartExecutor {
    var isApplicationRunning: bool
    var isolateServiceId: Option<string>
    var isolateServiceIdListener: Option<ListenerId>
    /** Every call made into JNI, the messenger or the listener, in order. */
    ghost var log: seq<Event>
    /** Every request this executor has received, in order. */
    ghost var requests: seq<Request>

    ghost function State(): ExecutorState
      reads this
    {
      ExecutorState(isApplicationRunning, isolateServiceId, isolateServiceIdListener, log)
    }

    /** The fields and the log are those of a new executor after the requests it received. */
    ghost predicate Valid()
      reads this
    {
      State() == Replay(Initial(), requests)
    }

    /** A new executor, which registers its handler for the isolate channel with the messenger. */
    constructor ()
      ensures Valid() && requests == []
      ensures !isApplicationRunning && isolateServiceId.None? && isolateServiceIdListener.None?
      ensures HandlerOf(log, IsolateChannel) == Some(IsolateChannelHandler)
    {
      isApplicationRunning := false;
      isolateServiceId := None;
      isolateServiceIdListener := None;
      log := [MessengerSetMessageHandler(IsolateChannel, Some(IsolateChannelHandler))];
      requests := [];
    }

    /** Starts the given entrypoint unless Dart code is already running. */
    method ExecuteDartEntrypoint(entrypoint: DartEntrypoint)
      requires Valid()
      modifies this
      ensures Valid() && requests == old(requests) + [StartEntrypoint(entrypoint)]
      ensures State() == Step(old(State()), StartEntrypoint(entrypoint))
    {
      ReplaySnoc(Initial(), requests, StartEntrypoint(entrypoint));
      if !isApplicationRunning {
        log := log + [RunBundleAndSnapshotFromLibrary(
          entrypoint.pathToBundle, entrypoint.dartEntrypointFunctionName, None, entrypoint.androidAssetManager)];
        isApplicationRunning := true;
      }
      requests := requests + [StartEntrypoint(entrypoint)];
    }

    /** Starts the given registered callback unless Dart code is already running. */
    method ExecuteDartCallback(callback: DartCallback)
      requires Valid()
      modifies this
      ensures Valid() && requests == old(requests) + [StartCallback(callback)]
      ensures State() == Step(old(State()), StartCallback(callback))
    {
      ReplaySnoc(Initial(), requests, StartCallback(callback));
      if !isApplicationRunning {
        log := log + [RunBundleAndSnapshotFromLibrary(
          callback.pathToBundle, callback.callbackHandle.callbackName,
          Some(callback.callbackHandle.callbackLibraryPath), callback.androidAssetManager)];
        isApplicationRunning := true;
      }
      requests := requests + [StartCallback(callback)];
    }

    /** Whether Dart code is running: exactly when a start request has come. */
    method IsExecutingDart() returns (running: bool)
      requires Valid()
      ensures running <==> exists k :: 0 <= k < |requests| && IsStart(requests[k])
      ensures running <==> |RunCalls(log)| == 1
      ensures !running ==> RunCalls(log) == []
    {
      ReplayStartsOnce(requests);
      running := isApplicationRunning;
    }

    /** Makes the messenger the handler of platform messages from Dart. */
    method OnAttachedToJni()
      requires Valid()
      modifies this
      ensures Valid() && requests == old(requests) + [Attach]
      ensures State() == Step(old(State()), Attach)
    {
      ReplaySnoc(Initial(), requests, Attach);
      log := log + [SetPlatformMessageHandler(true)];
      requests := requests + [Attach];
    }

    /** Removes the platform message handler. */
    method OnDetachedFromJni()
      requires Valid()
      modifies this
      ensures Valid() && requests == old(requests) + [Detach]
      ensures State() == Step(old(State()), Detach)
    {
      ReplaySnoc(Initial(), requests, Detach);
      log := log + [SetPlatformMessageHandler(false)];
      requests := requests + [Detach];
    }

    /** Sends a message to Dart with no reply callback. */
    method Send(channel: string, message: Option<Bytes>)
      requires Valid()
      modifies this
      ensures Valid() && requests == old(requests) + [SendMessage(channel, message)]
      ensures State() == Step(old(State()), SendMessage(channel, message))
    {
      ReplaySnoc(Initial(), requests, SendMessage(channel, message));
      log := log + [MessengerSend(channel, message, None)];
      requests := requests + [SendMessage(channel, message)];
    }

    /** Sends a message to Dart; `reply` is called when Dart answers. */
    method SendWithReply(channel: string, message: Option<Bytes>, reply: Option<ReplyId>)
      requires Valid()
      modifies this
      ensures Valid() && requests == old(requests) + [SendMessageWithReply(channel, message, reply)]
      ensures State() == Step(old(State()), SendMessageWithReply(channel, message, reply))
    {
      ReplaySnoc(Initial(), requests, SendMessageWithReply(channel, message, reply));
      log := log + [MessengerSend(channel, message, reply)];
      requests := requests + [SendMessageWithReply(channel, message, reply)];
    }

    /** Registers (or, with `None`, clears) the handler of messages from Dart on `channel`. */
    method SetMessageHandler(channel: string, handler: Option<HandlerId>)
      requires Valid()
      modifies this
      ensures Valid() && requests == old(requests) + [RegisterHandler(channel, handler)]
      ensures State() == Step(old(State()), RegisterHandler(channel, handler))
    {
      ReplaySnoc(Initial(), requests, RegisterHandler(channel, handler));
      var h := if handler.Some? then Some(ClientHandler(handler.value)) else None;
      log := log + [MessengerSetMessageHandler(channel, h)];
      requests := requests + [RegisterHandler(channel, handler)];
    }

    /**
     * The isolate-channel handler: caches the decoded id (which may be absent) and passes it to the
     * listener, if one is installed.
     */
    method OnIsolateChannelMessage(decoded: Option<string>)
      requires Valid()
      modifies this
      ensures Valid() && requests == old(requests) + [IsolateMessage(decoded)]
      ensures State() == Step(old(State()), IsolateMessage(decoded))
    {
      ReplaySnoc(Initial(), requests, IsolateMessage(decoded));
      isolateServiceId := decoded;
      if isolateServiceIdListener.Some? {
        log := log + [IsolateServiceIdAvailable(isolateServiceIdListener.value, isolateServiceId)];
      }
      requests := requests + [IsolateMessage(decoded)];
    }

    /** The cached isolate service id: the one from the last isolate-channel message, if any. */
    method GetIsolateServiceId() returns (id: Option<string>)
      requires Valid()
      ensures (forall k :: 0 <= k < |requests| ==> !requests[k].IsolateMessage?) ==> id == None
      ensures forall k :: LastDeliveryAt(requests, k) ==> id == requests[k].decoded
    {
      ReplayIsolateIdLastWriteWins(Initial(), requests);
      id := isolateServiceId;
    }

    /** Installs (or, with `None`, removes) the listener and tells it an id that is already cached. */
    method SetIsolateServiceIdListener(listener: Option<ListenerId>)
      requires Valid()
      modifies this
      ensures Valid() && requests == old(requests) + [InstallListener(listener)]
      ensures State() == Step(old(State()), InstallListener(listener))
      ensures ListenerInformed(State())
    {
      ReplaySnoc(Initial(), requests, InstallListener(listener));
      isolateServiceIdListener := listener;
      if isolateServiceIdListener.Some? && isolateServiceId.Some? {
        log := log + [IsolateServiceIdAvailable(isolateServiceIdListener.value, isolateServiceId)];
      }
      requests := requests + [InstallListener(listener)];
      ReplayKeepsListenerInformed(requests);
    }
  }
}
