/**
 * The live-timing client: a connection state machine over an abstract
 * WebSocket (only its ready state is modelled), and the handling of each
 * received frame, which dispatches the snapshot (`R`) topics and the feed
 * (`M`) messages it carries to `processMessage`.
 */
module LiveTimingClient {
  import opened Wrappers
  import opened Json
  import opened MessageHandlers

  /** A WebSocket's `readyState`. */
  datatype ReadyState = SocketConnecting | SocketOpen | SocketClosing | SocketClosed

  /** What `getStatus` reports. */
  datatype Status = Disconnected | Connecting | Connected

  /** One `processMessage(dataType, dataPayload)` call a frame makes. */
  datatype Call = Call(dataType: Json, dataPayload: Json)

  // ---------------------------------------------------------------------
  // Frames
  // ---------------------------------------------------------------------

  /** The snapshot topics, in the order the handler checks them. */
  function SnapshotTopics(debugMode: bool): seq<string> {
    if debugMode then ["DriverList", "SessionInfo"]
    else ["DriverList", "SessionInfo", "TrackStatus", "TimingAppData", "TimingStats", "TimingData", "LapCount", "Heartbeat"]
  }

  /** One call per topic whose member of `r` is truthy, in the topics' order. */
  function SnapshotCalls(topics: seq<string>, r: Record): (calls: seq<Call>)
    ensures |calls| <= |topics|
    ensures forall c :: c in calls ==> exists t :: t in topics && FieldTruthy(r, t) && c == Call(JStr(t), r[t])
    ensures forall t :: t in topics && FieldTruthy(r, t) ==> Call(JStr(t), r[t]) in calls
  {
    if |topics| == 0 then []
    else
      var t := topics[0];
      (if FieldTruthy(r, t) then [Call(JStr(t), r[t])] else []) + SnapshotCalls(topics[1..], r)
  }

  /** The calls for a frame's `R` member: none unless it is a truthy object. */
  function SnapshotDispatches(debugMode: bool, R: Option<Json>): seq<Call> {
    match R
    case Some(JObj(r)) => SnapshotCalls(SnapshotTopics(debugMode), r)
    case _ => []
  }

  /** What `forEach` does with one element of `M`: skip it, make one call, or
    * throw (a `null` element, or a feed message whose `A` is missing or
    * `null`), which ends the frame. */
  datatype Step = Skip | Dispatch(call: Call) | Abort

  function StepOf(msg: Json): Step {
    match msg
    case JNull => Abort
    case JObj(f) =>
      if Field(msg, "H") == Some(JStr("Streaming")) && Field(msg, "M") == Some(JStr("feed")) then
        if "A" !in f || f["A"].JNull? then Abort
        else match f["A"]
          case JArr(a) => if |a| > 1 then Dispatch(Call(a[0], a[1])) else Skip
          case JStr(s) => if |s| > 1 then Dispatch(Call(JStr([s[0]]), JStr([s[1]]))) else Skip
          case _ => Skip
      else Skip
    case _ => Skip
  }

  /** The index of the first element that throws, or `|items|`. */
  function FirstAbort(items: seq<Json>): (k: nat)
    ensures k <= |items|
    ensures forall j :: 0 <= j < k ==> !StepOf(items[j]).Abort?
    ensures k < |items| ==> StepOf(items[k]).Abort?
  {
    if |items| == 0 then 0
    else if StepOf(items[0]).Abort? then 0
    else
      var k := 1 + FirstAbort(items[1..]);
      assert forall j :: 1 <= j < k ==> items[j] == items[1..][j - 1];
      k
  }

  /** The calls of elements none of which throws, in array order. */
  function StepCalls(items: seq<Json>): seq<Call> {
    if |items| == 0 then []
    else
      var last := StepOf(items[|items| - 1]);
      StepCalls(items[..|items| - 1]) + (if last.Dispatch? then [last.call] else [])
  }

  /** The calls for a frame's `M` member: those of the elements before the first that throws. */
  function FeedDispatches(M: Option<Json>): seq<Call> {
    match M
    case Some(JArr(items)) => StepCalls(items[..FirstAbort(items)])
    case _ => []
  }

  /** Every `processMessage` call a frame makes, in order (a frame that does
    * not parse, or parses to `null`, makes none). */
  function FrameDispatches(debugMode: bool, parsed: Option<Json>): seq<Call> {
    match parsed
    case None => []
    case Some(JNull) => []
    case Some(p) => SnapshotDispatches(debugMode, Field(p, "R")) + FeedDispatches(Field(p, "M"))
  }

  /** What a call sends: `processMessage`'s switch compares the topic with
    * strings, so a topic that is not a string sends nothing. */
  function CallSends(dec: Decoders, c: Call): seq<IpcMessage> {
    if c.dataType.JStr? then Sends(dec, c.dataType.s, c.dataPayload) else []
  }

  function SendsAll(dec: Decoders, calls: seq<Call>): seq<IpcMessage> {
    if |calls| == 0 then []
    else SendsAll(dec, calls[..|calls| - 1]) + CallSends(dec, calls[|calls| - 1])
  }

  lemma FrameDispatchesOf(debugMode: bool, p: Json)
    requires !p.JNull?
    ensures FrameDispatches(debugMode, Some(p)) == SnapshotDispatches(debugMode, Field(p, "R")) + FeedDispatches(Field(p, "M"))
  {
  }

  /** An `M` that is not a non-empty array dispatches nothing. */
  lemma NoFeed(M: Option<Json>)
    requires !(M.Some? && M.value.JArr? && |M.value.items| > 0)
    ensures FeedDispatches(M) == []
  {
    if M.Some? && M.value.JArr? {
      assert M.value.items[..FirstAbort(M.value.items)] == [];
    }
  }

  /** One more element of the feed: its call, if it makes one, is sent after the others. */
  lemma StepCallsSnoc(dec: Decoders, items: seq<Json>, i: nat)
    requires i < |items|
    ensures SendsAll(dec, StepCalls(items[..i + 1]))
         == SendsAll(dec, StepCalls(items[..i])) + (if StepOf(items[i]).Dispatch? then CallSends(dec, StepOf(items[i]).call) else [])
  {
    assert items[..i + 1][..i] == items[..i];
    var calls := StepCalls(items[..i]);
    var step := StepOf(items[i]);
    if step.Dispatch? {
      assert StepCalls(items[..i + 1]) == calls + [step.call];
      assert (calls + [step.call])[..|calls|] == calls;
    } else {
      assert StepCalls(items[..i + 1]) == calls + [];
      assert calls + [] == calls;
    }
  }

  lemma FirstAbortStep(items: seq<Json>, i: nat)
    requires i <= FirstAbort(items) && i < |items| && !StepOf(items[i]).Abort?
    ensures i + 1 <= FirstAbort(items)
  {
  }

  lemma FirstAbortReached(items: seq<Json>, i: nat)
    requires i <= FirstAbort(items) && !(i < |items| && !StepOf(items[i]).Abort?)
    ensures FeedDispatches(Some(JArr(items))) == StepCalls(items[..i])
  {
    assert i == FirstAbort(items);
  }

  lemma AppendAssoc<T>(a: seq<T>, b: seq<T>, c: seq<T>)
    ensures a + b + c == a + (b + c)
  {
  }

  lemma {:induction false} SendsAllAppend(dec: Decoders, a: seq<Call>, b: seq<Call>)
    ensures SendsAll(dec, a + b) == SendsAll(dec, a) + SendsAll(dec, b)
  {
    if |b| == 0 {
      assert a + b == a;
    } else {
      assert (a + b)[..|a + b| - 1] == a + b[..|b| - 1];
      SendsAllAppend(dec, a, b[..|b| - 1]);
    }
  }

  // ---------------------------------------------------------------------
  // The client
  // ---------------------------------------------------------------------

  class LiveTimingClient {
    var socket: Option<ReadyState>
    var isConnecting: bool
    const debugMode: bool
    const enableLogging: bool
    /** Whether the log stream is open. */
    var logOpen: bool
    /** What has been written to the log. */
    var log: seq<string>
    const window: Window

    constructor(window: Window, debugMode: bool, enableLogging: bool)
      ensures this.window == window && this.debugMode == debugMode && this.enableLogging == enableLogging
      ensures socket == None && !isConnecting && logOpen == enableLogging && log == []
      ensures Status() == Disconnected
    {
      this.window := window;
      this.debugMode := debugMode;
      this.enableLogging := enableLogging;
      socket := None;
      isConnecting := false;
      logOpen := enableLogging;
      log := [];
    }

    /** `getStatus`. */
    function Status(): (r: Status)
      reads this
      ensures r == Connecting <==> isConnecting
      ensures r == Connected <==> !isConnecting && socket == Some(SocketOpen)
      ensures r == Disconnected <==> !isConnecting && socket != Some(SocketOpen)
    {
      if isConnecting then Connecting
      else if socket == Some(SocketOpen) then Connected
      else Disconnected
    }

    /** `start`: nothing unless disconnected; otherwise connecting until the
      * attempt settles. `negotiation` is what the SignalR negotiation does
      * (live mode only) and `socketOpens` whether the new socket opens or
      * reports an error. A failed attempt clears `isConnecting` and rethrows
      * (`Threw`); an opened socket leaves the client connected. */
    method Start(negotiation: Outcome<()>, socketOpens: bool) returns (r: Outcome<()>)
      modifies this, window
      ensures old(Status()) != Disconnected ==>
        (r == Returned(()) && socket == old(socket) && isConnecting == old(isConnecting) && window.sent == old(window.sent))
      ensures old(Status()) == Disconnected && !debugMode && negotiation == Threw ==>
        (r == Threw && !isConnecting && socket == old(socket) && Status() == Disconnected && window.sent == old(window.sent))
      ensures old(Status()) == Disconnected && (debugMode || negotiation.Returned?) && socketOpens ==>
        (r == Returned(()) && socket == Some(SocketOpen) && Status() == Connected
         && window.sent == old(window.sent) + DebugStatus("connected"))
      ensures old(Status()) == Disconnected && (debugMode || negotiation.Returned?) && !socketOpens ==>
        (r == Threw && !isConnecting && socket == Some(SocketClosed) && Status() == Disconnected
         && window.sent == old(window.sent) + DebugStatus("error"))
      ensures logOpen == old(logOpen) && log == old(log)
    {
      if Status() != Disconnected {
        return Returned(());
      }
      isConnecting := true;
      if !debugMode && negotiation == Threw {
        isConnecting := false;
        return Threw;
      }
      socket := Some(SocketConnecting);
      if !socketOpens {
        socket := Some(SocketClosed);
        OnError();
        isConnecting := false;
        return Threw;
      }
      socket := Some(SocketOpen);
      OnOpen();
      r := Returned(());
    }

    /** `stop`: drops the socket, closes the log and clears `isConnecting`;
      * afterwards the client is disconnected, so a second `stop` changes nothing. */
    method Stop()
      modifies this
      ensures socket == None && !isConnecting && !logOpen && log == old(log)
      ensures Status() == Disconnected
    {
      if socket.Some? {
        socket := None;
      }
      if logOpen {
        logOpen := false;
      }
      isConnecting := false;
    }

    /** The debug connection's status message, sent only in debug mode. */
    function DebugStatus(status: string): seq<IpcMessage>
      reads this
    {
      if debugMode then [IpcMessage("debug-websocket-status", JStr(status))] else []
    }

    /** The socket's `onopen`. */
    method OnOpen()
      modifies this, window
      ensures !isConnecting && socket == old(socket) && logOpen == old(logOpen) && log == old(log)
      ensures window.sent == old(window.sent) + DebugStatus("connected")
    {
      if debugMode {
        window.Send("debug-websocket-status", JStr("connected"));
      }
      isConnecting := false;
    }

    /** The socket's `onerror`. */
    method OnError()
      modifies this, window
      ensures !isConnecting && socket == old(socket) && logOpen == old(logOpen) && log == old(log)
      ensures window.sent == old(window.sent) + DebugStatus("error")
    {
      if debugMode {
        window.Send("debug-websocket-status", JStr("error"));
      }
      isConnecting := false;
    }

    /** The socket's `onclose`: afterwards the client is disconnected. */
    method OnClose()
      modifies this, window
      ensures !isConnecting && socket == None && logOpen == old(logOpen) && log == old(log)
      ensures Status() == Disconnected
      ensures window.sent == old(window.sent) + DebugStatus("closed")
    {
      if debugMode {
        window.Send("debug-websocket-status", JStr("closed"));
      }
      isConnecting := false;
      socket := None;
    }

    /** The socket's `onmessage`: logs the raw frame when logging (even if it
      * does not parse), then makes the frame's `processMessage` calls in order.
      * `parse` is `JSON.parse`, `None` where it throws. */
    method OnMessage(dec: Decoders, parse: string -> Option<Json>, data: string)
      modifies this, window
      ensures log == old(log) + (if enableLogging && logOpen then [data] else [])
      ensures socket == old(socket) && isConnecting == old(isConnecting) && logOpen == old(logOpen)
      ensures window.sent == old(window.sent) + SendsAll(dec, FrameDispatches(debugMode, parse(data)))
    {
      if enableLogging && logOpen {
        log := log + [data];
      }
      DispatchFrame(dec, parse(data));
    }

    /** The `try` block of `onmessage`, given the parsed frame. */
    method DispatchFrame(dec: Decoders, parsed: Option<Json>)
      modifies window
      ensures window.sent == old(window.sent) + SendsAll(dec, FrameDispatches(debugMode, parsed))
    {
      if parsed.None? || parsed.value.JNull? {
        return;
      }
      var p := parsed.value;
      var snapshot := SnapshotDispatches(debugMode, Field(p, "R"));
      var M := Field(p, "M");
      ghost var feed := FeedDispatches(M);
      ghost var start := window.sent;
      FrameDispatchesOf(debugMode, p);
      SendsAllAppend(dec, snapshot, feed);
      DispatchAll(dec, snapshot);
      ghost var mid := window.sent;
      if M.Some? && M.value.JArr? && |M.value.items| > 0 {
        DispatchFeed(dec, M.value.items);
      } else {
        NoFeed(M);
      }
      assert window.sent == mid + SendsAll(dec, feed);
      AppendAssoc(start, SendsAll(dec, snapshot), SendsAll(dec, feed));
    }

    /** `parsed.M.forEach(...)`: the elements' calls in order, up to the first that throws. */
    method DispatchFeed(dec: Decoders, items: seq<Json>)
      modifies window
      ensures window.sent == old(window.sent) + SendsAll(dec, FeedDispatches(Some(JArr(items))))
    {
      var i := 0;
      while i < |items| && !StepOf(items[i]).Abort?
        invariant 0 <= i <= FirstAbort(items)
        invariant window.sent == old(window.sent) + SendsAll(dec, StepCalls(items[..i]))
      {
        FirstAbortStep(items, i);
        StepCallsSnoc(dec, items, i);
        DispatchStep(dec, items[i]);
        AppendAssoc(old(window.sent), SendsAll(dec, StepCalls(items[..i])),
          if StepOf(items[i]).Dispatch? then CallSends(dec, StepOf(items[i]).call) else []);
        i := i + 1;
      }
      FirstAbortReached(items, i);
    }

    /** One element of `M`, given that it does not throw. */
    method DispatchStep(dec: Decoders, msg: Json)
      modifies window
      ensures window.sent == old(window.sent) + (if StepOf(msg).Dispatch? then CallSends(dec, StepOf(msg).call) else [])
    {
      var step := StepOf(msg);
      if step.Dispatch? {
        ProcessCall(dec, step.call);
      }
    }

    /** One `processMessage` call. */
    method ProcessCall(dec: Decoders, c: Call)
      modifies window
      ensures window.sent == old(window.sent) + CallSends(dec, c)
    {
      if c.dataType.JStr? {
        ProcessMessage(window, dec, c.dataType.s, c.dataPayload);
      }
    }

    /** The calls, one after another. */
    method DispatchAll(dec: Decoders, calls: seq<Call>)
      modifies window
      ensures window.sent == old(window.sent) + SendsAll(dec, calls)
    {
      for n := 0 to |calls|
        invariant window.sent == old(window.sent) + SendsAll(dec, calls[..n])
      {
        assert calls[..n + 1][..n] == calls[..n];
        ProcessCall(dec, calls[n]);
      }
      assert calls[..|calls|] == calls;
    }
  }

  // ---------------------------------------------------------------------
  // Properties of frame dispatch
  // ---------------------------------------------------------------------

  /** The debug connection dispatches only the driver list and session info from a snapshot. */
  lemma DebugSnapshotTopics(R: Option<Json>)
    ensures forall c :: c in SnapshotDispatches(true, R) ==> c.dataType == JStr("DriverList") || c.dataType == JStr("SessionInfo")
  {
  }

  /** A frame that does not parse dispatches nothing. */
  lemma UnparsableFrame(debugMode: bool)
    ensures FrameDispatches(debugMode, None) == []
  {
  }

  /** When no element throws, each feed element makes its call in array order. */
  lemma {:induction false} FeedInOrder(items: seq<Json>)
    requires forall j :: 0 <= j < |items| ==> !StepOf(items[j]).Abort?
    ensures FeedDispatches(Some(JArr(items))) == StepCalls(items)
    ensures forall c :: c in StepCalls(items) ==> exists j :: 0 <= j < |items| && StepOf(items[j]) == Dispatch(c)
  {
    FirstAbortNone(items);
    assert items[..|items|] == items;
    StepCallsSound(items);
  }

  lemma {:induction false} FirstAbortNone(items: seq<Json>)
    requires forall j :: 0 <= j < |items| ==> !StepOf(items[j]).Abort?
    ensures FirstAbort(items) == |items|
  {
  }

  lemma {:induction false} StepCallsSound(items: seq<Json>)
    ensures forall c :: c in StepCalls(items) ==> exists j :: 0 <= j < |items| && StepOf(items[j]) == Dispatch(c)
  {
    if |items| > 0 {
      var init := items[..|items| - 1];
      StepCallsSound(init);
      assert forall j :: 0 <= j < |init| ==> init[j] == items[j];
    }
  }

  /** An element that throws ends the frame: nothing after it is dispatched. */
  lemma AbortStops(items: seq<Json>, k: nat)
    requires k < |items| && StepOf(items[k]).Abort?
    ensures FeedDispatches(Some(JArr(items))) == FeedDispatches(Some(JArr(items[..k])))
  {
    var f := FirstAbort(items);
    var g := FirstAbort(items[..k]);
    assert f <= k;
    if f < k {
      assert StepOf(items[..k][f]).Abort?;
      assert g == f by {
        assert forall j :: 0 <= j < f ==> items[..k][j] == items[j];
      }
      assert items[..k][..g] == items[..f];
    } else {
      assert g == k by {
        assert forall j :: 0 <= j < k ==> items[..k][j] == items[j];
      }
      assert items[..k][..g] == items[..f];
    }
  }

  /** A feed message `{H: 'Streaming', M: 'feed', A: [t, p, …]}` dispatches `(t, p)`. */
  lemma FeedMessageDispatches(f: Record, a: seq<Json>)
    requires "H" in f && f["H"] == JStr("Streaming") && "M" in f && f["M"] == JStr("feed")
    requires "A" in f && f["A"] == JArr(a) && |a| > 1
    ensures StepOf(JObj(f)) == Dispatch(Call(a[0], a[1]))
  {
  }
}
