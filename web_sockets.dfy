/**
 * `WebSocketConnection` (app/assets/js/web-sockets.js) as an object whose
 * methods update its fields in place. Each method is proved against the step
 * function of WebSocketSteps for the same entry point, so every property proved
 * there about runs of steps holds of the object.
 */
module WebSockets {
  import opened JsText
  import WebSocketSteps

  class WebSocketConnection {
    const endpoint: string
    const onConnect: Option<WebSocketSteps.CallbackId>
    const onError: Option<WebSocketSteps.CallbackId>
    const onClose: Option<WebSocketSteps.CallbackId>
    const onData: Option<WebSocketSteps.CallbackId>
    const onHeartbeat: WebSocketSteps.Heartbeat
    const heartBeatInterval: int

    /** Every socket created so far, oldest first; `ws` is an index into it. */
    var sockets: seq<WebSocketSteps.ReadyState>
    var ws: Option<nat>
    var timeout: Option<nat>
    var heartbeatTimeout: Option<nat>
    var lastConnectAttempt: Option<int>
    /** The live `setTimeout` callbacks, by timer id, and the id the next one gets. */
    var timers: map<nat, WebSocketSteps.Timer>
    var nextTimerId: nat
    /** The caller's callbacks called so far, in order. */
    var invocations: seq<WebSocketSteps.Invocation>

    /** The fields set by the constructor. */
    function Settings(): WebSocketSteps.Config
    {
      WebSocketSteps.Config(endpoint, onConnect, onError, onClose, onData, onHeartbeat, heartBeatInterval)
    }

    /** The mutable fields as one value. */
    function State(): WebSocketSteps.ConnState
      reads this
    {
      WebSocketSteps.ConnState(sockets, ws, timeout, heartbeatTimeout, lastConnectAttempt,
                               timers, nextTimerId, invocations)
    }

    predicate Valid()
      reads this
    {
      WebSocketSteps.Inv(State())
    }

    /** The constructor, for an endpoint that passes its guard. */
    constructor (endpoint: string, options: WebSocketSteps.Options)
      requires Includes(endpoint, "wss://")
      ensures WebSocketSteps.Construct(endpoint, options) == Success(Settings())
      ensures State() == WebSocketSteps.Init && Valid()
    {
      this.endpoint := endpoint;
      onConnect := options.onConnect;
      onError := options.onError;
      onClose := options.onClose;
      onData := options.onData;
      onHeartbeat := if options.onHeartbeat.Some? then WebSocketSteps.CustomHeartbeat(options.onHeartbeat.value)
                     else WebSocketSteps.DefaultHeartbeat;
      heartBeatInterval := if options.heartBeatInterval.Some? && options.heartBeatInterval.value != 0
                           then options.heartBeatInterval.value else WebSocketSteps.HEARTBEAT_INTERVAL_MS;
      sockets := [];
      ws := None;
      timeout := None;
      heartbeatTimeout := None;
      lastConnectAttempt := None;
      timers := map[];
      nextTimerId := 1;
      invocations := [];
    }

    /**
     * `new WebSocketConnection(endpoint, options)`: the thrown error for an
     * endpoint without "wss://", otherwise a fresh connection with nothing open.
     */
    static method New(endpoint: string, options: WebSocketSteps.Options) returns (r: Result<WebSocketConnection, string>)
      ensures r.Success? <==> Contains(endpoint, "wss://")
      ensures r.Failure? ==> r.error == endpoint + " doesn't look like a valid WebSocket URL"
      ensures r.Success? ==> (fresh(r.value) && r.value.Valid() && r.value.State() == WebSocketSteps.Init
        && WebSocketSteps.Construct(endpoint, options) == Success(r.value.Settings()))
    {
      IncludesIffContains(endpoint, "wss://");
      if !Includes(endpoint, "wss://") {
        return Failure(endpoint + " doesn't look like a valid WebSocket URL");
      }
      var c := new WebSocketConnection(endpoint, options);
      return Success(c);
    }

    /** `setTimeout(callback, delay)`: registers the timer under the next id and returns that id. */
    method SetTimeout(t: WebSocketSteps.Timer) returns (id: nat)
      modifies this
      ensures id == old(nextTimerId)
      ensures State() == WebSocketSteps.Schedule(old(State()), t)
    {
      id := nextTimerId;
      timers := timers[id := t];
      nextTimerId := nextTimerId + 1;
    }

    /** `connect()`. */
    method Connect(now: int)
      requires Valid()
      modifies this
      ensures Valid() && State() == WebSocketSteps.Connect(Settings(), old(State()), now, WebSocketSteps.AsWritten)
    {
      timeout := None;
      heartbeatTimeout := None;
      if ws.Some? {
        var current := ws.value;
        if sockets[current] == WebSocketSteps.Open || sockets[current] == WebSocketSteps.Connecting {
          return;
        }
        sockets := sockets[current := WebSocketSteps.CloseSocket(sockets[current])];
      }
      sockets := sockets + [WebSocketSteps.Connecting];
      ws := Some(|sockets| - 1);
      lastConnectAttempt := Some(now);
    }

    /** `reconnectIfRightTime()`, at time `now`. */
    method ReconnectIfRightTime(now: int)
      requires Valid()
      modifies this
      ensures Valid()
      ensures State() == WebSocketSteps.ReconnectIfRightTime(Settings(), old(State()), now, WebSocketSteps.AsWritten)
    {
      if timeout.Some? {
        return;
      }
      var hasNotConnectedBefore := lastConnectAttempt.None?;
      if hasNotConnectedBefore || now - lastConnectAttempt.value > WebSocketSteps.RECONNECT_THRESHOLD {
        Connect(now);
      } else {
        var id := SetTimeout(WebSocketSteps.Timer(WebSocketSteps.ReconnectTimer,
                                                  now + WebSocketSteps.TimerDelay(WebSocketSteps.RECONNECT_THRESHOLD)));
        timeout := Some(id);
      }
    }

    /** `sendHeartbeat()`, which only the open listener and the heartbeat timer call, so a socket exists. */
    method SendHeartbeat(now: int)
      requires Valid() && |sockets| > 0
      modifies this
      ensures Valid() && State() == WebSocketSteps.SendHeartbeat(Settings(), old(State()), now)
    {
      var id := SetTimeout(WebSocketSteps.Timer(WebSocketSteps.HeartbeatTimer,
                                                now + WebSocketSteps.TimerDelay(heartBeatInterval)));
      heartbeatTimeout := Some(id);
    }

    /** The browser opens socket `i`, which was connecting, and runs its open listeners in order. */
    method OnOpen(i: nat, now: int)
      requires Valid() && i < |sockets| && sockets[i] == WebSocketSteps.Connecting
      modifies this
      ensures Valid() && State() == WebSocketSteps.OnOpen(Settings(), old(State()), i, now)
    {
      sockets := sockets[i := WebSocketSteps.Open];
      if onConnect.Some? {
        invocations := invocations + [WebSocketSteps.ConnectCallback(onConnect.value, i)];
      }
      SendHeartbeat(now);
    }

    /** The `onmessage` handler; `data` is None when the event has no `data` property. */
    method OnMessage(data: Option<string>)
      modifies this
      ensures State() == WebSocketSteps.OnMessage(Settings(), old(State()), data)
    {
      if data.Some? {
        if onData.Some? {
          invocations := invocations + [WebSocketSteps.DataCallback(onData.value, data.value)];
        }
      }
    }

    /** The browser closes socket `i` and runs its close listener. */
    method OnClose(i: nat, now: int)
      requires Valid() && i < |sockets|
      modifies this
      ensures Valid()
      ensures State() == WebSocketSteps.OnClose(Settings(), old(State()), i, now, WebSocketSteps.AsWritten)
    {
      sockets := sockets[i := WebSocketSteps.Closed];
      if onClose.Some? {
        invocations := invocations + [WebSocketSteps.CloseCallback(onClose.value, i)];
      }
      if heartbeatTimeout.Some? {
        timers := timers - {heartbeatTimeout.value};
      }
      ReconnectIfRightTime(now);
    }

    /** Socket `i` reports an error and runs the error handler made for it. */
    method OnError(i: nat, now: int)
      requires Valid() && i < |sockets|
      modifies this
      ensures Valid()
      ensures State() == WebSocketSteps.OnError(Settings(), old(State()), i, now, WebSocketSteps.AsWritten)
    {
      if onError.Some? {
        invocations := invocations + [WebSocketSteps.ErrorCallback(onError.value, i)];
      }
      sockets := sockets[i := WebSocketSteps.CloseSocket(sockets[i])];
      ReconnectIfRightTime(now);
    }

    /** Live timer `id` comes due: the reconnect callback or the heartbeat callback runs. */
    method FireTimer(id: nat, now: int)
      requires Valid() && id in timers
      modifies this
      ensures Valid()
      ensures State() == WebSocketSteps.FireTimer(Settings(), old(State()), id, now, WebSocketSteps.AsWritten)
    {
      var t := timers[id];
      timers := timers - {id};
      if t.kind == WebSocketSteps.ReconnectTimer {
        Connect(now);
      } else {
        invocations := invocations + [WebSocketSteps.HeartbeatCallback(onHeartbeat, ws)];
        if !WebSocketSteps.HeartbeatThrows(Settings(), State()) {
          SendHeartbeat(now);
        }
      }
    }
  }

  /**
   * Two reconnects of one connection: after an error on its open socket more
   * than 500 ms after the last attempt and the new socket's open event, the
   * heartbeat timer armed for the first socket is still live beside the new one.
   */
  method ReconnectKeepsOldHeartbeat(conn: WebSocketConnection, now1: int, now2: int)
    requires conn.Valid() && conn.ws.Some? && conn.timeout.None? && conn.heartbeatTimeout.Some?
    requires conn.heartbeatTimeout.value in conn.timers
    requires now1 - conn.lastConnectAttempt.value > WebSocketSteps.RECONNECT_THRESHOLD
    modifies conn
    ensures conn.Valid()
    ensures var h := old(conn.heartbeatTimeout.value);
      && h in conn.timers && conn.heartbeatTimeout.Some? && conn.heartbeatTimeout.value in conn.timers
      && conn.heartbeatTimeout.value != h
      && conn.timers[h].kind == conn.timers[conn.heartbeatTimeout.value].kind == WebSocketSteps.HeartbeatTimer
  {
    ghost var s := conn.State();
    var h := conn.heartbeatTimeout.value;
    var current := conn.ws.value;
    conn.OnError(current, now1);
    WebSocketSteps.ErrorEventReconnectsAtOnce(conn.Settings(), s, current, now1);
    var newest := conn.ws.value;
    conn.OnOpen(newest, now2);
  }
}
