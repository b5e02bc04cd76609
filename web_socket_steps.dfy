/**
 * The reconnect and heartbeat state machine of `WebSocketConnection`
 * (app/assets/js/web-sockets.js), as a value and one step function per entry
 * point. The browser is replaced by explicit inputs: the clock is a `now`
 * parameter, sockets are the ready states of every socket created so far (in
 * creation order), pending `setTimeout` callbacks are a map from timer id to
 * task, and the callbacks the connection calls are logged in order.
 */
module WebSocketSteps {
  import opened JsText

  const RECONNECT_THRESHOLD := 500
  const HEARTBEAT_INTERVAL_MS := 30 * 1000

  /** `WebSocket.readyState`. */
  datatype ReadyState = Connecting | Open | Closing | Closed

  /** `WebSocket.close()`: a connecting or open socket starts closing; otherwise nothing happens. */
  function CloseSocket(rs: ReadyState): ReadyState
  {
    if rs == Connecting || rs == Open then Closing else rs
  }

  /** A callback supplied by the caller, known only by identity. */
  type CallbackId = nat

  /** `onHeartbeat`: the module's `defaultHeartbeat` or a caller's function. */
  datatype Heartbeat = DefaultHeartbeat | CustomHeartbeat(callback: CallbackId)

  /** The constructor's options object; None is an absent (undefined) property. */
  datatype Options = Options(onConnect: Option<CallbackId>, onError: Option<CallbackId>,
                             onClose: Option<CallbackId>, onData: Option<CallbackId>,
                             onHeartbeat: Option<CallbackId>, heartBeatInterval: Option<int>)

  /** The fields the constructor sets and nothing changes afterwards. */
  datatype Config = Config(endpoint: string, onConnect: Option<CallbackId>, onError: Option<CallbackId>,
                           onClose: Option<CallbackId>, onData: Option<CallbackId>,
                           onHeartbeat: Heartbeat, heartBeatInterval: int)

  /**
   * The constructor: it throws unless the endpoint contains "wss://", and an
   * absent heartbeat or a falsy interval takes the default.
   */
  function Construct(endpoint: string, o: Options): Result<Config, string>
  {
    if !Includes(endpoint, "wss://") then Failure(endpoint + " doesn't look like a valid WebSocket URL")
    else Success(Config(endpoint, o.onConnect, o.onError, o.onClose, o.onData,
                        if o.onHeartbeat.Some? then CustomHeartbeat(o.onHeartbeat.value) else DefaultHeartbeat,
                        if o.heartBeatInterval.Some? && o.heartBeatInterval.value != 0 then o.heartBeatInterval.value
                        else HEARTBEAT_INTERVAL_MS))
  }

  /** Construction succeeds exactly when "wss://" occurs somewhere in the endpoint. */
  lemma ConstructGuard(endpoint: string, o: Options)
    ensures Construct(endpoint, o).Success? <==> Contains(endpoint, "wss://")
    ensures Construct(endpoint, o).Failure? ==>
      Construct(endpoint, o).error == endpoint + " doesn't look like a valid WebSocket URL"
  {
    IncludesIffContains(endpoint, "wss://");
  }

  /** "wss://" need not be a prefix: any endpoint with it in the middle is accepted. */
  lemma ConstructAcceptsInfix(before: string, after: string, o: Options)
    ensures Construct(before + "wss://" + after, o).Success?
  {
    var e := before + "wss://" + after;
    assert e[|before|..|before| + 6] == "wss://";
    assert OccursAt(e, "wss://", |before|);
    ConstructGuard(e, o);
  }

  /** The defaults: `defaultHeartbeat` and 30000 ms, the latter also for an interval of 0. */
  lemma ConstructDefaults(endpoint: string, o: Options)
    requires Construct(endpoint, o).Success?
    ensures var c := Construct(endpoint, o).value;
      && c.endpoint == endpoint && c.onConnect == o.onConnect && c.onError == o.onError
      && c.onClose == o.onClose && c.onData == o.onData
      && (o.onHeartbeat.None? <==> c.onHeartbeat == DefaultHeartbeat)
      && (o.onHeartbeat.Some? ==> c.onHeartbeat == CustomHeartbeat(o.onHeartbeat.value))
      && (o.heartBeatInterval == None || o.heartBeatInterval == Some(0) ==> c.heartBeatInterval == 30000)
      && (o.heartBeatInterval.Some? && o.heartBeatInterval.value != 0 ==> c.heartBeatInterval == o.heartBeatInterval.value)
      && c.heartBeatInterval != 0
  {
  }

  /** ToInt32 of an integral number. */
  function ToInt32(x: int): (r: int)
    ensures -0x8000_0000 <= r < 0x8000_0000
    ensures (x - r) % 0x1_0000_0000 == 0
  {
    var m := x % 0x1_0000_0000;
    if m >= 0x8000_0000 then m - 0x1_0000_0000 else m
  }

  /** The delay `setTimeout` waits for a requested delay: taken as a 32-bit integer, negatives as 0. */
  function TimerDelay(ms: int): (d: int)
    ensures 0 <= d < 0x8000_0000
    ensures 0 <= ms < 0x8000_0000 ==> d == ms
    ensures ms < 0 && ms >= -0x8000_0000 ==> d == 0
  {
    var t := ToInt32(ms);
    if t < 0 then 0 else t
  }

  datatype TimerKind = ReconnectTimer | HeartbeatTimer

  /** A pending `setTimeout` callback: what it will do and when it is due. */
  datatype Timer = Timer(kind: TimerKind, due: int)

  /** A call of one of the caller's callbacks; sockets are numbered in creation order. */
  datatype Invocation =
    | ConnectCallback(callback: CallbackId, socket: nat)
    | ErrorCallback(callback: CallbackId, socket: nat)
    | CloseCallback(callback: CallbackId, socket: nat)
    | DataCallback(callback: CallbackId, data: string)
    | HeartbeatCallback(heartbeat: Heartbeat, current: Option<nat>)

  /**
   * The mutable state: every socket created so far, the fields `ws`, `timeout`,
   * `heartbeatTimeout` and `lastConnectAttempt` (None is undefined), the live
   * timers, the next timer id, and the callbacks called so far.
   */
  datatype ConnState = ConnState(sockets: seq<ReadyState>, ws: Option<nat>, timeout: Option<nat>,
                                 heartbeatTimeout: Option<nat>, lastConnectAttempt: Option<int>,
                                 timers: map<nat, Timer>, nextTimerId: nat, invocations: seq<Invocation>)

  /** A freshly constructed connection. */
  const Init := ConnState([], None, None, None, None, map[], 1, [])

  /**
   * What every reachable state satisfies: `ws` is the newest socket and is set
   * exactly when a connection was attempted; older sockets are closing or
   * closed; timer ids are fresh; a recorded timer, while live, is of the kind
   * its field says.
   */
  predicate Inv(s: ConnState)
  {
    && (s.ws.Some? <==> |s.sockets| > 0)
    && (s.ws.Some? ==> s.ws.value == |s.sockets| - 1)
    && (s.lastConnectAttempt.Some? <==> |s.sockets| > 0)
    && (forall j :: 0 <= j < |s.sockets| - 1 ==> s.sockets[j] == Closing || s.sockets[j] == Closed)
    && (forall id :: id in s.timers ==> id < s.nextTimerId && |s.sockets| > 0)
    && (s.timeout.Some? ==>
          && s.timeout.value < s.nextTimerId
          && (s.timeout.value in s.timers ==> s.timers[s.timeout.value].kind == ReconnectTimer))
    && (s.heartbeatTimeout.Some? ==>
          && s.heartbeatTimeout.value < s.nextTimerId
          && (s.heartbeatTimeout.value in s.timers ==> s.timers[s.heartbeatTimeout.value].kind == HeartbeatTimer))
  }

  lemma InitInv()
    ensures Inv(Init) && Init.ws.None? && Init.timers == map[]
  {
  }

  /** The source's `connect` (AsWritten), or the corrected one of the heartbeat finding (Corrected). */
  datatype Variant = AsWritten | Corrected

  /** `setTimeout`: a new live timer under the next id. */
  function Schedule(s: ConnState, t: Timer): ConnState
  {
    s.(timers := s.timers[s.nextTimerId := t], nextTimerId := s.nextTimerId + 1)
  }

  /** `clearTimeout(id)`; `clearTimeout(undefined)` does nothing. */
  function ClearTimeout(s: ConnState, id: Option<nat>): ConnState
  {
    if id.Some? then s.(timers := s.timers - {id.value}) else s
  }

  function Log(s: ConnState, i: Invocation): ConnState
  {
    s.(invocations := s.invocations + [i])
  }

  /** `ws.readyState` is OPEN or CONNECTING. */
  predicate Live(s: ConnState)
    requires Inv(s)
  {
    s.ws.Some? && (s.sockets[s.ws.value] == Open || s.sockets[s.ws.value] == Connecting)
  }

  /**
   * `connect()`. As written it forgets both timer fields first (the timers stay
   * live) and returns if the socket is live; otherwise it closes the old socket,
   * creates a connecting one and records the attempt time. The corrected variant
   * leaves `heartbeatTimeout` alone on the early return and clears that timer
   * before replacing the socket.
   */
  function Connect(c: Config, s: ConnState, now: int, v: Variant): (r: ConnState)
    requires Inv(s)
    ensures Inv(r)
  {
    var s1 := s.(timeout := None, heartbeatTimeout := if v == AsWritten then None else s.heartbeatTimeout);
    if Live(s) then s1
    else
      var s2 := if v == Corrected then ClearTimeout(s1, s.heartbeatTimeout).(heartbeatTimeout := None) else s1;
      var closed := if s.ws.Some? then s.sockets[s.ws.value := CloseSocket(s.sockets[s.ws.value])] else s.sockets;
      s2.(sockets := closed + [Connecting], ws := Some(|s.sockets|), lastConnectAttempt := Some(now))
  }

  /**
   * `reconnectIfRightTime()`: nothing while a reconnect timer is recorded;
   * connect at once with no earlier attempt or more than 500 ms after it;
   * otherwise record one reconnect timer due in 500 ms.
   */
  function ReconnectIfRightTime(c: Config, s: ConnState, now: int, v: Variant): (r: ConnState)
    requires Inv(s)
    ensures Inv(r)
  {
    if s.timeout.Some? then s
    else if s.lastConnectAttempt.None? || now - s.lastConnectAttempt.value > RECONNECT_THRESHOLD then
      Connect(c, s, now, v)
    else
      Schedule(s, Timer(ReconnectTimer, now + TimerDelay(RECONNECT_THRESHOLD))).(timeout := Some(s.nextTimerId))
  }

  /** `sendHeartbeat()`: record a new heartbeat timer due after the configured interval. */
  function SendHeartbeat(c: Config, s: ConnState, now: int): (r: ConnState)
    requires Inv(s) && |s.sockets| > 0
    ensures Inv(r)
  {
    Schedule(s, Timer(HeartbeatTimer, now + TimerDelay(c.heartBeatInterval))).(heartbeatTimeout := Some(s.nextTimerId))
  }

  /**
   * An `open` event on socket `i` (the browser fires it only on a connecting
   * socket): the `onConnect` listener, then the heartbeat listener.
   */
  function OnOpen(c: Config, s: ConnState, i: nat, now: int): (r: ConnState)
    requires Inv(s) && i < |s.sockets| && s.sockets[i] == Connecting
    ensures Inv(r)
  {
    var s1 := s.(sockets := s.sockets[i := Open]);
    var s2 := if c.onConnect.Some? then Log(s1, ConnectCallback(c.onConnect.value, i)) else s1;
    SendHeartbeat(c, s2, now)
  }

  /** A `message` event: `onData` with the payload, if the event has data and `onData` is set. */
  function OnMessage(c: Config, s: ConnState, data: Option<string>): (r: ConnState)
  {
    if data.Some? && c.onData.Some? then Log(s, DataCallback(c.onData.value, data.value)) else s
  }

  /**
   * A `close` event on socket `i`: the socket is closed, `onClose` is called,
   * the recorded heartbeat timer is cleared (the field keeps its value) and the
   * debounced reconnect runs.
   */
  function OnClose(c: Config, s: ConnState, i: nat, now: int, v: Variant): (r: ConnState)
    requires Inv(s) && i < |s.sockets|
    ensures Inv(r)
  {
    var s1 := s.(sockets := s.sockets[i := Closed]);
    var s2 := if c.onClose.Some? then Log(s1, CloseCallback(c.onClose.value, i)) else s1;
    ReconnectIfRightTime(c, ClearTimeout(s2, s2.heartbeatTimeout), now, v)
  }

  /**
   * An `error` event on socket `i`: `onError` is called, the socket the handler
   * was made for (not necessarily the current `ws`) is closed, and the debounced
   * reconnect runs.
   */
  function OnError(c: Config, s: ConnState, i: nat, now: int, v: Variant): (r: ConnState)
    requires Inv(s) && i < |s.sockets|
    ensures Inv(r)
  {
    var s1 := if c.onError.Some? then Log(s, ErrorCallback(c.onError.value, i)) else s;
    var s2 := s1.(sockets := s1.sockets[i := CloseSocket(s1.sockets[i])]);
    ReconnectIfRightTime(c, s2, now, v)
  }

  /**
   * `defaultHeartbeat(ws)` throws when `ws.send` does: on a socket that is
   * still connecting. A caller's heartbeat is taken not to throw.
   */
  predicate HeartbeatThrows(c: Config, s: ConnState)
    requires Inv(s)
  {
    c.onHeartbeat == DefaultHeartbeat && (s.ws.None? || s.sockets[s.ws.value] == Connecting)
  }

  /**
   * Live timer `id` fires. A reconnect timer calls `connect()`; a heartbeat
   * timer calls `onHeartbeat(this.ws)` and then re-arms, unless that call threw.
   */
  function FireTimer(c: Config, s: ConnState, id: nat, now: int, v: Variant): (r: ConnState)
    requires Inv(s) && id in s.timers
    ensures Inv(r)
  {
    var t := s.timers[id];
    var s1 := s.(timers := s.timers - {id});
    if t.kind == ReconnectTimer then Connect(c, s1, now, v)
    else
      var s2 := Log(s1, HeartbeatCallback(c.onHeartbeat, s1.ws));
      if HeartbeatThrows(c, s1) then s2 else SendHeartbeat(c, s2, now)
  }

  /** What the browser or the caller can do next. */
  datatype Event =
    | ConnectCall(now: int)
    | OpenEvent(socket: nat, now: int)
    | MessageEvent(data: Option<string>)
    | CloseEvent(socket: nat, now: int)
    | ErrorEvent(socket: nat, now: int)
    | TimerFires(timer: nat, now: int)

  /** Events name an existing socket or a live timer, and only a connecting socket opens. */
  predicate CanHappen(s: ConnState, e: Event)
  {
    match e
    case ConnectCall(_) => true
    case OpenEvent(i, _) => i < |s.sockets| && s.sockets[i] == Connecting
    case MessageEvent(_) => true
    case CloseEvent(i, _) => i < |s.sockets|
    case ErrorEvent(i, _) => i < |s.sockets|
    case TimerFires(id, _) => id in s.timers
  }

  function Step(c: Config, s: ConnState, e: Event, v: Variant): (r: ConnState)
    requires Inv(s) && CanHappen(s, e)
    ensures Inv(r)
  {
    match e
    case ConnectCall(now) => Connect(c, s, now, v)
    case OpenEvent(i, now) => OnOpen(c, s, i, now)
    case MessageEvent(data) => OnMessage(c, s, data)
    case CloseEvent(i, now) => OnClose(c, s, i, now, v)
    case ErrorEvent(i, now) => OnError(c, s, i, now, v)
    case TimerFires(id, now) => FireTimer(c, s, id, now, v)
  }

  /** The state after a sequence of events, or None if one of them cannot happen when it comes. */
  function Run(c: Config, s: ConnState, events: seq<Event>, v: Variant): (r: Option<ConnState>)
    requires Inv(s)
    ensures r.Some? ==> Inv(r.value)
    decreases |events|
  {
    if events == [] then Some(s)
    else if !CanHappen(s, events[0]) then None
    else Run(c, Step(c, s, events[0], v), events[1..], v)
  }

  /**
   * `connect()` on a live socket creates nothing and records no attempt, but it
   * has already forgotten both timer fields; the timers themselves stay live.
   */
  lemma ConnectWhileLive(c: Config, s: ConnState, now: int)
    requires Inv(s) && Live(s)
    ensures Connect(c, s, now, AsWritten) == s.(timeout := None, heartbeatTimeout := None)
  {
  }

  /**
   * Otherwise `connect()` adds exactly one connecting socket and makes it `ws`,
   * records `now` as the attempt, and cancels no timer. Closing the old socket
   * changes nothing, since a socket that is not live is already closing or closed.
   */
  lemma ConnectFresh(c: Config, s: ConnState, now: int)
    requires Inv(s) && !Live(s)
    ensures var r := Connect(c, s, now, AsWritten);
      && r.sockets == s.sockets + [Connecting] && r.ws == Some(|s.sockets|)
      && r.lastConnectAttempt == Some(now)
      && r.timeout.None? && r.heartbeatTimeout.None?
      && r.timers == s.timers && r.invocations == s.invocations
  {
    if s.ws.Some? {
      assert s.sockets[s.ws.value := CloseSocket(s.sockets[s.ws.value])] == s.sockets;
    }
  }

  /** While a reconnect timer is recorded, `reconnectIfRightTime()` changes nothing. */
  lemma ReconnectWhileScheduled(c: Config, s: ConnState, now: int, v: Variant)
    requires Inv(s) && s.timeout.Some?
    ensures ReconnectIfRightTime(c, s, now, v) == s
  {
  }

  /**
   * The debounce: with no recorded timer, it connects at once when there was no
   * attempt or the last one is more than 500 ms old; otherwise (500 ms exactly
   * included) it records one new reconnect timer due 500 ms from now.
   */
  lemma ReconnectDebounce(c: Config, s: ConnState, now: int, v: Variant)
    requires Inv(s) && s.timeout.None?
    ensures var r := ReconnectIfRightTime(c, s, now, v);
      && (s.lastConnectAttempt.None? || now - s.lastConnectAttempt.value > 500 ==> r == Connect(c, s, now, v))
      && (s.lastConnectAttempt.Some? && now - s.lastConnectAttempt.value <= 500 ==>
            && r.timers == s.timers[s.nextTimerId := Timer(ReconnectTimer, now + 500)]
            && s.nextTimerId !in s.timers
            && r.timeout == Some(s.nextTimerId)
            && r.sockets == s.sockets && r.lastConnectAttempt == s.lastConnectAttempt
            && r.invocations == s.invocations)
  {
  }

  /**
   * A close event calls `onClose` once, leaves the socket closed and the
   * recorded heartbeat timer cancelled, and runs the debounced reconnect.
   */
  lemma CloseEventEffects(c: Config, s: ConnState, i: nat, now: int)
    requires Inv(s) && i < |s.sockets|
    ensures var r := OnClose(c, s, i, now, AsWritten);
      && r.invocations == s.invocations + (if c.onClose.Some? then [CloseCallback(c.onClose.value, i)] else [])
      && r.sockets[i] == Closed
      && (s.heartbeatTimeout.Some? ==> s.heartbeatTimeout.value !in r.timers)
      && |r.sockets| <= |s.sockets| + 1
  {
  }

  /**
   * An error event calls `onError` once, closes the socket the handler belongs
   * to, and runs the debounced reconnect.
   */
  lemma ErrorEventEffects(c: Config, s: ConnState, i: nat, now: int)
    requires Inv(s) && i < |s.sockets|
    ensures var r := OnError(c, s, i, now, AsWritten);
      && r.invocations == s.invocations + (if c.onError.Some? then [ErrorCallback(c.onError.value, i)] else [])
      && r.sockets[i] == CloseSocket(s.sockets[i])
      && r.sockets[i] != Open && r.sockets[i] != Connecting
      && |r.sockets| <= |s.sockets| + 1
  {
  }

  /** A message event calls `onData` exactly once with the payload when it has data and `onData` is set. */
  lemma MessageEventEffects(c: Config, s: ConnState, data: Option<string>)
    ensures var r := OnMessage(c, s, data);
      && (data.Some? && c.onData.Some? ==> r == s.(invocations := s.invocations + [DataCallback(c.onData.value, data.value)]))
      && (data.None? || c.onData.None? ==> r == s)
  {
  }

  /**
   * A heartbeat timer that fires calls `onHeartbeat(this.ws)` once and, unless
   * that call threw, records a fresh heartbeat timer one interval later.
   */
  lemma HeartbeatRearms(c: Config, s: ConnState, id: nat, now: int, v: Variant)
    requires Inv(s) && id in s.timers && s.timers[id].kind == HeartbeatTimer
    ensures var r := FireTimer(c, s, id, now, v);
      && r.invocations == s.invocations + [HeartbeatCallback(c.onHeartbeat, s.ws)]
      && id !in r.timers
      && (!HeartbeatThrows(c, s) ==>
            && r.heartbeatTimeout == Some(s.nextTimerId)
            && r.timers == (s.timers - {id})[s.nextTimerId := Timer(HeartbeatTimer, now + TimerDelay(c.heartBeatInterval))])
      && (HeartbeatThrows(c, s) ==> r.timers == s.timers - {id})
      && r.sockets == s.sockets && r.ws == s.ws
  {
  }

  /** Exactly the live timers of one kind. */
  function LiveTimers(s: ConnState, kind: TimerKind): set<nat>
  {
    set id | id in s.timers && s.timers[id].kind == kind
  }

  /**
   * As written: when the open socket fails more than 500 ms after the last
   * attempt, the error handler reconnects at once and `connect()` forgets the
   * heartbeat timer without clearing it; once the new socket opens, the old and
   * the new heartbeat timer both run, so `onHeartbeat` fires twice per interval.
   */
  lemma HeartbeatSurvivesReconnect(c: Config, s: ConnState, h: nat, now1: int, now2: int)
    requires Inv(s) && s.ws.Some? && s.timeout.None?
    requires now1 - s.lastConnectAttempt.value > RECONNECT_THRESHOLD
    requires h in s.timers && s.timers[h].kind == HeartbeatTimer
    ensures var s1 := OnError(c, s, s.ws.value, now1, AsWritten);
      && |s1.sockets| == |s.sockets| + 1 && s1.sockets[|s.sockets|] == Connecting
      && var s2 := OnOpen(c, s1, |s.sockets|, now2);
      && LiveTimers(s2, HeartbeatTimer) == LiveTimers(s, HeartbeatTimer) + {s.nextTimerId}
      && h != s.nextTimerId
  {
    var i := s.ws.value;
    ErrorEventReconnectsAtOnce(c, s, i, now1);
    var s1 := OnError(c, s, i, now1, AsWritten);
    OpenEventEffects(c, s1, |s.sockets|, now2);
  }

  /**
   * A run that reaches that situation: connect, open, an error 990 ms later and
   * the new socket opening leave the heartbeat timers 1 and 2 both running.
   */
  lemma DoubleHeartbeatAsWritten(c: Config)
    ensures var r := Run(c, Init, [ConnectCall(0), OpenEvent(0, 10), ErrorEvent(0, 1000), OpenEvent(1, 1100)], AsWritten);
      r.Some? && LiveTimers(r.value, HeartbeatTimer) == {1, 2}
  {
    var s1 := Connect(c, Init, 0, AsWritten);
    ConnectFresh(c, Init, 0);
    var s2 := OnOpen(c, s1, 0, 10);
    OpenEventEffects(c, s1, 0, 10);
    assert LiveTimers(s2, HeartbeatTimer) == {1} by {
      assert s2.timers.Keys == {1};
    }
    HeartbeatSurvivesReconnect(c, s2, 1, 1000, 1100);
    var s3 := OnError(c, s2, 0, 1000, AsWritten);
    var s4 := OnOpen(c, s3, 1, 1100);
    assert Run(c, Init, [ConnectCall(0), OpenEvent(0, 10), ErrorEvent(0, 1000), OpenEvent(1, 1100)], AsWritten) == Some(s4) by {
      RunFour(c, Init, ConnectCall(0), s1, OpenEvent(0, 10), s2, ErrorEvent(0, 1000), s3, OpenEvent(1, 1100), s4, AsWritten);
    }
  }

  /**
   * An open event marks the socket open, calls `onConnect` once when it is set,
   * and records one new heartbeat timer due one interval later.
   */
  lemma OpenEventEffects(c: Config, s: ConnState, i: nat, now: int)
    requires Inv(s) && i < |s.sockets| && s.sockets[i] == Connecting
    ensures var r := OnOpen(c, s, i, now);
      && r.sockets == s.sockets[i := Open]
      && r.invocations == s.invocations + (if c.onConnect.Some? then [ConnectCallback(c.onConnect.value, i)] else [])
      && r.timers == s.timers[s.nextTimerId := Timer(HeartbeatTimer, now + TimerDelay(c.heartBeatInterval))]
      && r.heartbeatTimeout == Some(s.nextTimerId) && r.nextTimerId == s.nextTimerId + 1
      && r.ws == s.ws && r.timeout == s.timeout && r.lastConnectAttempt == s.lastConnectAttempt
  {
  }

  /**
   * An error on the current socket more than 500 ms after the last attempt, with
   * no reconnect recorded, closes it and connects at once; no timer is cancelled.
   */
  lemma ErrorEventReconnectsAtOnce(c: Config, s: ConnState, i: nat, now: int)
    requires Inv(s) && s.ws == Some(i) && s.timeout.None?
    requires now - s.lastConnectAttempt.value > RECONNECT_THRESHOLD
    ensures var r := OnError(c, s, i, now, AsWritten);
      && r.sockets == s.sockets[i := CloseSocket(s.sockets[i])] + [Connecting]
      && r.timers == s.timers && r.nextTimerId == s.nextTimerId
      && r.lastConnectAttempt == Some(now) && r.ws == Some(|s.sockets|)
  {
    var s1 := if c.onError.Some? then Log(s, ErrorCallback(c.onError.value, i)) else s;
    var s2 := s1.(sockets := s1.sockets[i := CloseSocket(s1.sockets[i])]);
    ConnectFresh(c, s2, now);
  }

  /** Two live timers of the same kind are exactly the live timers of that kind. */
  lemma LiveTimersOfTwo(s: ConnState, a: nat, b: nat, kind: TimerKind)
    requires s.timers.Keys == {a, b} && s.timers[a].kind == kind && s.timers[b].kind == kind
    ensures LiveTimers(s, kind) == {a, b}
  {
  }

  /** `Run` over four events that can each happen in turn. */
  lemma RunFour(c: Config, s0: ConnState, e1: Event, s1: ConnState, e2: Event, s2: ConnState,
                e3: Event, s3: ConnState, e4: Event, s4: ConnState, v: Variant)
    requires Inv(s0) && CanHappen(s0, e1) && s1 == Step(c, s0, e1, v)
    requires CanHappen(s1, e2) && s2 == Step(c, s1, e2, v)
    requires CanHappen(s2, e3) && s3 == Step(c, s2, e3, v)
    requires CanHappen(s3, e4) && s4 == Step(c, s3, e4, v)
    ensures Run(c, s0, [e1, e2, e3, e4], v) == Some(s4)
  {
    RunCons(c, s3, e4, [], v);
    RunCons(c, s2, e3, [e4], v);
    RunCons(c, s1, e2, [e3, e4], v);
    RunCons(c, s0, e1, [e2, e3, e4], v);
    assert [e1] + [e2, e3, e4] == [e1, e2, e3, e4];
  }

  /** `Run` takes one event at a time. */
  lemma RunCons(c: Config, s: ConnState, e: Event, rest: seq<Event>, v: Variant)
    requires Inv(s) && CanHappen(s, e)
    ensures Run(c, s, [e] + rest, v) == Run(c, Step(c, s, e, v), rest, v)
  {
    assert ([e] + rest)[1..] == rest;
  }

  /**
   * The invariant of the corrected `connect`: every live heartbeat timer is the
   * recorded one, and none runs while the newest socket is still connecting.
   */
  predicate HeartbeatInv(s: ConnState)
  {
    && Inv(s)
    && forall id :: id in s.timers && s.timers[id].kind == HeartbeatTimer ==>
         s.heartbeatTimeout == Some(id) && s.sockets[|s.sockets| - 1] != Connecting
  }

  lemma {:induction false} CorrectedConnectKeepsHeartbeatInv(c: Config, s: ConnState, now: int)
    requires HeartbeatInv(s)
    ensures HeartbeatInv(Connect(c, s, now, Corrected))
  {
    var r := Connect(c, s, now, Corrected);
    if !Live(s) {
      forall id | id in r.timers
        ensures r.timers[id].kind != HeartbeatTimer
      {
        assert id in s.timers && r.timers[id] == s.timers[id];
      }
    }
  }

  lemma {:induction false} CorrectedReconnectKeepsHeartbeatInv(c: Config, s: ConnState, now: int)
    requires HeartbeatInv(s)
    ensures HeartbeatInv(ReconnectIfRightTime(c, s, now, Corrected))
  {
    if s.timeout.None? && (s.lastConnectAttempt.None? || now - s.lastConnectAttempt.value > RECONNECT_THRESHOLD) {
      CorrectedConnectKeepsHeartbeatInv(c, s, now);
    }
  }

  lemma {:induction false} CorrectedCloseKeepsHeartbeatInv(c: Config, s: ConnState, i: nat, now: int)
    requires HeartbeatInv(s) && i < |s.sockets|
    ensures HeartbeatInv(OnClose(c, s, i, now, Corrected))
  {
    var s1 := s.(sockets := s.sockets[i := Closed]);
    var s2 := if c.onClose.Some? then Log(s1, CloseCallback(c.onClose.value, i)) else s1;
    var s3 := ClearTimeout(s2, s2.heartbeatTimeout);
    assert HeartbeatInv(s3);
    CorrectedReconnectKeepsHeartbeatInv(c, s3, now);
  }

  lemma {:induction false} CorrectedErrorKeepsHeartbeatInv(c: Config, s: ConnState, i: nat, now: int)
    requires HeartbeatInv(s) && i < |s.sockets|
    ensures HeartbeatInv(OnError(c, s, i, now, Corrected))
  {
    var s1 := if c.onError.Some? then Log(s, ErrorCallback(c.onError.value, i)) else s;
    var s2 := s1.(sockets := s1.sockets[i := CloseSocket(s1.sockets[i])]);
    assert HeartbeatInv(s2);
    CorrectedReconnectKeepsHeartbeatInv(c, s2, now);
  }

  lemma {:induction false} CorrectedFireKeepsHeartbeatInv(c: Config, s: ConnState, id: nat, now: int)
    requires HeartbeatInv(s) && id in s.timers
    ensures HeartbeatInv(FireTimer(c, s, id, now, Corrected))
  {
    if s.timers[id].kind == ReconnectTimer {
      var s1 := s.(timers := s.timers - {id});
      assert HeartbeatInv(s1);
      CorrectedConnectKeepsHeartbeatInv(c, s1, now);
    }
  }

  /** With the corrected `connect`, every event keeps the heartbeat invariant. */
  lemma {:induction false} CorrectedStepKeepsHeartbeatInv(c: Config, s: ConnState, e: Event)
    requires HeartbeatInv(s) && CanHappen(s, e)
    ensures HeartbeatInv(Step(c, s, e, Corrected))
  {
    match e
    case ConnectCall(now) => CorrectedConnectKeepsHeartbeatInv(c, s, now);
    case OpenEvent(i, now) => assert i == |s.sockets| - 1;
    case MessageEvent(_) =>
    case CloseEvent(i, now) => CorrectedCloseKeepsHeartbeatInv(c, s, i, now);
    case ErrorEvent(i, now) => CorrectedErrorKeepsHeartbeatInv(c, s, i, now);
    case TimerFires(id, now) => CorrectedFireKeepsHeartbeatInv(c, s, id, now);
  }

  lemma {:induction false} CorrectedRunKeepsHeartbeatInv(c: Config, s: ConnState, events: seq<Event>)
    requires HeartbeatInv(s)
    ensures var r := Run(c, s, events, Corrected); r.Some? ==> HeartbeatInv(r.value)
    decreases |events|
  {
    if events != [] && CanHappen(s, events[0]) {
      CorrectedStepKeepsHeartbeatInv(c, s, events[0]);
      CorrectedRunKeepsHeartbeatInv(c, Step(c, s, events[0], Corrected), events[1..]);
    }
  }

  /** With the corrected `connect`, no sequence of events ever leaves two heartbeat timers running. */
  lemma CorrectedAtMostOneHeartbeat(c: Config, events: seq<Event>)
    ensures var r := Run(c, Init, events, Corrected);
      r.Some? ==> |LiveTimers(r.value, HeartbeatTimer)| <= 1
  {
    CorrectedRunKeepsHeartbeatInv(c, Init, events);
    var r := Run(c, Init, events, Corrected);
    if r.Some? {
      var s := r.value;
      if s.heartbeatTimeout.Some? && s.heartbeatTimeout.value in LiveTimers(s, HeartbeatTimer) {
        assert LiveTimers(s, HeartbeatTimer) == {s.heartbeatTimeout.value};
      } else {
        assert LiveTimers(s, HeartbeatTimer) == {};
      }
    }
  }

  /** Every live reconnect timer is the recorded one. */
  predicate ReconnectInv(s: ConnState)
  {
    && Inv(s)
    && forall id :: id in s.timers && s.timers[id].kind == ReconnectTimer ==> s.timeout == Some(id)
  }

  lemma {:induction false} ReconnectKeepsReconnectInv(c: Config, s: ConnState, now: int, v: Variant)
    requires ReconnectInv(s)
    ensures ReconnectInv(ReconnectIfRightTime(c, s, now, v))
  {
    if s.timeout.None? && !(s.lastConnectAttempt.None? || now - s.lastConnectAttempt.value > RECONNECT_THRESHOLD) {
      var r := ReconnectIfRightTime(c, s, now, v);
      assert LiveTimers(s, ReconnectTimer) == {};
    }
  }

  lemma {:induction false} CloseKeepsReconnectInv(c: Config, s: ConnState, i: nat, now: int, v: Variant)
    requires ReconnectInv(s) && i < |s.sockets|
    ensures ReconnectInv(OnClose(c, s, i, now, v))
  {
    var s1 := s.(sockets := s.sockets[i := Closed]);
    var s2 := if c.onClose.Some? then Log(s1, CloseCallback(c.onClose.value, i)) else s1;
    var s3 := ClearTimeout(s2, s2.heartbeatTimeout);
    assert ReconnectInv(s3);
    ReconnectKeepsReconnectInv(c, s3, now, v);
  }

  lemma {:induction false} ErrorKeepsReconnectInv(c: Config, s: ConnState, i: nat, now: int, v: Variant)
    requires ReconnectInv(s) && i < |s.sockets|
    ensures ReconnectInv(OnError(c, s, i, now, v))
  {
    var s1 := if c.onError.Some? then Log(s, ErrorCallback(c.onError.value, i)) else s;
    var s2 := s1.(sockets := s1.sockets[i := CloseSocket(s1.sockets[i])]);
    assert ReconnectInv(s2);
    ReconnectKeepsReconnectInv(c, s2, now, v);
  }

  /**
   * Every event except a call of `connect()` from outside while a reconnect
   * timer is recorded keeps the reconnect timers recorded.
   */
  lemma {:induction false} StepKeepsReconnectInv(c: Config, s: ConnState, e: Event, v: Variant)
    requires ReconnectInv(s) && CanHappen(s, e)
    requires e.ConnectCall? ==> s.timeout.None?
    ensures ReconnectInv(Step(c, s, e, v))
  {
    match e
    case ConnectCall(now) =>
    case OpenEvent(i, now) =>
    case MessageEvent(_) =>
    case CloseEvent(i, now) => CloseKeepsReconnectInv(c, s, i, now, v);
    case ErrorEvent(i, now) => ErrorKeepsReconnectInv(c, s, i, now, v);
    case TimerFires(id, now) =>
  }

  lemma {:induction false} RunKeepsReconnectInv(c: Config, s: ConnState, events: seq<Event>, v: Variant)
    requires ReconnectInv(s)
    requires forall k :: 0 <= k < |events| ==> !events[k].ConnectCall?
    ensures var r := Run(c, s, events, v); r.Some? ==> ReconnectInv(r.value)
    decreases |events|
  {
    if events != [] && CanHappen(s, events[0]) {
      StepKeepsReconnectInv(c, s, events[0], v);
      RunKeepsReconnectInv(c, Step(c, s, events[0], v), events[1..], v);
    }
  }

  /**
   * When the caller calls `connect()` once and then leaves the connection to
   * itself, at most one reconnect timer is ever live.
   */
  lemma AtMostOneReconnectTimer(c: Config, now: int, events: seq<Event>, v: Variant)
    requires forall k :: 0 <= k < |events| ==> !events[k].ConnectCall?
    ensures var r := Run(c, Init, [ConnectCall(now)] + events, v);
      r.Some? ==> |LiveTimers(r.value, ReconnectTimer)| <= 1
  {
    var s1 := Step(c, Init, ConnectCall(now), v);
    StepKeepsReconnectInv(c, Init, ConnectCall(now), v);
    RunCons(c, Init, ConnectCall(now), events, v);
    RunKeepsReconnectInv(c, s1, events, v);
    var r := Run(c, Init, [ConnectCall(now)] + events, v);
    if r.Some? {
      var s := r.value;
      if s.timeout.Some? && s.timeout.value in LiveTimers(s, ReconnectTimer) {
        assert LiveTimers(s, ReconnectTimer) == {s.timeout.value};
      } else {
        assert LiveTimers(s, ReconnectTimer) == {};
      }
    }
  }

  /**
   * Timers are forgotten, not cancelled: a second `connect()` from outside while
   * a reconnect is scheduled drops the record, and the next error schedules
   * another, so two reconnect timers are live at once.
   */
  lemma ForgottenReconnectTimerStaysLive(c: Config)
    ensures var r := Run(c, Init, [ConnectCall(0), ErrorEvent(0, 100), ConnectCall(200), ErrorEvent(1, 300)], AsWritten);
      r.Some? && LiveTimers(r.value, ReconnectTimer) == {1, 2}
  {
    var s1 := Connect(c, Init, 0, AsWritten);
    ConnectFresh(c, Init, 0);
    var s2 := OnError(c, s1, 0, 100, AsWritten);
    ErrorEventSchedulesReconnect(c, s1, 0, 100);
    var s3 := Connect(c, s2, 200, AsWritten);
    assert !Live(s2) by {
      assert s2.sockets == [Closing];
    }
    ConnectFresh(c, s2, 200);
    var s4 := OnError(c, s3, 1, 300, AsWritten);
    ErrorEventSchedulesReconnect(c, s3, 1, 300);
    assert s4.timers.Keys == {1, 2};
    LiveTimersOfTwo(s4, 1, 2, ReconnectTimer);
    assert Run(c, Init, [ConnectCall(0), ErrorEvent(0, 100), ConnectCall(200), ErrorEvent(1, 300)], AsWritten) == Some(s4) by {
      RunFour(c, Init, ConnectCall(0), s1, ErrorEvent(0, 100), s2, ConnectCall(200), s3, ErrorEvent(1, 300), s4, AsWritten);
    }
  }

  /**
   * An error within 500 ms of the last attempt, with no reconnect recorded,
   * closes the socket and records one reconnect timer due in 500 ms.
   */
  lemma ErrorEventSchedulesReconnect(c: Config, s: ConnState, i: nat, now: int)
    requires Inv(s) && i < |s.sockets| && s.timeout.None?
    requires now - s.lastConnectAttempt.value <= RECONNECT_THRESHOLD
    ensures var r := OnError(c, s, i, now, AsWritten);
      && r.sockets == s.sockets[i := CloseSocket(s.sockets[i])]
      && r.timers == s.timers[s.nextTimerId := Timer(ReconnectTimer, now + 500)]
      && r.nextTimerId == s.nextTimerId + 1 && r.timeout == Some(s.nextTimerId)
      && r.lastConnectAttempt == s.lastConnectAttempt && r.ws == s.ws
  {
  }
}
