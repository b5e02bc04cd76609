/**
 * The connectivity indicator (app/assets/js/ws-connectivity.js): connection
 * events show or hide the elements marked `ws-connected`, `ws-disconnected` and
 * `ws-error`, a close shows "disconnected" only after 5000 ms, and signal
 * reports swap the `fa-signal*` class of every `.connectivity-indicator`.
 * The document is an array of class lists in document order; a class list is
 * a sequence because `DOMTokenList` is ordered and its `forEach` is live.
 */
module WsConnectivity {
  import opened JsText
  import opened ClassLists

  const CLOSE_DELAY := 5000
  const CONNECTED := "ws-connected"
  const DISCONNECTED := "ws-disconnected"
  const ERROR := "ws-error"
  const HIDE := "hide"
  const INDICATOR := "connectivity-indicator"
  const SIGNAL_PREFIX := "fa-signal"
  const UPDATE_TYPE := "UpdateConnectivityIndicator"

  /** One node of `setVisibilityByClassName(className, visible)`. */
  function Visibility(classes: seq<string>, visible: bool): (r: seq<string>)
    ensures HIDE in r <==> !visible
    ensures forall y :: y != HIDE ==> (y in r <==> y in classes)
  {
    if visible then Remove(classes, HIDE) else Add(classes, HIDE)
  }

  /** What `setVisibilityByClassName(className, visible)` does to one element: only matching elements change. */
  function AfterVisibility(classes: seq<string>, className: string, visible: bool): seq<string>
  {
    if className in classes then Visibility(classes, visible) else classes
  }

  /** The three visibility calls the `onConnect` and `onError` handlers make, in order. */
  function ShowOnly(classes: seq<string>, connected: bool, disconnected: bool, error: bool): seq<string>
  {
    AfterVisibility(AfterVisibility(AfterVisibility(classes, CONNECTED, connected), DISCONNECTED, disconnected),
                    ERROR, error)
  }

  /** The two visibility calls of the timer that `onClose` arms; `ws-error` elements are left alone. */
  function ShowDisconnected(classes: seq<string>): seq<string>
  {
    AfterVisibility(AfterVisibility(classes, CONNECTED, false), DISCONNECTED, true)
  }

  /** The element carries exactly one of the three status classes, `marker`. */
  predicate OnlyStatus(classes: seq<string>, marker: string)
  {
    && marker in [CONNECTED, DISCONNECTED, ERROR] && marker in classes
    && forall other :: other in [CONNECTED, DISCONNECTED, ERROR] && other != marker ==> other !in classes
  }

  /**
   * For an element with one status class, `ShowOnly` leaves it visible exactly
   * when the flag for its class is true, and keeps every other class.
   */
  lemma ShowOnlyVisibility(classes: seq<string>, marker: string, connected: bool, disconnected: bool, error: bool)
    requires OnlyStatus(classes, marker)
    ensures var r := ShowOnly(classes, connected, disconnected, error);
      && (HIDE !in r <==> ((marker == CONNECTED && connected) || (marker == DISCONNECTED && disconnected)
                          || (marker == ERROR && error)))
      && forall y :: y != HIDE ==> (y in r <==> y in classes)
  {
    var c1 := AfterVisibility(classes, CONNECTED, connected);
    var c2 := AfterVisibility(c1, DISCONNECTED, disconnected);
    assert forall y :: y != HIDE ==> (y in c1 <==> y in classes);
    assert forall y :: y != HIDE ==> (y in c2 <==> y in classes);
  }

  /** An element without any status class is left as it is. */
  lemma ShowOnlyIgnoresOthers(classes: seq<string>, connected: bool, disconnected: bool, error: bool)
    requires CONNECTED !in classes && DISCONNECTED !in classes && ERROR !in classes
    ensures ShowOnly(classes, connected, disconnected, error) == classes
    ensures ShowDisconnected(classes) == classes
  {
  }

  /** After the close timer fires, a connected marker is hidden, a disconnected one shown, an error one untouched. */
  lemma ShowDisconnectedVisibility(classes: seq<string>, marker: string)
    requires OnlyStatus(classes, marker)
    ensures marker == CONNECTED ==> HIDE in ShowDisconnected(classes)
    ensures marker == DISCONNECTED ==> HIDE !in ShowDisconnected(classes)
    ensures marker == ERROR ==> ShowDisconnected(classes) == classes
  {
    var c1 := AfterVisibility(classes, CONNECTED, false);
    assert forall y :: y != HIDE ==> (y in c1 <==> y in classes);
  }

  /** A message received over the socket: its `type` and its `signalStrength` (None when missing). */
  datatype Message = Message(messageType: string, signalStrength: Option<int>)

  /** `d.signalStrength || 5`, then `fa-signal-N` for 1 <= N < 5 and `fa-signal` otherwise. */
  function SignalClass(signalStrength: Option<int>): (c: string)
  {
    var strength := if signalStrength.None? || signalStrength.value == 0 then 5 else signalStrength.value;
    if strength >= 1 && strength < 5 then SIGNAL_PREFIX + "-" + IntToString(strength) else SIGNAL_PREFIX
  }

  predicate IsSignal(c: string)
  {
    StartsWith(c, SIGNAL_PREFIX)
  }

  /**
   * Strengths 1 to 4 each get their own class, "fa-signal-N"; a missing or
   * zero strength, 5 and above, and negatives all get the full-signal "fa-signal".
   * Every result is a signal class.
   */
  lemma SignalClassCases(signalStrength: Option<int>)
    ensures IsSignal(SignalClass(signalStrength))
    ensures signalStrength.Some? && 1 <= signalStrength.value < 5 ==>
      SignalClass(signalStrength) == SIGNAL_PREFIX + "-" + [DigitChar(signalStrength.value)]
    ensures !(signalStrength.Some? && 1 <= signalStrength.value < 5) ==> SignalClass(signalStrength) == SIGNAL_PREFIX
  {
    var c := SignalClass(signalStrength);
    assert c[..|SIGNAL_PREFIX|] == SIGNAL_PREFIX;
  }

  /** The class names of the two-signal example: which are signal classes, and that they are all different. */
  lemma ExampleClassNames()
    ensures IsSignal("fa-signal-1") && IsSignal("fa-signal-2") && IsSignal("fa-signal-3") && !IsSignal(INDICATOR)
    ensures INDICATOR != "fa-signal-1" && INDICATOR != "fa-signal-2" && INDICATOR != "fa-signal-3"
    ensures "fa-signal-1" != "fa-signal-2" && "fa-signal-1" != "fa-signal-3" && "fa-signal-2" != "fa-signal-3"
  {
    var f1, f2, t := "fa-signal-1", "fa-signal-2", "fa-signal-3";
    assert f1[..9] == SIGNAL_PREFIX && f2[..9] == SIGNAL_PREFIX && t[..9] == SIGNAL_PREFIX;
    assert INDICATOR[0] != SIGNAL_PREFIX[0];
    assert f1[10] != f2[10] && f1[10] != t[10] && f2[10] != t[10];
  }

  /**
   * Two signal classes: removing "fa-signal-1" shifts "fa-signal-2" to the
   * index already visited, so it survives beside the new class; the corrected
   * update leaves "fa-signal-3" alone.
   */
  lemma TwoSignalClassesAsWritten()
    ensures Update([INDICATOR, "fa-signal-1", "fa-signal-2"], "fa-signal-3", IsSignal)
         == [INDICATOR, "fa-signal-2", "fa-signal-3"]
    ensures UpdateIntended([INDICATOR, "fa-signal-1", "fa-signal-2"], "fa-signal-3", IsSignal)
         == [INDICATOR, "fa-signal-3"]
  {
    ExampleClassNames();
    TwoSignalsOneSurvives(INDICATOR, "fa-signal-1", "fa-signal-2", "fa-signal-3", IsSignal);
    TwoSignalsNoneSurvives(INDICATOR, "fa-signal-1", "fa-signal-2", "fa-signal-3", IsSignal);
  }

  /**
   * `onData`'s inner loop over one indicator's live class list, proved against
   * the live-loop function of `ClassLists`.
   */
  method UpdateIndicator(classList: seq<string>, indicatorClass: string) returns (r: seq<string>)
    ensures r == Update(classList, indicatorClass, IsSignal)
  {
    r := classList;
    if indicatorClass in r {
      return;
    }
    var len := |r|;
    var k := 0;
    while k < len
      invariant 0 <= k <= len
      invariant ForEachFrom(r, indicatorClass, IsSignal, k, len) == ForEachFrom(classList, indicatorClass, IsSignal, 0, len)
    {
      if k < |r| {
        var cls := r[k];
        if StartsWith(cls, SIGNAL_PREFIX) {
          r := Remove(r, cls);
        }
        r := Add(r, indicatorClass);
      }
      k := k + 1;
    }
  }

  /**
   * The document and the module-level `showDisconnectedTimeout`, with the
   * live timers the handlers arm, each mapped to the time at which it is due.
   */
  class Page {
    /** Every element's class list, in document order. */
    const elements: array<seq<string>>
    var showDisconnectedTimeout: Option<nat>
    var liveTimers: map<nat, int>
    var nextTimerId: nat

    /** At most one "show disconnected" timer is pending: the one the field records. */
    predicate AtMostOnePending()
      reads this
    {
      forall id :: id in liveTimers ==> Some(id) == showDisconnectedTimeout && id < nextTimerId
    }

    constructor (elements: array<seq<string>>)
      ensures this.elements == elements && showDisconnectedTimeout == None && liveTimers == map[]
      ensures AtMostOnePending()
    {
      this.elements := elements;
      showDisconnectedTimeout := None;
      liveTimers := map[];
      nextTimerId := 1;
    }

    /** `setVisibilityByClassName(className, visible)`. */
    method SetVisibilityByClassName(className: string, visible: bool)
      modifies elements
      ensures forall i :: 0 <= i < elements.Length ==>
        elements[i] == AfterVisibility(old(elements[i]), className, visible)
    {
      var i := 0;
      while i < elements.Length
        modifies elements
        invariant 0 <= i <= elements.Length
        invariant forall k :: 0 <= k < i ==> elements[k] == AfterVisibility(old(elements[k]), className, visible)
        invariant forall k :: i <= k < elements.Length ==> elements[k] == old(elements[k])
      {
        if className in elements[i] {
          if visible {
            elements[i] := Remove(elements[i], HIDE);
          } else {
            elements[i] := Add(elements[i], HIDE);
          }
        }
        i := i + 1;
      }
    }

    /** `clearInterval(showDisconnectedTimeout)`; clearing null does nothing. */
    method ClearPending()
      modifies this
      ensures liveTimers == if old(showDisconnectedTimeout).Some? then old(liveTimers) - {old(showDisconnectedTimeout).value}
                            else old(liveTimers)
      ensures showDisconnectedTimeout == old(showDisconnectedTimeout) && nextTimerId == old(nextTimerId)
    {
      if showDisconnectedTimeout.Some? {
        liveTimers := liveTimers - {showDisconnectedTimeout.value};
      }
    }

    /** The `onConnect` handler: the pending timer is cancelled, and only "connected" is shown. */
    method OnConnect()
      requires AtMostOnePending()
      modifies this, elements
      ensures liveTimers == map[] && AtMostOnePending()
      ensures showDisconnectedTimeout == old(showDisconnectedTimeout)
      ensures forall i :: 0 <= i < elements.Length ==> elements[i] == ShowOnly(old(elements[i]), true, false, false)
    {
      ClearPending();
      SetVisibilityByClassName(CONNECTED, true);
      SetVisibilityByClassName(DISCONNECTED, false);
      SetVisibilityByClassName(ERROR, false);
    }

    /** The `onError` handler: only "error" is shown; the timers are untouched. */
    method OnError()
      modifies elements
      ensures forall i :: 0 <= i < elements.Length ==> elements[i] == ShowOnly(old(elements[i]), false, false, true)
    {
      SetVisibilityByClassName(CONNECTED, false);
      SetVisibilityByClassName(DISCONNECTED, false);
      SetVisibilityByClassName(ERROR, true);
    }

    /**
     * The `onClose` handler at time `now`: any pending timer is replaced by one
     * new timer, due `CLOSE_DELAY` ms later; no element changes yet.
     */
    method OnClose(now: int) returns (id: nat)
      requires AtMostOnePending()
      modifies this
      ensures id == old(nextTimerId) && liveTimers == map[id := now + CLOSE_DELAY] && showDisconnectedTimeout == Some(id)
      ensures AtMostOnePending()
    {
      ClearPending();
      id := nextTimerId;
      nextTimerId := nextTimerId + 1;
      liveTimers := liveTimers[id := now + CLOSE_DELAY];
      showDisconnectedTimeout := Some(id);
    }

    /**
     * The timer armed by `onClose` fires at time `now`, no earlier than it is due
     * (`CLOSE_DELAY` ms after the close): "connected" is hidden and "disconnected" shown.
     */
    method FireShowDisconnected(id: nat, now: int)
      requires AtMostOnePending() && id in liveTimers && now >= liveTimers[id]
      modifies this, elements
      ensures liveTimers == map[] && AtMostOnePending() && showDisconnectedTimeout == old(showDisconnectedTimeout)
      ensures forall i :: 0 <= i < elements.Length ==> elements[i] == ShowDisconnected(old(elements[i]))
    {
      liveTimers := liveTimers - {id};
      SetVisibilityByClassName(CONNECTED, false);
      SetVisibilityByClassName(DISCONNECTED, true);
    }

    /**
     * The `onData` handler: only an "UpdateConnectivityIndicator" message does
     * anything; it updates the class list of every indicator in document order.
     */
    method OnData(d: Message)
      modifies elements
      ensures d.messageType != UPDATE_TYPE ==> forall i :: 0 <= i < elements.Length ==> elements[i] == old(elements[i])
      ensures d.messageType == UPDATE_TYPE ==> forall i :: 0 <= i < elements.Length ==>
        elements[i] == if INDICATOR in old(elements[i]) then Update(old(elements[i]), SignalClass(d.signalStrength), IsSignal)
                       else old(elements[i])
    {
      if d.messageType != UPDATE_TYPE {
        return;
      }
      var signalStrength := if d.signalStrength.None? || d.signalStrength.value == 0 then 5 else d.signalStrength.value;
      var indicatorClass := if signalStrength >= 1 && signalStrength < 5 then SIGNAL_PREFIX + "-" + IntToString(signalStrength)
                            else SIGNAL_PREFIX;
      var i := 0;
      while i < elements.Length
        modifies elements
        invariant 0 <= i <= elements.Length
        invariant forall k :: 0 <= k < i ==> (elements[k] ==
          if INDICATOR in old(elements[k]) then Update(old(elements[k]), indicatorClass, IsSignal) else old(elements[k]))
        invariant forall k :: i <= k < elements.Length ==> elements[k] == old(elements[k])
      {
        if INDICATOR in elements[i] {
          elements[i] := UpdateIndicator(elements[i], indicatorClass);
        }
        i := i + 1;
      }
    }
  }
}
