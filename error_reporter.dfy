/**
 * The error reporter (app/assets/js/error-reporter.js): `window.onerror`, `post`
 * and the unhandled-rejection listener append records to the module-level
 * queue `errors`; a throttled flush posts a snapshot of the queue and, once the
 * request succeeds, drops as many records from the front as it posted. The
 * throttle's timing is not modelled: a requested flush starts whenever the
 * environment says so, and each request in flight completes by success or
 * failure in any order.
 */
module ErrorReporter {
  import opened JsText

  /**
   * The `error` argument: an object, with `String(value)`, its `message` and its
   * `stack` (None when undefined); any other non-null value; or null/undefined.
   */
  datatype ErrorArg =
    | ErrorObject(text: string, message: Option<string>, stack: Option<string>)
    | OtherValue(text: string)
    | Nullish(text: string)

  predicate Truthy(s: Option<string>)
  {
    s.Some? && s.value != ""
  }

  /** A record's `stack`: the stack string, or the error value itself. */
  datatype Stack = StackTrace(trace: string) | ErrorItself(error: ErrorArg)

  /** One entry of `errors`; the time and page URL are read from the environment. */
  datatype ErrorRecord = ErrorRecord(time: int, message: Option<string>, source: Option<string>,
                                     line: Option<int>, column: Option<int>, stack: Stack, pageUrl: string)

  /** `error.stack || error`; None where reading `stack` of null or undefined throws. */
  function StackOf(error: ErrorArg): (s: Option<Stack>)
    ensures s.None? <==> error.Nullish?
    ensures s.Some? ==> (s.value.StackTrace? <==> error.ErrorObject? && Truthy(error.stack))
    ensures s.Some? && s.value.StackTrace? ==> Some(s.value.trace) == error.stack
    ensures s.Some? && s.value.ErrorItself? ==> s.value.error == error
  {
    match error
    case Nullish(_) => None
    case ErrorObject(_, _, stack) => Some(if Truthy(stack) then StackTrace(stack.value) else ErrorItself(error))
    case OtherValue(_) => Some(ErrorItself(error))
  }

  /** The corrected `(error && error.stack) || error`: a null or undefined error is recorded as itself. */
  function StackOfIntended(error: ErrorArg): (s: Stack)
    ensures error.Nullish? ==> s == ErrorItself(error)
    ensures !error.Nullish? ==> Some(s) == StackOf(error)
  {
    if error.Nullish? then ErrorItself(error) else StackOf(error).value
  }

  /** `e.message` as `post` reads it; None where reading it throws, on null or undefined. */
  function MessageOf(e: ErrorArg): (m: Option<Option<string>>)
    ensures m.None? <==> e.Nullish?
    ensures e.ErrorObject? ==> m == Some(e.message)
    ensures e.OtherValue? ==> m == Some(None)
  {
    match e
    case ErrorObject(_, message, _) => Some(message)
    case OtherValue(_) => Some(None)
    case Nullish(_) => None
  }

  /** The text the unhandled-rejection listener reports for `e.reason`. */
  function RejectionMessage(reason: ErrorArg): (m: string)
  {
    var detail := if reason.ErrorObject? && Truthy(reason.message) then " (" + reason.message.value + ")" else "";
    "Unhandled promise rejection: " + reason.text + detail
  }

  /**
   * The rejection text is the fixed prefix and the stringified reason, followed
   * by " (message)" exactly when the reason carries a truthy message.
   */
  lemma RejectionMessageShape(reason: ErrorArg)
    ensures "Unhandled promise rejection: " + reason.text <= RejectionMessage(reason)
    ensures reason.ErrorObject? && Truthy(reason.message) ==>
      RejectionMessage(reason) == "Unhandled promise rejection: " + reason.text + " (" + reason.message.value + ")"
    ensures !(reason.ErrorObject? && Truthy(reason.message)) ==>
      RejectionMessage(reason) == "Unhandled promise rejection: " + reason.text
  {
    var head := "Unhandled promise rejection: " + reason.text;
    var detail := if reason.ErrorObject? && Truthy(reason.message) then " (" + reason.message.value + ")" else "";
    assert RejectionMessage(reason) == head + detail;
  }

  /** `s.slice(n)` for n >= 0: everything after the first n, or nothing when n reaches the end. */
  function Slice(s: seq<ErrorRecord>, n: nat): (r: seq<ErrorRecord>)
    ensures |r| == if n <= |s| then |s| - n else 0
    ensures forall k :: 0 <= k < |r| ==> r[k] == s[n + k]
  {
    if n <= |s| then s[n..] else []
  }

  /** Dropping the snapshot's length from the snapshot followed by later records leaves exactly the later ones. */
  lemma SliceDropsSnapshot(snapshot: seq<ErrorRecord>, later: seq<ErrorRecord>)
    ensures Slice(snapshot + later, |snapshot|) == later
  {
    var r := Slice(snapshot + later, |snapshot|);
    assert forall k :: 0 <= k < |r| ==> r[k] == later[k];
  }

  /** The records of `s` that are not in `posted`, in order: the corrected success handler's filter. */
  function Without(s: seq<ErrorRecord>, posted: set<ErrorRecord>): (r: seq<ErrorRecord>)
    ensures forall x :: x in r <==> x in s && x !in posted
    ensures |r| <= |s|
  {
    if s == [] then []
    else if s[0] in posted then Without(s[1..], posted)
    else [s[0]] + Without(s[1..], posted)
  }

  /** When the snapshot is still at the front of the queue, the filter and the slice agree. */
  lemma {:induction false} WithoutPrefix(snapshot: seq<ErrorRecord>, later: seq<ErrorRecord>)
    requires forall k, j :: 0 <= k < j < |snapshot + later| ==> (snapshot + later)[k] != (snapshot + later)[j]
    ensures Without(snapshot + later, set x | x in snapshot) == Slice(snapshot + later, |snapshot|)
    decreases |snapshot|
  {
    var s := snapshot + later;
    var posted := set x | x in snapshot;
    if snapshot == [] {
      assert s == later;
      WithoutNone(later, posted);
    } else {
      assert s[0] == snapshot[0] && s[0] in posted;
      assert s[1..] == snapshot[1..] + later;
      WithoutPrefix(snapshot[1..], later);
      var rest := set x | x in snapshot[1..];
      WithoutDisjoint(s[1..], posted, rest, snapshot[0]);
      SliceDropsSnapshot(snapshot, later);
      SliceDropsSnapshot(snapshot[1..], later);
    }
  }

  /** Filtering out records that do not occur changes nothing. */
  lemma {:induction false} WithoutNone(s: seq<ErrorRecord>, posted: set<ErrorRecord>)
    requires forall x :: x in s ==> x !in posted
    ensures Without(s, posted) == s
  {
    if s != [] {
      WithoutNone(s[1..], posted);
    }
  }

  /** A record absent from the sequence may be left out of the filter's set. */
  lemma {:induction false} WithoutDisjoint(s: seq<ErrorRecord>, posted: set<ErrorRecord>, rest: set<ErrorRecord>, y: ErrorRecord)
    requires y !in s && posted == rest + {y}
    ensures Without(s, posted) == Without(s, rest)
  {
    if s != [] {
      WithoutDisjoint(s[1..], posted, rest, y);
    }
  }

  class Reporter {
    /** The module-level `errors`. */
    var errors: seq<ErrorRecord>
    /** `postErrorsThrottled()` was called and its run has not started yet. */
    var flushRequested: bool
    /** The flushes whose `fetch` is in flight, each with the snapshot it posts. */
    var inFlight: map<nat, seq<ErrorRecord>>
    var nextRequest: nat
    /** Every record ever appended, and every record a successful request delivered. */
    ghost var logged: set<ErrorRecord>
    ghost var posted: set<ErrorRecord>

    /** No record is lost: each one appended is still queued or has been delivered. */
    ghost predicate NoLoss()
      reads this
    {
      forall x :: x in logged ==> x in errors || x in posted
    }

    constructor ()
      ensures errors == [] && !flushRequested && inFlight == map[] && nextRequest == 0
      ensures logged == {} && posted == {} && NoLoss()
    {
      errors := [];
      flushRequested := false;
      inFlight := map[];
      nextRequest := 0;
      logged := {};
      posted := {};
    }

    /**
     * `onError(message, source, line, column, error)` at time `now` on page
     * `pageUrl`: exactly one record at the end of the queue, and a flush request;
     * with a null or undefined `error` it throws and changes nothing.
     */
    method OnError(message: Option<string>, source: Option<string>, line: Option<int>, column: Option<int>,
                   error: ErrorArg, now: int, pageUrl: string) returns (thrown: bool)
      modifies this
      ensures thrown <==> error.Nullish?
      ensures thrown ==> errors == old(errors) && flushRequested == old(flushRequested) && logged == old(logged)
      ensures !thrown ==>
        && errors == old(errors) + [ErrorRecord(now, message, source, line, column, StackOf(error).value, pageUrl)]
        && flushRequested && logged == old(logged) + {errors[|errors| - 1]}
      ensures inFlight == old(inFlight) && nextRequest == old(nextRequest) && posted == old(posted)
      ensures old(NoLoss()) ==> NoLoss()
    {
      var stack := StackOf(error);
      if stack.None? {
        return true;
      }
      var record := ErrorRecord(now, message, source, line, column, stack.value, pageUrl);
      errors := errors + [record];
      logged := logged + {record};
      flushRequested := true;
      return false;
    }

    /** `post(e)`: `onError(e.message, null, null, null, e)`; a null or undefined `e` throws. */
    method Post(e: ErrorArg, now: int, pageUrl: string) returns (thrown: bool)
      modifies this
      ensures thrown <==> e.Nullish?
      ensures thrown ==> errors == old(errors) && flushRequested == old(flushRequested) && logged == old(logged)
      ensures !thrown ==>
        && errors == old(errors) + [ErrorRecord(now, MessageOf(e).value, None, None, None, StackOf(e).value, pageUrl)]
        && flushRequested && logged == old(logged) + {errors[|errors| - 1]}
      ensures inFlight == old(inFlight) && nextRequest == old(nextRequest) && posted == old(posted)
      ensures old(NoLoss()) ==> NoLoss()
    {
      var message := MessageOf(e);
      if message.None? {
        return true;
      }
      thrown := OnError(message.value, None, None, None, e, now, pageUrl);
    }

    /** The `unhandledrejection` listener for a rejection with `reason`. */
    method OnUnhandledRejection(reason: ErrorArg, now: int, pageUrl: string) returns (thrown: bool)
      modifies this
      ensures thrown <==> reason.Nullish?
      ensures thrown ==> errors == old(errors) && flushRequested == old(flushRequested) && logged == old(logged)
      ensures !thrown ==>
        && errors == old(errors) + [ErrorRecord(now, Some(RejectionMessage(reason)), None, None, None,
                                                StackOf(reason).value, pageUrl)]
        && flushRequested && logged == old(logged) + {errors[|errors| - 1]}
      ensures inFlight == old(inFlight) && nextRequest == old(nextRequest) && posted == old(posted)
      ensures old(NoLoss()) ==> NoLoss()
    {
      thrown := OnError(Some(RejectionMessage(reason)), None, None, None, reason, now, pageUrl);
    }

    /** The throttled function runs: it snapshots the queue and starts a request posting it. */
    method StartFlush() returns (id: nat)
      requires flushRequested
      modifies this
      ensures id == old(nextRequest) && inFlight == old(inFlight)[id := old(errors)]
      ensures nextRequest == old(nextRequest) + 1 && !flushRequested
      ensures errors == old(errors) && logged == old(logged) && posted == old(posted)
      ensures old(NoLoss()) ==> NoLoss()
    {
      var errorsToPost := errors;
      id := nextRequest;
      inFlight := inFlight[id := errorsToPost];
      nextRequest := nextRequest + 1;
      flushRequested := false;
    }

    /**
     * Request `id` succeeded: as many records as it posted are dropped from the
     * front of the queue, whatever they are now.
     */
    method FlushSucceeded(id: nat)
      requires id in inFlight
      modifies this
      ensures errors == Slice(old(errors), |old(inFlight)[id]|)
      ensures inFlight == old(inFlight) - {id} && posted == old(posted) + set x | x in old(inFlight)[id]
      ensures flushRequested == old(flushRequested) && nextRequest == old(nextRequest) && logged == old(logged)
      ensures old(NoLoss()) && old(inFlight)[id] <= old(errors) ==> NoLoss()
    {
      var errorsToPost := inFlight[id];
      errors := Slice(errors, |errorsToPost|);
      posted := posted + set x | x in errorsToPost;
      inFlight := inFlight - {id};
    }

    /** Request `id` failed: the queue stays as it is and another flush is requested. */
    method FlushFailed(id: nat)
      requires id in inFlight
      modifies this
      ensures errors == old(errors) && inFlight == old(inFlight) - {id} && flushRequested
      ensures nextRequest == old(nextRequest) && logged == old(logged) && posted == old(posted)
      ensures old(NoLoss()) ==> NoLoss()
    {
      inFlight := inFlight - {id};
      flushRequested := true;
    }

    /** The corrected success handler: the records that were posted are removed, wherever they are. */
    method FlushSucceededIntended(id: nat)
      requires id in inFlight
      modifies this
      ensures errors == Without(old(errors), set x | x in old(inFlight)[id])
      ensures inFlight == old(inFlight) - {id} && posted == old(posted) + set x | x in old(inFlight)[id]
      ensures flushRequested == old(flushRequested) && nextRequest == old(nextRequest) && logged == old(logged)
      ensures old(NoLoss()) ==> NoLoss()
    {
      var errorsToPost := set x | x in inFlight[id];
      errors := Without(errors, errorsToPost);
      posted := posted + errorsToPost;
      inFlight := inFlight - {id};
    }
  }

  /**
   * Two overlapping flushes lose a record: A posts [a]; b arrives; B posts
   * [a, b] and succeeds; c arrives; A then succeeds and drops one record from
   * the front, which is c. The queue is empty and c was never posted.
   */
  method LostRecordAsWritten(a: ErrorArg, b: ErrorArg, c: ErrorArg) returns (r: Reporter)
    requires !a.Nullish? && !b.Nullish? && !c.Nullish?
    ensures exists x :: x in r.logged && x !in r.errors && x !in r.posted
  {
    r := new Reporter();
    var thrown := r.OnError(None, None, None, None, a, 1, "");
    var requestA := r.StartFlush();
    thrown := r.OnError(None, None, None, None, b, 2, "");
    var requestB := r.StartFlush();
    r.FlushSucceeded(requestB);
    thrown := r.OnError(None, None, None, None, c, 3, "");
    var lost := r.errors[0];
    assert lost.time == 3;
    r.FlushSucceeded(requestA);
    assert lost in r.logged && r.errors == [];
  }

  /** The same events with the corrected success handler: c stays queued, and no record is lost. */
  method LostRecordIntended(a: ErrorArg, b: ErrorArg, c: ErrorArg) returns (r: Reporter)
    requires !a.Nullish? && !b.Nullish? && !c.Nullish?
    ensures r.NoLoss() && |r.errors| == 1 && r.errors[0].time == 3
  {
    r := new Reporter();
    var thrown := r.OnError(None, None, None, None, a, 1, "");
    var requestA := r.StartFlush();
    thrown := r.OnError(None, None, None, None, b, 2, "");
    var requestB := r.StartFlush();
    r.FlushSucceededIntended(requestB);
    thrown := r.OnError(None, None, None, None, c, 3, "");
    var kept := r.errors[0];
    r.FlushSucceededIntended(requestA);
    assert r.errors == [kept];
  }
}
