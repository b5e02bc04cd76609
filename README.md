# AEP browser components in Dafny

This project models the small decision and state components of the online-exams
front end (`app/assets/js/` of the AEP application). It replaces the browser with
explicit inputs. The clock is a `now` parameter. Sockets are ready states. Pending
`setTimeout` callbacks are live timer ids. DOM elements are class lists and
attributes. Each module proves the properties the code promises, or shows where it
does not keep them.

| module | file | models |
|---|---|---|
| `WebSocketSteps` | web_socket_steps.dfy | the reconnect and heartbeat state machine of `WebSocketConnection`, as a state value and one step function per entry point, with lemmas over runs of events |
| `WebSockets` | web_sockets.dfy | `WebSocketConnection` as a class. Its methods update its fields in place and are proved equal to the step functions |
| `TimeHelper` | time_helper.dfy | `arrayToSentence` (which pops its array in place) and `msToHumanReadable` |
| `Jddt` | jddt.dfy | `JDDT.pad0` and `JDDT.th`; the fallback timezone name; `stringify` and its four wrappers; the GMT shift and `isGMT` |
| `AssessmentTiming` | assessment_timing.dfy | the branch chain of `refresh`; `setGreen` and `setRed`; the replacement of the last text child |
| `DoubleSubmitProtection` | double_submit_protection.dfy | `attachListener`, with its submit and pageshow handlers over a form and its buttons, and where the browser delivers `pageshow` |
| `FileUploadAttempt` | file_upload_attempt.dfy | the `buildData` loop and the channel gating of `logAttempt` |
| `ErrorReporter` | error_reporter.dfy | the `errors` queue: `onError`, `post`, the unhandled-rejection listener, and the start, success and failure of a flush |
| `WsConnectivity`, `ClassLists` | ws_connectivity.dfy, class_lists.dfy | `setVisibilityByClassName`; the four connectivity handlers; the live `classList.forEach` of `onData` |
| `DocumentTitlePrefix` | document_title_prefix.dfy | `originalDocumentTitle` and `updateDocumentTitle` |
| `TablesortNumber` | tablesort_number.dfy | `cleanNumber` |
| `JsText` | js_text.dfy | shared JavaScript string helpers: number-to-string, `includes`, `trim`, `substring`, `join` |

Where the code and the project's tests disagree, the model follows the code:

- test/assets/js/time-helper-test.js expects `'a moment'` under a minute. It also expects "5 days and 15 minutes" and "30 days, 1 hour and 1 minute".
  - The code returns null under a minute, pluralises only even counts, and reduces days modulo 24.
  - These are proved as written: `TimeHelper.UnderAMinuteIsNull`, `TimeHelper.FiveDaysFifteenMinutesAsWritten` and `TimeHelper.ThirtyDaysAsWritten`.
  - The corrected functions give what the tests expect: `TimeHelper.IntendedFiveDaysFifteenMinutes` and `TimeHelper.IntendedThirtyDays`.
- The jddt test and `JDDT.initialise` in admin.js refer to another version of jddt.js.
- The assessment-timing test imports a `calculateTimingInfo` that assessment-timing.js does not have.
- ws-connectivity.js registers its handlers with `websocket.add`, a method `WebSocketConnection` does not have. The handlers are modelled as the entry points they would be.

## Model

| member | source | states |
|---|---|---|
| WebSocketSteps.ConstructGuard | app/assets/js/web-sockets.js:42-44 | construction succeeds exactly when "wss://" occurs anywhere in the endpoint; otherwise the error message is the endpoint followed by " doesn't look like a valid WebSocket URL" |
| WebSocketSteps.ConstructAcceptsInfix | app/assets/js/web-sockets.js:42-44 | "wss://" in the middle of an endpoint is accepted; it need not be a prefix |
| WebSocketSteps.ConstructDefaults | app/assets/js/web-sockets.js:45-51 | callbacks are kept; an absent heartbeat becomes `defaultHeartbeat`; an absent or zero interval becomes 30000 ms, any other interval is kept |
| WebSocketSteps.TimerDelay | app/assets/js/web-sockets.js:120-122 | the delay `setTimeout` waits is in [0, 2^31): a delay in that range is kept, a negative one becomes 0 |
| WebSocketSteps.ToInt32 | app/assets/js/web-sockets.js:127-130 | the 32-bit conversion of a timer delay lies in the signed 32-bit range and is congruent to its input modulo 2^32 |
| WebSocketSteps.InitInv | app/assets/js/web-sockets.js:38-52 | a new connection has no socket and no timer, and satisfies the state invariant |
| WebSocketSteps.Connect | app/assets/js/web-sockets.js:54-106 | `connect()` keeps the invariant: `ws` is the newest socket, older sockets are closing or closed, timer ids are fresh |
| WebSocketSteps.ReconnectIfRightTime | app/assets/js/web-sockets.js:108-124 | `reconnectIfRightTime()` keeps the invariant |
| WebSocketSteps.SendHeartbeat | app/assets/js/web-sockets.js:126-131 | `sendHeartbeat()` keeps the invariant |
| WebSocketSteps.OnOpen | app/assets/js/web-sockets.js:76-81 | the open listeners keep the invariant |
| WebSocketSteps.OnClose | app/assets/js/web-sockets.js:83-94 | the close listener keeps the invariant |
| WebSocketSteps.OnError | app/assets/js/web-sockets.js:96-104 | the error handler keeps the invariant |
| WebSocketSteps.FireTimer | app/assets/js/web-sockets.js:120-122 | a reconnect or heartbeat timer coming due keeps the invariant |
| WebSocketSteps.Step | app/assets/js/web-sockets.js:54-131 | every event that can happen keeps the invariant |
| WebSocketSteps.Run | app/assets/js/web-sockets.js:54-131 | every run of events keeps the invariant |
| WebSocketSteps.ConnectWhileLive | app/assets/js/web-sockets.js:55-61 | on an OPEN or CONNECTING socket, `connect()` creates no socket and records no attempt. It has already forgotten both timer fields, and the timers stay live |
| WebSocketSteps.ConnectFresh | app/assets/js/web-sockets.js:62-66 | otherwise it adds exactly one connecting socket as `ws`, records `now` as the attempt, and cancels no timer |
| WebSocketSteps.ReconnectWhileScheduled | app/assets/js/web-sockets.js:110-112 | while a reconnect timer is recorded, `reconnectIfRightTime()` changes nothing |
| WebSocketSteps.ReconnectDebounce | app/assets/js/web-sockets.js:114-123 | with no prior attempt, or more than 500 ms after it, it connects at once; otherwise (500 ms included) it records one reconnect timer due in 500 ms |
| WebSocketSteps.CloseEventEffects | app/assets/js/web-sockets.js:83-94 | a close event calls `onClose` once, clears the recorded heartbeat timer and runs the debounced reconnect |
| WebSocketSteps.ErrorEventEffects | app/assets/js/web-sockets.js:96-104 | an error event calls `onError` once, closes the socket the handler belongs to and runs the debounced reconnect |
| WebSocketSteps.MessageEventEffects | app/assets/js/web-sockets.js:68-74 | a message calls `onData` exactly once with its payload when it has data and `onData` is set; otherwise nothing happens |
| WebSocketSteps.HeartbeatRearms | app/assets/js/web-sockets.js:126-131 | a heartbeat firing calls `onHeartbeat(ws)` once and, unless that call threw, re-arms one interval later |
| WebSocketSteps.OpenEventEffects | app/assets/js/web-sockets.js:76-81 | an open event marks the socket open, calls `onConnect` once when set, and arms one heartbeat timer |
| WebSocketSteps.ErrorEventReconnectsAtOnce | app/assets/js/web-sockets.js:96-104 | an error on the current socket more than 500 ms after the last attempt closes it and connects at once, cancelling no timer |
| WebSocketSteps.ErrorEventSchedulesReconnect | app/assets/js/web-sockets.js:96-123 | an error within 500 ms of the last attempt closes the socket and records one reconnect timer due in 500 ms |
| WebSocketSteps.HeartbeatSurvivesReconnect | app/assets/js/web-sockets.js:55-56 | as written, a reconnect forgets the heartbeat timer without clearing it, so two heartbeat timers run once the new socket opens |
| WebSocketSteps.DoubleHeartbeatAsWritten | app/assets/js/web-sockets.js:54-131 | a concrete run of four events ends with heartbeat timers 1 and 2 both live |
| WebSocketSteps.CorrectedAtMostOneHeartbeat | app/assets/js/web-sockets.js:54-131 | with the corrected `connect`, no run of events ever leaves two heartbeat timers live |
| WebSocketSteps.CorrectedStepKeepsHeartbeatInv | app/assets/js/web-sockets.js:54-131 | with the corrected `connect`, every event keeps "the only live heartbeat timer is the recorded one" |
| WebSocketSteps.CorrectedRunKeepsHeartbeatInv | app/assets/js/web-sockets.js:54-131 | the same invariant over any run |
| WebSocketSteps.AtMostOneReconnectTimer | app/assets/js/web-sockets.js:110-123 | after one external `connect()`, at most one reconnect timer is ever live |
| WebSocketSteps.StepKeepsReconnectInv | app/assets/js/web-sockets.js:108-124 | every event except an external `connect()` keeps "the only live reconnect timer is the recorded one" |
| WebSocketSteps.RunKeepsReconnectInv | app/assets/js/web-sockets.js:108-124 | the same invariant over any run without external `connect()` calls |
| WebSocketSteps.ForgottenReconnectTimerStaysLive | app/assets/js/web-sockets.js:55-56 | an external `connect()` while a reconnect is scheduled forgets that timer, so a later error leaves two reconnect timers live |
| WebSockets.WebSocketConnection.New | app/assets/js/web-sockets.js:38-52 | the constructor throws exactly for an endpoint without "wss://"; otherwise it gives a fresh connection with nothing open |
| WebSockets.WebSocketConnection.constructor | app/assets/js/web-sockets.js:45-51 | the settings are those of `Construct`, and the state is the initial one |
| WebSockets.WebSocketConnection.SetTimeout | app/assets/js/web-sockets.js:120-122 | registers one live timer under the next id |
| WebSockets.WebSocketConnection.Connect | app/assets/js/web-sockets.js:54-106 | the new fields are those of the `connect` step |
| WebSockets.WebSocketConnection.ReconnectIfRightTime | app/assets/js/web-sockets.js:108-124 | the new fields are those of the debounce step |
| WebSockets.WebSocketConnection.SendHeartbeat | app/assets/js/web-sockets.js:126-131 | the new fields are those of the heartbeat step |
| WebSockets.WebSocketConnection.OnOpen | app/assets/js/web-sockets.js:76-81 | the new fields are those of the open step |
| WebSockets.WebSocketConnection.OnMessage | app/assets/js/web-sockets.js:68-74 | the new fields are those of the message step |
| WebSockets.WebSocketConnection.OnClose | app/assets/js/web-sockets.js:83-94 | the new fields are those of the close step |
| WebSockets.WebSocketConnection.OnError | app/assets/js/web-sockets.js:96-104 | the new fields are those of the error step |
| WebSockets.WebSocketConnection.FireTimer | app/assets/js/web-sockets.js:120-130 | the new fields are those of the timer step |
| WebSockets.ReconnectKeepsOldHeartbeat | app/assets/js/web-sockets.js:55-56 | on the object: after an error and the new socket's open event, the old heartbeat timer is still live beside the new one |
| TimeHelper.JsArray.Pop | app/assets/js/time-helper.js:7-8 | `pop()` removes and returns the last element, or undefined on an empty array |
| TimeHelper.ArrayToSentence | app/assets/js/time-helper.js:1-10 | null for a missing or empty array; the element itself for one; otherwise the sentence of the elements. The array loses its last element |
| TimeHelper.SentenceMatchesReference | app/assets/js/time-helper.js:8-9 | the sentence is all but the last element joined by ", ", then " and " and the last: no Oxford comma |
| TimeHelper.FloorQuotientRem | app/assets/js/time-helper.js:14-16 | `Math.floor((d / unit) % m)` lies in [0, m) for d >= 0, and in [-m, 0] for d < 0 |
| TimeHelper.MsToHumanReadable | app/assets/js/time-helper.js:12-21 | the pipeline through a fresh array gives the duration sentence |
| TimeHelper.QuantityBounds | app/assets/js/time-helper.js:14-16 | for d >= 0, hours are in [0, 24) and minutes in [0, 60), and days are whole days reduced modulo 24 |
| TimeHelper.PartShape | app/assets/js/time-helper.js:17-19 | a zero count gives no part; otherwise the part is exactly the decimal count, a space and the unit, followed by "s" exactly when the count is even |
| TimeHelper.PartsInOrder | app/assets/js/time-helper.js:17-20 | zero units are left out, and the rest come in the order day, hour, minute: the hour part sits at index 1 after a day part and at index 0 otherwise |
| TimeHelper.UnderAMinuteIsNull | app/assets/js/time-helper.js:12-21 | a duration under a minute gives null |
| TimeHelper.WholeMultipleOf24DaysIsNull | app/assets/js/time-helper.js:14 | a whole multiple of 24 days also gives null, because days are reduced modulo 24 |
| TimeHelper.SentenceOfTwo | app/assets/js/time-helper.js:8-9 | two parts are joined by " and " alone |
| TimeHelper.SentenceOfThree | app/assets/js/time-helper.js:8-9 | three parts get a comma after the first and " and " before the last |
| TimeHelper.FiveDaysFifteenMinutesAsWritten | app/assets/js/time-helper.js:19 | 432946802 ms reads "5 day and 15 minute" |
| TimeHelper.ThirtyDaysAsWritten | app/assets/js/time-helper.js:14 | 30 days, 1 hour and 1 minute reads "6 days, 1 hour and 1 minute" |
| TimeHelper.IntendedPluralRule | app/assets/js/time-helper.js:19 | with the corrected rule, a part ends in "s" exactly when its count is not 1 |
| TimeHelper.IntendedKeepsWholeDays | app/assets/js/time-helper.js:14 | with the corrected day count, a duration of d >= 1 whole days names d days first |
| TimeHelper.IntendedFiveDaysFifteenMinutes | app/assets/js/time-helper.js:12-21 | the corrected sentence for 432946802 ms is "5 days and 15 minutes" |
| TimeHelper.IntendedThirtyDays | app/assets/js/time-helper.js:12-21 | the corrected sentence for 30 days, 1 hour and 1 minute is "30 days, 1 hour and 1 minute" |
| Jddt.Pad0TwoDigits | app/assets/js/jddt.js:30-32 | for 0 <= n <= 99, `pad0(n)` is two digits that read back as n |
| Jddt.Pad0NoPadding | app/assets/js/jddt.js:30-32 | from 10 upwards, `pad0(n)` is the plain decimal string |
| Jddt.Th | app/assets/js/jddt.js:40-55 | `th(n)` is n's decimal string followed by exactly one of "st", "nd", "rd", "th" |
| Jddt.ThTeens | app/assets/js/jddt.js:41-43 | every n in 11..20 takes "th" |
| Jddt.ThByLastDigit | app/assets/js/jddt.js:44-54 | outside 11..20, a last digit of 1, 2 or 3 gives "st", "nd" or "rd", and anything else gives "th" |
| Jddt.ThExamples | app/assets/js/jddt.js:40-55 | 21st, 22nd, 23rd, 30th |
| Jddt.FallbackTimezoneNameShape | app/assets/js/jddt.js:86-90 | the fallback name starts with '-' exactly for a negative offset ('+' otherwise); then come a line break and two spaces, the padded hours of abs(offset) / 60, a colon, a line break and two spaces, and the padded abs(offset) mod 60 as the last two characters |
| Jddt.LocalTimezoneName | app/assets/js/jddt.js:78-90 | the zone `Intl` resolves when there is one, otherwise the fallback |
| Jddt.ShortNamesAreThreeLetterPrefixes | app/assets/js/jddt.js:101-107 | short day and month names are the first three letters of the long names |
| Jddt.ShortYearLastTwoDigits | app/assets/js/jddt.js:106 | for a four-digit year, the long year is its decimal string and the short year is "'" and its last two digits |
| Jddt.FourDigits | app/assets/js/jddt.js:106 | a four-digit number renders as four digits, the last two being its tens and units |
| Jddt.StringifyStartsWithTime | app/assets/js/jddt.js:101-102 | a formatted date starts with the clock "hh:mm", a space and the zone name |
| Jddt.NewJddt | app/assets/js/jddt.js:20-21 | the GMT date is the local date moved by the offset in minutes |
| Jddt.IsGmtMeansSameInstant | app/assets/js/jddt.js:149-151 | `isGMT()` holds exactly when the GMT and local dates coincide |
| Jddt.GmtWrappersAgreeWhenOffsetZero | app/assets/js/jddt.js:114-143 | at offset 0, `longGMT` and `shortGMT` are `longLocal` and `shortLocal` with "GMT" as the zone name |
| AssessmentTiming.ClassifyCases | app/assets/js/assessment-timing.js:33-47 | each branch is taken exactly under its comparisons, in source order; nothing else matches |
| AssessmentTiming.BoundariesMatchNoBranch | app/assets/js/assessment-timing.js:31-47 | at exactly the start or the end, no branch matches |
| AssessmentTiming.BeforeStartWinsOverAfterEnd | app/assets/js/assessment-timing.js:41-46 | "before start" is checked before "after end": a time before the start and after the end reads as not yet open |
| AssessmentTiming.MissingStartOnlyMisses | app/assets/js/assessment-timing.js:29-47 | a NaN or missing start never opens the window; only the missed branch can match |
| AssessmentTiming.NullReadsAsZero | app/assets/js/assessment-timing.js:33-47 | a JSON `null` start or end compares as the time 0: the branch is the one for a start or end of 0 |
| AssessmentTiming.NullStartOpensWindow | app/assets/js/assessment-timing.js:33-40 | with a `null` start and an end still ahead, any positive time is inside the window |
| AssessmentTiming.NullEndMisses | app/assets/js/assessment-timing.js:41-47 | with a `null` end, any positive time not before the start reads as missed |
| AssessmentTiming.BranchColour | app/assets/js/assessment-timing.js:33-47 | green exactly for a started student inside the window; no colour exactly when no branch matches; red otherwise |
| AssessmentTiming.Coloured | app/assets/js/assessment-timing.js:3-11 | after `setGreen` or `setRed`, exactly one of text-info and text-danger is present, and other classes are kept |
| AssessmentTiming.SetGreen | app/assets/js/assessment-timing.js:3-6 | the class list becomes the green one |
| AssessmentTiming.SetRed | app/assets/js/assessment-timing.js:8-11 | the class list becomes the red one |
| AssessmentTiming.ReplaceLast | app/assets/js/assessment-timing.js:49-55 | the node ends with exactly one new last child: it replaces the old last child, or is appended to an empty node |
| AssessmentTiming.Refresh | app/assets/js/assessment-timing.js:13-56 | a NaN end returns early and changes nothing; a `null` start or end does not return early; otherwise the parent is coloured for the branch and the node's last child holds the branch text ("undefined" when no branch matched) |
| AssessmentTiming.Element.constructor | app/assets/js/assessment-timing.js:13-20 | an element with the given classes and children |
| DoubleSubmitProtection.DisableForSubmit | app/assets/js/double-submit-protection.js:16-23 | a `.btn` that is not disabled becomes disabled and marked; anything else is unchanged |
| DoubleSubmitProtection.EnableOnPageShow | app/assets/js/double-submit-protection.js:28-33 | a marked `.btn` is re-enabled and unmarked; anything else is unchanged |
| DoubleSubmitProtection.SubmitThenPageShow | app/assets/js/double-submit-protection.js:16-33 | pageshow undoes exactly what submit did: a button disabled beforehand stays disabled and unmarked |
| DoubleSubmitProtection.EnableOnPageShowIdempotent | app/assets/js/double-submit-protection.js:28-33 | a second pageshow pass changes nothing more |
| DoubleSubmitProtection.Form.constructor | app/assets/js/double-submit-protection.js:1-2 | a form with no listeners yet |
| DoubleSubmitProtection.Form.AttachListener | app/assets/js/double-submit-protection.js:1-41 | adds one submit listener and the init class unless the init class is there; always returns true |
| DoubleSubmitProtection.Form.OnSubmit | app/assets/js/double-submit-protection.js:6-37 | prevented exactly when `data-submitted` is a non-empty string, with nothing changed. Otherwise it stores "true", disables and marks each enabled `.btn`, and adds one pageshow listener |
| DoubleSubmitProtection.Form.OnPageShow | app/assets/js/double-submit-protection.js:25-34 | stores the string "false" and re-enables exactly the marked buttons |
| DoubleSubmitProtection.Form.DispatchPageShow | app/assets/js/double-submit-protection.js:25-34 | when a pageshow event reaches them (it would on the window), the accumulated listeners all run and the result is that of one run; with none, nothing changes |
| DoubleSubmitProtection.Form.OnPageShowIntended | app/assets/js/double-submit-protection.js:26 | the corrected listener removes the attribute, so it is not truthy |
| DoubleSubmitProtection.BackNavigationLeavesFormLocked | app/assets/js/double-submit-protection.js:7-25 | as written, pageshow at the window runs none of the listeners on the document: after submit and pageshow a second submit is prevented and every button the first submit disabled stays disabled |
| DoubleSubmitProtection.BackNavigationWithWindowListener | app/assets/js/double-submit-protection.js:25-34 | with the listener on the window, submit then pageshow re-enables and unmarks every button the submit disabled |
| DoubleSubmitProtection.ResubmitAfterPageShow | app/assets/js/double-submit-protection.js:7-26 | as written, were the listener to run: submit, pageshow, submit again, and the second submit is prevented |
| DoubleSubmitProtection.ResubmitAfterPageShowIntended | app/assets/js/double-submit-protection.js:7-9 | with the corrected listener, the second submit goes through |
| FileUploadAttempt.EntryFor | app/assets/js/file-upload-attempt.js:56-66 | copies name, size and type (as mimeType). `lastModified` comes from `lastModified`, else from `lastModifiedDate.getDate()`, else it is absent |
| FileUploadAttempt.Entries | app/assets/js/file-upload-attempt.js:54-68 | one entry per file, in the same order |
| FileUploadAttempt.FileUploadAttemptLogger.constructor | app/assets/js/file-upload-attempt.js:13-16 | keeps the form's file input and the websocket |
| FileUploadAttempt.FileUploadAttemptLogger.BuildData | app/assets/js/file-upload-attempt.js:42-74 | null exactly when the form has no file input; otherwise the entries of every file and the id, passed through |
| FileUploadAttempt.FileUploadAttemptLogger.LogAttempt | app/assets/js/file-upload-attempt.js:18-40 | nothing for null data. Otherwise one beacon or one XHR POST to /api/log-upload-attempt, then a socket send only when the websocket is present and its readyState is OPEN |
| FileUploadAttempt.FileUploadAttemptLogger.LogAttemptIntended | app/assets/js/file-upload-attempt.js:37-39 | the corrected gate also sends when the connection's current socket is open |
| FileUploadAttempt.LogOverOpenConnection | app/assets/js/file-upload-attempt.js:37-39 | with an open `WebSocketConnection`, as written nothing goes over the socket; the corrected gate sends |
| FileUploadAttempt.SendsOverSocketIntendedOnlyWhenOpen | app/assets/js/file-upload-attempt.js:37-39 | the corrected gate sends whenever the original does, and only when a socket is open |
| FileUploadAttempt.EntryForIntended | app/assets/js/file-upload-attempt.js:58-62 | the corrected fallback is the `lastModifiedDate` timestamp |
| FileUploadAttempt.DayOfMonthIsNotTheTimestamp | app/assets/js/file-upload-attempt.js:60-61 | as written the fallback logs the day of the month, which differs from the timestamp |
| FileUploadAttempt.LastModifiedDateExample | app/assets/js/file-upload-attempt.js:60-61 | a file modified at 1600000000000 ms is logged as modified at 13 |
| FileUploadAttempt.EntryForAgreesWithoutFallback | app/assets/js/file-upload-attempt.js:58-62 | without the fallback, the two loop bodies agree |
| ErrorReporter.StackOf | app/assets/js/error-reporter.js:43 | the stack is `error.stack` when truthy, else the error itself; reading it throws for a null or undefined error |
| ErrorReporter.StackOfIntended | app/assets/js/error-reporter.js:43 | the corrected read records a null error as itself, and agrees with the original elsewhere |
| ErrorReporter.MessageOf | app/assets/js/error-reporter.js:50 | `e.message` throws exactly for a null or undefined `e` |
| ErrorReporter.RejectionMessageShape | app/assets/js/error-reporter.js:59-60 | the message is "Unhandled promise rejection: " and the reason, plus " (message)" exactly when `reason.message` is truthy |
| ErrorReporter.Slice | app/assets/js/error-reporter.js:29 | `slice(n)` is everything after the first n |
| ErrorReporter.SliceDropsSnapshot | app/assets/js/error-reporter.js:16-29 | a successful flush drops exactly the snapshot, so records added while in flight survive |
| ErrorReporter.Without | app/assets/js/error-reporter.js:29 | the corrected filter keeps exactly the records that were not posted |
| ErrorReporter.WithoutPrefix | app/assets/js/error-reporter.js:29 | when the snapshot is still at the front, the filter and the slice agree |
| ErrorReporter.Reporter.constructor | app/assets/js/error-reporter.js:13 | the queue starts empty |
| ErrorReporter.Reporter.OnError | app/assets/js/error-reporter.js:36-47 | throws exactly for a null or undefined error. Otherwise it appends exactly one record at the end, keeps the earlier ones, and requests a flush |
| ErrorReporter.Reporter.Post | app/assets/js/error-reporter.js:49-51 | `onError(e.message, null, null, null, e)` |
| ErrorReporter.Reporter.OnUnhandledRejection | app/assets/js/error-reporter.js:56-62 | appends one record with the rejection message |
| ErrorReporter.Reporter.StartFlush | app/assets/js/error-reporter.js:15-27 | snapshots the queue into one request in flight; the queue is unchanged |
| ErrorReporter.Reporter.FlushSucceeded | app/assets/js/error-reporter.js:27-29 | drops as many records from the front as the request posted |
| ErrorReporter.Reporter.FlushFailed | app/assets/js/error-reporter.js:30-33 | leaves the queue unchanged and requests another flush |
| ErrorReporter.Reporter.FlushSucceededIntended | app/assets/js/error-reporter.js:27-29 | the corrected handler removes the posted records wherever they are, and loses none |
| ErrorReporter.LostRecordAsWritten | app/assets/js/error-reporter.js:15-34 | two overlapping flushes succeeding in order lose a record that was neither posted nor kept |
| ErrorReporter.LostRecordIntended | app/assets/js/error-reporter.js:15-34 | with the corrected handler the same events lose no record |
| WsConnectivity.Visibility | app/assets/js/ws-connectivity.js:1-9 | 'hide' is present exactly when not visible; every other class is kept |
| WsConnectivity.Page.SetVisibilityByClassName | app/assets/js/ws-connectivity.js:1-9 | every element with the class is made visible or hidden; the others are unchanged |
| WsConnectivity.ShowOnlyVisibility | app/assets/js/ws-connectivity.js:16-26 | for an element with one status class, the handler's three calls show it exactly when its flag is set |
| WsConnectivity.ShowOnlyIgnoresOthers | app/assets/js/ws-connectivity.js:16-33 | an element without a status class is left alone |
| WsConnectivity.ShowDisconnectedVisibility | app/assets/js/ws-connectivity.js:29-32 | the close timer hides "connected", shows "disconnected" and leaves "error" untouched |
| WsConnectivity.SignalClassCases | app/assets/js/ws-connectivity.js:36-37 | a strength in 1..4 gives fa-signal-N; a strength that is 0, missing or anything else gives fa-signal |
| WsConnectivity.UpdateIndicator | app/assets/js/ws-connectivity.js:40-49 | the live loop over one indicator's class list gives the list-update function |
| WsConnectivity.TwoSignalClassesAsWritten | app/assets/js/ws-connectivity.js:43-49 | an indicator with fa-signal-1 and fa-signal-2 keeps fa-signal-2 beside the new class; the corrected update keeps neither |
| WsConnectivity.Page.constructor | app/assets/js/ws-connectivity.js:11-12 | no disconnected timer is pending at load |
| WsConnectivity.Page.ClearPending | app/assets/js/ws-connectivity.js:17 | clears the recorded timer, if any |
| WsConnectivity.Page.OnConnect | app/assets/js/ws-connectivity.js:16-21 | cancels the pending timer and shows only "connected" |
| WsConnectivity.Page.OnError | app/assets/js/ws-connectivity.js:22-26 | shows only "error"; the timers are untouched |
| WsConnectivity.Page.OnClose | app/assets/js/ws-connectivity.js:27-33 | replaces any pending timer by one new one, due `CLOSE_DELAY` (5000 ms) after the close; no element changes yet |
| WsConnectivity.Page.FireShowDisconnected | app/assets/js/ws-connectivity.js:11-33 | only at or after its due time, the live timer fires: it hides "connected", shows "disconnected" and leaves no timer pending |
| WsConnectivity.Page.OnData | app/assets/js/ws-connectivity.js:34-51 | a message of another type changes nothing; otherwise every indicator gets the update for its signal class |
| ClassLists.Remove | app/assets/js/ws-connectivity.js:45 | `classList.remove(x)` leaves exactly the classes other than x |
| ClassLists.Add | app/assets/js/ws-connectivity.js:48 | `classList.add(x)` leaves exactly the old classes and x, unchanged when x is there |
| ClassLists.UpdateProperties | app/assets/js/ws-connectivity.js:40-49 | the update keeps every non-signal class and adds nothing but the target. The target is there afterwards exactly when the list was not empty |
| ClassLists.UpdateIntendedProperties | app/assets/js/ws-connectivity.js:40-49 | the corrected update keeps the non-signal classes in order and leaves the target the only signal class |
| ClassLists.UpdateAgreesWithOneSignal | app/assets/js/ws-connectivity.js:43-49 | with at most one signal class on a non-empty list, the live loop gives the corrected result |
| ClassLists.TwoSignalsOneSurvives | app/assets/js/ws-connectivity.js:43-49 | with two signal classes after a first class, the second survives beside the target |
| ClassLists.TwoSignalsNoneSurvives | app/assets/js/ws-connectivity.js:43-49 | the corrected update of the same list keeps neither signal class |
| DocumentTitlePrefix.TitleFor | app/assets/js/sets-document-title-prefix.js:8-12 | the original alone for a blank prefix; otherwise the trimmed prefix, a space and the original |
| DocumentTitlePrefix.BlankPrefixKeepsOriginal | app/assets/js/sets-document-title-prefix.js:8-11 | a whitespace-only prefix restores the original title |
| DocumentTitlePrefix.TitleEndsWithOriginal | app/assets/js/sets-document-title-prefix.js:9 | the title always ends with the original, after at most one trimmed non-blank prefix and a space: prefixes never stack |
| DocumentTitlePrefix.TitleState.constructor | app/assets/js/sets-document-title-prefix.js:1 | the original title is captured once, at load |
| DocumentTitlePrefix.TitleState.UpdateDocumentTitle | app/assets/js/sets-document-title-prefix.js:2-13 | throws exactly for a prefix element without the attribute, leaving the title. Otherwise the title is rebuilt from the original |
| DocumentTitlePrefix.UpdateTwice | app/assets/js/sets-document-title-prefix.js:2-13 | updating twice with the same element equals updating once |
| TablesortNumber.CleanNumber | app/assets/js/tablesort.number.js:3-5 | the output only has '-', '?', '.' and digits, is no longer than the input, and equals an input that has nothing else |
| TablesortNumber.CleanNumberAppend | app/assets/js/tablesort.number.js:4 | cleaning distributes over concatenation, so kept characters keep their order |
| TablesortNumber.CleanNumberOne | app/assets/js/tablesort.number.js:4 | one character survives exactly when it is in the kept class |
| TablesortNumber.CleanNumberKeepsCount | app/assets/js/tablesort.number.js:4 | every kept character occurs in the output as often as in the input |
| TablesortNumber.CleanNumberIdempotent | app/assets/js/tablesort.number.js:4 | cleaning twice equals cleaning once |
| TablesortNumber.CleanNumberEmpty | app/assets/js/tablesort.number.js:4 | input with no kept character, the empty input included, cleans to "" |

## Left out

- Real WebSocket, XHR, fetch and sendBeacon I/O are abstract events and results. JSON parsing and encoding are not modelled: payloads are opaque values.
- The telemetry `defaultHeartbeat` gathers (web-sockets.js:8-26) is not modelled. It is an opaque callback that throws when its socket is still connecting; a caller's heartbeat is taken not to throw.
- The `log` calls are not modelled; they have no effect on state.
- `Date`, `Intl` and the timezone lookup are inputs: the calendar fields, the offset and the resolved zone name.
- JDDT's constructor throw for an input that is not a date (jddt.js:16-18) is not modelled; a JDDT is built from a timestamp.
- The `countdown` library's phrases are opaque strings.
- The 30-second `setInterval` that re-runs `refresh` (assessment-timing.js:58-63) is not modelled. Each call of `Refresh` is one run.
- Lodash `throttle` timing in error-reporter.js is not modelled. A requested flush starts when the environment says so, and requests complete in any order.
- The MutationObserver and DOMContentLoaded bootstrapping of double-submit-protection.js (lines 43-57) is left out.
- `compareNumber` and the currency and number detection regexes of tablesort.number.js (lines 7-22) are floating-point parsing and are left out.
- Durations are integers of milliseconds; non-integral numbers are not modelled.
- ws-connectivity.js registers its handlers through `websocket.add`, which the connection class lacks. The wiring is not modelled, only the handlers.
- WebSocketSteps.ToInt32, WebSocketSteps.TimerDelay: delays beyond the 32-bit range are modelled only through the congruence, not the browser's exact overflow handling.
- The beacon and the XHR are fire and forget: their results are not modelled.
- TimeHelper.FloorQuotientRem: for negative durations only the range of the result is stated, not its exact value.
- WebSocketSteps.OnClose, WebSocketSteps.OnError, WebSockets.WebSocketConnection.OnClose, WebSockets.WebSocketConnection.OnError: the caller's `onClose` and `onError` callbacks (web-sockets.js:83-85, 96-98) are taken not to throw. A callback that throws would skip the rest of the listener: the `clearTimeout`, the `ws.close()` and the reconnect.
- Jddt.NewJddt: the GMT time is the local timestamp plus the offset times 60000 ms. The source calls `setMinutes` on the local minutes (jddt.js:20-21), which differs by the daylight-saving shift when the offset moves the time across a daylight-saving change.
- AssessmentTiming.Refresh: only integers, `null`, a missing value and NaN are modelled for `start` and `end`. Booleans, numeric strings and fractions from the rendering JSON are not; any value whose number is NaN acts as missing.

## Findings

| source | as written | input that shows it | evidently intended | confidence | as-written member | corrected member |
|---|---|---|---|---|---|---|
| app/assets/js/time-helper.js:19 | "s" only when the count is even | 432946802 ms gives "5 day and 15 minute" | "s" for every count other than 1, as the test expects | high, not executed | TimeHelper.FiveDaysFifteenMinutesAsWritten | TimeHelper.IntendedPluralRule |
| app/assets/js/time-helper.js:14 | days reduced modulo 24 | 30 days, 1 hour and 1 minute gives "6 days, 1 hour and 1 minute"; 24 days gives null | whole days kept | high, not executed | TimeHelper.ThirtyDaysAsWritten | TimeHelper.IntendedKeepsWholeDays |
| app/assets/js/double-submit-protection.js:25 | the pageshow listener is added to `document`, but `pageshow` is fired at the window and never reaches it | submit, go back to the page: the buttons stay disabled and a second submit is prevented | `window.addEventListener('pageshow', …)` | high, not executed | DoubleSubmitProtection.BackNavigationLeavesFormLocked | DoubleSubmitProtection.BackNavigationWithWindowListener |
| app/assets/js/double-submit-protection.js:26 | when the listener runs (on the window), it stores the string "false", which is truthy | submit, pageshow, submit: the second submit is prevented | the form can be submitted again after pageshow | high, not executed | DoubleSubmitProtection.ResubmitAfterPageShow | DoubleSubmitProtection.ResubmitAfterPageShowIntended |
| app/assets/js/web-sockets.js:55-56 | `connect()` forgets the heartbeat timer without clearing it | connect, open, error 990 ms later, open: heartbeat timers 1 and 2 both live | one heartbeat per connection | high, not executed | WebSocketSteps.DoubleHeartbeatAsWritten | WebSocketSteps.CorrectedAtMostOneHeartbeat |
| app/assets/js/file-upload-attempt.js:60-61 | the fallback logs `lastModifiedDate.getDate()`, the day of the month | a file modified at 1600000000000 ms is logged with lastModified 13 | the timestamp, `getTime()` | high, not executed | FileUploadAttempt.LastModifiedDateExample | FileUploadAttempt.EntryForIntended |
| app/assets/js/file-upload-attempt.js:37-39 | `readyState` is read on a `WebSocketConnection`, which has none | an open connection: nothing goes over the socket | send when the connection's current socket is open | medium, not executed | FileUploadAttempt.LogOverOpenConnection | FileUploadAttempt.SendsOverSocketIntendedOnlyWhenOpen |
| app/assets/js/error-reporter.js:43 | `error.stack` throws when `error` is null or undefined | `window.onerror` called with a null error | record the error itself | medium, not executed | ErrorReporter.StackOf | ErrorReporter.StackOfIntended |
| app/assets/js/error-reporter.js:29 | a success drops the snapshot's length from the front, even after an overlapping flush dropped it | records a, b and c with two flushes in flight, succeeding in order: c is lost | drop exactly the posted records | medium, not executed | ErrorReporter.LostRecordAsWritten | ErrorReporter.FlushSucceededIntended |
| app/assets/js/ws-connectivity.js:43-49 | the live `forEach` skips the class after a removed one, and adds the target inside the loop | an indicator with fa-signal-1 and fa-signal-2 keeps fa-signal-2 | remove every signal class, add the target once | high, not executed | WsConnectivity.TwoSignalClassesAsWritten | ClassLists.UpdateAgreesWithOneSignal |
