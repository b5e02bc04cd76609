/**
 * `FileUploadAttemptLogger` (app/assets/js/file-upload-attempt.js): builds a
 * record of the files chosen in a form's file input and sends it to the server
 * by beacon or by XHR, and also over the websocket when that is open. The JSON
 * encoding of the payload is left abstract: a send carries the record itself.
 */
module FileUploadAttempt {
  import opened JsText
  import WebSocketSteps

  const LOG_URL := "/api/log-upload-attempt"

  /**
   * How a browser exposes a file's modification time: the `lastModified`
   * timestamp, or only the older `lastModifiedDate` object, whose `getDate()`
   * is the local day of the month, or neither.
   */
  datatype Modified =
    | LastModified(ms: int)
    | LastModifiedDate(epochMs: int, dayOfMonth: int)
    | NoModified

  /** One entry of the input's `FileList`. */
  datatype FileRecord = FileRecord(name: string, mimeType: string, size: nat, modified: Modified)

  /** The JSON object built for one file; `lastModified` is None when the property is not set. */
  datatype UploadEntry = UploadEntry(lastModified: Option<int>, name: string, mimeType: string, size: nat)

  /** What `buildData` returns. */
  datatype UploadData = UploadData(files: seq<UploadEntry>, studentAssessmentId: string)

  /** The loop body of `buildData` for one file, as written: `getDate()` for the fallback. */
  function EntryFor(f: FileRecord): (e: UploadEntry)
    ensures e.name == f.name && e.mimeType == f.mimeType && e.size == f.size
    ensures f.modified.LastModified? ==> e.lastModified == Some(f.modified.ms)
    ensures f.modified.LastModifiedDate? ==> e.lastModified == Some(f.modified.dayOfMonth)
    ensures e.lastModified.None? <==> f.modified.NoModified?
  {
    var lastModified := match f.modified
      case LastModified(ms) => Some(ms)
      case LastModifiedDate(_, day) => Some(day)
      case NoModified => None;
    UploadEntry(lastModified, f.name, f.mimeType, f.size)
  }

  /** The entries for a whole file list: one per file, in the same order. */
  function Entries(files: seq<FileRecord>): (es: seq<UploadEntry>)
    ensures |es| == |files|
    ensures forall k :: 0 <= k < |files| ==> es[k] == EntryFor(files[k])
  {
    if files == [] then [] else [EntryFor(files[0])] + Entries(files[1..])
  }

  /**
   * The `websocket` the logger was given: none, a browser `WebSocket` with its
   * `readyState`, or a `WebSocketConnection`, which has no `readyState` property
   * of its own; its current socket's state is None before `connect()`.
   */
  datatype SocketRef =
    | NoSocket
    | RawSocket(readyState: WebSocketSteps.ReadyState)
    | Connection(current: Option<WebSocketSteps.ReadyState>)

  /** `this.websocket && this.websocket.readyState === WebSocket.OPEN`. */
  predicate SendsOverSocket(w: SocketRef)
  {
    w.RawSocket? && w.readyState == WebSocketSteps.Open
  }

  /** The corrected test: an open browser socket, or a connection whose current socket is open. */
  predicate SendsOverSocketIntended(w: SocketRef)
  {
    || (w.RawSocket? && w.readyState == WebSocketSteps.Open)
    || (w.Connection? && w.current == Some(WebSocketSteps.Open))
  }

  /** Where the payload goes. */
  datatype Send = Beacon(url: string, payload: UploadData) | XhrPost(url: string, payload: UploadData)
                | SocketSend(payload: UploadData)

  class FileUploadAttemptLogger {
    /** The files of the form's `input[type=file]`; None when the form has none. */
    const fileInput: Option<seq<FileRecord>>
    const websocket: SocketRef

    constructor (fileInput: Option<seq<FileRecord>>, websocket: SocketRef)
      ensures this.fileInput == fileInput && this.websocket == websocket
    {
      this.fileInput := fileInput;
      this.websocket := websocket;
    }

    /**
     * `buildData(studentAssessmentId)`: null without a file input; otherwise one
     * entry per file, in order, and the id passed through.
     */
    method BuildData(studentAssessmentId: string) returns (r: Option<UploadData>)
      ensures r.None? <==> fileInput.None?
      ensures r.Some? ==> r.value == UploadData(Entries(fileInput.value), studentAssessmentId)
    {
      if fileInput.None? {
        return None;
      }
      var files := fileInput.value;
      var len := |files|;
      var i := 0;
      var results: seq<UploadEntry> := [];
      while i < len
        invariant 0 <= i <= len
        invariant |results| == i
        invariant forall k :: 0 <= k < i ==> results[k] == EntryFor(files[k])
      {
        var file := files[i];
        var lastModified: Option<int> := None;
        if file.modified.LastModified? {
          lastModified := Some(file.modified.ms);
        } else if file.modified.LastModifiedDate? {
          lastModified := Some(file.modified.dayOfMonth);
        }
        var entry := UploadEntry(lastModified, file.name, file.mimeType, file.size);
        i := i + 1;
        results := results + [entry];
      }
      return Some(UploadData(results, studentAssessmentId));
    }

    /**
     * `logAttempt(studentAssessmentId)`, with `hasSendBeacon` for
     * `'sendBeacon' in navigator`: nothing without a file input; otherwise
     * exactly one request to the log URL, by beacon if available and by XHR
     * if not, then the same payload over the websocket when it reads as open.
     */
    method LogAttempt(studentAssessmentId: string, hasSendBeacon: bool) returns (sends: seq<Send>)
      ensures fileInput.None? ==> sends == []
      ensures fileInput.Some? ==>
        var data := UploadData(Entries(fileInput.value), studentAssessmentId);
        && |sends| == (if SendsOverSocket(websocket) then 2 else 1)
        && (sends[0].Beacon? <==> hasSendBeacon) && (sends[0].XhrPost? <==> !hasSendBeacon)
        && !sends[0].SocketSend? && sends[0].url == LOG_URL
        && (forall s :: s in sends ==> s.payload == data)
        && (|sends| == 2 ==> sends[1].SocketSend?)
    {
      var data := BuildData(studentAssessmentId);
      if data == None {
        return [];
      }
      var payload := data.value;
      if hasSendBeacon {
        sends := [Beacon(LOG_URL, payload)];
      } else {
        sends := [XhrPost(LOG_URL, payload)];
      }
      if websocket != NoSocket && SendsOverSocket(websocket) {
        sends := sends + [SocketSend(payload)];
      }
    }

    /** The corrected `logAttempt`: also sends when the connection's current socket is open. */
    method LogAttemptIntended(studentAssessmentId: string, hasSendBeacon: bool) returns (sends: seq<Send>)
      ensures fileInput.None? ==> sends == []
      ensures fileInput.Some? ==>
        var data := UploadData(Entries(fileInput.value), studentAssessmentId);
        && |sends| == (if SendsOverSocketIntended(websocket) then 2 else 1)
        && (sends[0].Beacon? <==> hasSendBeacon) && (sends[0].XhrPost? <==> !hasSendBeacon)
        && !sends[0].SocketSend? && sends[0].url == LOG_URL
        && (forall s :: s in sends ==> s.payload == data)
        && (|sends| == 2 ==> sends[1].SocketSend?)
    {
      var data := BuildData(studentAssessmentId);
      if data == None {
        return [];
      }
      var payload := data.value;
      if hasSendBeacon {
        sends := [Beacon(LOG_URL, payload)];
      } else {
        sends := [XhrPost(LOG_URL, payload)];
      }
      if SendsOverSocketIntended(websocket) {
        sends := sends + [SocketSend(payload)];
      }
    }
  }

  /**
   * Given the `WebSocketConnection` its documentation asks for, the logger never
   * uses the socket, even when the connection's socket is open; the corrected
   * test sends there.
   */
  method LogOverOpenConnection(files: seq<FileRecord>, id: string) returns (asWritten: seq<Send>, intended: seq<Send>)
    ensures |asWritten| == 1 && !asWritten[0].SocketSend?
    ensures |intended| == 2 && intended[1] == SocketSend(UploadData(Entries(files), id))
  {
    var logger := new FileUploadAttemptLogger(Some(files), Connection(Some(WebSocketSteps.Open)));
    asWritten := logger.LogAttempt(id, true);
    intended := logger.LogAttemptIntended(id, true);
  }

  /** Only an open socket makes the corrected test send: never before connect, never once it is closing. */
  lemma SendsOverSocketIntendedOnlyWhenOpen(w: SocketRef)
    ensures SendsOverSocket(w) ==> SendsOverSocketIntended(w)
    ensures SendsOverSocketIntended(w) ==>
      (w.RawSocket? && w.readyState == WebSocketSteps.Open) || w.current == Some(WebSocketSteps.Open)
  {
  }

  /** The fallback of the corrected loop body: the `lastModifiedDate` timestamp, `getTime()`. */
  function EntryForIntended(f: FileRecord): (e: UploadEntry)
    ensures e.name == f.name && e.mimeType == f.mimeType && e.size == f.size
    ensures f.modified.LastModified? ==> e.lastModified == Some(f.modified.ms)
    ensures f.modified.LastModifiedDate? ==> e.lastModified == Some(f.modified.epochMs)
    ensures e.lastModified.None? <==> f.modified.NoModified?
  {
    var lastModified := match f.modified
      case LastModified(ms) => Some(ms)
      case LastModifiedDate(epoch, _) => Some(epoch)
      case NoModified => None;
    UploadEntry(lastModified, f.name, f.mimeType, f.size)
  }

  /**
   * The same file, modified at `t`, as a browser with `lastModified` and as one
   * with only `lastModifiedDate` reports it. As written the second records the
   * day of the month, which is never the timestamp once `t` is past 31 ms after
   * the epoch; the corrected body records the same value for both.
   */
  lemma DayOfMonthIsNotTheTimestamp(name: string, mimeType: string, size: nat, t: int, day: int)
    requires 1 <= day <= 31 && t > 31
    ensures EntryFor(FileRecord(name, mimeType, size, LastModifiedDate(t, day)))
         != EntryFor(FileRecord(name, mimeType, size, LastModified(t)))
    ensures EntryForIntended(FileRecord(name, mimeType, size, LastModifiedDate(t, day)))
         == EntryForIntended(FileRecord(name, mimeType, size, LastModified(t)))
  {
  }

  /** A file modified at 1600000000000 ms (13 September 2020) is logged as modified at 13. */
  lemma LastModifiedDateExample()
    ensures EntryFor(FileRecord("essay.pdf", "application/pdf", 1024, LastModifiedDate(1600000000000, 13))).lastModified
         == Some(13)
    ensures EntryForIntended(FileRecord("essay.pdf", "application/pdf", 1024, LastModifiedDate(1600000000000, 13))).lastModified
         == Some(1600000000000)
  {
  }

  /** Where the file exposes `lastModified`, or nothing, the two bodies agree. */
  lemma EntryForAgreesWithoutFallback(f: FileRecord)
    requires !f.modified.LastModifiedDate?
    ensures EntryFor(f) == EntryForIntended(f)
  {
  }
}
