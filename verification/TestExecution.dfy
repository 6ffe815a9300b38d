/** The execution page (TestExecutionPage.xaml.cs): starting a run over a
    WebSocket, classifying the frames the runner streams back, and tearing
    the connection down. The pure functions on a Session value are the
    specification; the class ExecutionSession updates its fields in place
    and is proved to follow them. */
module TestExecution {
  import opened Wrappers
  import opened Strings
  import opened UriEscaping
  import opened Models

  // ---------------------------------------------------------------------
  // State

  /** The page's _webSocket field: no socket, or a socket in one of the
      states the code distinguishes. Closed stands for every state other
      than Connecting and Open: None (a new socket before ConnectAsync),
      CloseSent, CloseReceived, Closed and Aborted. */
  datatype Socket = NoSocket | Connecting | Open | Closed

  /** The fields the page updates: the socket, whether a cancellation scope
      (_cancellationTokenSource) is held, the log list, the Execute button's
      IsEnabled flag, and how many socket and scope objects were disposed. */
  datatype Session = Session(
    socket: Socket,
    scopeLive: bool,
    logs: seq<ExecutionLogEntry>,
    executeEnabled: bool,
    socketDisposals: nat,
    scopeDisposals: nat)

  /** The page as constructed. */
  const InitialSession := Session(NoSocket, false, [], true, 0, 0)

  /** No run: nothing held, the button enabled. */
  predicate Idle(s: Session) {
    s.socket == NoSocket && !s.scopeLive && s.executeEnabled
  }

  /** A run streaming: the socket open, the scope held, the button disabled. */
  predicate Live(s: Session) {
    s.socket == Open && s.scopeLive && !s.executeEnabled
  }

  /** The two states the page rests in between events. */
  predicate Resting(s: Session) {
    Idle(s) || Live(s)
  }

  // ---------------------------------------------------------------------
  // Messages

  const PlaceholderId := "Enter Test Case ID"
  const InvalidIdMessage := "Please enter a valid Test Case ID (e.g., TC00011)."
  const InvalidScriptTypeMessage := "Please select a valid script type (playwright or selenium)."
  const DefaultHost := "127.0.0.1:8002"
  const DefaultBaseUrl := HttpPrefix + DefaultHost
  const ConnectingPrefix := "Connecting to "
  const ConnectedMessage := "WebSocket connected and token sent"
  const TimeoutMessage := "WebSocket connection timed out. Server may be unresponsive."
  const ConnectFailedPrefix := "WebSocket connection failed: "
  const InitiationErrorPrefix := "Error initiating execution: "
  const RawMessagePrefix := "Raw message received: "
  const EmptyResponseMessage := "Received empty or invalid execution response"
  const JsonErrorPrefix := "JSON parsing error: "
  const ClosedByServerMessage := "WebSocket connection closed by server"
  const ReceiveErrorPrefix := "WebSocket error: "
  const UnexpectedErrorPrefix := "Unexpected error: "
  const ClosedByClientMessage := "WebSocket closed by client"
  const CloseErrorPrefix := "Error closing WebSocket: "

  // ---------------------------------------------------------------------
  // Teardown

  /** The entry CloseWebSocket writes after CloseAsync: success, or the
      message of the exception it threw. */
  function CloseEntry(ts: string, closeError: Option<string>): ExecutionLogEntry {
    match closeError
    case None => Entry(ts, ClosedByClientMessage, INFO)
    case Some(m) => Entry(ts, CloseErrorPrefix + m, ERROR)
  }

  /** CloseAsync is attempted only on an Open or Connecting socket. */
  function ClientCloseEntries(socket: Socket, ts: string, closeError: Option<string>): seq<ExecutionLogEntry> {
    if socket == Open || socket == Connecting then [CloseEntry(ts, closeError)] else []
  }

  /** CloseWebSocket: the close handshake when the socket is live, then, in
      any case, dispose and drop the socket and the scope and enable the
      button. */
  function Teardown(s: Session, ts: string, closeError: Option<string>): Session {
    Session(
      NoSocket,
      false,
      s.logs + ClientCloseEntries(s.socket, ts, closeError),
      true,
      s.socketDisposals + (if s.socket != NoSocket then 1 else 0),
      s.scopeDisposals + (if s.scopeLive then 1 else 0))
  }

  /** After a teardown nothing is held and the button is enabled; the log
      gained one entry exactly when the socket was Open or Connecting, and
      each held object was disposed once. */
  lemma TeardownEffect(s: Session, ts: string, closeError: Option<string>)
    ensures Idle(Teardown(s, ts, closeError))
    ensures |Teardown(s, ts, closeError).logs| == |s.logs| + 1 <==> s.socket in {Open, Connecting}
    ensures |Teardown(s, ts, closeError).logs| == |s.logs| <==> s.socket !in {Open, Connecting}
    ensures s.logs <= Teardown(s, ts, closeError).logs
    ensures Teardown(s, ts, closeError).socketDisposals <= s.socketDisposals + 1
    ensures Teardown(s, ts, closeError).scopeDisposals <= s.scopeDisposals + 1
  {
  }

  /** A second teardown logs nothing and disposes nothing. */
  lemma TeardownIdempotent(s: Session, ts: string, closeError: Option<string>, ts2: string, closeError2: Option<string>)
    ensures Teardown(Teardown(s, ts, closeError), ts2, closeError2) == Teardown(s, ts, closeError)
  {
    var t := Teardown(s, ts, closeError);
    assert ClientCloseEntries(t.socket, ts2, closeError2) == [];
    assert t.logs + [] == t.logs;
  }

  // ---------------------------------------------------------------------
  // Frames

  /** A text frame's payload, as JsonSerializer left it. */
  datatype Payload =
    | Malformed(jsonError: string)      // JsonException with this message
    | NullResponse                      // the JSON literal null
    | Response(data: ExecutionResponse)

  /** What one ReceiveAsync produced. */
  datatype Frame =
    | Text(raw: string, payload: Payload)
    | CloseFrame
    | Binary
    | ReceiveFault(webSocketError: bool, message: string, socketAfter: Socket)
      // WebSocketException, or any other exception, and the socket's state
      // when it surfaced

  /** A frame with the clock reading and the outcome of the close handshake
      of a teardown it may cause. */
  datatype Event = Event(frame: Frame, ts: string, closeError: Option<string>)

  /** Case-insensitive comparison of a nullable status with a word. */
  predicate StatusIs(status: Option<string>, word: string) {
    status.Some? && EqualsIgnoreCase(status.value, word)
  }

  /** A non-null entry whose status is ERROR, in any case. */
  predicate IsErrorEntry(e: ExecutionLogEntry) {
    e.ExecutionLogEntry? && StatusIs(e.status, ERROR)
  }

  /** How Array.Exists over a message's entries ends: at the first entry
      with status ERROR, at the first null entry (reading its status throws
      NullReferenceException), or after all of them. */
  datatype ErrorScan = ErrorFound | NullRead | NoError

  /** The scan, element by element, stopping at the first decisive one. A
      null logs array is not scanned. */
  function ScanForError(entries: seq<ExecutionLogEntry>): ErrorScan
    decreases |entries|
  {
    if entries == [] then NoError
    else if entries[0].NullEntry? then NullRead
    else if IsErrorEntry(entries[0]) then ErrorFound
    else ScanForError(entries[1..])
  }

  /** No entry before index i is null. */
  predicate NoNullBefore(entries: seq<ExecutionLogEntry>, i: int)
    requires 0 <= i <= |entries|
  {
    forall j :: 0 <= j < i ==> entries[j].ExecutionLogEntry?
  }

  /** No entry before index i is an ERROR entry. */
  predicate NoErrorBefore(entries: seq<ExecutionLogEntry>, i: int)
    requires 0 <= i <= |entries|
  {
    forall j :: 0 <= j < i ==> !IsErrorEntry(entries[j])
  }

  /** The scan finds an error exactly when an ERROR entry comes before any
      null one, throws exactly when a null entry comes before any ERROR one,
      and finds nothing exactly when every entry is non-null and not ERROR. */
  lemma {:induction false} ScanForErrorMeaning(entries: seq<ExecutionLogEntry>)
    ensures ScanForError(entries) == ErrorFound <==>
      exists i :: 0 <= i < |entries| && IsErrorEntry(entries[i]) && NoNullBefore(entries, i)
    ensures ScanForError(entries) == NullRead <==>
      exists i :: 0 <= i < |entries| && entries[i].NullEntry? && NoErrorBefore(entries, i)
    ensures ScanForError(entries) == NoError <==>
      forall i :: 0 <= i < |entries| ==> entries[i].ExecutionLogEntry? && !IsErrorEntry(entries[i])
    decreases |entries|
  {
    if entries != [] {
      var tail := entries[1..];
      ScanForErrorMeaning(tail);
      assert forall i :: 1 <= i < |entries| ==> entries[i] == tail[i - 1];
      if entries[0].NullEntry? {
        assert NoErrorBefore(entries, 0);
      } else if IsErrorEntry(entries[0]) {
        assert NoNullBefore(entries, 0);
      } else {
        if ScanForError(tail) == ErrorFound {
          var i :| 0 <= i < |tail| && IsErrorEntry(tail[i]) && NoNullBefore(tail, i);
          assert NoNullBefore(entries, i + 1);
        }
        if exists i :: 0 <= i < |entries| && IsErrorEntry(entries[i]) && NoNullBefore(entries, i) {
          var i :| 0 <= i < |entries| && IsErrorEntry(entries[i]) && NoNullBefore(entries, i);
          assert i != 0 && NoNullBefore(tail, i - 1);
        }
        if ScanForError(tail) == NullRead {
          var i :| 0 <= i < |tail| && tail[i].NullEntry? && NoErrorBefore(tail, i);
          assert NoErrorBefore(entries, i + 1);
        }
        if exists i :: 0 <= i < |entries| && entries[i].NullEntry? && NoErrorBefore(entries, i) {
          var i :| 0 <= i < |entries| && entries[i].NullEntry? && NoErrorBefore(entries, i);
          assert i != 0 && NoErrorBefore(tail, i - 1);
        }
      }
    }
  }

  /** The .NET message of a NullReferenceException. */
  const NullReferenceMessage := "Object reference not set to an instance of an object."

  const Completed := "COMPLETED"
  const Failed := "FAILED"
  const FinalPrefix := "Execution "

  /** The run is over: COMPLETED or FAILED, in any case. */
  predicate IsFinalStatus(status: Option<string>) {
    StatusIs(status, Completed) || StatusIs(status, Failed)
  }

  /** The synthetic entry that reports the end of the run. */
  function FinalEntry(ts: string, status: string): ExecutionLogEntry {
    Entry(ts, FinalPrefix + ToLower(status), status)
  }

  /** The last statement of the handler: the button is enabled exactly when
      the socket is not open. */
  function SyncButton(s: Session): Session {
    s.(executeEnabled := s.socket != Open)
  }

  /** A message reporting an error: all its entries, then the teardown. */
  function OnErrorReport(s: Session, entries: seq<ExecutionLogEntry>, ts: string, closeError: Option<string>): Session {
    SyncButton(Teardown(s.(logs := s.logs + entries), ts, closeError))
  }

  /** Any other message: its entries, and when the status is final the
      synthetic entry and the teardown. */
  function OnProgress(s: Session, data: ExecutionResponse, ts: string, closeError: Option<string>): Session {
    var s1 := s.(logs := s.logs + data.logs.GetOr([]));
    if IsFinalStatus(data.status) then
      SyncButton(Teardown(s1.(logs := s1.logs + [FinalEntry(ts, data.status.value)]), ts, closeError))
    else
      SyncButton(s1)
  }

  /** The handler of a parsed, non-null response. A null entry met by the
      scan throws out of the receive loop into its last catch clause, with
      the socket still open. */
  function OnResponse(s: Session, data: ExecutionResponse, ts: string, closeError: Option<string>): Session {
    match ScanForError(data.logs.GetOr([]))
    case ErrorFound => OnErrorReport(s, data.logs.GetOr([]), ts, closeError)
    case NullRead => Fail(s, Entry(ts, UnexpectedErrorPrefix + NullReferenceMessage, ERROR), ts, closeError)
    case NoError => OnProgress(s, data, ts, closeError)
  }

  /** A failure that ends the run: its entry, the button enabled, teardown. */
  function Fail(s: Session, entry: ExecutionLogEntry, ts: string, closeError: Option<string>): Session {
    Teardown(s.(logs := s.logs + [entry], executeEnabled := true), ts, closeError)
  }

  /** The handler of a text frame: the DEBUG entry quoting it, then its
      payload. */
  function OnText(s: Session, raw: string, payload: Payload, ts: string, closeError: Option<string>): Session {
    var s1 := s.(logs := s.logs + [Entry(ts, RawMessagePrefix + raw, DEBUG)]);
    match payload
    case Malformed(m) => Fail(s1, Entry(ts, JsonErrorPrefix + m, ERROR), ts, closeError)
    case NullResponse => Fail(s1, Entry(ts, EmptyResponseMessage, ERROR), ts, closeError)
    case Response(data) => OnResponse(s1, data, ts, closeError)
  }

  /** One pass of the receive loop. A close frame leaves the socket no
      longer Open or Connecting before the teardown; a fault leaves it in
      the state the fault reports. */
  function Step(s: Session, ev: Event): Session {
    match ev.frame
    case Text(raw, payload) => OnText(s, raw, payload, ev.ts, ev.closeError)
    case CloseFrame =>
      Fail(s.(socket := Closed), Entry(ev.ts, ClosedByServerMessage, INFO), ev.ts, ev.closeError)
    case Binary => s
    case ReceiveFault(wsError, m, socketAfter) =>
      Fail(s.(socket := socketAfter), Entry(ev.ts, FaultPrefix(wsError) + m, ERROR), ev.ts, ev.closeError)
  }

  /** The catch clause that reports a fault: WebSocketException, or any
      other exception. */
  function FaultPrefix(webSocketError: bool): string {
    if webSocketError then ReceiveErrorPrefix else UnexpectedErrorPrefix
  }

  /** The receive loop: frames are consumed only while the socket is Open. */
  function Run(s: Session, events: seq<Event>): Session
    decreases |events|
  {
    if events == [] || s.socket != Open then s
    else Run(Step(s, events[0]), events[1..])
  }

  // ---------------------------------------------------------------------
  // Properties of the frame handlers

  /** Every frame leaves the page resting: either still streaming or fully
      torn down. */
  lemma StepKeepsResting(s: Session, ev: Event)
    requires Resting(s)
    ensures Resting(Step(s, ev))
  {
  }

  /** Entries are only ever appended. */
  lemma StepAppendsLogs(s: Session, ev: Event)
    ensures s.logs <= Step(s, ev).logs
  {
    match ev.frame
    case Text(raw, Malformed(m)) => ParseErrorEndsRun(s, raw, m, ev.ts, ev.closeError);
    case Text(raw, NullResponse) => NullResponseEndsRun(s, raw, ev.ts, ev.closeError);
    case Text(raw, Response(data)) =>
      var scan := ScanForError(data.logs.GetOr([]));
      if scan == ErrorFound {
        ErrorEntryEndsRun(s, raw, data, ev.ts, ev.closeError);
      } else if scan == NullRead {
        NullEntryEndsRun(s, raw, data, ev.ts, ev.closeError);
      } else if IsFinalStatus(data.status) {
        FinalStatusEndsRun(s, raw, data, ev.ts, ev.closeError);
      } else {
        ProgressKeepsRun(s, raw, data, ev.ts, ev.closeError);
      }
    case CloseFrame => CloseAndBinaryFrames(s, ev.ts, ev.closeError);
    case Binary =>
    case ReceiveFault(wsError, m, socketAfter) => ReceiveFaultEndsRun(s, wsError, m, socketAfter, ev.ts, ev.closeError);
  }

  /** A malformed frame adds its DEBUG quote and exactly one ERROR entry,
      then the teardown's own entry, and ends the run. */
  lemma ParseErrorEndsRun(s: Session, raw: string, m: string, ts: string, closeError: Option<string>)
    ensures var r := Step(s, Event(Text(raw, Malformed(m)), ts, closeError));
      && r.logs == s.logs + [Entry(ts, RawMessagePrefix + raw, DEBUG), Entry(ts, JsonErrorPrefix + m, ERROR)]
                   + ClientCloseEntries(s.socket, ts, closeError)
      && Idle(r)
  {
  }

  /** A null response adds one ERROR entry and none of any logs. */
  lemma NullResponseEndsRun(s: Session, raw: string, ts: string, closeError: Option<string>)
    ensures var r := Step(s, Event(Text(raw, NullResponse), ts, closeError));
      && r.logs == s.logs + [Entry(ts, RawMessagePrefix + raw, DEBUG), Entry(ts, EmptyResponseMessage, ERROR)]
                   + ClientCloseEntries(s.socket, ts, closeError)
      && Idle(r)
  {
  }

  /** An ERROR entry in the message, before any null one: all its entries
      (null ones too) are kept in order, no synthetic entry is added
      whatever the overall status, and the run ends. */
  lemma ErrorEntryEndsRun(s: Session, raw: string, data: ExecutionResponse, ts: string, closeError: Option<string>)
    requires ScanForError(data.logs.GetOr([])) == ErrorFound
    ensures data.logs.Some?
    ensures var r := Step(s, Event(Text(raw, Response(data)), ts, closeError));
      && r.logs == s.logs + [Entry(ts, RawMessagePrefix + raw, DEBUG)] + data.logs.value
                   + ClientCloseEntries(s.socket, ts, closeError)
      && Idle(r)
  {
  }

  /** A null entry in the message, before any ERROR one: none of the
      entries is kept; the "Unexpected error" entry follows the DEBUG quote,
      and as the socket is still open when the teardown runs, a live run
      also logs the client's close. */
  lemma NullEntryEndsRun(s: Session, raw: string, data: ExecutionResponse, ts: string, closeError: Option<string>)
    requires ScanForError(data.logs.GetOr([])) == NullRead
    ensures var r := Step(s, Event(Text(raw, Response(data)), ts, closeError));
      && r.logs == s.logs + [Entry(ts, RawMessagePrefix + raw, DEBUG), Entry(ts, UnexpectedErrorPrefix + NullReferenceMessage, ERROR)]
                   + ClientCloseEntries(s.socket, ts, closeError)
      && Idle(r)
    ensures Live(s) ==> Step(s, Event(Text(raw, Response(data)), ts, closeError)).logs[|s.logs| + 2] == CloseEntry(ts, closeError)
  {
  }

  /** A fault while receiving: its one ERROR entry, then the client's close
      when the fault left the socket Open or Connecting, and the run ends. */
  lemma ReceiveFaultEndsRun(s: Session, wsError: bool, m: string, socketAfter: Socket, ts: string, closeError: Option<string>)
    ensures var r := Step(s, Event(ReceiveFault(wsError, m, socketAfter), ts, closeError));
      && r.logs == s.logs + [Entry(ts, FaultPrefix(wsError) + m, ERROR)] + ClientCloseEntries(socketAfter, ts, closeError)
      && Idle(r)
  {
  }

  /** COMPLETED or FAILED without an ERROR entry: the entries, then exactly
      one "Execution <status in lower case>" entry carrying the raw status,
      then the end of the run. */
  lemma FinalStatusEndsRun(s: Session, raw: string, data: ExecutionResponse, ts: string, closeError: Option<string>)
    requires ScanForError(data.logs.GetOr([])) == NoError && IsFinalStatus(data.status)
    ensures var r := Step(s, Event(Text(raw, Response(data)), ts, closeError));
      && r.logs == s.logs + [Entry(ts, RawMessagePrefix + raw, DEBUG)] + data.logs.GetOr([])
                   + [Entry(ts, FinalPrefix + ToLower(data.status.value), data.status.value)]
                   + ClientCloseEntries(s.socket, ts, closeError)
      && Idle(r)
  {
  }

  /** Any other message: its entries are appended in order, the socket is
      left as it was, and the button is enabled exactly when the socket is
      not open. */
  lemma ProgressKeepsRun(s: Session, raw: string, data: ExecutionResponse, ts: string, closeError: Option<string>)
    requires ScanForError(data.logs.GetOr([])) == NoError && !IsFinalStatus(data.status)
    ensures var r := Step(s, Event(Text(raw, Response(data)), ts, closeError));
      && r.logs == s.logs + [Entry(ts, RawMessagePrefix + raw, DEBUG)] + data.logs.GetOr([])
      && r.socket == s.socket && r.scopeLive == s.scopeLive
      && r.executeEnabled == (s.socket != Open)
  {
  }

  /** A close frame from the server: one INFO entry, no client close
      handshake, the run ends. Binary frames change nothing. */
  lemma CloseAndBinaryFrames(s: Session, ts: string, closeError: Option<string>)
    ensures var r := Step(s, Event(CloseFrame, ts, closeError));
      r.logs == s.logs + [Entry(ts, ClosedByServerMessage, INFO)] && Idle(r)
    ensures Step(s, Event(Binary, ts, closeError)) == s
  {
    var c := s.(socket := Closed).(logs := s.logs + [Entry(ts, ClosedByServerMessage, INFO)], executeEnabled := true);
    assert ClientCloseEntries(c.socket, ts, closeError) == [];
  }

  // ---------------------------------------------------------------------
  // Properties of the loop

  /** Once the socket is not Open no frame is consumed. */
  lemma RunStopped(s: Session, events: seq<Event>)
    requires s.socket != Open
    ensures Run(s, events) == s
  {
  }

  /** Receiving a then b is receiving a, then b from where a left off. */
  lemma {:induction false} RunAppend(s: Session, a: seq<Event>, b: seq<Event>)
    ensures Run(s, a + b) == Run(Run(s, a), b)
    decreases |a|
  {
    if a == [] {
      assert a + b == b;
    } else if s.socket != Open {
      RunStopped(s, a + b);
      RunStopped(s, b);
    } else {
      assert (a + b)[0] == a[0];
      assert (a + b)[1..] == a[1..] + b;
      RunAppend(Step(s, a[0]), a[1..], b);
    }
  }

  /** The loop keeps the page resting and only appends entries. */
  lemma {:induction false} RunInvariant(s: Session, events: seq<Event>)
    requires Resting(s)
    ensures Resting(Run(s, events))
    ensures s.logs <= Run(s, events).logs
    decreases |events|
  {
    if events != [] && s.socket == Open {
      StepKeepsResting(s, events[0]);
      StepAppendsLogs(s, events[0]);
      RunInvariant(Step(s, events[0]), events[1..]);
    }
  }

  // ---------------------------------------------------------------------
  // Starting a run

  /** The Execute click's inputs: the id box's text and the selected script
      type's content (None for null), and the API client's base URL. */
  datatype StartRequest = StartRequest(idText: Option<string>, scriptTypeText: Option<string>, baseUrl: Option<string>)

  /** How setting the Authorization header, connecting and sending the
      token ended. socketAfter is the socket's state when the exception
      surfaced. */
  datatype StartOutcome =
    | Connected
    | HeaderRejected(message: string)                              // SetRequestHeader threw, before the first entry
    | TimedOut(socketAfter: Socket)                                // OperationCanceledException
    | ConnectFailed(message: string, socketAfter: Socket)          // WebSocketException
    | InitiationFailed(message: string, socketAfter: Socket)       // any other exception

  const Playwright := "playwright"
  const Selenium := "selenium"

  function MapOption<T, U>(o: Option<T>, f: T -> U): Option<U> {
    match o
    case None => None
    case Some(v) => Some(f(v))
  }

  /** The id guard: the text, trimmed, is neither blank nor the
      placeholder. */
  function CheckedId(idText: Option<string>): (r: Option<string>)
    ensures r.Some? <==> idText.Some? && !IsBlank(idText.value) && Trim(idText.value) != PlaceholderId
    ensures r.Some? ==> r.value == Trim(idText.value) && r.value != []
  {
    var id := MapOption(idText, Trim);
    if idText.Some? then TrimBlank(idText.value); (if IsNullOrWhiteSpace(id) || id.value == PlaceholderId then None else id)
    else None
  }

  /** Against a word already in lower case, comparing ignoring case is
      comparing the lower-cased text. */
  lemma MatchesLowerWord(text: string, word: string)
    requires forall i :: 0 <= i < |word| ==> LowerChar(word[i]) == word[i]
    ensures EqualsIgnoreCase(text, word) <==> ToLower(text) == word
  {
    if ToLower(text) == word {
      assert forall i :: 0 <= i < |text| ==> LowerChar(text[i]) == ToLower(text)[i];
    }
  }

  /** The two script types are lower-case words. */
  lemma KnownScriptTypesLower()
    ensures forall i :: 0 <= i < |Playwright| ==> LowerChar(Playwright[i]) == Playwright[i]
    ensures forall i :: 0 <= i < |Selenium| ==> LowerChar(Selenium[i]) == Selenium[i]
    ensures !IsBlank(Playwright) && !IsBlank(Selenium)
  {
    assert !IsWhiteSpace(Playwright[0]) && !IsWhiteSpace(Selenium[0]);
  }

  /** The script type guard: the selection is playwright or selenium in any
      case, and the lower-case word is what is sent. */
  function CheckedScriptType(scriptTypeText: Option<string>): (r: Option<string>)
    ensures r.Some? <==> (scriptTypeText.Some?
      && (EqualsIgnoreCase(scriptTypeText.value, Playwright) || EqualsIgnoreCase(scriptTypeText.value, Selenium)))
    ensures r.Some? ==> r.value == Playwright || r.value == Selenium
  {
    var scriptType := MapOption(scriptTypeText, ToLower);
    if scriptTypeText.Some? then
      KnownScriptTypesLower();
      MatchesLowerWord(scriptTypeText.value, Playwright);
      MatchesLowerWord(scriptTypeText.value, Selenium);
      if IsNullOrWhiteSpace(scriptType) || (scriptType.value != Playwright && scriptType.value != Selenium) then None
      else scriptType
    else None
  }

  /** Both guards, the id first; the failure carries the message box text. */
  function ValidateStart(idText: Option<string>, scriptTypeText: Option<string>): (r: Result<(string, string), string>)
    ensures r.Success? <==> CheckedId(idText).Some? && CheckedScriptType(scriptTypeText).Some?
    ensures r.Success? ==> r.value == (Trim(idText.value), ToLower(scriptTypeText.value))
    ensures CheckedId(idText).None? ==> r == Failure(InvalidIdMessage)
  {
    match CheckedId(idText)
    case None => Failure(InvalidIdMessage)
    case Some(id) =>
      match CheckedScriptType(scriptTypeText)
      case None => Failure(InvalidScriptTypeMessage)
      case Some(scriptType) => Success((id, scriptType))
  }

  const HttpPrefix := "http://"
  const HttpsPrefix := "https://"
  const SecureScheme := "wss"
  const PlainScheme := "ws"
  const SchemeSeparator := "://"
  const TestCasesPath := "/testcases/"
  const ExecuteQuery := "/execute-ws?script_type="

  /** The configured base URL without its trailing slashes, or the fixed
      local address when there is none. */
  function BaseOf(baseUrl: Option<string>): (base: string)
    ensures baseUrl.None? ==> base == DefaultBaseUrl
    ensures baseUrl.Some? ==> IsPrefix(base, baseUrl.value) && (base == [] || base[|base| - 1] != '/')
    ensures baseUrl.Some? ==> forall i :: |base| <= i < |baseUrl.value| ==> baseUrl.value[i] == '/'
  {
    match baseUrl
    case None => DefaultBaseUrl
    case Some(b) => TrimEndChar(b, '/')
  }

  /** wss for an https base, in any case, else ws. */
  function SchemeFor(base: string): (r: string)
    ensures r == SecureScheme <==> StartsWithIgnoreCase(base, HttpsPrefix)
    ensures r == SecureScheme || r == PlainScheme
  {
    assert SecureScheme != PlainScheme by { assert |SecureScheme| != |PlainScheme|; }
    if StartsWithIgnoreCase(base, HttpsPrefix) then SecureScheme else PlainScheme
  }

  /** The runner's WebSocket address. Without a configured base it is
      ws://127.0.0.1:8002/testcases/<id>/execute-ws?script_type=<type>, both
      values escaped. */
  function WsUrl(baseUrl: Option<string>, id: string, scriptType: string): (r: string)
    ensures IsPrefix(SchemeFor(BaseOf(baseUrl)) + SchemeSeparator, r)
    ensures baseUrl.None? ==> r == (PlainScheme + SchemeSeparator + DefaultHost + TestCasesPath + EscapeDataString(id))
                                   + (ExecuteQuery + EscapeDataString(scriptType))
  {
    WsUrlScheme(BaseOf(baseUrl), id, scriptType);
    if baseUrl.None? then
      NoHttpIn(DefaultHost);
      WsUrlHttp(DefaultHost, id, scriptType);
      WsUrlFor(BaseOf(baseUrl), id, scriptType)
    else
      WsUrlFor(BaseOf(baseUrl), id, scriptType)
  }

  /** The base with every "http://" and then every "https://" removed; the
      removal is case-sensitive. */
  function HostPart(base: string): string {
    ReplaceAll(ReplaceAll(base, HttpPrefix, ""), HttpsPrefix, "")
  }

  /** The address for a base: the base's host and path after its http://
      and https:// are removed, then the escaped id and script type. */
  function WsUrlFor(base: string, id: string, scriptType: string): string {
    (SchemeFor(base) + SchemeSeparator + HostPart(base) + TestCasesPath + EscapeDataString(id))
      + (ExecuteQuery + EscapeDataString(scriptType))
  }

  /** Neither prefix occurs in a text without the letter h. */
  lemma NoHttpIn(host: string)
    requires 'h' !in host
    ensures !Contains(host, HttpPrefix) && !Contains(host, HttpsPrefix)
  {
    NotContainsWithoutHead(host, HttpPrefix);
    NotContainsWithoutHead(host, HttpsPrefix);
  }

  /** "https://" holds no "http://", at any offset. */
  lemma HttpsStartsNoHttp(h: string)
    ensures forall i :: 0 <= i < |HttpsPrefix| ==> !IsPrefix(HttpPrefix, (HttpsPrefix + h)[i..])
  {
    var x := HttpsPrefix + h;
    forall i | 0 <= i < |HttpsPrefix|
      ensures !IsPrefix(HttpPrefix, x[i..])
    {
      if i == 0 {
        assert x[4] == 's' && HttpPrefix[4] == ':';
      } else {
        assert x[i] == HttpsPrefix[i] != 'h';
      }
    }
  }

  /** The upper-case prefix holds neither lower-case prefix, at any offset. */
  lemma UpperStartsNoPrefix(h: string)
    ensures forall i :: 0 <= i < |UpperHttpsPrefix| ==> !IsPrefix(HttpPrefix, (UpperHttpsPrefix + h)[i..])
    ensures forall i :: 0 <= i < |UpperHttpsPrefix| ==> !IsPrefix(HttpsPrefix, (UpperHttpsPrefix + h)[i..])
  {
    var x := UpperHttpsPrefix + h;
    forall i | 0 <= i < |UpperHttpsPrefix|
      ensures !IsPrefix(HttpPrefix, x[i..]) && !IsPrefix(HttpsPrefix, x[i..])
    {
      assert x[i..][0] == x[i] == UpperHttpsPrefix[i] != 'h';
    }
  }

  const UpperHttpsPrefix := "HTTPS://"

  /** For an https base the prefix alone is removed. */
  lemma HostPartHttps(host: string)
    requires !Contains(host, HttpPrefix) && !Contains(host, HttpsPrefix)
    ensures HostPart(HttpsPrefix + host) == host
  {
    HttpsStartsNoHttp(host);
    ReplaceAllSkip(HttpsPrefix, host, HttpPrefix, "");
    ReplaceAllAbsent(host, HttpPrefix, "");
    ReplaceAllAtStart(HttpsPrefix, host, "");
    ReplaceAllAbsent(host, HttpsPrefix, "");
  }

  /** For an http base the prefix alone is removed. */
  lemma HostPartHttp(host: string)
    requires !Contains(host, HttpPrefix) && !Contains(host, HttpsPrefix)
    ensures HostPart(HttpPrefix + host) == host
  {
    ReplaceAllAtStart(HttpPrefix, host, "");
    ReplaceAllAbsent(host, HttpPrefix, "");
    assert ReplaceAll(HttpPrefix + host, HttpPrefix, "") == host;
    ReplaceAllAbsent(host, HttpsPrefix, "");
  }

  /** The removal is case-sensitive: an upper-case prefix stays. */
  lemma HostPartUpperCase(host: string)
    requires !Contains(host, HttpPrefix) && !Contains(host, HttpsPrefix)
    ensures HostPart(UpperHttpsPrefix + host) == UpperHttpsPrefix + host
  {
    UpperStartsNoPrefix(host);
    ReplaceAllSkip(UpperHttpsPrefix, host, HttpPrefix, "");
    ReplaceAllAbsent(host, HttpPrefix, "");
    ReplaceAllSkip(UpperHttpsPrefix, host, HttpsPrefix, "");
    ReplaceAllAbsent(host, HttpsPrefix, "");
  }

  /** An https base, in any case, selects wss; an http one selects ws. */
  lemma SchemeOfPrefixes(host: string)
    ensures SchemeFor(HttpsPrefix + host) == SecureScheme
    ensures SchemeFor(UpperHttpsPrefix + host) == SecureScheme
    ensures SchemeFor(HttpPrefix + host) == PlainScheme
  {
    assert (HttpsPrefix + host)[..|HttpsPrefix|] == HttpsPrefix;
    assert (UpperHttpsPrefix + host)[..|HttpsPrefix|] == UpperHttpsPrefix;
    assert EqualsIgnoreCase(UpperHttpsPrefix, HttpsPrefix) by {
      forall i | 0 <= i < |HttpsPrefix|
        ensures LowerChar(UpperHttpsPrefix[i]) == LowerChar(HttpsPrefix[i])
      {
      }
    }
    var x := HttpPrefix + host;
    if |x| >= |HttpsPrefix| {
      assert x[..|HttpsPrefix|][4] == ':' && HttpsPrefix[4] == 's';
      assert LowerChar(':') != LowerChar('s');
    }
  }

  /** An https base: wss, then the host and path as given. */
  lemma WsUrlHttps(host: string, id: string, scriptType: string)
    requires !Contains(host, HttpPrefix) && !Contains(host, HttpsPrefix)
    ensures WsUrlFor(HttpsPrefix + host, id, scriptType)
      == (SecureScheme + SchemeSeparator + host + TestCasesPath + EscapeDataString(id))
         + (ExecuteQuery + EscapeDataString(scriptType))
  {
    SchemeOfPrefixes(host);
    HostPartHttps(host);
  }

  /** An http base: ws, then the host and path as given. */
  lemma WsUrlHttp(host: string, id: string, scriptType: string)
    requires !Contains(host, HttpPrefix) && !Contains(host, HttpsPrefix)
    ensures WsUrlFor(HttpPrefix + host, id, scriptType)
      == (PlainScheme + SchemeSeparator + host + TestCasesPath + EscapeDataString(id))
         + (ExecuteQuery + EscapeDataString(scriptType))
  {
    SchemeOfPrefixes(host);
    HostPartHttp(host);
  }

  /** An upper-case https base selects wss but keeps its prefix in the
      address: "wss://HTTPS://host/...". */
  lemma WsUrlUpperCaseHttps(host: string, id: string, scriptType: string)
    requires !Contains(host, HttpPrefix) && !Contains(host, HttpsPrefix)
    ensures WsUrlFor(UpperHttpsPrefix + host, id, scriptType)
      == (SecureScheme + SchemeSeparator + (UpperHttpsPrefix + host) + TestCasesPath + EscapeDataString(id))
         + (ExecuteQuery + EscapeDataString(scriptType))
  {
    SchemeOfPrefixes(host);
    HostPartUpperCase(host);
  }

  /** The scheme comes first: wss exactly for an https base. */
  lemma WsUrlScheme(base: string, id: string, scriptType: string)
    ensures IsPrefix(SchemeFor(base) + SchemeSeparator, WsUrlFor(base, id, scriptType))
    ensures SchemeFor(base) == SecureScheme <==> StartsWithIgnoreCase(base, HttpsPrefix)
  {
    var scheme := SchemeFor(base) + SchemeSeparator;
    var url := WsUrlFor(base, id, scriptType);
    assert url == scheme + (url[|scheme|..]);
  }

  /** An escaped value holds no "/", "?", "&" or "=": the escaped id fills
      exactly one path segment and the escaped script type one query value. */
  lemma EscapedIsOneComponent(value: string)
    ensures forall i :: 0 <= i < |EscapeDataString(value)| ==> EscapeDataString(value)[i] !in {'/', '?', '&', '='}
  {
  }

  /** The address ends with the query naming the escaped script type. */
  lemma WsUrlEndsWithQuery(base: string, id: string, scriptType: string)
    ensures var q := ExecuteQuery + EscapeDataString(scriptType);
      var url := WsUrlFor(base, id, scriptType);
      |q| <= |url| && url[|url| - |q|..] == q
  {
  }

  /** The entry a failed start logs before its teardown. */
  function StartFailureEntry(outcome: StartOutcome, ts: string): ExecutionLogEntry
    requires !outcome.Connected?
  {
    match outcome
    case HeaderRejected(m) => Entry(ts, InitiationErrorPrefix + m, ERROR)
    case TimedOut(_) => Entry(ts, TimeoutMessage, ERROR)
    case ConnectFailed(m, _) => Entry(ts, ConnectFailedPrefix + m, ERROR)
    case InitiationFailed(m, _) => Entry(ts, InitiationErrorPrefix + m, ERROR)
  }

  /** The state when the Authorization header is set: the button disabled,
      the log list cleared, a fresh scope and a fresh socket, not yet
      connecting. */
  function Prepared(s: Session): Session {
    Session(Closed, true, [], false, s.socketDisposals, s.scopeDisposals)
  }

  /** The state right after the address is logged: fresh scope and socket,
      the log list cleared but for the "Connecting to" entry, the button
      disabled. */
  function Begun(s: Session, url: string, ts: string): Session {
    Session(Connecting, true, [Entry(ts, ConnectingPrefix + url, INFO)], false, s.socketDisposals, s.scopeDisposals)
  }

  /** The click: nothing when a guard fails; otherwise the connected state,
      or the failure's entry and a teardown. A header the socket rejects
      fails before the "Connecting to" entry is logged. */
  function Start(s: Session, request: StartRequest, outcome: StartOutcome, ts: string, closeError: Option<string>): Session {
    match ValidateStart(request.idText, request.scriptTypeText)
    case Failure(_) => s
    case Success(checked) =>
      if outcome.HeaderRejected? then
        Fail(Prepared(s), StartFailureEntry(outcome, ts), ts, closeError)
      else
        Connect(Begun(s, WsUrl(request.baseUrl, checked.0, checked.1), ts), outcome, ts, closeError)
  }

  /** How the connection attempt ends the click. */
  function Connect(begun: Session, outcome: StartOutcome, ts: string, closeError: Option<string>): Session
    requires !outcome.HeaderRejected?
  {
    if outcome.Connected? then
      begun.(socket := Open, logs := begun.logs + [Entry(ts, ConnectedMessage, INFO)])
    else
      Fail(begun.(socket := outcome.socketAfter), StartFailureEntry(outcome, ts), ts, closeError)
  }

  /** A click a guard rejects changes nothing. */
  lemma StartRejected(s: Session, request: StartRequest, outcome: StartOutcome, ts: string, closeError: Option<string>)
    requires ValidateStart(request.idText, request.scriptTypeText).Failure?
    ensures Start(s, request, outcome, ts, closeError) == s
  {
  }

  /** An accepted click that connects streams with exactly two entries:
      where it connected, and that the token was sent. */
  lemma StartConnected(s: Session, request: StartRequest, ts: string, closeError: Option<string>)
    requires ValidateStart(request.idText, request.scriptTypeText).Success?
    ensures var r := Start(s, request, Connected, ts, closeError);
      && Live(r) && |r.logs| == 2
      && r.logs[0].ExecutionLogEntry? && r.logs[0].message.Some? && IsPrefix(ConnectingPrefix, r.logs[0].message.value)
      && r.logs[1] == Entry(ts, ConnectedMessage, INFO)
  {
    var checked := ValidateStart(request.idText, request.scriptTypeText).value;
    var url := WsUrl(request.baseUrl, checked.0, checked.1);
    assert Start(s, request, Connected, ts, closeError) == Connect(Begun(s, url, ts), Connected, ts, closeError);
    BegunConnected(s, url, ts, closeError);
  }

  lemma BegunConnected(s: Session, url: string, ts: string, closeError: Option<string>)
    ensures var r := Connect(Begun(s, url, ts), Connected, ts, closeError);
      && Live(r) && |r.logs| == 2
      && r.logs[0].ExecutionLogEntry? && r.logs[0].message.Some? && IsPrefix(ConnectingPrefix, r.logs[0].message.value)
      && r.logs[1] == Entry(ts, ConnectedMessage, INFO)
  {
    assert (ConnectingPrefix + url)[..|ConnectingPrefix|] == ConnectingPrefix;
  }

  /** An accepted click that fails ends fully torn down with one ERROR
      entry: alone when the header was rejected, otherwise second, after the
      "Connecting to" entry. */
  lemma StartFailed(s: Session, request: StartRequest, outcome: StartOutcome, ts: string, closeError: Option<string>)
    requires ValidateStart(request.idText, request.scriptTypeText).Success? && !outcome.Connected?
    ensures StartFailureEntry(outcome, ts).ExecutionLogEntry? && StartFailureEntry(outcome, ts).status == Some(ERROR)
    ensures var r := Start(s, request, outcome, ts, closeError);
      && Idle(r)
      && (outcome.HeaderRejected? ==> r.logs == [StartFailureEntry(outcome, ts)])
      && (!outcome.HeaderRejected? ==> 2 <= |r.logs| <= 3 && r.logs[1] == StartFailureEntry(outcome, ts))
  {
    if outcome.HeaderRejected? {
      HeaderRejectedFailure(s, StartFailureEntry(outcome, ts), ts, closeError);
    } else {
      var checked := ValidateStart(request.idText, request.scriptTypeText).value;
      var begun := Begun(s, WsUrl(request.baseUrl, checked.0, checked.1), ts);
      assert Start(s, request, outcome, ts, closeError) == Connect(begun, outcome, ts, closeError);
      ConnectFailure(begun, outcome, ts, closeError);
    }
  }

  /** A failure before the socket connects: no close handshake, so the
      failure's entry is the whole log, and both fresh objects are
      disposed. */
  lemma HeaderRejectedFailure(s: Session, entry: ExecutionLogEntry, ts: string, closeError: Option<string>)
    ensures var r := Fail(Prepared(s), entry, ts, closeError);
      && Idle(r) && r.logs == [entry]
      && r.socketDisposals == s.socketDisposals + 1 && r.scopeDisposals == s.scopeDisposals + 1
  {
  }

  lemma ConnectFailure(begun: Session, outcome: StartOutcome, ts: string, closeError: Option<string>)
    requires !outcome.Connected? && !outcome.HeaderRejected? && |begun.logs| == 1
    ensures var r := Connect(begun, outcome, ts, closeError);
      && Idle(r) && 2 <= |r.logs| <= 3
      && r.logs[1] == StartFailureEntry(outcome, ts) && r.logs[1].ExecutionLogEntry? && r.logs[1].status == Some(ERROR)
  {
  }

  /** Every click leaves a resting page resting. */
  lemma StartKeepsResting(s: Session, request: StartRequest, outcome: StartOutcome, ts: string, closeError: Option<string>)
    requires Resting(s)
    ensures Resting(Start(s, request, outcome, ts, closeError))
  {
    if ValidateStart(request.idText, request.scriptTypeText).Success? {
      if outcome.Connected? {
        StartConnected(s, request, ts, closeError);
      } else {
        StartFailed(s, request, outcome, ts, closeError);
      }
    }
  }

  // ---------------------------------------------------------------------
  // The page

  class ExecutionSession {
    var socket: Socket
    var scopeLive: bool
    var logs: seq<ExecutionLogEntry>
    var executeEnabled: bool
    var socketDisposals: nat
    var scopeDisposals: nat

    function State(): Session
      reads this
    {
      Session(socket, scopeLive, logs, executeEnabled, socketDisposals, scopeDisposals)
    }

    constructor ()
      ensures State() == InitialSession
    {
      socket := NoSocket;
      scopeLive := false;
      logs := [];
      executeEnabled := true;
      socketDisposals := 0;
      scopeDisposals := 0;
    }

    /** CloseWebSocket. */
    method CloseWebSocket(ts: string, closeError: Option<string>)
      modifies this
      ensures State() == Teardown(old(State()), ts, closeError)
    {
      if socket == Open || socket == Connecting {
        logs := logs + [CloseEntry(ts, closeError)];
      }
      if socket != NoSocket {
        socketDisposals := socketDisposals + 1;
      }
      socket := NoSocket;
      if scopeLive {
        scopeDisposals := scopeDisposals + 1;
      }
      scopeLive := false;
      executeEnabled := true;
    }

    /** Dispose: the teardown. Its second, conditional disposal of the
        scope finds the field already dropped, so a page disposed twice
        disposes nothing twice (TeardownIdempotent). */
    method Dispose(ts: string, closeError: Option<string>)
      modifies this
      ensures State() == Teardown(old(State()), ts, closeError)
      ensures !scopeLive
    {
      CloseWebSocket(ts, closeError);
    }

    /** The foreach that copies a message's entries. */
    method AppendEntries(entries: seq<ExecutionLogEntry>)
      modifies this
      ensures State() == old(State()).(logs := old(logs) + entries)
    {
      for i := 0 to |entries|
        invariant State() == old(State()).(logs := old(logs) + entries[..i])
      {
        assert entries[..i + 1] == entries[..i] + [entries[i]];
        logs := logs + [entries[i]];
      }
      assert entries[..|entries|] == entries;
    }

    /** The branch for a message reporting an error. */
    method LogErrorReport(entries: seq<ExecutionLogEntry>, ts: string, closeError: Option<string>)
      modifies this
      ensures State() == OnErrorReport(old(State()), entries, ts, closeError)
    {
      AppendEntries(entries);
      CloseWebSocket(ts, closeError);
      executeEnabled := socket != Open;
    }

    /** The branch for any other message. */
    method LogProgress(data: ExecutionResponse, ts: string, closeError: Option<string>)
      modifies this
      ensures State() == OnProgress(old(State()), data, ts, closeError)
    {
      AppendEntries(data.logs.GetOr([]));
      if IsFinalStatus(data.status) {
        logs := logs + [FinalEntry(ts, data.status.value)];
        CloseWebSocket(ts, closeError);
      }
      executeEnabled := socket != Open;
    }

    /** The handler of a parsed response. */
    method HandleResponse(data: ExecutionResponse, ts: string, closeError: Option<string>)
      modifies this
      ensures State() == OnResponse(old(State()), data, ts, closeError)
    {
      var scan := NoError;
      if data.logs.Some? {
        scan := HasError(data.logs.value);
      }
      match scan {
        case ErrorFound =>
          LogErrorReport(data.logs.value, ts, closeError);
        case NullRead =>
          logs := logs + [Entry(ts, UnexpectedErrorPrefix + NullReferenceMessage, ERROR)];
          executeEnabled := true;
          CloseWebSocket(ts, closeError);
        case NoError =>
          LogProgress(data, ts, closeError);
      }
    }

    /** One received frame. */
    method HandleFrame(ev: Event)
      modifies this
      ensures State() == Step(old(State()), ev)
    {
      match ev.frame {
        case Text(raw, payload) =>
          logs := logs + [Entry(ev.ts, RawMessagePrefix + raw, DEBUG)];
          match payload {
            case Malformed(m) =>
              logs := logs + [Entry(ev.ts, JsonErrorPrefix + m, ERROR)];
              executeEnabled := true;
              CloseWebSocket(ev.ts, ev.closeError);
            case NullResponse =>
              logs := logs + [Entry(ev.ts, EmptyResponseMessage, ERROR)];
              executeEnabled := true;
              CloseWebSocket(ev.ts, ev.closeError);
            case Response(data) =>
              HandleResponse(data, ev.ts, ev.closeError);
          }
        case CloseFrame =>
          socket := Closed;
          logs := logs + [Entry(ev.ts, ClosedByServerMessage, INFO)];
          executeEnabled := true;
          CloseWebSocket(ev.ts, ev.closeError);
        case Binary =>
        case ReceiveFault(wsError, m, socketAfter) =>
          socket := socketAfter;
          logs := logs + [Entry(ev.ts, FaultPrefix(wsError) + m, ERROR)];
          executeEnabled := true;
          CloseWebSocket(ev.ts, ev.closeError);
      }
    }

    /** ReceiveWebSocketMessages over the frames that arrive, in order. */
    method ReceiveLoop(events: seq<Event>)
      modifies this
      ensures State() == Run(old(State()), events)
    {
      var k := 0;
      while k < |events| && socket == Open
        invariant 0 <= k <= |events|
        invariant Run(old(State()), events) == Run(State(), events[k..])
      {
        var ev := events[k];
        assert events[k..][1..] == events[k + 1..];
        HandleFrame(ev);
        k := k + 1;
        if ev.frame.CloseFrame? {
          break;
        }
      }
      if k < |events| {
        RunStopped(State(), events[k..]);
      }
    }

    /** btnExecute_Click. */
    method Execute(request: StartRequest, outcome: StartOutcome, ts: string, closeError: Option<string>)
      modifies this
      ensures State() == Start(old(State()), request, outcome, ts, closeError)
    {
      var checked := ValidateStart(request.idText, request.scriptTypeText);
      if checked.Failure? {
        return;
      }
      if outcome.HeaderRejected? {
        RejectHeader(outcome, ts, closeError);
        return;
      }
      var wsUrl := WsUrl(request.baseUrl, checked.value.0, checked.value.1);
      BeginRun(wsUrl, ts);
      AwaitConnection(outcome, ts, closeError);
    }

    /** The statements up to setting the Authorization header. */
    method PrepareRun()
      modifies this
      ensures State() == Prepared(old(State()))
    {
      executeEnabled := false;
      logs := [];
      scopeLive := true;
      socket := Closed;
    }

    /** SetRequestHeader throws: the last catch clause logs the failure and
        tears down a socket that never connected. */
    method RejectHeader(outcome: StartOutcome, ts: string, closeError: Option<string>)
      requires outcome.HeaderRejected?
      modifies this
      ensures State() == Fail(Prepared(old(State())), StartFailureEntry(outcome, ts), ts, closeError)
    {
      PrepareRun();
      logs := logs + [StartFailureEntry(outcome, ts)];
      executeEnabled := true;
      CloseWebSocket(ts, closeError);
    }

    /** The statements before the connection attempt. */
    method BeginRun(wsUrl: string, ts: string)
      modifies this
      ensures State() == Begun(old(State()), wsUrl, ts)
    {
      PrepareRun();
      socket := Connecting;
      logs := logs + [Entry(ts, ConnectingPrefix + wsUrl, INFO)];
    }

    /** Connecting and sending the token, and the three catch clauses. */
    method AwaitConnection(outcome: StartOutcome, ts: string, closeError: Option<string>)
      requires !outcome.HeaderRejected?
      modifies this
      ensures State() == Connect(old(State()), outcome, ts, closeError)
    {
      if outcome.Connected? {
        socket := Open;
        logs := logs + [Entry(ts, ConnectedMessage, INFO)];
      } else {
        socket := outcome.socketAfter;
        logs := logs + [StartFailureEntry(outcome, ts)];
        executeEnabled := true;
        CloseWebSocket(ts, closeError);
      }
    }
  }

  /** Array.Exists over the entries' statuses: it stops at the first ERROR
      entry, and at the first null entry, whose status it cannot read. */
  method HasError(entries: seq<ExecutionLogEntry>) returns (scan: ErrorScan)
    ensures scan == ScanForError(entries)
  {
    var i := 0;
    while i < |entries|
      invariant 0 <= i <= |entries|
      invariant ScanForError(entries[i..]) == ScanForError(entries)
    {
      assert entries[i..][1..] == entries[i + 1..];
      if entries[i].NullEntry? {
        return NullRead;
      }
      if IsErrorEntry(entries[i]) {
        return ErrorFound;
      }
      i := i + 1;
    }
    return NoError;
  }
}
