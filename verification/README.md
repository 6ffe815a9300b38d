# A verified model of the 44GenAI WPF client's logic

The client is a WPF desktop front end for a test-automation service. It
is mostly UI wiring. Its logic sits in a few sequential pieces inside the
pages' code-behind, and this project models them in Dafny.

- **Script page** (`ScriptGeneration`, GenerateScript.dfy):
  - The compiler from a test plan's "current - bdd steps" object to a
    Playwright script in Python: fixed prologue, one block per recognised
    step phrase, fixed epilogue.
  - The escaping of test data.
  - The id guard of a run.
  - The turning of the runner's plain-text reply into log entries.
- **Execution page** (`TestExecution`, TestExecution.dfy):
  - Starting a run: the two guards, the WebSocket address, connecting.
  - The receive loop and how it classifies each frame.
  - The `CloseWebSocket` teardown and `Dispose`.
  - The page is a class whose fields (socket, cancellation scope, log
    list, Execute button) its methods update in place. Each method is
    proved to follow a pure function on a `Session` value, and the
    properties are proved about those functions.
- **API client** (`ApiClient`, ApiClient.dfy):
  - The settings defaults.
  - The case-insensitive endpoint table: first-wins normalisation and the
    eight-entry fallback.
  - `Resolve`, with `{name}` placeholder substitution.
  - The headers `SetBearer` and the API key maintain.
- **Small helpers**:
  - Step-row building (`TestSteps`).
  - The sign-up and new-project form guards (`Register`, `CreateProject`,
    sharing `Forms`).
  - The tags value converter (`Tags`).
- **Shared models**:
  - `Models`: the wire records `ExecutionResponse` and
    `ExecutionLogEntry`; an element of a logs array may be null.
  - `Strings`: the .NET string members the code uses (ordinal `Trim`,
    `Replace`, `Split`, `Join`, `Contains`, OrdinalIgnoreCase
    comparison).
  - `UriEscaping`: `Uri.EscapeDataString` as percent-encoding over UTF-8,
    following sections 2.1 and 2.3 of RFC 3986.

Some inputs are parameters:

- Clock readings are opaque timestamp strings.
- The platform newline of `StringBuilder.AppendLine` is the parameter
  `nl`.
- Exception messages are plain strings.
- The outcome of a WebSocket connect or close is an input value.
- `DateTime.TryParse` is the parameter `parsesAsDate`.

## Model

| member | source | states |
|---|---|---|
| Strings.TrimStart | TestExecutionPage.xaml.cs:34 | the result is a suffix of the input; everything dropped is white space; the result does not start with white space |
| Strings.TrimEnd | TestExecutionPage.xaml.cs:34 | the result is a prefix of the input; everything dropped is white space; the result does not end with white space |
| Strings.TrimBlank | TestExecutionPage.xaml.cs:34-35 | trimming empties exactly the blank strings, so testing the trimmed id for blankness is testing the raw text |
| Strings.TrimEndChar | TestExecutionPage.xaml.cs:57 | `TrimEnd('/')` drops exactly the trailing run of that character |
| Strings.ToLower | TestExecutionPage.xaml.cs:41 | lower-casing keeps the length and folds each character |
| Strings.EqualsIgnoreCaseLower | TestExecutionPage.xaml.cs:158 | an OrdinalIgnoreCase comparison is the same as comparing the lower-case forms |
| Strings.ReplaceAllLength | Services/ApiClient.cs:120 | `string.Replace` changes the length by (replacement - pattern) for each non-overlapping occurrence |
| Strings.ReplaceAllAbsent | Services/ApiClient.cs:120 | `Replace` leaves a string without the pattern unchanged |
| Strings.ReplaceAllSelf | Services/ApiClient.cs:120 | replacing a pattern by itself is the identity |
| Strings.ReplaceOneChar | GenerateScriptPage.xaml.cs:236 | `Replace` with a one-character pattern substitutes that character wherever it occurs |
| Strings.SubstCharAppend | GenerateScriptPage.xaml.cs:236 | character substitution distributes over concatenation |
| Strings.Fields | GenerateScriptPage.xaml.cs:302 | `Split` gives at least one piece, and no piece holds the separator |
| Strings.FieldsJoin | GenerateScriptPage.xaml.cs:302 | joining the pieces of a split with the separator rebuilds the input |
| Strings.NonEmpty | GenerateScriptPage.xaml.cs:302 | RemoveEmptyEntries keeps exactly the non-empty pieces: every kept piece is non-empty and from the split, every non-empty piece is kept, and a split without empty pieces is kept whole |
| Strings.NonEmptySnoc | GenerateScriptPage.xaml.cs:302 | one more piece is kept, at the end, exactly when it is non-empty: the kept pieces are the non-empty ones in their order |
| Strings.SplitRemoveEmpty | GenerateScriptPage.xaml.cs:302 | each piece is non-empty and free of the separator |
| Strings.SplitRemoveEmptyJoin | GenerateScriptPage.xaml.cs:302 | without a separator at either end or two in a row, the pieces are all the fields and joining them with the separator rebuilds the input |
| Strings.SplitRemoveEmptySpells | GenerateScriptPage.xaml.cs:302 | the pieces, in order, spell out the input with the separators deleted |
| UriEscaping.Utf8 | TestExecutionPage.xaml.cs:60 | a character encodes to 1 to 4 bytes, and to itself alone exactly when it is ASCII |
| UriEscaping.EscapeDataString | TestExecutionPage.xaml.cs:60 | the escaped text holds only unreserved characters and "%" |
| UriEscaping.EscapeDecodeRoundTrip | TestExecutionPage.xaml.cs:60 | percent-decoding the escaped text gives exactly the UTF-8 bytes of the input |
| UriEscaping.EscapeUnreservedIdentity | Services/ApiClient.cs:120 | a value made of unreserved characters is substituted unchanged |
| UriEscaping.EscapeSpace | Services/ApiClient.cs:120 | a space is written as %20 |
| ScriptGeneration.RenderAppend | GenerateScriptPage.xaml.cs:219-284 | the text of the appended lines distributes over concatenation of line lists |
| ScriptGeneration.EscapeTestDataIsEscape | GenerateScriptPage.xaml.cs:236 | null-to-"" then the three chained Replace calls equal one per-character escape; no pass rewrites what an earlier one inserted |
| ScriptGeneration.ChainedSubstIsEscape | GenerateScriptPage.xaml.cs:236 | the three substitutions in the order quote, LF, CR compose to the per-character escape |
| ScriptGeneration.EscapeShape | GenerateScriptPage.xaml.cs:236 | the escaped data holds no raw LF or CR, and is longer by exactly the number of quotes, LFs and CRs |
| ScriptGeneration.EscapeRoundTrip | GenerateScriptPage.xaml.cs:236-250 | for data without a backslash, the Python literal in the script denotes exactly the data |
| ScriptGeneration.BackslashNotEscaped | GenerateScriptPage.xaml.cs:236 | backslashes are not escaped, so data "\n" (two characters) and a line feed give the same script text |
| ScriptGeneration.AppendStep | GenerateScriptPage.xaml.cs:233-271 | one iteration appends the text of the entry's block: the case's lines with the escaped data, or nothing for an unknown phrase |
| ScriptGeneration.AppendBlocks | GenerateScriptPage.xaml.cs:231-273 | the foreach appends the blocks of all entries, in plan order |
| ScriptGeneration.GenerateScriptFromBddSteps | GenerateScriptPage.xaml.cs:216-285 | the script is the text of prologue, blocks and epilogue |
| ScriptGeneration.EmitAppend | GenerateScriptPage.xaml.cs:233 | the blocks of a concatenated plan are the concatenated blocks |
| ScriptGeneration.BodyLinesAppend | GenerateScriptPage.xaml.cs:233 | the order of the plan is the order of the script |
| ScriptGeneration.ScriptFrame | GenerateScriptPage.xaml.cs:220-231 | every script is the fixed prologue, the blocks, then the fixed epilogue; with no steps property there are no blocks |
| ScriptGeneration.RenderFrame | GenerateScriptPage.xaml.cs:220-282 | the text of prologue + body + epilogue is the concatenation of their texts |
| ScriptGeneration.EmitSingle | GenerateScriptPage.xaml.cs:233 | a one-entry plan emits exactly that entry's block |
| ScriptGeneration.EmitRenderStep | GenerateScriptPage.xaml.cs:233-271 | emitting one more entry appends its block's text |
| ScriptGeneration.EmitSkip | GenerateScriptPage.xaml.cs:237-271 | an entry with an empty block can be removed from the plan without changing the output |
| ScriptGeneration.EmitRepeat | GenerateScriptPage.xaml.cs:233 | n copies of an entry emit n copies of its block |
| ScriptGeneration.UnknownStepSkipped | GenerateScriptPage.xaml.cs:237-271 | a phrase outside the switch emits nothing and raises nothing: the script equals that of the plan without the entry |
| ScriptGeneration.DuplicatesRepeat | GenerateScriptPage.xaml.cs:233-271 | each duplicate entry emits its own block |
| ScriptGeneration.AliasedPhrases | GenerateScriptPage.xaml.cs:243-256 | the two username phrases share a case; the login and reset-password phrases share a case that clicks the Login button |
| ScriptGeneration.PhraseMatchIsCaseSensitive | GenerateScriptPage.xaml.cs:237-239 | matching is exact: a phrase differing only in case is not recognised |
| ScriptGeneration.FixedRulesIgnoreData | GenerateScriptPage.xaml.cs:252-270 | click and verification blocks are non-empty and independent of the test data |
| ScriptGeneration.QuotedInjective | GenerateScriptPage.xaml.cs:241 | text framed by a fixed prefix and suffix determines what is between them |
| ScriptGeneration.DataRulesDependOnData | GenerateScriptPage.xaml.cs:239-251 | navigate, username and password blocks are equal exactly when their escaped data are |
| ScriptGeneration.DataLineQuotesEscapedData | GenerateScriptPage.xaml.cs:236-251 | a data block has two lines; the second quotes the per-character escape of the data, which holds no raw line break |
| ScriptGeneration.AcceptsTestCaseIdTrimmed | GenerateScriptPage.xaml.cs:121-125 | an id is accepted exactly when, trimmed, it is non-empty and it is not the placeholder; "" and the placeholder are rejected |
| ScriptGeneration.LineStatus | GenerateScriptPage.xaml.cs:305 | SUCCESS exactly when the line holds "Test Passed"; ERROR exactly when it holds "Test Failed" but not "Test Passed"; INFO otherwise |
| ScriptGeneration.LineEntries | GenerateScriptPage.xaml.cs:303-307 | one entry per line |
| ScriptGeneration.LineEntriesAt | GenerateScriptPage.xaml.cs:303-307 | entry k is the entry of line k |
| ScriptGeneration.LineEntriesSnoc | GenerateScriptPage.xaml.cs:303-307 | one more line adds its entry at the end |
| ScriptGeneration.LineEntriesAppend | GenerateScriptPage.xaml.cs:303-307 | the entries of concatenated lines are the concatenated entries |
| ScriptGeneration.ReplyClassification | GenerateScriptPage.xaml.cs:301-307 | one entry per non-empty LF-separated line, in order, message trimmed, status by LineStatus; the lines spell out the reply minus its LFs |
| ScriptGeneration.Preview | GenerateScriptPage.xaml.cs:296 | the DEBUG entry quotes a prefix of at most 200 characters, the whole reply when it is that short |
| ScriptGeneration.GenerateScriptPage.constructor | GenerateScriptPage.xaml.cs:19-76 | the log list starts empty, and the constructed page holds exactly the INFO entry "Verifying endpoints..." that VerifyEndpoints adds before its first await |
| ScriptGeneration.GenerateScriptPage.ExecuteScript | GenerateScriptPage.xaml.cs:295-325 | the log gains the DEBUG preview entry, then the line entries or the rejection entries |
| ScriptGeneration.GenerateScriptPage.LogOutcome | GenerateScriptPage.xaml.cs:299-325 | a success logs the line entries, a failure the rejection entries |
| ScriptGeneration.GenerateScriptPage.LogRejection | GenerateScriptPage.xaml.cs:310-325 | a parse failure adds its DEBUG entry, then one ERROR entry with the detail or "Failed to execute script." |
| ScriptGeneration.GenerateScriptPage.LogReplyLines | GenerateScriptPage.xaml.cs:301-307 | the loop appends exactly the entries of the reply's lines, in order |
| TestExecution.TeardownEffect | TestExecutionPage.xaml.cs:216-240 | after CloseWebSocket nothing is held and the button is enabled; the log grows by one entry exactly when the socket was Open or Connecting; entries are only appended; each object is disposed at most once |
| TestExecution.TeardownIdempotent | TestExecutionPage.xaml.cs:216-240 | a second teardown logs nothing and disposes nothing |
| TestExecution.StepKeepsResting | TestExecutionPage.xaml.cs:107-213 | every frame leaves the page either streaming (socket Open, scope held, button disabled) or fully torn down |
| TestExecution.StepAppendsLogs | TestExecutionPage.xaml.cs:107-213 | frames only append to the log |
| TestExecution.ParseErrorEndsRun | TestExecutionPage.xaml.cs:117-178 | a malformed frame logs its DEBUG quote, one ERROR "JSON parsing error" entry and the teardown's entry, and ends the run |
| TestExecution.NullResponseEndsRun | TestExecutionPage.xaml.cs:125-131 | a null response logs one ERROR entry, none of any message logs, and ends the run |
| TestExecution.ScanForErrorMeaning | TestExecutionPage.xaml.cs:134 | `Array.Exists` finds an error exactly when an ERROR entry (any case) comes before any null entry, throws exactly when a null entry comes before any ERROR entry, and finds nothing exactly when every entry is non-null and not ERROR |
| TestExecution.ErrorEntryEndsRun | TestExecutionPage.xaml.cs:134-146 | an ERROR entry before any null one: all the message's entries, null ones included, in order, no synthetic entry whatever the status, then the end of the run |
| TestExecution.NullEntryEndsRun | TestExecutionPage.xaml.cs:123-212 | a null entry before any ERROR one: none of the entries, an "Unexpected error" ERROR entry after the DEBUG quote, and, as the socket is still open, the client's close entry; the run ends |
| TestExecution.FinalStatusEndsRun | TestExecutionPage.xaml.cs:149-163 | COMPLETED or FAILED in any case, with no ERROR and no null entry: the entries, exactly one "Execution <status lower-cased>" entry carrying the raw status, then the end of the run |
| TestExecution.ProgressKeepsRun | TestExecutionPage.xaml.cs:149-167 | any other message without ERROR or null entries: its entries in order, the socket and scope unchanged, the button enabled exactly when the socket is not Open |
| TestExecution.ReceiveFaultEndsRun | TestExecutionPage.xaml.cs:194-212 | a receive fault logs one ERROR entry, "WebSocket error: " or "Unexpected error: " with the message, then the client's close entry when the fault left the socket Open or Connecting, and ends the run |
| TestExecution.CloseAndBinaryFrames | TestExecutionPage.xaml.cs:110-190 | a close frame logs one INFO entry, no client close entry, and ends the run; a binary frame changes nothing |
| TestExecution.RunStopped | TestExecutionPage.xaml.cs:107 | once the socket is not Open no frame is consumed |
| TestExecution.RunAppend | TestExecutionPage.xaml.cs:107-192 | receiving a then b is receiving a, then b from where a left off |
| TestExecution.RunInvariant | TestExecutionPage.xaml.cs:107-213 | the loop keeps the page resting and only appends entries |
| TestExecution.CheckedId | TestExecutionPage.xaml.cs:34-39 | an id passes exactly when present, not blank and, trimmed, not the placeholder; the trimmed id is what is used |
| TestExecution.MatchesLowerWord | TestExecutionPage.xaml.cs:41-42 | against a lower-case word, ignoring case is lower-casing the text |
| TestExecution.KnownScriptTypesLower | TestExecutionPage.xaml.cs:42 | "playwright" and "selenium" are lower-case and not blank |
| TestExecution.CheckedScriptType | TestExecutionPage.xaml.cs:41-46 | a script type passes exactly when it is playwright or selenium in any case; the lower-case word is what is used |
| TestExecution.ValidateStart | TestExecutionPage.xaml.cs:34-46 | both guards pass exactly when the run may start, with the trimmed id and lower-cased type; a bad id is reported first |
| TestExecution.BaseOf | TestExecutionPage.xaml.cs:57 | a null base is http://127.0.0.1:8002; otherwise the configured URL with its trailing slashes, and only those, removed |
| TestExecution.SchemeFor | TestExecutionPage.xaml.cs:58 | wss exactly when the base starts with "https://" ignoring case, else ws |
| TestExecution.WsUrl | TestExecutionPage.xaml.cs:57-60 | the address starts with the base's scheme and "://"; without a configured base it is ws://127.0.0.1:8002/testcases/ with the escaped id, then /execute-ws?script_type= with the escaped type |
| TestExecution.HostPartHttps | TestExecutionPage.xaml.cs:59 | from "https://" and a host holding neither prefix, exactly the prefix is removed |
| TestExecution.HostPartHttp | TestExecutionPage.xaml.cs:59 | from "http://" and a host holding neither prefix, exactly the prefix is removed |
| TestExecution.HostPartUpperCase | TestExecutionPage.xaml.cs:59 | the removal is case-sensitive: "HTTPS://" and the host come through unchanged |
| TestExecution.SchemeOfPrefixes | TestExecutionPage.xaml.cs:58 | "https://" and "HTTPS://" bases select wss, an "http://" base selects ws |
| TestExecution.WsUrlHttps | TestExecutionPage.xaml.cs:57-60 | an https base gives exactly wss://, the host, /testcases/, the escaped id, /execute-ws?script_type= and the escaped type |
| TestExecution.WsUrlHttp | TestExecutionPage.xaml.cs:57-60 | an http base gives exactly the same address with ws:// |
| TestExecution.WsUrlUpperCaseHttps | TestExecutionPage.xaml.cs:57-60 | an upper-case "HTTPS://" base selects wss but keeps its prefix: wss://HTTPS://host/... |
| TestExecution.WsUrlScheme | TestExecutionPage.xaml.cs:58-60 | the address starts with its scheme and "://", wss exactly for an https base |
| TestExecution.EscapedIsOneComponent | TestExecutionPage.xaml.cs:60 | an escaped id or script type holds no "/", "?", "&" or "=" |
| TestExecution.WsUrlEndsWithQuery | TestExecutionPage.xaml.cs:60 | the address ends with "/execute-ws?script_type=" and the escaped script type |
| TestExecution.StartRejected | TestExecutionPage.xaml.cs:34-46 | a click a guard rejects changes nothing |
| TestExecution.StartConnected | TestExecutionPage.xaml.cs:48-74 | an accepted click that connects leaves the page streaming with exactly two entries: "Connecting to ..." and the connected entry |
| TestExecution.BegunConnected | TestExecutionPage.xaml.cs:48-74 | from the cleared log, connecting adds the connected entry after the "Connecting to" entry |
| TestExecution.StartFailed | TestExecutionPage.xaml.cs:47-99 | an accepted click that fails ends fully torn down with one ERROR entry: the only entry when the Authorization header was rejected (before the "Connecting to" entry), otherwise the second |
| TestExecution.HeaderRejectedFailure | TestExecutionPage.xaml.cs:47-55 | a failure before connecting logs no client close: its entry is the whole log, and the fresh socket and scope are each disposed once |
| TestExecution.ConnectFailure | TestExecutionPage.xaml.cs:76-99 | each of the three catch clauses logs its ERROR entry, enables the button and tears down |
| TestExecution.StartKeepsResting | TestExecutionPage.xaml.cs:30-100 | every click leaves a resting page resting |
| TestExecution.ExecutionSession.constructor | TestExecutionPage.xaml.cs:13-28 | a new page holds no socket and no scope, has no entries, and its button is enabled |
| TestExecution.ExecutionSession.CloseWebSocket | TestExecutionPage.xaml.cs:216-240 | the new state is the teardown of the old one |
| TestExecution.ExecutionSession.Dispose | TestExecutionPage.xaml.cs:252-256 | the teardown, after which no scope is held |
| TestExecution.ExecutionSession.AppendEntries | TestExecutionPage.xaml.cs:139-142 | the foreach appends the message's entries in order and changes nothing else |
| TestExecution.ExecutionSession.LogErrorReport | TestExecutionPage.xaml.cs:134-167 | follows the error-report handler |
| TestExecution.ExecutionSession.LogProgress | TestExecutionPage.xaml.cs:147-167 | follows the progress handler |
| TestExecution.ExecutionSession.HandleResponse | TestExecutionPage.xaml.cs:125-167 | follows the response handler |
| TestExecution.ExecutionSession.HandleFrame | TestExecutionPage.xaml.cs:110-213 | the new state is Step of the old one |
| TestExecution.ExecutionSession.ReceiveLoop | TestExecutionPage.xaml.cs:102-214 | the new state is Run of the old one over the frames |
| TestExecution.ExecutionSession.Execute | TestExecutionPage.xaml.cs:30-100 | the new state is Start of the old one |
| TestExecution.ExecutionSession.PrepareRun | TestExecutionPage.xaml.cs:47-55 | the button disabled, the log cleared, a fresh scope and a socket not yet connecting |
| TestExecution.ExecutionSession.RejectHeader | TestExecutionPage.xaml.cs:55-99 | a rejected Authorization header: the "Error initiating execution" entry on the cleared log, then the teardown |
| TestExecution.ExecutionSession.BeginRun | TestExecutionPage.xaml.cs:48-62 | the button disabled, the log cleared but for the "Connecting to" entry, a fresh scope and connecting socket |
| TestExecution.ExecutionSession.AwaitConnection | TestExecutionPage.xaml.cs:65-99 | follows Connect for the given outcome |
| TestExecution.HasError | TestExecutionPage.xaml.cs:134 | the loop stops where `Array.Exists` stops and reports the scan's outcome: an ERROR entry, a null entry, or neither |
| ApiClient.SettingsOrDefault | Services/ApiClient.cs:12-45 | without loaded settings: base URL http://127.0.0.1:8002/, empty API key, timeout 100; otherwise the loaded settings |
| ApiClient.Lookup | Services/ApiClient.cs:111 | a value is found exactly when some name matches ignoring case, and it is the template of the first match |
| ApiClient.EqualsIgnoreCaseEquivalence | Services/ApiClient.cs:54 | ignoring case is reflexive, symmetric and transitive |
| ApiClient.Normalize | Services/ApiClient.cs:54-60 | the normalised table has no two names differing only by case, is no longer, and holds only loaded entries |
| ApiClient.LookupSnoc | Services/ApiClient.cs:55-59 | a lookup in a table with one more entry at the end finds the old answer, else the new entry, else nothing |
| ApiClient.NormalizeLookup | Services/ApiClient.cs:54-60 | first wins: every lookup in the normalised table answers as the first matching loaded entry |
| ApiClient.NormalizeKeys | Services/ApiClient.cs:54-60 | normalisation keeps every name and empties only an empty table |
| ApiClient.NormalizeDistinct | Services/ApiClient.cs:54-60 | a table whose names already differ beyond case is kept as it is |
| ApiClient.DefaultEndpointsDistinct | Services/ApiClient.cs:66-76 | the fallback has eight entries whose names differ beyond case |
| ApiClient.EndpointTable | Services/ApiClient.cs:48-77 | the table after construction is non-empty and its names differ beyond case |
| ApiClient.EndpointTableLookup | Services/ApiClient.cs:48-77 | a non-empty loaded table answers as its first matching entry; a null or empty one is replaced by the fallback |
| ApiClient.DefaultTestPlan | Services/ApiClient.cs:73 | TestPlan, also written "testplan", resolves to "testplan/{testCaseId}" |
| ApiClient.DefaultExecuteCode | Services/ApiClient.cs:74 | ExecuteCode resolves to "execute-code?script_type={script_type}" |
| ApiClient.DefaultGetTestCases | Services/ApiClient.cs:69 | GetTestCases resolves to "projects/{projectId}/testcases" |
| ApiClient.Placeholder | Services/ApiClient.cs:120 | a placeholder is non-empty, opened by "{" and closed by "}" |
| ApiClient.ResolveWithoutParameters | Services/ApiClient.cs:110-124 | with no parameters a configured name gives its first matching template, anything else itself, and an empty dictionary is the same as none |
| ApiClient.SubstituteAppend | Services/ApiClient.cs:118-121 | parameters apply in dictionary order, each to the result of the previous ones |
| ApiClient.SubstituteUnused | Services/ApiClient.cs:118-121 | a template that holds none of the supplied placeholders comes back verbatim |
| ApiClient.ReplacementBraceFree | Services/ApiClient.cs:120 | an escaped value never holds a brace |
| ApiClient.PlaceholdersAtSamePlace | Services/ApiClient.cs:120 | two placeholders with brace-free names that start at the same place are the same placeholder |
| ApiClient.ReplaceKeepsOtherPlaceholder | Services/ApiClient.cs:120 | replacing one placeholder by brace-free text never loses an occurrence of another |
| ApiClient.SubstituteKeepsUnsuppliedPlaceholder | Services/ApiClient.cs:118-121 | with brace-free names, a placeholder no parameter names keeps every one of its occurrences through the whole substitution |
| ApiClient.PlaceholderFormedByReplacement | Services/ApiClient.cs:118-121 | substitution works on text: "{{a}}" with a = "b" becomes "{b}", a placeholder the template did not hold, and with a = "a" becomes "{a}", the supplied placeholder again |
| ApiClient.SubstituteOne | Services/ApiClient.cs:120 | one parameter changes the length by one replacement per occurrence; a null value deletes its placeholders |
| ApiClient.BearerHeader | Services/ApiClient.cs:96-105 | no header exactly for a null or blank token, else Bearer with the token |
| ApiClient.ApiKeyHeader | Services/ApiClient.cs:87-90 | the X-Api-Key header is present exactly for a non-empty key, and carries it |
| ApiClient.Client.constructor | Services/ApiClient.cs:23-91 | the settings loaded or defaulted, the table normalised or replaced by the fallback, the key header set, no Authorization |
| ApiClient.Client.SetBearer | Services/ApiClient.cs:96-105 | the Authorization header becomes BearerHeader(token); nothing else changes |
| ApiClient.Client.Resolve | Services/ApiClient.cs:108-125 | the result is the looked-up template, or the argument itself, with the parameters substituted |
| ApiClient.NormalizeEndpoints | Services/ApiClient.cs:54-60 | the foreach builds exactly the first-wins normalised table |
| ApiClient.HasKeyIn | Services/ApiClient.cs:57 | ContainsKey is true exactly when some name matches ignoring case |
| TestSteps.BuildStepRows | TestStepsPage.xaml.cs:52-64 | one row per step in order, numbered from 1, "" for a null step, the argument at the same index or "" |
| TestSteps.LoadTestSteps | TestStepsPage.xaml.cs:45-64 | a response that did not deserialise builds no list; otherwise the rows for it |
| TestSteps.RowsDetermined | TestStepsPage.xaml.cs:52-64 | the table is determined by the response |
| TestSteps.RowsNumbered | TestStepsPage.xaml.cs:53-59 | step numbers run 1..n without gaps; null steps give no rows |
| TestSteps.ExtraArgumentsIgnored | TestStepsPage.xaml.cs:61 | arguments beyond the last step are ignored; a null argument array shows like an empty one |
| Forms.ContainsChar | RegisterWindow.xaml.cs:31 | `Contains("@")` is membership of "@" |
| Register.ValidateRegistration | RegisterWindow.xaml.cs:26-54 | the request is built exactly when all four guards pass, and copies name, mail, password and role as entered |
| Register.RegistrationFirstFailure | RegisterWindow.xaml.cs:26-45 | each rejection is the earliest failing guard: name, email, password, role |
| Register.AcceptedMail | RegisterWindow.xaml.cs:31 | an accepted address holds "@" and a character that is not white space |
| CreateProject.ValidateProject | CreateProjectPage.xaml.cs:30-66 | the request is built exactly when every guard passes, and copies title, start date, type and description as entered |
| CreateProject.ProjectFirstFailure | CreateProjectPage.xaml.cs:30-58 | each rejection is the earliest failing guard; the item's content is checked only after the description |
| CreateProject.PlaceholderDateRejected | CreateProjectPage.xaml.cs:35-39 | the placeholder date is refused whatever the date parser says |
| Tags.TagTexts | TagsConverter.cs:13 | one text per tag, "" for a null tag |
| Tags.Convert | TagsConverter.cs:9-16 | anything but a string array converts to "" |
| Tags.ConvertBack | TagsConverter.cs:18-21 | converting back always fails |
| Tags.ConvertShortArrays | TagsConverter.cs:13 | an empty array shows nothing; a single tag shows as itself |
| Tags.JoinSnoc | TagsConverter.cs:13 | joining one more part appends the separator and the part |
| Tags.ConvertAppend | TagsConverter.cs:11-13 | tags appear in array order separated by ", " |
| Tags.JoinLength | TagsConverter.cs:13 | a join is as long as its parts plus one separator between each pair |
| Tags.ConvertLength | TagsConverter.cs:13 | the text is the tags' characters plus two per separator |

## Left out

- HTTP and WebSocket I/O:
  - This covers `GetAsync`/`PostAsync`, multipart upload, `ConnectAsync`/`SendAsync`/`ReceiveAsync`/`CloseAsync`, and the token message.
  - A connect is an outcome value: `StartOutcome`, carrying the socket state after a failure. A token that `SetRequestHeader` rejects is the outcome `HeaderRejected`.
  - A close handshake is `closeError`: `None` means it succeeded, `Some(message)` means it threw.
  - The Register and CreateProject POSTs and their replies are not modelled; the model ends at the request body.
- The 4 KB receive buffer:
  - Each text frame is one whole message.
  - A message longer than the buffer, which the source would split across reads, is not modelled.
- JSON parsing:
  - Frames carry their already-parsed payload.
  - A plan is its "current - bdd steps" properties in document order.
  - An error body is its parsed `detail`.
- Concurrency:
  - This covers `Task.Run`, `Dispatcher.Invoke` and the 30-second `CancellationTokenSource` timer.
  - A timeout is the `TimedOut` outcome.
  - A receive failure is a `ReceiveFault` frame, carrying the socket's state when it surfaced.
- Case folding:
  - OrdinalIgnoreCase and `ToLowerInvariant` fold ASCII letters only.
  - Non-ASCII case pairs are treated as different characters.
- Timestamps, exception messages and `Environment.NewLine` are opaque inputs.
- Loading appsettings.json and the temporary script file are not modelled.
  - The loaded settings are a parameter.
  - A loaded null `BaseUrl` or `ApiKey` is not represented; both are strings.
- UI: message boxes, focus and placeholder handlers, list refreshes and navigation.
- ApiClient.Client.BaseUrl: returns the configured string. The source returns `HttpClient.BaseAddress` as normalised by `System.Uri`, which is not part of this model. `System.Uri` lower-cases the scheme, so through `BaseUrl` an "HTTPS://" base never reaches the address code; TestExecution.HostPartUpperCase and TestExecution.WsUrlUpperCaseHttps state what lines 57-60 of TestExecutionPage.xaml.cs do taken alone.
- ScriptGeneration.GenerateScriptPage.constructor: the guard that throws `ArgumentNullException` for a null or blank token is not modelled, because the page's token is not part of this model. The entries VerifyEndpoints adds after its awaits (each endpoint's status, or the verification failure) come from HTTP requests and are not modelled either.
- TestExecution.ExecutionSession.Execute: the source replaces `_webSocket` and `_cancellationTokenSource` without disposing objects left from a previous run. The model's `Begun` overwrites the socket and scope in the same way, and the disposal counters do not record the objects dropped.
- Register.ValidateRegistration: a selected item that is a ComboBoxItem with null content makes the source throw in `Content.ToString()`, which the outer catch reports. The model sends a null role instead.
- ScriptGeneration.GenerateScriptFromBddSteps: JSON string values only. A step whose value is not a string makes `GetString` throw, which is not modelled.
- ScriptGeneration.Preview: a Dafny string is a sequence of Unicode scalar values, and the preview keeps 200 of them. `Substring(0, Math.Min(Length, 200))` counts UTF-16 code units, so it keeps fewer characters when the reply holds characters outside the Basic Multilingual Plane, and can end in half of a surrogate pair.
- ApiClient.Client.constructor: always succeeds. In the source, `new Uri(BaseUrl)` throws for a relative or malformed URL, and setting `HttpClient.Timeout` throws for zero or negative seconds and for more than `Int32.MaxValue` milliseconds (over 2147483 seconds); construction then fails. These exceptions are not modelled.
- Timestamps: the entries one call adds all carry the single timestamp `ts`. The source reads `DateTime.Now` for each entry, so the entries of one frame, or a frame's entries and its teardown's, may differ in their timestamps.
- A null entry in a message is the only exception modelled inside a frame's handler (`NullRead`). This relies on `Dispatcher.Invoke` passing the delegate's exception on to the receive loop, whose last catch clause reports it.
- The fetch of the test plan and the choice of script type around `ExecuteScript` are not modelled; only the id guard at the start is.
