/** The wire records shared by the script page and the execution page
    (Models.cs). Every reference-typed field may be null, hence Option. */
module Models {
  import opened Wrappers

  /** A log entry, or a null element of a logs array (JSON null in the
      message). */
  datatype ExecutionLogEntry =
    | ExecutionLogEntry(timestamp: Option<string>, message: Option<string>, status: Option<string>)
    | NullEntry

  datatype ExecutionResponse = ExecutionResponse(
    testcaseid: Option<string>,
    scriptType: Option<string>,
    status: Option<string>,
    logs: Option<seq<ExecutionLogEntry>>)

  const INFO: string := "INFO"
  const DEBUG: string := "DEBUG"
  const SUCCESS: string := "SUCCESS"
  const ERROR: string := "ERROR"

  /** An entry the client creates itself: all three fields are set. */
  function Entry(timestamp: string, message: string, status: string): ExecutionLogEntry {
    ExecutionLogEntry(Some(timestamp), Some(message), Some(status))
  }
}
