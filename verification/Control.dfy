/** The contents of the two JSON control frames, src/session.rs:103-133.  JSON text
    itself is a parameter of the model. */
module Control {
  import opened Wrappers

  datatype Reason = Exited | Signaled | Unreaped | TimedOut | Disconnected

  datatype Failure =
    | BadRequestJson | NotARequest | UnknownVerb | BadDeadline
    | SpawnFailed | PtySetupFailed | ReadFailed

  datatype Message = ExitInfo(code: int, reason: Reason) | ErrorInfo(what: Failure)

  /** What `_parse_json` plus the two `get` calls leave of a control payload. */
  datatype Doc = NotAnObject | Doc(code: Option<int>, reason: Option<Reason>)
}
