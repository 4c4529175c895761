/**
 * The reply bodies of `POST /run` and the two mappings that choose the reply
 * for the child process's `close` and `error` events.
 */
module Messages {
  import opened Wrappers
  import JsText

  /** What `res.json({ output })` or `res.status(400).json({ output })` sends. */
  datatype Response = Response(status: int, output: string)

  const OkStatus := 200
  const BadRequestStatus := 400

  const NoCodeMessage := "Error: No code provided."
  const TooLargeMessage := "Error: Code exceeds 50 KB size limit."
  const TimeLimitMessage := "Error: Program exceeded the 2-second time limit."
  const NoOutputMessage := "(no output)"
  // Written in two pieces only so that the verifier sees its characters.
  const DockerNotFoundMessage := "Error: Docker not found. " + "Is Docker installed and running?"
  const ServerErrorPrefix := "Server error: "
  const ServerTimeoutMessage := "Error: Execution timed out (15-second server limit)."

  /** The exit status GNU `timeout` reports when it had to stop the program. */
  const InnerTimeoutExitCode := 124

  /** The `code` of a Node system error raised when the executable is not found. */
  const NotFoundErrorCode := "ENOENT"

  /**
   * Reply to `close(exitCode)`. `exitCode` is `None` for JavaScript `null`
   * (the process ended by a signal). Only the reserved status 124 gets the
   * time-limit message; any other ending reports the trimmed output, with a
   * sentinel in place of an empty one.
   */
  function CloseMessage(exitCode: Option<int>, output: string): (r: string)
    ensures r != ""
    ensures exitCode == Some(InnerTimeoutExitCode) ==> r == TimeLimitMessage
    ensures exitCode != Some(InnerTimeoutExitCode) && !JsText.AllWs(output) ==> r == JsText.Trim(output)
    ensures exitCode != Some(InnerTimeoutExitCode) && JsText.AllWs(output) ==> r == NoOutputMessage
  {
    if exitCode == Some(InnerTimeoutExitCode) then TimeLimitMessage
    else
      var t := JsText.Trim(output);
      if t == "" then NoOutputMessage else t
  }

  /**
   * Reply to `error(err)`, where `code` is `err.code` (`None` for `undefined`)
   * and `message` is `err.message`.
   */
  function ErrorMessage(code: Option<string>, message: string): (r: string)
    ensures code == Some(NotFoundErrorCode) ==> r == DockerNotFoundMessage
    ensures code != Some(NotFoundErrorCode) ==>
      |r| == |ServerErrorPrefix| + |message| && r[..|ServerErrorPrefix|] == ServerErrorPrefix
  {
    if code == Some(NotFoundErrorCode) then DockerNotFoundMessage
    else ServerErrorPrefix + message
  }

  /** A generic launch failure gives back the underlying error description after the fixed prefix. */
  lemma ServerErrorKeepsMessage(code: Option<string>, message: string)
    requires code != Some(NotFoundErrorCode)
    ensures ErrorMessage(code, message)[|ServerErrorPrefix|..] == message
  {
  }

  /**
   * A missing sandbox runtime is reported distinctly: its message is never the
   * message of any other launch failure, whatever that failure's description.
   */
  lemma DockerNotFoundIsDistinct(code: Option<string>, message: string, other: string)
    requires code != Some(NotFoundErrorCode)
    ensures ErrorMessage(Some(NotFoundErrorCode), other) != ErrorMessage(code, message)
  {
    var d := ErrorMessage(Some(NotFoundErrorCode), other);
    var r := ErrorMessage(code, message);
    assert d[0] == 'E';
    assert r[0] == ServerErrorPrefix[0] == 'S';
  }
}
