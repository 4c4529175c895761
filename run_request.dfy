/**
 * The mutable per-request state of `POST /run` and its callbacks, as an
 * object whose methods are the handler's closures. Each callback method is
 * proved to perform exactly one `Arbiter.Step`, so every trace lemma of `Arbiter`
 * applies to any sequence of calls on one `RunRequest`.
 */
module RunHandler {
  import opened Wrappers
  import opened Messages
  import JsText
  import opened Arbiter

  class RunRequest {
    var output: string          // `let output`
    var responded: bool         // `let responded`
    var timerPending: bool      // `killTimer` is armed
    var killed: bool            // `proc.kill('SIGKILL')` has been called
    var sent: seq<Response>     // the `res.json` calls made so far

    function State(): RunState
      reads this
    {
      RunState(output, responded, timerPending, killed, sent)
    }

    ghost predicate Valid()
      reads this
    {
      Inv(State())
    }

    /** The state once the handler has registered its callbacks and armed the kill timer. */
    constructor ()
      ensures Valid() && State() == Initial()
    {
      output := "";
      responded := false;
      timerPending := true;
      killed := false;
      sent := [];
    }

    /** `respond(data)`: the single-response guard. */
    method Respond(body: string)
      modifies this
      ensures State() == Arbiter.Respond(old(State()), body)
      ensures old(Valid()) ==> Valid()
    {
      if !responded {
        responded := true;
        timerPending := false;   // clearTimeout(killTimer)
        sent := sent + [Response(OkStatus, body)];
      }
    }

    method OnStdout(chunk: string)
      requires Valid()
      modifies this
      ensures Valid() && State() == Step(old(State()), Stdout(chunk))
      ensures output == old(output) + chunk
    {
      output := output + chunk;
    }

    method OnStderr(chunk: string)
      requires Valid()
      modifies this
      ensures Valid() && State() == Step(old(State()), Stderr(chunk))
      ensures output == old(output) + chunk
    {
      output := output + chunk;
    }

    method OnClose(exitCode: Option<int>)
      requires Valid()
      modifies this
      ensures Valid() && State() == Step(old(State()), Close(exitCode))
      ensures old(responded) ==> sent == old(sent)
      ensures !old(responded) ==> sent == [Response(OkStatus, CloseMessage(exitCode, old(output)))]
    {
      if exitCode == Some(InnerTimeoutExitCode) {
        Respond(TimeLimitMessage);
      } else {
        var trimmed := JsText.Trim(output);
        Respond(if trimmed == "" then NoOutputMessage else trimmed);
      }
    }

    method OnError(code: Option<string>, message: string)
      requires Valid()
      modifies this
      ensures Valid() && State() == Step(old(State()), Error(code, message))
      ensures old(responded) ==> sent == old(sent)
      ensures !old(responded) ==> sent == [Response(OkStatus, ErrorMessage(code, message))]
    {
      var msg := if code == Some(NotFoundErrorCode) then DockerNotFoundMessage
                 else ServerErrorPrefix + message;
      Respond(msg);
    }

    /** The kill-timer callback; Node runs it only while the timer is armed, and it disarms on firing. */
    method OnTimer()
      requires Valid() && timerPending
      modifies this
      ensures Valid() && State() == Step(old(State()), KillTimer)
      ensures killed && sent == [Response(OkStatus, ServerTimeoutMessage)]
    {
      timerPending := false;
      killed := true;
      Respond(ServerTimeoutMessage);
    }
  }
}
