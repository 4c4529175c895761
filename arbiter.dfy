/**
 * The per-request completion logic of `POST /run` as a state machine over
 * values: the output buffer, the `responded` flag, the kill timer and the
 * responses sent so far. Node runs the callbacks one at a time, so any
 * interleaving of the child process's events is a sequence of `Event`s.
 */
module Arbiter {
  import opened Wrappers
  import opened Messages

  /** The callbacks the handler registers. */
  datatype Event =
    | Stdout(chunk: string)                        // `proc.stdout.on('data')`
    | Stderr(chunk: string)                        // `proc.stderr.on('data')`
    | Close(exitCode: Option<int>)                 // `proc.on('close')`; `None` is `null`
    | Error(code: Option<string>, message: string) // `proc.on('error')`
    | KillTimer                                    // the 15-second `setTimeout` callback
  {
    /** An event that calls `respond`. */
    predicate IsTerminal() {
      Close? || Error? || KillTimer?
    }
  }

  /**
   * `output` and `responded` are the handler's two `let`s; `timerPending` says
   * whether `killTimer` is still armed; `killed` records `proc.kill('SIGKILL')`;
   * `sent` is every `res.json` call made, in order.
   */
  datatype RunState = RunState(
    output: string,
    responded: bool,
    timerPending: bool,
    killed: bool,
    sent: seq<Response>)

  /** Just after the handler returns: empty buffer, nothing sent, kill timer armed. */
  function Initial(): RunState {
    RunState("", false, true, false, [])
  }

  /**
   * The arbiter's invariant: at most one response, and it has been sent exactly
   * when `responded` is set; the kill timer is armed exactly while nothing has
   * been sent; the process was killed only by the timer, whose message was the reply.
   */
  predicate Inv(s: RunState) {
    |s.sent| <= 1 &&
    (s.responded <==> |s.sent| == 1) &&
    (s.timerPending <==> !s.responded) &&
    (|s.sent| == 1 ==> s.sent[0].status == OkStatus) &&
    (s.killed ==> s.sent == [Response(OkStatus, ServerTimeoutMessage)])
  }

  /** Node never runs a timer callback once the timer has fired or been cleared. */
  predicate Enabled(s: RunState, e: Event) {
    e.KillTimer? ==> s.timerPending
  }

  /** The `respond` guard: acts only the first time; clears the kill timer and sends `body`. */
  function Respond(s: RunState, body: string): RunState {
    if s.responded then s
    else s.(responded := true, timerPending := false, sent := s.sent + [Response(OkStatus, body)])
  }

  /** The reply a terminal event asks for, given the output gathered so far. */
  function Reply(e: Event, output: string): string
    requires e.IsTerminal()
  {
    match e
    case Close(exitCode) => CloseMessage(exitCode, output)
    case Error(code, message) => ErrorMessage(code, message)
    case KillTimer => ServerTimeoutMessage
  }

  /** What a data event adds to the buffer; nothing for the other events. */
  function DataOf(e: Event): string {
    if e.Stdout? || e.Stderr? then e.chunk else ""
  }

  /** One callback. */
  function Step(s: RunState, e: Event): RunState
    requires Enabled(s, e)
  {
    match e
    case Stdout(chunk) => s.(output := s.output + chunk)
    case Stderr(chunk) => s.(output := s.output + chunk)
    case Close(exitCode) => Respond(s, CloseMessage(exitCode, s.output))
    case Error(code, message) => Respond(s, ErrorMessage(code, message))
    case KillTimer => Respond(s.(timerPending := false, killed := true), ServerTimeoutMessage)
  }

  /** Every event of `evs` can be delivered in turn from `s`. */
  predicate Feasible(s: RunState, evs: seq<Event>)
    decreases |evs|
  {
    evs == [] || (Enabled(s, evs[0]) && Feasible(Step(s, evs[0]), evs[1..]))
  }

  /** The state after delivering `evs` from `s`. */
  function Run(s: RunState, evs: seq<Event>): RunState
    requires Feasible(s, evs)
    decreases |evs|
  {
    if evs == [] then s else Run(Step(s, evs[0]), evs[1..])
  }

  /** All data chunks of `evs`, in arrival order. */
  function Chunks(evs: seq<Event>): string
    decreases |evs|
  {
    if evs == [] then "" else DataOf(evs[0]) + Chunks(evs[1..])
  }

  predicate HasTerminal(evs: seq<Event>) {
    exists i :: 0 <= i < |evs| && evs[i].IsTerminal()
  }

  predicate HasKillTimer(evs: seq<Event>) {
    exists i :: 0 <= i < |evs| && evs[i].KillTimer?
  }

  // ---------------------------------------------------------------------------
  // One event

  /** Every callback keeps the invariant. */
  lemma StepKeepsInv(s: RunState, e: Event)
    requires Inv(s) && Enabled(s, e)
    ensures Inv(Step(s, e))
  {
  }

  /** Data callbacks only append to the buffer. */
  lemma DataOnlyAppends(s: RunState, e: Event)
    requires !e.IsTerminal()
    ensures Step(s, e) == s.(output := s.output + DataOf(e))
  {
  }

  /** The first terminal event sends its reply and clears the kill timer in the same step. */
  lemma FirstTerminalResponds(s: RunState, e: Event)
    requires !s.responded && e.IsTerminal() && Enabled(s, e)
    ensures Step(s, e).responded && !Step(s, e).timerPending
    ensures Step(s, e).sent == s.sent + [Response(OkStatus, Reply(e, s.output))]
    ensures Step(s, e).output == s.output
  {
  }

  /** Once responded, a callback sends nothing and the flag stays set. */
  lemma RespondedStays(s: RunState, e: Event)
    requires s.responded && Enabled(s, e)
    ensures Step(s, e).responded && Step(s, e).sent == s.sent
  {
  }

  // ---------------------------------------------------------------------------
  // Any sequence of events

  lemma {:induction false} RunKeepsInv(s: RunState, evs: seq<Event>)
    requires Inv(s) && Feasible(s, evs)
    ensures Inv(Run(s, evs))
    decreases |evs|
  {
    if evs != [] {
      StepKeepsInv(s, evs[0]);
      RunKeepsInv(Step(s, evs[0]), evs[1..]);
    }
  }

  /** The buffer is what it was followed by every chunk, in arrival order. */
  lemma {:induction false} RunOutput(s: RunState, evs: seq<Event>)
    requires Feasible(s, evs)
    ensures Run(s, evs).output == s.output + Chunks(evs)
    decreases |evs|
  {
    if evs == [] {
      assert s.output + "" == s.output;
    } else {
      var e := evs[0];
      assert Step(s, e).output == s.output + DataOf(e);
      RunOutput(Step(s, e), evs[1..]);
      assert (s.output + DataOf(e)) + Chunks(evs[1..]) == s.output + (DataOf(e) + Chunks(evs[1..]));
    }
  }

  /** Set-once: after a response, no sequence of events sends another or clears the flag. */
  lemma {:induction false} RunSetOnce(s: RunState, evs: seq<Event>)
    requires s.responded && Feasible(s, evs)
    ensures Run(s, evs).responded && Run(s, evs).sent == s.sent
    decreases |evs|
  {
    if evs != [] {
      RespondedStays(s, evs[0]);
      RunSetOnce(Step(s, evs[0]), evs[1..]);
    }
  }

  /** A response has been sent exactly when some terminal event has been delivered. */
  lemma {:induction false} RunRespondedIff(s: RunState, evs: seq<Event>)
    requires Feasible(s, evs)
    ensures Run(s, evs).responded <==> s.responded || HasTerminal(evs)
    decreases |evs|
  {
    if evs != [] {
      var e, rest := evs[0], evs[1..];
      RunRespondedIff(Step(s, e), rest);
      assert Step(s, e).responded <==> s.responded || e.IsTerminal();
      if HasTerminal(rest) {
        var i :| 0 <= i < |rest| && rest[i].IsTerminal();
        assert evs[i + 1] == rest[i];
      }
      if HasTerminal(evs) && !e.IsTerminal() {
        var i :| 0 <= i < |evs| && evs[i].IsTerminal();
        assert rest[i - 1] == evs[i];
      }
    }
  }

  /**
   * The first terminal event decides the only response, from the output that
   * had arrived before it; nothing delivered afterwards changes it.
   */
  lemma {:induction false} RunFirstTerminalWins(s: RunState, evs: seq<Event>, i: nat)
    requires !s.responded && Feasible(s, evs)
    requires i < |evs| && evs[i].IsTerminal()
    requires forall j :: 0 <= j < i ==> !evs[j].IsTerminal()
    ensures Run(s, evs).sent == s.sent + [Response(OkStatus, Reply(evs[i], s.output + Chunks(evs[..i])))]
    decreases i
  {
    var e, rest := evs[0], evs[1..];
    if i == 0 {
      assert evs[..0] == [];
      assert s.output + "" == s.output;
      FirstTerminalResponds(s, e);
      RunSetOnce(Step(s, e), rest);
    } else {
      assert !e.IsTerminal();
      var t := Step(s, e);
      assert t == s.(output := s.output + DataOf(e));
      forall j | 0 <= j < i - 1 ensures !rest[j].IsTerminal() {
        assert rest[j] == evs[j + 1];
      }
      RunFirstTerminalWins(t, rest, i - 1);
      assert evs[..i][0] == e && evs[..i][1..] == rest[..i - 1];
      assert Chunks(evs[..i]) == DataOf(e) + Chunks(rest[..i - 1]);
      assert (s.output + DataOf(e)) + Chunks(rest[..i - 1]) == s.output + Chunks(evs[..i]);
    }
  }

  /** No kill-timer event can be delivered after a response: responding cancelled it. */
  lemma {:induction false} NoTimerAfterResponse(s: RunState, evs: seq<Event>)
    requires Inv(s) && s.responded && Feasible(s, evs)
    ensures !HasKillTimer(evs)
    decreases |evs|
  {
    if evs != [] {
      StepKeepsInv(s, evs[0]);
      RespondedStays(s, evs[0]);
      NoTimerAfterResponse(Step(s, evs[0]), evs[1..]);
      forall i | 0 <= i < |evs| ensures !evs[i].KillTimer? {
        if i > 0 {
          assert evs[i] == evs[1..][i - 1];
        }
      }
    }
  }

  /** The process is killed exactly when the kill timer fires. */
  lemma {:induction false} RunKilledIff(s: RunState, evs: seq<Event>)
    requires Feasible(s, evs)
    ensures Run(s, evs).killed <==> s.killed || HasKillTimer(evs)
    decreases |evs|
  {
    if evs != [] {
      var e, rest := evs[0], evs[1..];
      RunKilledIff(Step(s, e), rest);
      assert Step(s, e).killed <==> s.killed || e.KillTimer?;
      if HasKillTimer(rest) {
        var i :| 0 <= i < |rest| && rest[i].KillTimer?;
        assert evs[i + 1] == rest[i];
      }
      if HasKillTimer(evs) && !e.KillTimer? {
        var i :| 0 <= i < |evs| && evs[i].KillTimer?;
        assert rest[i - 1] == evs[i];
      }
    }
  }

  // ---------------------------------------------------------------------------
  // Whole requests

  /**
   * Exactly-once: whatever callbacks Node delivers, at most one response is
   * sent; exactly one once a terminal event has arrived; and that one is the
   * reply of the first terminal event to the output gathered before it.
   */
  lemma ExactlyOnce(evs: seq<Event>)
    requires Feasible(Initial(), evs)
    ensures |Run(Initial(), evs).sent| <= 1
    ensures |Run(Initial(), evs).sent| == 1 <==> HasTerminal(evs)
    ensures !Run(Initial(), evs).timerPending <==> HasTerminal(evs)
    ensures forall i :: 0 <= i < |evs| && evs[i].IsTerminal() && (forall j :: 0 <= j < i ==> !evs[j].IsTerminal()) ==>
      Run(Initial(), evs).sent == [Response(OkStatus, Reply(evs[i], Chunks(evs[..i])))]
  {
    RunKeepsInv(Initial(), evs);
    RunRespondedIff(Initial(), evs);
    forall i | 0 <= i < |evs| && evs[i].IsTerminal() && (forall j :: 0 <= j < i ==> !evs[j].IsTerminal())
      ensures Run(Initial(), evs).sent == [Response(OkStatus, Reply(evs[i], Chunks(evs[..i])))]
    {
      RunFirstTerminalWins(Initial(), evs, i);
      assert Initial().output + Chunks(evs[..i]) == Chunks(evs[..i]);
    }
  }

  /**
   * The kill timer fires only as the first terminal event, and then the reply
   * is the server-timeout message, whatever the program printed.
   */
  lemma {:induction false} TimerOnlyFirst(s: RunState, evs: seq<Event>, i: nat)
    requires Inv(s) && Feasible(s, evs)
    requires i < |evs| && evs[i].KillTimer?
    ensures !s.responded
    ensures forall j :: 0 <= j < i ==> !evs[j].IsTerminal()
    ensures Run(s, evs).sent == s.sent + [Response(OkStatus, ServerTimeoutMessage)]
    decreases i
  {
    if s.responded {
      NoTimerAfterResponse(s, evs);
      assert false;
    }
    if i > 0 {
      StepKeepsInv(s, evs[0]);
      TimerOnlyFirst(Step(s, evs[0]), evs[1..], i - 1);
      forall j | 1 <= j < i ensures !evs[j].IsTerminal() {
        assert evs[j] == evs[1..][j - 1];
      }
    }
    RunFirstTerminalWins(s, evs, i);
  }
}
