# CompileMee `POST /run`: a verified model of the request-completion logic

CompileMee compiles and runs untrusted C++ submitted over HTTP inside a Docker
sandbox. This project models the per-request core of its `POST /run` handler
(`backend/server.js`) and proves what that handler promises:

- **Input gate** (`InputGate`, over `JsValues`). `req.body.code` is modelled as one of
  the JSON value kinds, or `Undefined` when the key is absent. A missing, falsy or
  non-string `code` is refused with status 400 and "Error: No code provided.". A string
  longer than 50 000 UTF-16 code units is refused with status 400 and the size-limit
  message. Otherwise the code passes unchanged.
- **Sandbox launch** (`Sandbox`). The fixed `dockerArgs` vector puts every isolation
  option before the image: remove on exit, stdin attached, 256m memory with an equal
  swap ceiling, one CPU, no network and 64 tasks. It then runs the fixed
  compile-and-run script. The code reaches the process only on stdin, so the argument
  vector is the same for every request.
- **Output aggregator and completion arbiter** (`Arbiter`, a state machine over values,
  and `RunHandler.RunRequest`, the mutable per-request object whose methods are the
  handler's callbacks). Each callback method is proved to take exactly one `Arbiter.Step`.
  Node runs the callbacks one at a time, so any interleaving of events is a sequence of
  `Arbiter.Event`s. For every such sequence the model proves:
  - at most one response is sent;
  - exactly one is sent once a `close`, `error` or kill-timer event has arrived;
  - it is the reply of the first such event, computed from the output gathered before it;
  - `responded` never reverts, and responding disarms the kill timer in the same step;
  - the output buffer is every stdout/stderr chunk, in arrival order;
  - the process is killed exactly when the kill timer fires, and that firing can only be
    the first terminal event.
- **Reply mapping** (`Messages`, `JsText`). `close(124)` gives the 2-second time-limit
  message. Any other `close` gives the trimmed output, or "(no output)" when that is
  empty, so a reply is never empty. `error` with code `ENOENT` gives the
  Docker-not-found message. Any other `error` gives "Server error: " followed by the
  error's message. `Trim` is characterised independently: it is the unique core of its input that neither starts nor
  ends with white space.

The size-limit message says "50 KB" (`backend/server.js:24`), but the check compares
`code.length` (`backend/server.js:23`), which counts UTF-16 code units. The model does
the same, with strings as sequences of `JsValues.CodeUnit`.

## Model

| member | source | states |
|---|---|---|
| JsValues.Truthy | backend/server.js:19 | no contract of its own: ECMAScript ToBoolean on the JSON value kinds, the `!code` test; `InputGate.Validate` states its consequence by value kind |
| JsValues.IsString | backend/server.js:19 | no contract of its own: the `typeof code === 'string'` test; its consequences are stated in `InputGate.Validate` |
| InputGate.Validate | backend/server.js:19-25 | passes exactly the strings of 1 to 50 000 code units, unchanged; anything not a string, or the empty string, gets 400 "No code provided"; a longer string gets 400 with the size-limit message |
| InputGate.SizeBoundary | backend/server.js:23-25 | a string of exactly 50 000 units passes; one more unit makes it refused with the size-limit message |
| Sandbox.DockerArgs | backend/server.js:43-53 | the argument vector runs `gcc:latest` with all isolation options (memory, equal swap, one CPU, no network, pids limit, `--rm`, `-i`) before the image, then `bash -c` of the fixed compile-and-run script |
| Sandbox.Route | backend/server.js:19-90 | a request is answered at once exactly when the gate refuses it, with the gate's response; otherwise `docker` is spawned with isolating arguments and the code goes to stdin |
| Sandbox.ArgsIndependentOfCode | backend/server.js:43-55 | any two launched requests spawn the same program with the same argument vector, whatever their code |
| JsText.Trim | backend/server.js:77 | the result is no longer than the input, neither starts nor ends with white space, and is empty exactly when the input is all white space |
| JsText.TrimUnique | backend/server.js:77 | trimming a core that neither starts nor ends with white space, surrounded by any white space, gives back exactly that core |
| JsText.TrimIdempotent | backend/server.js:77 | trimming twice equals trimming once |
| Messages.CloseMessage | backend/server.js:72-79 | exit code 124 gives the time-limit message whatever the output; any other code gives the trimmed output, or "(no output)" if it is all white space; never the empty string |
| Messages.ErrorMessage | backend/server.js:81-86 | `ENOENT` gives the Docker-not-found message; any other error gives the "Server error: " prefix followed by as many characters as the message |
| Messages.ServerErrorKeepsMessage | backend/server.js:84 | after the prefix, a generic launch-failure reply is exactly the error's message |
| Messages.DockerNotFoundIsDistinct | backend/server.js:82-84 | the Docker-not-found reply differs from every generic launch-failure reply |
| Arbiter.Initial | backend/server.js:57-58 | no contract of its own: the state the handler leaves behind (empty `output`, `responded` false, `killTimer` armed at line 93, nothing sent); its consequences are stated in `ExactlyOnce` and the constructor's `ensures` |
| Arbiter.Reply | backend/server.js:72-96 | no contract of its own: the message each terminal callback passes to `respond` (lines 75, 77, 85, 95); its consequences are stated in `RunFirstTerminalWins`, `ExactlyOnce` and `FirstTerminalResponds` |
| Arbiter.Respond | backend/server.js:61-67 | no contract of its own: the `respond` guard as a function on the state; its properties are proved in `FirstTerminalResponds`, `RespondedStays`, `StepKeepsInv` and the `Run*` lemmas |
| Arbiter.Step | backend/server.js:69-96 | no contract of its own: one callback (stdout, stderr, close, error, kill timer) as a function on the state; every class method's `ensures` and every trace lemma is stated over it, and its properties are proved in `StepKeepsInv`, `DataOnlyAppends`, `FirstTerminalResponds`, `RespondedStays` and the `Run*` lemmas |
| Arbiter.StepKeepsInv | backend/server.js:57-96 | every callback keeps the invariant: at most one response, sent exactly when `responded`; timer armed exactly while not responded; killed only with the server-timeout reply |
| Arbiter.DataOnlyAppends | backend/server.js:69-70 | a data event appends its chunk to the buffer and changes nothing else |
| Arbiter.FirstTerminalResponds | backend/server.js:61-66 | the first terminal event sets `responded`, disarms the kill timer and sends its reply in the same step |
| Arbiter.RespondedStays | backend/server.js:61-67 | once responded, an event sends nothing more and `responded` stays set |
| Arbiter.RunKeepsInv | backend/server.js:57-96 | the invariant holds after any feasible sequence of events |
| Arbiter.RunOutput | backend/server.js:57-70 | after any sequence of events, the buffer is the old buffer followed by all chunks in arrival order |
| Arbiter.RunSetOnce | backend/server.js:58-67 | after a response, no sequence of events sends another or clears the flag |
| Arbiter.RunRespondedIff | backend/server.js:61-96 | a response has been sent exactly when a terminal event has been delivered (or one was already sent) |
| Arbiter.RunFirstTerminalWins | backend/server.js:61-96 | the only response is the reply of the first terminal event to the output that arrived before it |
| Arbiter.NoTimerAfterResponse | backend/server.js:61-66 | once a response is sent, no kill-timer event can follow |
| Arbiter.RunKilledIff | backend/server.js:93-94 | the process is killed exactly when the kill timer fires |
| Arbiter.TimerOnlyFirst | backend/server.js:93-96 | the kill timer fires only before any other terminal event, and then the one reply is the server-timeout message |
| Arbiter.ExactlyOnce | backend/server.js:57-96 | from the initial state: at most one response; exactly one iff a terminal event arrived, which is also when the timer is disarmed; it is the first terminal event's reply to the chunks before it |
| RunHandler.RunRequest.constructor | backend/server.js:57-58 | empty buffer, not responded, kill timer armed, nothing sent, invariant holds |
| RunHandler.RunRequest.Respond | backend/server.js:61-67 | acts only if not yet responded: sets the flag, disarms the timer, sends the body once |
| RunHandler.RunRequest.OnStdout | backend/server.js:69 | one `Stdout` step: the chunk is appended, nothing else changes |
| RunHandler.RunRequest.OnStderr | backend/server.js:70 | one `Stderr` step: the chunk is appended, nothing else changes |
| RunHandler.RunRequest.OnClose | backend/server.js:72-79 | one `Close` step: if nothing was sent, the one response is `CloseMessage` of the exit code and the buffer; otherwise nothing is sent |
| RunHandler.RunRequest.OnError | backend/server.js:81-86 | one `Error` step: if nothing was sent, the one response is `ErrorMessage` of the error; otherwise nothing is sent |
| RunHandler.RunRequest.OnTimer | backend/server.js:93-96 | one `KillTimer` step, allowed only while the timer is armed: the process is killed and the server-timeout message is the one response |

## Left out

- Express setup, JSON body parsing with its 100 kb limit, static and docs serving, and `app.listen` (`backend/server.js:5-13`, `:100-103`): HTTP plumbing. A body that fails to parse never reaches the handler.
- `spawn`, the Docker runtime, writing the code to stdin and the real effect of `proc.kill('SIGKILL')`: process and OS calls. `Sandbox.Route` records the program, the arguments and the stdin contents. The kill is a recorded flag.
- The 2-second and 15-second durations: no clock is modelled. The inner limit appears only as exit code 124. The kill timer is an armed/disarmed flag whose event is allowed only while armed.
- Decoding of byte chunks by `chunk.toString()`, including UTF-8 sequences split across chunks: chunks are already-decoded strings.
- Node's own ordering guarantees beyond one-at-a-time dispatch, for example `close` firing at most once: the model allows any sequence of events in which the kill timer fires only while armed, a superset of what Node delivers.
- Failures of the response channel (`res.json` on a connection the client has closed) and errors on the stdin stream: not part of this handler's logic.
- `respond` mentions `killTimer` (line 64) before its `const` declaration (line 93), but reads it only when called, and it is called only from callbacks, which run after the handler has returned. The model takes that dispatch order as given.
- `JsText.IsWs`: the Unicode space separators are those of current Unicode versions; a JavaScript engine built on an older Unicode table may differ.
