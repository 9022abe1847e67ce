# crond-agent: a Dafny model

This project models the parts of crond-agent where several functions have to agree: the capture
pipeline for a child's output, the graceful-termination protocol, the JSON Patch that wraps a
CronJob, the ping retry loop, and the two round trips between the injector and the agent.

`dafny verify dfyconfig.toml` checks everything.

## Layout

| file | content |
|---|---|
| Redaction.dfy | byte strings, the pattern engine as a function with stated hypotheses |
| Literals.dfy | literal patterns: they meet the hypotheses, leave no occurrence behind, and where a cut splits a match |
| Stream.dfy | line buffering, force-flush and cap as functions of the chunks written; streaming equals batch |
| Secrets.dfy | literal secrets through the whole capture: what is never captured, and which splits they tell apart |
| Capture.dfy | the writers with their buffers updated in place, proved against Stream |
| Termination.dfy | waiter, select loop, killer and environment as a step relation; safety over every interleaving |
| TerminationTraces.dfy | the log, the exit and the first trigger as functions of the list of steps alone |
| TerminationTiming.dfy | the kill deadline and progress, when ready events are served before time advances |
| JsonPointer.dfy, JsonPatch.dfy | RFC 6901 pointers; add, remove and replace of RFC 6902 on JSON trees |
| CronJob.dfy | the decoded subset of a CronJob: which documents decode, and that every CronJob has one |
| Injection.dfy, Injector.dfy | the wrapping decision, the direct rewrite, and the patch builder proved to amount to it |
| InjectionTheorems.dfy | the decoded result, idempotence, and what stays unchanged |
| InjectedValues.dfy | what can be read, pointer by pointer, where the patch wrote |
| Backoff.dfy, Retry.dfy | int64 delay arithmetic; the attempt loop against an arbitrary network and context |
| CommandLine.dfy, Patterns.dfy | the agent's argument parsing; the pattern list in the environment |
| EndToEnd.dfy | the patched CronJob as the agent reads it |

## Main results

- For every stream and buffer bound, every faithful pattern engine and every split into writes give
  the batch result **iff** no window of `maxBuffer` bytes short of the end of the stream is free of
  newlines (`SplitIndependentIffSafe`). For one literal pattern, all splits agree **iff** no match lies
  across a possible forced flush (`LiteralSplitsAgreeIff`, for literals that do not begin with `[`).
- With any list of literal secrets and a flush-safe stream, a newline-free secret that cannot overlap the
  placeholder is never among the captured bytes, truncation marker aside (`SecretNeverCaptured`). Not
  overlapping it is the exact condition for being redacted whatever else is configured, for a secret
  that leaves out some byte besides newline (`AlwaysGoneIff`).
- For a sound stream the reported text is the redacted stream, or its first bytes and the marker
  (`ReportedText`, carried to the in-place pipeline by `CaptureStream`).
- In every interleaving the log is, signal by signal and with its times, what the steps delivered: the
  first signal since the last one received, SIGTERM for timeout and cancellation, SIGKILL
  (`LogIsTranscript`). There is at most one SIGKILL, a full grace period after the first forwarded
  signal, and no kill decision is taken once the function is returning. Every schedule runs out of agent
  steps within a bound computed from the state (`EveryScheduleSettles`). With prompt scheduling the
  child is reaped or SIGKILL is sent exactly one grace period after the first trigger (`Deadline`).
- The patch applies operation by operation and equals a direct tree rewrite (`BuildInjection`); every
  pointer that parts ways with the written locations, or leads into an item the extended arrays already
  held, reads the same (`NothingElseChanges`).
- In the patched document the target's command refers to a variable that reads the annotated key of the
  configured Secret, the privacy variables are there exactly when configured, and the installer copies the
  agent, through the one added volume, to the command's first word (`AllWritten`).
- Running the injector on its own output does nothing **iff** the image is non-empty or the mode is
  not pre-baked (`IdempotentIff`).
- A call follows from the server's answers, their durations and the deadline alone (`SendFollowsWorld`); nil
  means that the last request ran its full time and got a status below 400 (`NilMeansAnswered`).
- A deadline leaves room for attempt k **iff** k requests and k waits take less than it (`GuaranteedIff`), and
  time to finish it **iff** k + 1 requests and k waits also fit (`CompletesIff`).
- A pattern variable becomes, line by line and in order, its non-blank lines without the surrounding space
  (`ParsesEveryLine`).
- The agent runs a container's original command **iff** that command has no `--` of its own
  (`RunsOriginalIff`); a pattern list survives the environment **iff** its patterns are trimmed,
  non-empty and newline-free, or it is one empty pattern and the agent was already configured with just
  that (`EnvRoundTripIff`).

## Where the code and its documentation disagree

The model follows the code.

- `internal/exec/runner.go:226-229` says that the flag closes the race between reaping and SIGKILL.
  It narrows it: `KillAfterReturnHappens` and `KillBeforeFlagHappens` are runs in which SIGKILL goes
  out after the reap, `KillAfterReapWindow` shows that these two windows are the only ones,
  `AtomicPairsCloseRace` that closing both would close the race, and `LateKillIff` that even with the flag
  stored SIGKILL can still go out exactly when the killer loaded it earlier and has not sent yet.
- `internal/ping/client.go:113-115` says that the exponential never overflows. That needs a base delay
  below 2^43 ns in magnitude (`NeverOverflowsIff`), which nothing validates; beyond it the wait can
  vanish (`OverflowMeansNoWait`).
- `cmd/crond-agent/commands.go:134-137` says that three attempts of 30s fit in 90s. With the waits they take
  93s: the third attempt starts within 63s but need not finish, and the fourth, which three retries allow,
  need not start (`DefaultBudget`).
- `cmd/crond-agent/commands.go:210` looks for `--` after flag parsing has already consumed one, so a
  second `--` in the wrapped command cuts off everything before it (`LosesPrefix` gives such a CronJob).
- `config.example.yaml:38` says that redaction runs after truncation; the code redacts first.

## Model

| member | source | states |
|---|---|---|
| Redaction.RedactorFaithful | internal/exec/redact.go:82-87 | any number of line-local, newline- and nonempty-preserving patterns applied in turn is again such an engine |
| Redaction.RedactAllLineLocal | internal/exec/redact.go:82-87 | the pattern loop distributes over a cut at the end of a line, and keeps the final newline |
| LiteralPatterns.LiteralPatternFaithful | internal/exec/redact.go:84 | replacing a newline-free literal meets the hypotheses, so they are not vacuous |
| LiteralPatterns.FirstReplaced | internal/exec/redact.go:82-87 | the first occurrence becomes `[REDACTED]`, what precedes it is kept, and replacement goes on behind it |
| LiteralPatterns.LiteralGone | internal/exec/redact.go:12-15 | after replacement the literal occurs nowhere, not even across a placeholder it cannot overlap |
| LiteralPatterns.NoNewOccurrence | internal/exec/redact.go:82-87 | replacing another literal does not bring one back that cannot overlap the placeholder |
| LiteralPatterns.AllGone | internal/exec/redact.go:82-87 | after any list of literals none of those that cannot overlap the placeholder is left |
| LiteralPatterns.AlwaysGoneIff | internal/exec/redact.go:82-87 | a literal is gone whatever others are configured iff it cannot overlap the placeholder |
| LiteralPatterns.DisjointIsDistinguishable | internal/exec/redact.go:9-10 | for instance a literal that shares no byte with the placeholder cannot overlap it |
| Stream.Conservation | internal/exec/redact.go:45-69 | for any engine and bound, segments handed on followed by the held bytes are exactly the bytes written, in order |
| Stream.ConservationClosed | internal/exec/redact.go:71-80 | after Close the segments alone are the whole stream |
| Stream.SegmentShape | internal/exec/redact.go:46-66 | every segment ends a line, or is an unfinished line that reached the bound; the held part has no newline and stays below the bound |
| Stream.PeakBuffer | internal/exec/redact.go:34-37 | during a write the buffer exceeds the bound by less than the chunk |
| Stream.StreamEqualsBatch | internal/exec/redact.go:45-87 | in a flush-safe stream what leaves the redactor is the redaction of the whole stream |
| Stream.SplitIndependentIffSafe | internal/exec/redact.go:54-66 | all faithful engines and all splits give the batch result iff the stream is flush-safe |
| Stream.CapKeepsPrefix | internal/exec/runner.go:296-311 | the capped buffer holds the first max bytes written, and the flag is set iff a write met a full buffer or overfilled it |
| Stream.TruncatedIffDropped | internal/exec/runner.go:296-311 | without empty writes the flag is set iff bytes were dropped |
| Stream.CaptureEqualsBatch | internal/exec/runner.go:110-120 | redact-then-cap over any chunks equals: redact the stream, keep max bytes, flag the rest |
| Stream.ReportedText | internal/exec/runner.go:174-183 | the reported text is the redacted stream when it fits, else its first max bytes followed by a newline and `...(truncated)` |
| Stream.SplitsAgree | internal/exec/runner.go:75-79 | two splits of the same stream are captured alike, also without patterns as long as no write is empty |
| Stream.TextBounded | internal/exec/runner.go:176-183 | the reported text is at most max plus the marker |
| Secrets.SecretNeverCaptured | internal/exec/runner.go:75-79 | with any list of literals, a newline-free one that cannot overlap the placeholder is not in the captured bytes (marker aside) of a flush-safe stream, wherever writes and cap cut it |
| Secrets.FullBufferCapturedRaw | internal/exec/redact.go:58-60 | the documented caveat: a line that fills the buffer is captured as it stands, whatever follows |
| Secrets.StraddlingHeadCaptured | internal/exec/redact.go:58-60 | the head of a secret that lies across that flush is captured, though the stream contains the secret |
| Secrets.EmittedIffClear | internal/exec/redact.go:45-69 | redacting segment by segment equals redacting the whole iff no match lies across a cut |
| Secrets.CutsOfSegments | internal/exec/redact.go:45-69 | every cut between segments ends a line, ends the stream, or follows an unfinished line as long as the bound |
| Secrets.LiteralSplitsAgreeIff | internal/exec/redact.go:54-66 | for one literal all splits of a stream agree with batch iff no match lies across a possible forced flush |
| Capture.CappedWriter.Write | internal/exec/runner.go:296-311 | the in-place buffer and flag are those of the whole history of writes, and the full length is reported |
| Capture.StreamingRedactWriter.Write | internal/exec/redact.go:45-69 | the held bytes and everything sent downstream are those of the whole history of chunks |
| Capture.StreamingRedactWriter.Close | internal/exec/redact.go:71-80 | the patterns have then seen every byte |
| Capture.StreamingRedactWriter.DropFirst | internal/exec/redact.go:52 | the in-place left shift keeps exactly the tail |
| Capture.StreamingRedactWriter.Append | internal/exec/redact.go:46 | appending keeps the held bytes, in the same array or a larger one |
| Capture.StreamingRedactWriter.LastIndexOfNewline | internal/exec/redact.go:47 | the last newline held, or -1 |
| Capture.StreamingRedactWriter.Redact | internal/exec/redact.go:82-87 | the loop applies all patterns in order |
| Capture.StreamCapture.Write | internal/exec/runner.go:122-136 | the tee offers the chunk to both branches and never reports an error or short count |
| Capture.Sink.WriteSwallowingErrors | internal/exec/runner.go:320-325 | the sink is offered the chunk; its failure is not reported |
| Capture.StreamCapture.Finish | internal/exec/runner.go:154-183 | after the flush the text is the captured bytes, followed by the marker iff the output was truncated |
| Capture.CaptureStream | internal/exec/runner.go:114-183 | a whole stream: for a sound one the text is the redacted stream or its first max bytes and the marker; the sink sees every raw chunk and changes nothing |
| Termination.AtMostOneKill | internal/exec/runner.go:249-266 | at most one SIGKILL, never first, at least grace after the first forwarded signal |
| TerminationTraces.SlotKeepsFirst | internal/exec/runner.go:143-145 | the one-slot channel holds the first signal that arrived since the last one received; later ones are lost |
| TerminationTraces.LogIsTranscript | internal/exec/runner.go:249-285 | the log is what the steps say: each request passed on as received, SIGTERM for timeout and cancellation, SIGKILL, each at its time |
| TerminationTraces.RequestsPassedOn | internal/exec/runner.go:268-285 | SIGKILL aside, between events exactly the requests received have been sent, in order |
| TerminationTraces.ActedOnOnce | internal/exec/runner.go:276-283 | timeout and cancellation are received once at most, and only when there is one |
| Termination.ReturnsWaitError | internal/exec/runner.go:233-237 | the function returns what cmd.Wait gave |
| TerminationTraces.ReturnsWhatWaitGave | internal/exec/runner.go:233-237 | and that is an exit the child really had in the run |
| Termination.NoKillDecisionAfterReturn | internal/exec/runner.go:256-265 | a load of the flag made while returning or later dismisses the killer |
| Termination.QuietRun | internal/exec/runner.go:220-286 | without timeout, cancellation or signal nothing is sent |
| Termination.KillAfterReapWindow | internal/exec/runner.go:226-237 | SIGKILL after the reap needs the reap between load and kill, or the load between reap and store |
| Termination.LateKillIff | internal/exec/runner.go:226-237 | with the flag stored, SIGKILL can still follow iff the killer loaded it before the store and has not sent |
| Termination.AtomicPairsCloseRace | internal/exec/runner.go:226-237 | with kill right after load and store right after reap, SIGKILL never follows the reap |
| Termination.KillAfterReturnHappens | internal/exec/runner.go:259-262 | a run in which SIGKILL is sent after the function returned |
| Termination.KillBeforeFlagHappens | internal/exec/runner.go:234-235 | a run in which the child is reaped, the flag not yet stored, and SIGKILL is sent |
| Termination.RunKeepsInv | internal/exec/runner.go:220-286 | the invariant of waiter, log and killer over every run |
| TerminationTraces.TriggerIsFirst | internal/exec/runner.go:239-285 | the trigger that deadlines are counted from is the earliest signal, cancellation or timeout of the run |
| TerminationTiming.Deadline | internal/exec/runner.go:239-285 | past the first trigger plus grace, reaped or SIGKILL sent at exactly that instant |
| TerminationTiming.NoEarlyKill | internal/exec/runner.go:254-266 | with prompt scheduling every SIGKILL is at the first trigger plus grace; later triggers do not move it |
| TerminationTiming.EveryScheduleSettles | internal/exec/runner.go:231-285 | in every schedule of agent steps, steps taken plus rank left never exceed the starting rank; at that many steps the agent is at rest |
| TerminationTiming.Settles | internal/exec/runner.go:231-285 | a schedule that brings the agent to rest within that bound exists from every reachable state |
| TerminationTiming.SettledAfterExit | internal/exec/runner.go:244-247 | at rest after the child exited: returned with that exit and no goroutine left |
| JsonPointer.UnescapeEscape | internal/webhook/injection.go:298-304 | the two escaping passes are undone by the decoding order of RFC 6901, and give one well-formed token |
| JsonPointer.EscapeCons | internal/webhook/injection.go:300-304 | the two passes amount to one map over characters |
| JsonPointer.EscapeInjective | internal/webhook/injection.go:300-304 | different keys have different escapes |
| JsonPointer.ParseRender | internal/webhook/injection.go:298-304 | every rendered pointer parses to the intended tokens |
| JsonPointer.RenderParse | internal/webhook/injection.go:298-304 | and every valid pointer is the rendering of its tokens |
| JsonPointer.ItoaParses | internal/webhook/injection.go:219-221 | the decimal index parses back, without leading zeros |
| JsonPatch.Lift | internal/webhook/injection.go:104 | edits under a common prefix act on that subtree alone |
| JsonPatch.RemoveUndoesAdd | internal/webhook/injection.go:54-58 | an added member or array item is found where it was added, and removing it restores the document |
| JsonPatch.TargetNeeded | internal/webhook/injection.go:54-58 | remove and replace succeed iff their target exists, and replace exchanges it |
| JsonPatch.AppendToField | internal/webhook/injection.go:210-217 | whole-array add or append, an absent, null, empty or filled array ends with the new item |
| JsonPatch.AppendAllToField | internal/webhook/injection.go:177-181 | one append per variable extends the array in order |
| CronJobs.DecodeEncode | internal/webhook/injection.go:71-102 | every CronJob written out field by field decodes to itself |
| CronJobs.DecodesIff | internal/webhook/injection.go:111-114 | a document decodes iff everything read has the right type, is null or is absent |
| Injection.EditsRewrite | internal/webhook/injection.go:147-190 | the edits, in order, are the direct rewrite |
| Injection.WrappedIsShaped | internal/webhook/injection.go:111-145 | a decision to wrap finds in the tree every node the edits need |
| Injection.TargetIndex | internal/webhook/injection.go:193-208 | the first container of that name, the first of all without a name, -1 when there is none |
| Injector.ContainerSubRenders | internal/webhook/injection.go:219-221 | a container path renders the intended tokens |
| Injector.InjectedPathParses | internal/webhook/injection.go:183-188 | the escaped annotation path lands on the right key |
| Injector.WrappedCommand | internal/webhook/injection.go:223-247 | the loops build binary, flags, extra arguments, `--`, command and args in that order |
| Injector.FindTarget | internal/webhook/injection.go:193-208 | the search loop returns the target |
| Injector.BuildOps | internal/webhook/injection.go:147-190 | the operations apply without error and give the rewritten CronJob |
| Injector.BuildInjection | internal/webhook/injection.go:106-191 | error, silence, warning or patch exactly as decided; the patch gives the direct rewrite, and every intended value can be read where it belongs |
| InjectionTheorems.WrapsExactlyWhen | internal/webhook/injection.go:116-147 | a document that does not decode is malformed; otherwise, from its own annotations, it is wrapped iff opted in, not marked, without installer, with a key name and a target that has a command; and which container, key and mode |
| InjectionTheorems.DeclinesExactlyWhen | internal/webhook/injection.go:116-145 | when a CronJob is left alone, and with which warning |
| InjectionTheorems.RewrittenDecodes | internal/webhook/injection.go:147-190 | what the wrapped CronJob decodes to, field by field |
| InjectedValues.PingKeyReferenced | internal/webhook/injection.go:267-278 | the variable behind the old ones reads the annotated key of the configured Secret, and the command names that variable |
| InjectedValues.CaptureTurnedOff | internal/webhook/injection.go:284-288 | with capturing off the next variable is CROND_CAPTURE_OUTPUT with value false |
| InjectedValues.CaptureOffIff | internal/webhook/injection.go:284-288 | such a variable is added iff capturing is off |
| InjectedValues.PatternsAdded | internal/webhook/injection.go:289-294 | with patterns CROND_REDACT_PATTERNS comes next and holds them joined by newlines |
| InjectedValues.NothingElseAdded | internal/webhook/injection.go:166-182 | and then the list of variables ends |
| InjectedValues.VolumeMounted | internal/webhook/injection.go:150-158 | one empty volume is added, and the target mounts it where its command finds the agent |
| InjectedValues.InstallerAppended | internal/webhook/injection.go:248-265 | the installer comes behind the old init containers, with image, pull policy, security context and resources as configured |
| InjectedValues.InstallerTarget | internal/webhook/injection.go:254-258 | it mounts that volume and installs to the path that is the first word of the target command |
| InjectedValues.PrebakedBinary | internal/webhook/injection.go:226-230 | in pre-baked mode that word is the bare name |
| InjectedValues.MarkerWritten | internal/webhook/injection.go:183-188 | the marker annotation holds the image |
| InjectionTheorems.IdempotentIff | internal/webhook/injection.go:120-131 | a second injection does nothing iff the image is non-empty or the mode is standard |
| InjectionTheorems.NothingElseChanges | internal/webhook/injection.go:147-190 | every pointer apart from the written locations, and every pointer into items the extended arrays already held, reads the same |
| InjectionTheorems.PodItemsKept | internal/webhook/injection.go:150-155 | volumes and init containers that were there can be read where they were |
| InjectionTheorems.ContainerItemsKept | internal/webhook/injection.go:156-181 | so can the target container's variables and mounts |
| Backoff.NeverOverflowsIff | internal/ping/client.go:113-120 | the product fits int64 for every attempt iff the base delay is in [-2^43, 2^43) ns |
| Backoff.DelayExact | internal/ping/client.go:116-123 | for those bases the delay is min(30s, base times 2^min(k, 20)) |
| Backoff.ShiftCapHarmlessIff | internal/ping/client.go:113-119 | capping the exponent changes no delay iff the base is 0 or at least 28611 ns |
| Backoff.DelaysNeverDecrease | internal/ping/client.go:116-123 | delays grow with the attempt and stay within 30s |
| Backoff.OverflowMeansNoWait | internal/ping/client.go:120 | at 2^43 ns the product wraps negative and there is no wait |
| Retry.Client.SendWithRetry | internal/ping/client.go:73-136 | the loop with its early returns computes the specified outcome, requests and final time, which follow from the world as stated next |
| Retry.SendFollowsWorld | internal/ping/client.go:92-132 | from answers, durations and deadline alone: when each request starts, which failures are retried after a full pause, and what the last one makes of the call |
| Retry.NilMeansAnswered | internal/ping/client.go:92-106 | nil iff the last request was not cut short by the context and was answered below 400 |
| Retry.NothingSent | internal/ping/client.go:77-88 | with a bad URL or a negative retry count nothing is sent |
| Retry.SendMeets | internal/ping/client.go:73-136 | all requests but the last were retryable and waited out; the last outcome decides at once, or attempts ran out, or the context ended |
| Retry.NeverOutlivesContext | cmd/crond-agent/commands.go:130-132 | a call with a deadline never returns after it, however slow the server |
| Retry.NilIff | internal/ping/client.go:102-107 | nil iff the last request got a status below 400, or the retry count was negative |
| Retry.Exhaustion | internal/ping/client.go:134-135 | uncancelled failures make exactly retries + 1 requests and return the last error |
| Retry.StartBound | internal/ping/client.go:77-132 | attempt k starts within k requests and the first k waits |
| Retry.TotalPause | internal/ping/client.go:121-123 | k waits take at most 30s each |
| Retry.GuaranteedIff | cmd/crond-agent/commands.go:130-142 | attempt k is made before the deadline in every world iff k requests and k waits take less than it |
| Retry.CompletesIff | cmd/crond-agent/commands.go:134-142 | attempt k finishes uninterrupted in every world iff it is guaranteed to start and k + 1 requests and k waits fit the deadline |
| Retry.DefaultBudget | cmd/crond-agent/commands.go:134-142 | with the defaults the second attempt can finish, the third starts within 63s but may be cut off at 90s, the fourth may not start |
| CommandLine.ExtractConfigFlag | cmd/crond-agent/main.go:63-84 | the scan finds the global flag or stops at a subcommand or `--` |
| CommandLine.FindsConfig | cmd/crond-agent/main.go:76-78 | `--config path` before any stop is taken out with its value, the rest kept in order |
| CommandLine.FindsJoinedConfig | cmd/crond-agent/main.go:79-81 | so is `--config=path` |
| CommandLine.FindsNoConfig | cmd/crond-agent/main.go:72-83 | with a stop first, or a last `--config` without a value, nothing is taken |
| CommandLine.ScanStopsIff | cmd/crond-agent/main.go:65-75 | the scan stops at exactly the six subcommands and `--` |
| CommandLine.ScanStopsAtCommand | cmd/crond-agent/main.go:68-84 | arguments from the first stop on are kept |
| CommandLine.ParseFlagsAppend | cmd/crond-agent/commands.go:19-25 | arguments that are flags only are consumed alike in front of any tail |
| CommandLine.ParseAssignment | cmd/crond-agent/commands.go:20-25 | `--name=value` sets the flag, whatever the value contains |
| CommandLine.SpellingsAgree | cmd/crond-agent/commands.go:20-25 | one dash or two, joined or separate, a flag with a value is read alike |
| CommandLine.ExecFlags | cmd/crond-agent/commands.go:19-25 | each flag sets its own field and nothing else; unknown flags and malformed values are errors |
| CommandLine.BareFlagIsTrue | cmd/crond-agent/commands.go:23-24 | the boolean flag alone means true |
| CommandLine.FlagsEnd | cmd/crond-agent/commands.go:25 | flags end at `--`, which is dropped, or at the first word that is none, which is kept |
| CommandLine.FindCommandArgs | cmd/crond-agent/commands.go:209-217 | the loop returns the suffix after the first `--`, or everything |
| CommandLine.AfterDashesMeans | cmd/crond-agent/commands.go:209-217 | what comes back is everything, or all that follows the first `--` |
| CommandLine.CommandArgsIff | cmd/crond-agent/commands.go:209-217 | the arguments come back whole iff none is `--` |
| CommandLine.InvokeWrapped | cmd/crond-agent/commands.go:18-64 | how the agent reads any argv of the injector's form |
| CommandLine.ConfigThenExec | cmd/crond-agent/main.go:20-46 | a global flag in front changes the configuration path and nothing else |
| CommandLine.OnlyExecRuns | cmd/crond-agent/main.go:42-61 | no other first argument runs a command |
| Patterns.Config.ApplyRedactPatterns | internal/config/loader.go:127-142 | unless the variable is empty the list becomes its non-blank lines, in order, each from its first to its last non-space character |
| Patterns.TrimSpaceCuts | internal/config/loader.go:137 | trimming cuts off the space at both ends and nothing else |
| Patterns.ParsesEveryLine | internal/config/loader.go:134-140 | one pattern for each line that is not blank, in order, and the lines joined are the variable |
| Patterns.ParsedAreClean | internal/config/loader.go:134-140 | parsed patterns are trimmed, non-empty and newline-free |
| Patterns.RoundTripIff | internal/config/loader.go:134-140 | join then parse is the identity iff every pattern is clean |
| Patterns.EnvRoundTripIff | internal/config/loader.go:127-142 | the same through the variable, where empty counts as unset |
| Patterns.Reparse | internal/config/loader.go:134-140 | parsing what was parsed and joined changes nothing |
| EndToEnd.InvokesWrapped | internal/webhook/injection.go:223-247 | the agent's reading of the command list found in the patched CronJob |
| EndToEnd.RunsOriginalIff | cmd/crond-agent/commands.go:60-64 | the original command is run iff it contains no `--` |
| EndToEnd.SmallJobWrapped | internal/webhook/injection.go:106-145 | two annotations and one container with a command are enough to be wrapped |
| EndToEnd.LosesPrefix | cmd/crond-agent/commands.go:210-217 | such a CronJob whose command loses its first words, from the document to what the agent runs |
| EndToEnd.PatternsReachAgent | internal/webhook/injection.go:284-296 | the last variable of the patched container carries the patterns, and the agent reads them back |

## Left out

- Go's regexp engine: patterns are functions with stated hypotheses (line-local, newline-preserving, never emptying). Patterns that match across lines, at `^`, or the empty string can break them, and nothing is claimed for those.
- The error path of the streaming writer when its destination fails; its destination in production is the capped writer, which never fails.
- Standard output and standard error are captured by two independent copies of one pipeline; the model has one copy.
- Process creation, process ids, reaping by the kernel and kill(2) itself: the return of `cmd.Wait` is one environment event, and nothing is said about the child after SIGKILL.
- `signal.Notify` beyond a lossy channel of capacity one.
- HTTP, TLS, URL building: a request is an outcome with a duration. Timers are exact; a request or wait ends at the moment the context does.
- JSON text and YAML: trees are given, with unique keys in exact case. Strings are sequences of characters without UTF-8 encoding.
- Warning texts (a constructor stands for each), logging and its own redaction of arguments, exit codes, the HTTP handler, the installer, charts and scripts.
- `time.ParseDuration`: a parameter of the flag parser.
- What Kubernetes does after admission, such as expanding `$(VAR)` or resolving duplicate variable names.
- The remaining environment variables of `applyEnv`, configuration precedence and the checks in `Validate`.
