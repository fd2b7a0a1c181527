# MimiMail core in Dafny

MimiMail is a terminal mail reader for blind and low-vision users. It lists
Gmail inbox messages in a curses UI and reads out summaries and message bodies
with a text-to-speech engine. A message body can be stopped and resumed
20 words at a time.

This project models four parts of it:

- **`SpeechController`** (`speech_controller.py`). One worker owns the
  pyttsx3 engine and drains a FIFO of `SPEAK`, `STOP`, `SET_RATE` and
  `SHUTDOWN` commands. The UI thread only appends to the queue, or purges it.
  A resumable speak remembers the word list and the 20-word cursor, so
  speaking the same text again resumes where a stop left it.
  (`speech_controller.dfy`, built on `chunking.dfy`, `text.dfy` and
  `engine.dfy`.)
- **`UI`** (`ui.py`). This covers the list view's cursor and scroll
  arithmetic, the speech on scroll and Enter, and the message view's keys:
  scroll, speak/stop, rate, URL toggle and leave. It also covers the UI's own
  resumable message speech, `_start_message_speech` and `_speak_message`.
  (`ui.dfy`.)
- **`Speaker`** (`speaker.py`). This is the SAPI5 speaker: the conversion
  from words per minute to SAPI's -10..10 scale, the `<rate absspeed="…"/>`
  tag, the `(interrupt, text)` queue with its purge and shutdown items, and
  the worker that voices queue items until the shutdown signal.
  (`speaker.dfy`.)
- **`gmail_interface.py`**. This covers the recursive search for the
  `text/plain` and `text/html` parts of a payload, the header scan, the
  choice of body data and how it is decoded, the base64url-to-standard
  alphabet swap, and `replace_urls`' right-to-left splicing of matches.
  (`gmail_interface.dfy`.)

Threads are modelled as interleaved atomic steps:

- **Between two worker steps**, a caller operation is an ordinary method
  call.
- **While the worker speaks**, the caller operations are an explicit
  parameter. In the controller, `during[k]` lists the caller operations that
  run while chunk `k` is spoken. In the UI, `stops[k]` says whether the stop
  key is handled while chunk `k` is spoken.
- **Engines** (pyttsx3 and the SAPI voice) are logs of the calls made on
  them. `Engine.Spoken` reads back the texts that were said, and
  `Engine.EngineRate` reads back the last rate that was set.

Four details of the controller, as the code has them:

- `reset_resumable` writes the worker's cursor directly from the caller's
  thread, although its own comment (`speech_controller.py:180`) says it sends
  the worker a marker.
- Commands other than `STOP` and `SET_RATE` that the worker finds between two
  chunks are taken off the queue and dropped, without any record.
- Simple speech is a single `say` of the whole text, with no chunking.
- No exception is caught around a chunk: only `engine.stop()` is guarded.

## Model

| member | source | states |
|---|---|---|
| Text.Words | MimiMail/speech_controller.py:89 | `str.split()` yields only non-empty, space-free words |
| Text.WordLength | MimiMail/speech_controller.py:89 | the first word runs up to the first white-space character |
| Text.WordsOfJoin | MimiMail/speech_controller.py:120 | splitting `' '.join(ws)` again gives back `ws` for any list of words; this is what `Join` means for the chunk texts |
| Chunking.ResumeStart | MimiMail/speech_controller.py:91-97 | resume at the stored index exactly when the words equal the stored words and the index is positive, otherwise start at 0 |
| Chunking.ChunksCover | MimiMail/speech_controller.py:99-126 | concatenated, the 20-word chunks from `i` are exactly `words[i..]` |
| Chunking.ChunkAt | MimiMail/speech_controller.py:119-120 | chunk `k` is `words[i+20k : min(i+20k+20, len)]`, non-empty and at most 20 words |
| Chunking.ChunkCount | MimiMail/speech_controller.py:102-125 | a run from `i` speaks ceil((len − i)/20) chunks |
| Chunking.ChunksSplit | MimiMail/speech_controller.py:102-126 | a run split at a chunk boundary is the chunks before it followed by a fresh run from the boundary |
| Chunking.ChunksThrough | MimiMail/ui.py:87-100 | a run splits into the chunks before boundary `j`, the chunk at `j`, and a run from that chunk's end |
| Chunking.HeardWords | MimiMail/speech_controller.py:119-123 | a listener who splits the spoken chunk texts again hears exactly the words from `i` on |
| Chunking.HeardBefore | MimiMail/speech_controller.py:119-126 | the chunks before boundary `j`, split again, are `words[i..j]` |
| Chunking.HeardThrough | MimiMail/ui.py:91-100 | the chunks up to and including the one at `j`, split again, are the words up to that chunk's end |
| Chunking.NextChunk | MimiMail/speech_controller.py:119-125 | saying the chunk at the cursor moves the run's remaining texts to the next boundary |
| Engine.SpokenSince | MimiMail/speech_controller.py:122 | only a `say` adds a text to what the engine has spoken since a point |
| Engine.EngineRateAfter | MimiMail/speech_controller.py:52 | the one-step form of "the engine's rate is the last `setProperty('rate', …)`": one more call changes the rate only if it is a rate call, and then to its value |
| SpeechControl.StopForgetsPending | MimiMail/speech_controller.py:148-161 | after a `stop()`, whatever was queued before no longer affects the queue |
| SpeechControl.AfterCall | MimiMail/speech_controller.py:144-175 | `stop()` and `shutdown()` leave a STOP at the head and nowhere else; any other call keeps the queue and appends one non-STOP command |
| SpeechControl.AfterCallsShape | MimiMail/speech_controller.py:144-175 | after calls without a stop, the old queue is still there with one command per call behind it; after a stop, a STOP is at the head |
| SpeechControl.AfterCallsStopOnlyAtHead | MimiMail/speech_controller.py:144-175 | a STOP is only ever at the head of the queue, since `stop()` purges before it appends |
| SpeechControl.FirstStop | MimiMail/speech_controller.py:104-109 | the first chunk during which the caller stops, with no stop before it, or none at all |
| SpeechControl.OutcomeAtBoundary | MimiMail/speech_controller.py:102-109 | the chunk loop is only ever interrupted at a chunk boundary strictly inside the words |
| SpeechControl.OutcomeClosedForm | MimiMail/speech_controller.py:102-126 | the chunk loop ends interrupted at `start + 20(k+1)` for the first chunk `k` during which the caller stops, if that is before the end, and otherwise completes |
| SpeechControl.InterruptedHeard | MimiMail/speech_controller.py:102-109 | an interrupted run has spoken exactly the words from `start` up to the cursor it stored |
| SpeechControl.StopThenResume | MimiMail/speech_controller.py:87-130 | stopping and then speaking the same text again resumes at the stored cursor, and the two runs together speak every word exactly once, in order |
| SpeechControl.AfterCallsNoStop | MimiMail/speech_controller.py:144-165 | calls without `stop()` or `shutdown()` never put a STOP in the queue |
| SpeechControl.InterruptedRunForgetsPending | MimiMail/speech_controller.py:104-109 | when the caller interrupts a resumable run, the queue it leaves does not depend on what was pending when it began: `stop()` purged that, and the worker took the STOP |
| SpeechControl.Dispatch | MimiMail/speech_controller.py:44-57 | the worker stops running exactly when the command it takes is SHUTDOWN |
| SpeechControl.Turn | MimiMail/speech_controller.py:37-57 | a turn stops the worker exactly when the queue the callers leave has SHUTDOWN at its head |
| SpeechControl.TurnsStep | MimiMail/speech_controller.py:37-57 | the loop given one more round takes one more turn if the worker is still running, and otherwise changes nothing |
| SpeechControl.StoppedStaysStopped | MimiMail/speech_controller.py:53-55 | once SHUTDOWN has ended the loop, later rounds change nothing: no command after it is dispatched |
| SpeechControl.SpeechController.constructor | MimiMail/speech_controller.py:14-35 | empty queue, cursor cleared, engine rate set to `rate` |
| SpeechControl.SpeechController.Speak | MimiMail/speech_controller.py:144-146 | appends one `SPEAK` command |
| SpeechControl.SpeechController.Stop | MimiMail/speech_controller.py:148-161 | the queue becomes exactly `[STOP]` and the status flag is lowered |
| SpeechControl.SpeechController.SetRate | MimiMail/speech_controller.py:163-165 | appends one `SET_RATE` command |
| SpeechControl.SpeechController.IsSpeaking | MimiMail/speech_controller.py:167-170 | returns the status flag |
| SpeechControl.SpeechController.Shutdown | MimiMail/speech_controller.py:172-176 | the queue becomes exactly `[STOP, SHUTDOWN]` |
| SpeechControl.SpeechController.ResetResumable | MimiMail/speech_controller.py:178-182 | clears the stored words and cursor |
| SpeechControl.SpeechController.Call | MimiMail/speech_controller.py:144-176 | the queue after one public call; a stop leaves a STOP at the head, anything else appends one non-STOP command |
| SpeechControl.SpeechController.CallAll | MimiMail/speech_controller.py:144-176 | the queue after a sequence of public calls, and whether the status flag survives them |
| SpeechControl.SpeechController.Poll | MimiMail/speech_controller.py:104-117 | the non-blocking `get`: reports a STOP, applies a SET_RATE to the controller and the engine, drops anything else, and speaks nothing |
| SpeechControl.SpeechController.SpeakSimple | MimiMail/speech_controller.py:78-85 | clears the cursor and says the whole text in one call; the caller operations that run meanwhile change the queue and status flag as `AfterCalls` says |
| SpeechControl.SpeechController.SayChunk | MimiMail/speech_controller.py:119-126 | says the next chunk and advances the cursor to its end |
| SpeechControl.SpeechController.SpeakNextChunk | MimiMail/speech_controller.py:119-126 | the chunk is said and the cursor moves past it, while the caller's operations for that chunk leave the queue as `AfterCalls` says and lower the status flag exactly when one of them stops |
| SpeechControl.SpeechController.ChunkStep | MimiMail/speech_controller.py:102-126 | one loop pass: a STOP at the head ends the run without speaking; otherwise the chunk is said and the outcome moves to the next chunk; either way the queue and rate are those `RunInbox` gives for the rest of the run |
| SpeechControl.SpeechController.ChunkLoop | MimiMail/speech_controller.py:99-126 | the `while` loop runs until a STOP is taken from the queue, at a chunk boundary inside the words, or until the words run out, matching `Outcome`; the queue and rate it leaves are `RunInbox(...)` |
| SpeechControl.SpeechController.SpeakChunks | MimiMail/speech_controller.py:99-130 | the loop's spoken texts, stored words and cursor are those of a run whose outcome is `Outcome(...)`, and the queue and rate it leaves are `RunInbox(...)`: one poll per pass, a SET_RATE applied, a STOP ending the run, the callers' operations in between |
| SpeechControl.SpeechController.SpeakResumable | MimiMail/speech_controller.py:87-130 | resumes per the resume rule; what is spoken and what is stored is the run's effect, the outcome is the closed form, and the queue and rate are those the run's polls and callers leave |
| SpeechControl.SpeechController.DoSpeak | MimiMail/speech_controller.py:65-76 | dispatches a simple or resumable speak with its effect, queue and rate, and the status flag is down afterwards |
| SpeechControl.SpeechController.WorkerStep | MimiMail/speech_controller.py:37-57 | the new state is `Dispatch` of the old one; per command at the head: the effect of SPEAK, with the queue and rate the speech leaves, STOP (engine stopped), SET_RATE (rate and engine updated) and SHUTDOWN (worker stops, engine stopped); an empty queue changes nothing |
| SpeechControl.SpeechController.RunRound | MimiMail/speech_controller.py:37-57 | one turn of the loop: the callers' operations and then one worker step leave the state `Turn` gives, and a worker that stops took SHUTDOWN from the head of the queue the callers left |
| SpeechControl.SpeechController.WorkerLoop | MimiMail/speech_controller.py:32-63 | the state the loop leaves is the fold `Turns` over the rounds it ran; it ran every round while the worker kept running, or stopped after the first round whose callers left SHUTDOWN at the head of the queue, with the commands behind it left undispatched and the engine's last call `stop()` |
| MailUI.ClampCursor | MimiMail/ui.py:179-180 | the cursor is a valid row when there are rows, −1 when there are none, and unchanged when already valid |
| MailUI.ScrollFor | MimiMail/ui.py:182-185 | the window of `max` rows shows the cursor, and does not move when it already did |
| MailUI.PyIndex | MimiMail/ui.py:172 | Python indexing: an index in range is itself, a negative one counts from the end (`n + i`), and anything else out of range raises |
| MailUI.ScrollTargetAsWritten | MimiMail/ui.py:168-177 | as written, the lookup raises exactly when the moved cursor is outside `-n..n-1`, and a negative moved cursor names a row counted from the end |
| MailUI.DownOnLastRowRaises | MimiMail/ui.py:168-172 | as written, KEY_DOWN on the last row indexes past the end |
| MailUI.UpOnFirstRowSpeaksLast | MimiMail/ui.py:173-180 | as written, KEY_UP on the first row speaks the last message while the first stays highlighted |
| MailUI.ScrollTarget | MimiMail/ui.py:168-180 | corrected: the summary spoken is the one for the clamped cursor's row |
| MailUI.ScrollTargetAgrees | MimiMail/ui.py:168-177 | where the moved cursor is on a row, the corrected and as-written lookups agree |
| MailUI.FirstTrue | MimiMail/ui.py:88-98 | the first chunk during which the user stops, and no stop before it |
| MailUI.MessageOutcome | MimiMail/ui.py:87-100 | a message run only ever stops at a chunk boundary inside the words |
| MailUI.MessageOutcomeClosedForm | MimiMail/ui.py:87-100 | a message run stops at `start + 20k` for the first chunk `k` interrupted before the end, and otherwise finishes |
| MailUI.StoppedSpoke | MimiMail/ui.py:87-100 | a stopped run spoke the chunks before the interrupted one, then that one |
| MailUI.StoppedHeard | MimiMail/ui.py:87-100 | a stopped run's last text is the interrupted chunk, and a listener heard the words from `start` to that chunk's end |
| MailUI.StopResumeRepeatsChunk | MimiMail/ui.py:61-107 | stop then speak again: the resume restarts at the interrupted chunk, so that chunk is spoken twice and every other word once |
| MailUI.UI.constructor | MimiMail/ui.py:8-26 | the initial state, with the engine rate at 130 |
| MailUI.UI.StopSpeech | MimiMail/ui.py:34-41 | raises the stop flag and stops the engine |
| MailUI.UI.SpeakSimple | MimiMail/ui.py:52-58 | says the text unless a stop is pending |
| MailUI.UI.SayAndWait | MimiMail/ui.py:57-58 | one `say` of the text is added to the engine, whose rate is unchanged |
| MailUI.UI.StartSpeechSimple | MimiMail/ui.py:43-50 | clears the flag and says the whole text |
| MailUI.UI.StopKey | MimiMail/ui.py:274-276 | stops the engine and clears `_message_speaking` |
| MailUI.UI.SpeakInstead | MimiMail/ui.py:171-172 | the engine is stopped, then the new text is said, and the stop flag is clear afterwards |
| MailUI.UI.StartMessageSpeech | MimiMail/ui.py:61-79 | resumes per the resume rule; the spoken texts and the stored words and index are the run's effect, and the outcome is the closed form |
| MailUI.UI.SayMessageChunk | MimiMail/ui.py:91-95 | says the chunk at the index; a stop handled meanwhile stops the engine |
| MailUI.UI.StopHeard | MimiMail/ui.py:274-276 | a stop keeps what was already heard |
| MailUI.UI.MessageStep | MimiMail/ui.py:91-100 | one loop pass: the index moves to the chunk's end unless the flag was raised during the chunk |
| MailUI.UI.SpeakChunks | MimiMail/ui.py:87-100 | the loop speaks the run's chunks, and a stop leaves the index at the interrupted chunk's start |
| MailUI.UI.SpeakMessage | MimiMail/ui.py:81-107 | `_speak_message`: a finished run clears the stored words, a stopped one keeps them with the index at a chunk start, and a flag already raised speaks nothing |
| MailUI.UI.EnterMenu | MimiMail/ui.py:124-125 | the first pass speaks the highlighted summary when speak-on-scroll is on |
| MailUI.UI.MenuKey | MimiMail/ui.py:168-192 | the cursor is clamped and the window follows it; a move speaks the new row's summary and clears the stop flag; Enter on a non-empty list opens the highlighted message and raises the stop flag; 't' toggles speak-on-scroll; any other case leaves the engine and flags alone |
| MailUI.UI.EnterMessage | MimiMail/ui.py:195-204 | opening a message clears the stored words and index |
| MailUI.UI.MessageKey | MimiMail/ui.py:263-288 | scroll clamped at 0; 's' starts a run, with URLs removed unless shown, whose effect and outcome are the closed form for `stops`, or stops the run under way; '+'/'-' change the rate by 10 and set it on the engine; 'u' toggles URLs; no key but 's' touches the stored words, index or flags |
| MailUI.UI.SpeakKey | MimiMail/ui.py:267-276 | 's' starts the body's speech, with URLs removed unless shown, resuming per the resume rule, or stops speech under way and keeps the resume point |
| MailUI.UI.ChangeRate | MimiMail/ui.py:278-283 | the rate changes by the step and the engine is set to the new rate |
| MailUI.UI.LeaveMessage | MimiMail/ui.py:290-293 | leaving stops speech still running |
| MailUI.UI.MessageView | MimiMail/ui.py:194-293 | `draw_message` keeps the invariants and leaves no message speech running |
| Sapi.TruncDiv | MimiMail/speaker.py:25 | `int(a / b)` truncates toward zero: the remainder `a - q*b` lies in `[0, b)` for `a >= 0` and in `(-b, 0]` for `a < 0` |
| Sapi.TruncDivNegate | MimiMail/speaker.py:25 | truncation is symmetric about zero: `int(-a / b) == -int(a / b)` |
| Sapi.WpmToSapiRate | MimiMail/speaker.py:20-25 | the rate is on SAPI's scale −10..10, and off the clamp it is within one step of `(wpm − 150) / 10` |
| Sapi.SapiRateRange | MimiMail/speaker.py:20-25 | the rate saturates at 250 and 50 wpm, and is strictly inside the scale between them |
| Sapi.SapiRateZero | MimiMail/speaker.py:20-25 | the rate is 0 exactly for 141..159 wpm |
| Sapi.SapiRateMonotone | MimiMail/speaker.py:20-25 | a faster wpm never gives a slower SAPI rate |
| Sapi.NatDigits | MimiMail/speaker.py:76 | the decimal form is non-empty and all digits |
| Sapi.IntToStringRoundTrip | MimiMail/speaker.py:76 | the f-string's decimal form parses back to the number |
| Sapi.RateTagCarriesRate | MimiMail/speaker.py:71-76 | the number between the tag's prefix and suffix parses back to the converted rate |
| Sapi.RateTag | MimiMail/speaker.py:76 | the tag is `<rate absspeed="`, then the rate, then `"/>` |
| Sapi.SpokenCount | MimiMail/speaker.py:33-36 | the items before the shutdown signal |
| Sapi.VoicedItems | MimiMail/speaker.py:33-42 | the worker speaks each item before the signal, in order, with flag 1 exactly for interrupting items |
| Sapi.VoicedStopsAtSentinel | MimiMail/speaker.py:35-36 | nothing after the shutdown signal is spoken |
| Sapi.VoicedAppend | MimiMail/speaker.py:33-42 | without a signal in the first part, the worker speaks the two parts one after the other |
| Sapi.Speaker.constructor | MimiMail/speaker.py:13-32 | the rate is 130 wpm and the voice is set to its SAPI rate |
| Sapi.Speaker.Stop | MimiMail/speaker.py:60-69 | the queue becomes exactly the one purging empty utterance |
| Sapi.Speaker.Say | MimiMail/speaker.py:46-58 | an interrupting say purges and then queues the text; otherwise it appends |
| Sapi.Speaker.SetRate | MimiMail/speaker.py:71-76 | stores the wpm and queues the rate tag as text |
| Sapi.Speaker.WorkerStep | MimiMail/speaker.py:33-42 | takes one item: speaks it with its flag, or stops at the signal |
| Sapi.Speaker.Worker | MimiMail/speaker.py:27-44 | the worker speaks exactly the items before the signal and consumes the signal |
| Sapi.Speaker.Shutdown | MimiMail/speaker.py:78-82 | the queue is purged, the signal sent and the worker joined; a live worker says the purge item last |
| Gmail.LeafBodyParts | MimiMail/gmail_interface.py:64-70 | a payload without parts fills the slot its own mime type names, with its own body |
| Gmail.FindBodyParts | MimiMail/gmail_interface.py:44-72 | a payload without parts never fails, and the only failure is the missing `body` key |
| Gmail.ScanParts | MimiMail/gmail_interface.py:49-63 | no parts leaves the slots as they were, and the only failure is the missing `body` key |
| Gmail.ContainerIgnoresOwnFields | MimiMail/gmail_interface.py:49-63 | a payload with parts is judged by its parts only |
| Gmail.ExaminedOnly | MimiMail/gmail_interface.py:50-57 | keeps only the text/plain, text/html and multipart children |
| Gmail.OtherChildrenIgnored | MimiMail/gmail_interface.py:50-63 | children of other mime types do not affect the result |
| Gmail.PlainSlotFill | MimiMail/gmail_interface.py:57-61 | with no direct `text/plain` child, the plain slot keeps a truthy value, and otherwise takes the first truthy plain value a nested multipart yields, if any |
| Gmail.HtmlSlotFill | MimiMail/gmail_interface.py:57-63 | the same for the html slot and the first truthy nested html value |
| Gmail.NestedPlain | MimiMail/gmail_interface.py:57-61 | the first plain value a nested multipart yields that is truthy |
| Gmail.NestedHtml | MimiMail/gmail_interface.py:57-63 | the first html value a nested multipart yields that is truthy |
| Gmail.LastPlainChildWins | MimiMail/gmail_interface.py:53-54 | the last direct `text/plain` child with a non-empty body wins over everything before it |
| Gmail.LastHtmlChildWins | MimiMail/gmail_interface.py:55-56 | a direct `text/html` child with a non-empty body overrides everything before it |
| Gmail.BodylessTextChildFails | MimiMail/gmail_interface.py:53-56 | a direct text child with no `body` raises `KeyError` |
| Gmail.LastValueIsLast | MimiMail/gmail_interface.py:101-109 | a header value is found exactly when a header has that name, and it is the last such header's |
| Gmail.ScanHeaders | MimiMail/gmail_interface.py:97-109 | the loop keeps the last From, Date and Subject |
| Gmail.PlanBody | MimiMail/gmail_interface.py:113-126 | the plain data is preferred and decoded as text; the html data is used only when the plain part has none; missing or empty data means no body |
| Gmail.StripExactlyWithoutPlain | MimiMail/gmail_interface.py:119-126 | HTML is stripped exactly when the html part is truthy and the plain part is not |
| Gmail.ReplaceChar | MimiMail/gmail_interface.py:120 | `str.replace` on one character keeps the length and swaps that character everywhere |
| Gmail.ToStandardAlphabet | MimiMail/gmail_interface.py:120 | the length is kept, `-` becomes `+`, `_` becomes `/`, nothing else changes, and no `-` or `_` remains |
| Gmail.AlphabetRoundTrip | MimiMail/gmail_interface.py:120 | for base64url text, swapping back gives the original |
| Gmail.SplicedFrom | MimiMail/gmail_interface.py:36-41 | splicing leaves the text before the first match untouched |
| Gmail.SplicedLength | MimiMail/gmail_interface.py:36-41 | the result's length is the text's, less the matched lengths, plus one replacement per match |
| Gmail.ReplaceUrls | MimiMail/gmail_interface.py:28-41 | replacing matches right to left gives each match replaced in place, the rest untouched |

## Left out

- Real threads, locks, `Queue.task_done` and `join` timeouts. Threads are
  interleaved atomic steps. Caller operations run only at the points named
  above: between worker steps, and while a chunk is spoken.
- SpeechControl.SpeechController.WorkerLoop: the fold `Turns` covers the
  queue, the rate, the two flags and the stored words and cursor. What each
  round speaks is stated per speak, by `WorkerStep` and `RunEffect`, and is
  not folded over the rounds. The loop's log is only tied to the rate and to
  its last call.
- SpeechControl.SpeechController.ResetResumable: modelled as a caller
  operation between worker steps, not one that lands in the middle of an
  utterance.
- The UI's speech threads are run to completion as soon as they start. The
  only keys interleaved with a message run are the stop keys (`stops`), and a
  stop key lands only while a chunk is spoken, so it is seen by the check
  after that chunk (`ui.py:97-98`). A stop that lands after that check and
  before the check at the top of the next pass (`ui.py:88-89`) is not
  modelled. In the program, such a stop breaks with the index already at the
  next boundary, so the resume repeats no chunk. After the last chunk, such a
  stop skips the reset (`ui.py:102-105`), so the words stay stored with the
  index at their end, and the next 's' speaks nothing. A second 's' pressed
  while a run is in progress is not modelled, and neither are '+'/'-' pressed
  during a chunk.
- MailUI.UI.MessageView: states only the invariants it keeps and that no
  message speech is left running. Key by key, `MessageKey` states the
  effects.
- The pyttsx3 and SAPI COM engines are logs of calls. Audio, the timing of
  `runAndWait` and the engines' own queues are not modelled.
- Sapi.Speaker: the worker's first `voice.Rate` is set from the rate at
  start-up (130 wpm). A `set_rate` that runs before the worker starts is not
  modelled.
- `float` division: `wpm` is an `int`. `int((wpm - 150) / 10)` is
  truncating integer division, which gives the same result for integer
  `wpm`.
- curses drawing, `textwrap`, window sizes: `maxMessages` is a parameter.
- Message summaries, the body text and the list of messages are parameters
  (`Message.py` is not part of this model).
- The Gmail API calls, `auth.py`, `sample.py`, `mutt_main.py`, `getEmail`,
  and the progress messages of `getUnreadEmails`.
- The regular expression `URL_PATTERN`. The spans `re.finditer` returns are
  an input, assumed ordered and non-overlapping.
- Base64 decoding, UTF-8 decoding and BeautifulSoup's `get_text()`. The
  model stops at the `BodyPlan` saying which of them is applied, and to what
  data.
- Gmail.ScanHeaders: a header without a `name` or `value` key, which would
  raise `KeyError`, is not modelled. Headers are well-formed records.

## Findings

| source | as written | input that shows it | evidently intended | confidence | as-written member | corrected member |
|---|---|---|---|---|---|---|
| MimiMail/ui.py:168-180 | KEY_DOWN and KEY_UP look up `messages[self.cursor_y]` with the moved cursor, before the clamp of lines 179-180 | n messages with the cursor on row n−1 and KEY_DOWN: `messages[n]` raises `IndexError`. With the cursor on row 0 and KEY_UP (n ≥ 2): `messages[-1]` speaks the last message while row 0 stays highlighted | speak the summary of the row the clamped cursor highlights | not executed | MailUI.ScrollTargetAsWritten (DownOnLastRowRaises, UpOnFirstRowSpeaksLast) | MailUI.ScrollTarget (ScrollTargetAgrees), used by MailUI.UI.MenuKey |
