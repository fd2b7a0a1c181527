/**
 * `SpeechController` (MimiMail/speech_controller.py): one worker owns the
 * pyttsx3 engine and drains a FIFO of tagged commands; the UI thread only
 * appends to (or purges) that queue.
 *
 * Threads are modelled as interleaved atomic steps. Caller operations between
 * two worker steps are ordinary method calls. Caller operations that run while
 * the worker is blocked speaking an utterance are an explicit parameter: an
 * `Interleaving` lists, for each chunk, the caller operations that run while
 * that chunk is being spoken.
 */
module SpeechControl {
  import opened Basics
  import opened Text
  import opened Chunking
  import opened Engine

  /** The tuples `('SPEAK', text, resumable)`, `('STOP',)`, `('SET_RATE', rate)`, `('SHUTDOWN',)`. */
  datatype Command = Speak(text: string, resumable: bool) | Stop | SetRate(rate: int) | Shutdown

  /** A public call of the controller made by the UI thread. */
  datatype CallerOp = CallSpeak(text: string, resumable: bool) | CallStop | CallSetRate(rate: int) | CallShutdown

  /** `during[k]` are the caller operations that run while chunk `k` is spoken. */
  type Interleaving = seq<seq<CallerOp>>

  /** One turn of the worker loop: the caller operations that run before the
      worker's `get`, and those that run while it speaks, chunk by chunk. */
  datatype Round = Round(callers: seq<CallerOp>, during: Interleaving)

  /** `stop()` and `shutdown()` purge the queue and leave a STOP at its head. */
  predicate IsStopping(op: CallerOp) {
    op.CallStop? || op.CallShutdown?
  }

  predicate StopsIn(ops: seq<CallerOp>) {
    exists j :: 0 <= j < |ops| && IsStopping(ops[j])
  }

  /** No caller stop while any of the first `n` chunks was spoken. */
  predicate NoStopsBefore(during: Interleaving, n: int) {
    forall k :: 0 <= k < n && k < |during| ==> !StopsIn(during[k])
  }

  /** The caller stops while chunk `n` is spoken. */
  predicate StopsDuring(during: Interleaving, n: nat) {
    n < |during| && StopsIn(during[n])
  }

  predicate NoStop(q: seq<Command>) {
    forall i :: 0 <= i < |q| ==> !q[i].Stop?
  }

  /** Every STOP in the queue is at its head: `stop()` purges before it appends. */
  predicate StopOnlyAtHead(q: seq<Command>) {
    forall i :: 0 < i < |q| ==> !q[i].Stop?
  }

  /** The queue after one public call: `stop()` and `shutdown()` purge it first. */
  function AfterCall(q: seq<Command>, op: CallerOp): (r: seq<Command>)
    ensures IsStopping(op) ==> r != [] && r[0].Stop? && StopOnlyAtHead(r)
    ensures !IsStopping(op) ==> |r| == |q| + 1 && r[..|q|] == q && !r[|q|].Stop?
  {
    match op
    case CallSpeak(t, r) => q + [Command.Speak(t, r)]
    case CallStop => [Command.Stop]
    case CallSetRate(r) => q + [Command.SetRate(r)]
    case CallShutdown => [Command.Stop, Command.Shutdown]
  }

  /** The queue after the public calls `ops`, made in order. */
  function AfterCalls(q: seq<Command>, ops: seq<CallerOp>): (r: seq<Command>)
  {
    if ops == [] then q else AfterCall(AfterCalls(q, ops[..|ops| - 1]), ops[|ops| - 1])
  }

  /** After calls without a stop the old queue is still there, with one command
      per call behind it; after a stop the queue has a STOP at its head. */
  lemma {:induction false} AfterCallsShape(q: seq<Command>, ops: seq<CallerOp>)
    ensures StopsIn(ops) ==> AfterCalls(q, ops) != [] && AfterCalls(q, ops)[0].Stop?
    ensures !StopsIn(ops) ==> |AfterCalls(q, ops)| == |q| + |ops| && AfterCalls(q, ops)[..|q|] == q
  {
    if ops != [] {
      var init := ops[..|ops| - 1];
      AfterCallsShape(q, init);
      if !IsStopping(ops[|ops| - 1]) {
        if StopsIn(ops) {
          var j :| 0 <= j < |ops| && IsStopping(ops[j]);
          assert init[j] == ops[j];
        } else {
          assert !StopsIn(init) by {
            forall j | 0 <= j < |init| ensures !IsStopping(init[j]) {
              assert init[j] == ops[j];
            }
          }
          var prev := AfterCalls(q, init);
          assert AfterCalls(q, ops)[..|prev|] == prev;
          assert AfterCalls(q, ops)[..|q|] == prev[..|q|];
        }
      }
    }
  }

  /** One more call: the queue and the stop flag of the prefix `ops[..i + 1]`. */
  lemma CallsStep(q: seq<Command>, ops: seq<CallerOp>, i: nat)
    requires i < |ops|
    ensures AfterCalls(q, ops[..i + 1]) == AfterCall(AfterCalls(q, ops[..i]), ops[i])
    ensures StopsIn(ops[..i + 1]) <==> StopsIn(ops[..i]) || IsStopping(ops[i])
  {
    var pre := ops[..i + 1];
    assert pre[..|pre| - 1] == ops[..i];
    assert pre[|pre| - 1] == ops[i];
    if StopsIn(pre) && !IsStopping(ops[i]) {
      var j :| 0 <= j < |pre| && IsStopping(pre[j]);
      assert ops[..i][j] == pre[j];
    }
    if StopsIn(ops[..i]) {
      var j :| 0 <= j < i && IsStopping(ops[..i][j]);
      assert pre[j] == ops[..i][j];
    }
  }

  /** Once the caller has stopped, what was queued before no longer matters. */
  lemma {:induction false} StopForgetsPending(q1: seq<Command>, q2: seq<Command>, ops: seq<CallerOp>)
    requires StopsIn(ops)
    ensures AfterCalls(q1, ops) == AfterCalls(q2, ops)
  {
    var last := ops[|ops| - 1];
    var init := ops[..|ops| - 1];
    if !IsStopping(last) {
      var j :| 0 <= j < |ops| && IsStopping(ops[j]);
      assert init[j] == ops[j];
      StopForgetsPending(q1, q2, init);
    }
  }

  /** A STOP is only ever at the head of the queue the calls leave. */
  lemma {:induction false} AfterCallsStopOnlyAtHead(q: seq<Command>, ops: seq<CallerOp>)
    requires StopOnlyAtHead(q)
    ensures StopOnlyAtHead(AfterCalls(q, ops))
  {
    if ops != [] {
      AfterCallsStopOnlyAtHead(q, ops[..|ops| - 1]);
    }
  }

  /** The chunk during which the caller first stops, if any. */
  function FirstStop(during: Interleaving, from: nat): (r: Option<nat>)
    ensures r.Some? ==> from <= r.value < |during| && StopsIn(during[r.value])
    ensures r.None? ==> forall k :: from <= k < |during| ==> !StopsIn(during[k])
    ensures r.Some? ==> forall k :: from <= k < r.value ==> !StopsIn(during[k])
    decreases |during| - from
  {
    if from >= |during| then None
    else if StopsIn(during[from]) then Some(from)
    else FirstStop(during, from + 1)
  }

  datatype RunOutcome = Completed | Interrupted(at: nat)

  /** How a resumable run over the words `pos..n` ends, chunk `k` being the next
      one spoken: the first chunk during which the caller stops ends the run at
      the boundary after it, unless that boundary is the end of the words. */
  function Outcome(n: nat, pos: nat, during: Interleaving, k: nat): (r: RunOutcome)
    decreases n - pos
  {
    if pos >= n then Completed
    else if k < |during| && StopsIn(during[k]) then
      (if pos + ChunkSize < n then Interrupted(pos + ChunkSize) else Completed)
    else Outcome(n, pos + ChunkSize, during, k + 1)
  }

  /** A run is only ever interrupted at a chunk boundary strictly inside its words. */
  lemma {:induction false} OutcomeAtBoundary(n: nat, pos: nat, during: Interleaving, k: nat)
    ensures var r := Outcome(n, pos, during, k); r.Interrupted? ==> pos < r.at < n && IsBoundary(pos, r.at)
    decreases n - pos
  {
    if pos < n && !(k < |during| && StopsIn(during[k])) {
      OutcomeAtBoundary(n, pos + ChunkSize, during, k + 1);
      var r := Outcome(n, pos, during, k);
      if r.Interrupted? {
        BoundaryNext(pos, pos);
        assert r.at - pos == (r.at - (pos + ChunkSize)) + ChunkSize;
      }
    }
  }

  /** The same outcome in closed form: interrupted at `start + 20 * (k + 1)` for
      the first chunk `k` during which the caller stops, if that is before the end. */
  function ExpectedOutcome(n: nat, start: nat, during: Interleaving): RunOutcome {
    match FirstStop(during, 0)
    case None => Completed
    case Some(k) => if start + ChunkSize * (k + 1) < n then Interrupted(start + ChunkSize * (k + 1)) else Completed
  }

  /** The step-by-step outcome from chunk `k` at `pos`, in closed form. */
  lemma {:induction false} OutcomeFromChunk(n: nat, pos: nat, during: Interleaving, k: nat)
    ensures Outcome(n, pos, during, k) ==
            match FirstStop(during, k)
            case None => Completed
            case Some(j) => if pos + ChunkSize * (j - k + 1) < n then Interrupted(pos + ChunkSize * (j - k + 1)) else Completed
    decreases n - pos
  {
    var f := FirstStop(during, k);
    if pos >= n {
      if f.Some? {
        assert ChunkSize * (f.value - k + 1) >= 0;
      }
    } else if k < |during| && StopsIn(during[k]) {
    } else {
      assert f == FirstStop(during, k + 1);
      OutcomeFromChunk(n, pos + ChunkSize, during, k + 1);
      if f.Some? {
        assert ChunkSize * (f.value - k + 1) == ChunkSize + ChunkSize * (f.value - (k + 1) + 1);
      }
    }
  }

  /** The run-by-run outcome and its closed form agree. */
  lemma OutcomeClosedForm(n: nat, start: nat, during: Interleaving)
    ensures Outcome(n, start, during, 0) == ExpectedOutcome(n, start, during)
  {
    OutcomeFromChunk(n, start, during, 0);
  }

  /**
   * What one resumable run from `start` over `words` leaves behind: the texts it
   * spoke, and the cursor. A completed run spoke every chunk and resets the
   * cursor; an interrupted one stops at a chunk boundary, keeps the words, and
   * what it spoke followed by a run from that boundary is the whole run.
   */
  ghost predicate RunEffect(words: seq<string>, start: nat, spoken: seq<string>,
                            wordsAfter: seq<string>, indexAfter: nat, outcome: RunOutcome)
  {
    match outcome
    case Completed =>
      wordsAfter == [] && indexAfter == 0 && spoken == Texts(ChunksFrom(words, start))
    case Interrupted(at) =>
      IsBoundary(start, at) && at < |words| && wordsAfter == words && indexAfter == at
      && spoken + Texts(ChunksFrom(words, at)) == Texts(ChunksFrom(words, start))
  }

  /** An interrupted run has spoken exactly the words from `start` up to where it stopped. */
  lemma InterruptedHeard(words: seq<string>, start: nat, spoken: seq<string>, at: nat)
    requires AllWords(words)
    requires RunEffect(words, start, spoken, words, at, Interrupted(at))
    ensures Resplit(spoken) == words[start..at]
  {
    ChunksSplit(words, start, at);
    var pre := ChunksFrom(words, start)[..(at - start) / ChunkSize];
    var rest := Texts(ChunksFrom(words, at));
    TextsAppend(pre, ChunksFrom(words, at));
    assert spoken + rest == Texts(pre) + rest;
    assert spoken == (spoken + rest)[..|spoken|];
    assert spoken == Texts(pre);
    forall k | 0 <= k < |pre|
      ensures AllWords(pre[k])
    {
      ChunkAt(words, start, k);
    }
    HeardChunks(pre);
  }

  /**
   * Stopping a resumable run and speaking the same text again: the second run
   * resumes where the first stopped, and when it completes the two runs together
   * have spoken every word from `start` exactly once, in order.
   */
  lemma StopThenResume(words: seq<string>, start: nat, s1: seq<string>, at: nat,
                       s2: seq<string>, wordsAfter: seq<string>, indexAfter: nat)
    requires AllWords(words)
    requires RunEffect(words, start, s1, words, at, Interrupted(at))
    requires RunEffect(words, ResumeStart(words, words, at), s2, wordsAfter, indexAfter, Completed)
    ensures ResumeStart(words, words, at) == at
    ensures Resplit(s1 + s2) == words[start..]
  {
    HeardWords(words, start);
  }

  /** The command queue, together with the rate the worker last applied. */
  datatype Inbox = Inbox(queue: seq<Command>, rate: int)

  /** The `get_nowait()` before a chunk: the head is taken off, and a SET_RATE
      becomes the rate. */
  function Polled(b: Inbox): Inbox {
    if b.queue == [] then b
    else Inbox(b.queue[1..], if b.queue[0].SetRate? then b.queue[0].rate else b.rate)
  }

  /** The queue after the caller operations that run while chunk `k` is spoken. */
  function ChunkCalls(q: seq<Command>, during: Interleaving, k: nat): seq<Command> {
    if k < |during| then AfterCalls(q, during[k]) else q
  }

  /** What a resumable run over the words `pos..n` leaves in the queue and the
      rate, chunk `k` being the next one spoken: each pass polls the queue and
      returns on a STOP; otherwise the chunk is spoken while the callers of
      chunk `k` append to, or purge, the queue. */
  function RunInbox(n: nat, pos: nat, b: Inbox, during: Interleaving, k: nat): Inbox
    decreases n - pos
  {
    if pos >= n then b
    else if b.queue != [] && b.queue[0].Stop? then Polled(b)
    else
      var p := Polled(b);
      RunInbox(n, pos + ChunkSize, Inbox(ChunkCalls(p.queue, during, k), p.rate), during, k + 1)
  }

  /** Calls without a stop keep a queue free of STOPs. */
  lemma {:induction false} AfterCallsNoStop(q: seq<Command>, ops: seq<CallerOp>)
    requires NoStop(q) && !StopsIn(ops)
    ensures NoStop(AfterCalls(q, ops))
  {
    if ops != [] {
      var init := ops[..|ops| - 1];
      assert !StopsIn(init) by {
        forall j | 0 <= j < |init| ensures !IsStopping(init[j]) {
          assert init[j] == ops[j];
        }
      }
      AfterCallsNoStop(q, init);
      var prev := AfterCalls(q, init);
      var r := AfterCalls(q, ops);
      assert !IsStopping(ops[|ops| - 1]);
      forall i | 0 <= i < |r| ensures !r[i].Stop? {
        if i < |prev| {
          assert r[i] == r[..|prev|][i];
        }
      }
    }
  }

  /**
   * When the caller interrupts a run, the queue the run leaves behind does not
   * depend on what was pending when it began: `stop()` purged it, and the worker
   * took the STOP off the head.
   */
  lemma {:induction false} InterruptedRunForgetsPending(n: nat, pos: nat, b1: Inbox, b2: Inbox, during: Interleaving, k: nat)
    requires NoStop(b1.queue) && NoStop(b2.queue)
    requires Outcome(n, pos, during, k).Interrupted?
    ensures RunInbox(n, pos, b1, during, k).queue == RunInbox(n, pos, b2, during, k).queue
    decreases n - pos
  {
    var p1 := Polled(b1);
    var p2 := Polled(b2);
    assert b1.queue != [] ==> !b1.queue[0].Stop?;
    assert b2.queue != [] ==> !b2.queue[0].Stop?;
    assert NoStop(p1.queue) && NoStop(p2.queue);
    if k < |during| && StopsIn(during[k]) {
      StopForgetsPending(p1.queue, p2.queue, during[k]);
      AfterCallsShape(p1.queue, during[k]);
    } else {
      if k < |during| {
        AfterCallsNoStop(p1.queue, during[k]);
        AfterCallsNoStop(p2.queue, during[k]);
      }
      InterruptedRunForgetsPending(n, pos + ChunkSize, Inbox(ChunkCalls(p1.queue, during, k), p1.rate),
                                   Inbox(ChunkCalls(p2.queue, during, k), p2.rate), during, k + 1);
    }
  }

  /** What the worker's loop reads and writes: the queue, the rate, the status
      and running flags, and the stored words with their cursor. */
  datatype WorkerState = WorkerState(queue: seq<Command>, rate: int, speaking: bool, running: bool,
                                     words: seq<string>, index: nat)

  /** One dispatch of `_worker_loop`: the head of the queue, if any, is taken
      and carried out (`_do_speak`, `_do_stop`, the rate, or the end of the loop). */
  function Dispatch(s: WorkerState, during: Interleaving): (r: WorkerState)
    ensures r.running == (s.running && !(s.queue != [] && s.queue[0].Shutdown?))
  {
    if s.queue == [] then s
    else
      var rest := s.queue[1..];
      match s.queue[0]
      case Speak(text, resumable) =>
        if !resumable then s.(queue := ChunkCalls(rest, during, 0), speaking := false, words := [], index := 0)
        else
          var words := Words(text);
          var start := ResumeStart(words, s.words, s.index);
          var b := RunInbox(|words|, start, Inbox(rest, s.rate), during, 0);
          (match ExpectedOutcome(|words|, start, during)
           case Completed => s.(queue := b.queue, rate := b.rate, speaking := false, words := [], index := 0)
           case Interrupted(at) => s.(queue := b.queue, rate := b.rate, speaking := false, words := words, index := at))
      case Stop => s.(queue := rest, speaking := false)
      case SetRate(r) => s.(queue := rest, rate := r)
      case Shutdown => s.(queue := rest, running := false)
  }

  /** One turn of the loop: the callers' operations, then one dispatch. The
      worker stops exactly when the queue the callers leave has SHUTDOWN at its head. */
  function Turn(s: WorkerState, round: Round): (r: WorkerState)
    ensures var q := AfterCalls(s.queue, round.callers);
            r.running == (s.running && !(q != [] && q[0].Shutdown?))
  {
    Dispatch(s.(queue := AfterCalls(s.queue, round.callers), speaking := s.speaking && !StopsIn(round.callers)), round.during)
  }

  /** The state after the loop has been given `rounds`: a turn per round while
      the worker runs; once it has stopped, later rounds change nothing. */
  function Turns(s: WorkerState, rounds: seq<Round>): WorkerState {
    if rounds == [] then s
    else
      var p := Turns(s, rounds[..|rounds| - 1]);
      if p.running then Turn(p, rounds[|rounds| - 1]) else p
  }

  /** The fold over one more round. */
  lemma TurnsStep(s: WorkerState, rounds: seq<Round>, i: nat)
    requires i < |rounds|
    ensures Turns(s, rounds[..i + 1]) == if Turns(s, rounds[..i]).running then Turn(Turns(s, rounds[..i]), rounds[i])
                                        else Turns(s, rounds[..i])
  {
    assert rounds[..i + 1][..i] == rounds[..i];
  }

  /** Once SHUTDOWN has ended the loop, no later round is dispatched. */
  lemma {:induction false} StoppedStaysStopped(s: WorkerState, rounds: seq<Round>, i: nat)
    requires i <= |rounds| && !Turns(s, rounds[..i]).running
    ensures Turns(s, rounds) == Turns(s, rounds[..i])
    decreases |rounds|
  {
    if i < |rounds| {
      var init := rounds[..|rounds| - 1];
      assert init[..i] == rounds[..i];
      StoppedStaysStopped(s, init, i);
    } else {
      assert rounds[..i] == rounds;
    }
  }

  class SpeechController {
    var queue: seq<Command>
    var rate: int
    var isSpeaking: bool
    var running: bool
    var resumableWords: seq<string>
    var resumableIndex: nat
    /** The calls made on the engine the worker owns. */
    var log: seq<EngineCall>

    /** What the queue and the engine keep on every step, the worker's too. */
    ghost predicate Channels()
      reads this
    {
      StopOnlyAtHead(queue) && EngineRate(log) == Some(rate)
    }

    /** Since the log was `base`, the engine has spoken the chunks of the stored
        words from `start` up to the cursor. */
    ghost predicate Heard(base: seq<EngineCall>, start: nat)
      reads this
    {
      base <= log && resumableIndex <= |resumableWords|
      && Spoken(log[|base|..]) + Texts(ChunksFrom(resumableWords, resumableIndex))
         == Texts(ChunksFrom(resumableWords, start))
    }

    /** The fields the worker loop works on. */
    ghost function State(): WorkerState
      reads this
    {
      WorkerState(queue, rate, isSpeaking, running, resumableWords, resumableIndex)
    }

    ghost predicate Valid()
      reads this
    {
      Channels() && CursorOk(resumableWords, resumableIndex)
    }

    /** `__init__` and the start of `_worker_loop`: the engine is created and set to `rate`. */
    constructor (initialRate: int)
      ensures Valid()
      ensures queue == [] && rate == initialRate && !isSpeaking && running
      ensures resumableWords == [] && resumableIndex == 0
      ensures log == [RateProperty(initialRate)]
    {
      queue := [];
      rate := initialRate;
      isSpeaking := false;
      running := true;
      resumableWords := [];
      resumableIndex := 0;
      log := [RateProperty(initialRate)];
      new;
      EngineRateAfter([], RateProperty(initialRate));
    }

    // ---- caller side -------------------------------------------------------

    /** `speak(text, resumable)`: enqueue and return. */
    method Speak(text: string, resumable: bool)
      requires Channels()
      modifies this`queue
      ensures Channels()
      ensures queue == old(queue) + [Command.Speak(text, resumable)]
    {
      queue := queue + [Command.Speak(text, resumable)];
    }

    /** `stop()`: drain the queue, append one STOP, clear the status flag. */
    method Stop()
      requires Channels()
      modifies this`queue, this`isSpeaking
      ensures Channels()
      ensures queue == [Command.Stop] && !isSpeaking
    {
      while queue != []
        decreases |queue|
      {
        queue := queue[1..];
      }
      queue := queue + [Command.Stop];
      isSpeaking := false;
    }

    /** `set_rate(rate)`: enqueue; the worker applies it. */
    method SetRate(newRate: int)
      requires Channels()
      modifies this`queue
      ensures Channels()
      ensures queue == old(queue) + [Command.SetRate(newRate)]
    {
      queue := queue + [Command.SetRate(newRate)];
    }

    /** `is_speaking()`. */
    method IsSpeaking() returns (speaking: bool)
      ensures speaking == isSpeaking
    {
      speaking := isSpeaking;
    }

    /** `shutdown()`: `stop()`, then enqueue SHUTDOWN. */
    method Shutdown()
      requires Channels()
      modifies this`queue, this`isSpeaking
      ensures Channels()
      ensures queue == [Command.Stop, Command.Shutdown] && !isSpeaking
    {
      Stop();
      queue := queue + [Command.Shutdown];
    }

    /** `reset_resumable()`: writes the cursor directly. */
    method ResetResumable()
      requires Valid()
      modifies this`resumableWords, this`resumableIndex
      ensures Valid()
      ensures resumableWords == [] && resumableIndex == 0
    {
      resumableWords := [];
      resumableIndex := 0;
    }

    /** One public call. */
    method Call(op: CallerOp)
      requires Channels()
      modifies this`queue, this`isSpeaking
      ensures Channels()
      ensures queue == AfterCall(old(queue), op) && isSpeaking == (old(isSpeaking) && !IsStopping(op))
      ensures IsStopping(op) ==> queue != [] && queue[0].Stop? && !isSpeaking
      ensures !IsStopping(op) ==> isSpeaking == old(isSpeaking) && |queue| == |old(queue)| + 1
      ensures !IsStopping(op) ==> queue[..|old(queue)|] == old(queue) && !queue[|queue| - 1].Stop?
    {
      match op
      case CallSpeak(t, r) => Speak(t, r);
      case CallStop => Stop();
      case CallSetRate(r) => SetRate(r);
      case CallShutdown => Shutdown();
    }

    /** The caller operations that run, in order, while one chunk is spoken.
        The loop is the interleaving itself, not a loop of the source. */
    method CallAll(ops: seq<CallerOp>)
      requires Channels()
      modifies this`queue, this`isSpeaking
      ensures Channels()
      ensures queue == AfterCalls(old(queue), ops) && isSpeaking == (old(isSpeaking) && !StopsIn(ops))
      ensures StopsIn(ops) ==> queue != [] && queue[0].Stop?
      ensures !StopsIn(ops) ==> |queue| == |old(queue)| + |ops|
      ensures !StopsIn(ops) && NoStop(old(queue)) ==> NoStop(queue)
    {
      var i := 0;
      while i < |ops|
        invariant 0 <= i <= |ops|
        invariant Channels()
        invariant queue == AfterCalls(old(queue), ops[..i]) && isSpeaking == (old(isSpeaking) && !StopsIn(ops[..i]))
        invariant !StopsIn(ops[..i]) && NoStop(old(queue)) ==> NoStop(queue)
      {
        CallsStep(old(queue), ops, i);
        Call(ops[i]);
        i := i + 1;
      }
      assert ops[..i] == ops;
      AfterCallsShape(old(queue), ops);
    }

    // ---- worker side -------------------------------------------------------

    /** The non-blocking `get_nowait()` between two chunks: a STOP is reported, a
        SET_RATE is applied to the controller and the engine, anything else is dropped.
        (`base` is the log as it was when the utterance began.) */
    method Poll(ghost base: seq<EngineCall>, ghost start: nat) returns (stop: bool)
      requires Channels() && base <= log
      modifies this`queue, this`rate, this`log
      ensures Channels() && base <= log
      ensures Spoken(log[|base|..]) == Spoken(old(log)[|base|..])
      ensures old(Heard(base, start)) ==> Heard(base, start)
      ensures NoStop(old(queue)) ==> NoStop(queue)
      ensures old(queue) == [] ==> !stop && queue == [] && rate == old(rate) && log == old(log)
      ensures old(queue) != [] ==> queue == old(queue)[1..] && stop == old(queue)[0].Stop?
      ensures old(queue) != [] && old(queue)[0].SetRate? ==>
                rate == old(queue)[0].rate && log == old(log) + [RateProperty(rate)]
      ensures old(queue) == [] || !old(queue)[0].SetRate? ==> rate == old(rate) && log == old(log)
      ensures Inbox(queue, rate) == Polled(Inbox(old(queue), old(rate)))
    {
      stop := false;
      if queue != [] {
        var cmd := queue[0];
        queue := queue[1..];
        match cmd
        case Stop => stop := true;
        case SetRate(r) =>
          rate := r;
          EngineRateAfter(log, RateProperty(r));
          SpokenSince(base, log, RateProperty(r));
          log := log + [RateProperty(r)];
        case _ =>
      }
    }

    /** `_speak_simple`: clear the cursor, then speak the whole text in one call. */
    method SpeakSimple(text: string, during: Interleaving)
      requires Valid()
      modifies this`queue, this`isSpeaking, this`resumableWords, this`resumableIndex, this`log
      ensures Valid()
      ensures resumableWords == [] && resumableIndex == 0
      ensures log == old(log) + [Say(text)]
      ensures during == [] ==> queue == old(queue) && isSpeaking == old(isSpeaking)
      ensures during != [] ==>
                queue == AfterCalls(old(queue), during[0]) && isSpeaking == (old(isSpeaking) && !StopsIn(during[0]))
    {
      resumableWords := [];
      resumableIndex := 0;
      EngineRateAfter(log, Say(text));
      log := log + [Say(text)];
      if |during| > 0 {
        CallAll(during[0]);
      }
    }

    /** `_speak_resumable`: speak the words of `text` 20 at a time from the resume
        point, polling the queue before every chunk. */
    method SpeakResumable(text: string, during: Interleaving) returns (ghost outcome: RunOutcome)
      requires Valid() && NoStop(queue)
      modifies this`queue, this`isSpeaking, this`rate, this`resumableWords, this`resumableIndex, this`log
      ensures Valid()
      ensures old(log) <= log
      ensures RunEffect(Words(text), ResumeStart(Words(text), old(resumableWords), old(resumableIndex)),
                        Spoken(log[|old(log)|..]), resumableWords, resumableIndex, outcome)
      ensures outcome == ExpectedOutcome(|Words(text)|, ResumeStart(Words(text), old(resumableWords), old(resumableIndex)), during)
      ensures Inbox(queue, rate) == RunInbox(|Words(text)|, ResumeStart(Words(text), old(resumableWords), old(resumableIndex)),
                                             Inbox(old(queue), old(rate)), during, 0)
      ensures NoStopsBefore(during, |during|) ==> isSpeaking == old(isSpeaking)
    {
      var words := Words(text);
      var start: nat;
      if words == resumableWords && resumableIndex > 0 {
        start := resumableIndex;
      } else {
        resumableWords := words;
        resumableIndex := 0;
        start := 0;
      }
      outcome := SpeakChunks(start, during);
      OutcomeClosedForm(|words|, start, during);
    }

    /** `engine.say(' '.join(chunk))` and `engine.runAndWait()` for the chunk at
        the cursor, then `self._resumable_index = end_index`. */
    method SayChunk(ghost base: seq<EngineCall>, ghost start: nat)
      requires Channels() && Heard(base, start) && resumableIndex < |resumableWords| && IsBoundary(start, resumableIndex)
      modifies this`resumableIndex, this`log
      ensures Channels() && Heard(base, start)
      ensures resumableIndex == Min(old(resumableIndex) + ChunkSize, |resumableWords|)
      ensures log == old(log) + [Say(Join(resumableWords[old(resumableIndex)..resumableIndex]))]
      ensures resumableIndex < |resumableWords| ==> IsBoundary(start, resumableIndex)
    {
      var end := Min(resumableIndex + ChunkSize, |resumableWords|);
      var text := Join(resumableWords[resumableIndex..end]);
      NextChunk(resumableWords, start, resumableIndex, Spoken(log[|base|..]));
      EngineRateAfter(log, Say(text));
      SpokenSince(base, log, Say(text));
      BoundaryNext(start, resumableIndex);
      log := log + [Say(text)];
      resumableIndex := end;
    }

    /** Speak the chunk at the cursor and advance the cursor past it, while the
        caller operations of chunk `n` run. */
    method SpeakNextChunk(ghost base: seq<EngineCall>, ghost start: nat, n: nat, during: Interleaving)
      requires Channels() && Heard(base, start) && resumableIndex < |resumableWords| && IsBoundary(start, resumableIndex)
      modifies this`queue, this`isSpeaking, this`resumableIndex, this`log
      ensures Channels() && Heard(base, start)
      ensures resumableIndex == Min(old(resumableIndex) + ChunkSize, |resumableWords|)
      ensures resumableIndex < |resumableWords| ==> IsBoundary(start, resumableIndex)
      ensures StopsDuring(during, n) ==> queue != [] && queue[0].Stop?
      ensures !StopsDuring(during, n) ==> isSpeaking == old(isSpeaking)
      ensures !StopsDuring(during, n) && NoStop(old(queue)) ==> NoStop(queue)
      ensures queue == ChunkCalls(old(queue), during, n) && isSpeaking == (old(isSpeaking) && !StopsDuring(during, n))
    {
      SayChunk(base, start);
      if n < |during| {
        CallAll(during[n]);
      }
    }

    /** One pass of the chunk loop: poll the queue, then (unless it held a STOP)
        speak the chunk at the cursor. `stopAhead` says whether a caller left a
        STOP at the head of the queue while the previous chunk was spoken. */
    method ChunkStep(ghost base: seq<EngineCall>, ghost start: nat, n: nat, during: Interleaving, ghost stopAhead: bool)
      returns (stop: bool)
      requires Channels() && Heard(base, start) && resumableIndex < |resumableWords| && IsBoundary(start, resumableIndex)
      requires if stopAhead then queue != [] && queue[0].Stop? else NoStop(queue)
      modifies this`queue, this`isSpeaking, this`rate, this`resumableIndex, this`log
      ensures Channels() && Heard(base, start)
      ensures stop == stopAhead
      ensures stop ==> resumableIndex == old(resumableIndex) && isSpeaking == old(isSpeaking)
      ensures !stop ==> resumableIndex == Min(old(resumableIndex) + ChunkSize, |resumableWords|)
      ensures !stop && resumableIndex < |resumableWords| ==> IsBoundary(start, resumableIndex)
      ensures !stop ==> if StopsDuring(during, n) then queue != [] && queue[0].Stop? else NoStop(queue)
      ensures !stop && !StopsDuring(during, n) ==> isSpeaking == old(isSpeaking)
      ensures !stop ==> Outcome(|resumableWords|, old(resumableIndex), during, n)
                        == if StopsDuring(during, n) then
                             (if resumableIndex < |resumableWords| then Interrupted(resumableIndex) else Completed)
                           else Outcome(|resumableWords|, resumableIndex, during, n + 1)
      ensures stop ==> Inbox(queue, rate) == RunInbox(|resumableWords|, old(resumableIndex), Inbox(old(queue), old(rate)), during, n)
      ensures !stop ==> RunInbox(|resumableWords|, old(resumableIndex), Inbox(old(queue), old(rate)), during, n)
                        == RunInbox(|resumableWords|, resumableIndex, Inbox(queue, rate), during, n + 1)
    {
      stop := Poll(base, start);
      if !stop {
        SpeakNextChunk(base, start, n, during);
      }
    }

    /** The chunk loop of `_speak_resumable`, from `start` over the stored words,
        up to a STOP taken from the queue (`stop`) or the end of the words. */
    method ChunkLoop(start: nat, during: Interleaving) returns (stop: bool)
      requires Channels() && NoStop(queue) && resumableIndex == start && start % ChunkSize == 0 && start <= |resumableWords|
      modifies this`queue, this`isSpeaking, this`rate, this`resumableIndex, this`log
      ensures Channels() && Heard(old(log), start) && resumableWords == old(resumableWords)
      ensures stop ==> resumableIndex < |resumableWords| && IsBoundary(start, resumableIndex)
                       && Outcome(|resumableWords|, start, during, 0) == Interrupted(resumableIndex)
      ensures !stop ==> resumableIndex == |resumableWords| && Outcome(|resumableWords|, start, during, 0) == Completed
      ensures Inbox(queue, rate) == RunInbox(|resumableWords|, start, Inbox(old(queue), old(rate)), during, 0)
      ensures NoStopsBefore(during, |during|) ==> isSpeaking == old(isSpeaking)
    {
      var words := resumableWords;
      var n: nat := 0;  // chunks spoken so far: selects the caller operations interleaved with each
      ghost var expected := Outcome(|words|, start, during, 0);
      ghost var left := RunInbox(|words|, start, Inbox(queue, rate), during, 0);
      ghost var pending := false;  // the caller stopped while the last chunk was spoken
      ghost var stopped := false;  // the caller stopped while some chunk was spoken
      stop := false;
      while resumableIndex < |words|
        invariant resumableWords == words
        invariant start <= resumableIndex <= |words| && (resumableIndex < |words| ==> IsBoundary(start, resumableIndex))
        invariant Heard(old(log), start) && Channels()
        invariant if pending then queue != [] && queue[0].Stop? else NoStop(queue)
        invariant expected == if pending then (if resumableIndex < |words| then Interrupted(resumableIndex) else Completed)
                              else Outcome(|words|, resumableIndex, during, n)
        invariant left == RunInbox(|words|, resumableIndex, Inbox(queue, rate), during, n)
        invariant !stopped ==> isSpeaking == old(isSpeaking)
        invariant stopped ==> !NoStopsBefore(during, |during|)
        decreases |words| - resumableIndex
      {
        stop := ChunkStep(old(log), start, n, during, pending);
        if stop {
          assert Inbox(queue, rate) == left;
          return;
        }
        pending := StopsDuring(during, n);
        stopped := stopped || pending;
        n := n + 1;
      }
      assert left == Inbox(queue, rate);
    }

    /** The chunk loop of `_speak_resumable`, then the reset of a finished run. */
    method SpeakChunks(start: nat, during: Interleaving) returns (ghost outcome: RunOutcome)
      requires Channels() && NoStop(queue) && resumableIndex == start && start % ChunkSize == 0 && start <= |resumableWords|
      modifies this`queue, this`isSpeaking, this`rate, this`resumableWords, this`resumableIndex, this`log
      ensures Valid()
      ensures old(log) <= log
      ensures RunEffect(old(resumableWords), start, Spoken(log[|old(log)|..]), resumableWords, resumableIndex, outcome)
      ensures outcome == Outcome(|old(resumableWords)|, start, during, 0)
      ensures Inbox(queue, rate) == RunInbox(|old(resumableWords)|, start, Inbox(old(queue), old(rate)), during, 0)
      ensures NoStopsBefore(during, |during|) ==> isSpeaking == old(isSpeaking)
    {
      ghost var words := resumableWords;
      var stop := ChunkLoop(start, during);
      ghost var spoken := Spoken(log[|old(log)|..]);
      if stop {
        outcome := Interrupted(resumableIndex);
        BoundaryAligned(start, resumableIndex);
        assert spoken + Texts(ChunksFrom(words, resumableIndex)) == Texts(ChunksFrom(words, start));
      } else {
        assert Texts(ChunksFrom(words, |words|)) == [];
        assert spoken == Texts(ChunksFrom(words, start));
        resumableWords := [];
        resumableIndex := 0;
        outcome := Completed;
      }
    }

    /** `_do_speak`: raise the status flag, speak, then lower the flag. */
    method DoSpeak(text: string, resumable: bool, during: Interleaving) returns (ghost outcome: RunOutcome)
      requires Valid() && NoStop(queue)
      modifies this`queue, this`isSpeaking, this`rate, this`resumableWords, this`resumableIndex, this`log
      ensures Valid() && !isSpeaking && old(log) <= log
      ensures !resumable ==> log[|old(log)|..] == [Say(text)] && resumableWords == [] && resumableIndex == 0
      ensures !resumable ==> queue == ChunkCalls(old(queue), during, 0) && rate == old(rate)
      ensures resumable ==>
                Inbox(queue, rate) == RunInbox(|Words(text)|, ResumeStart(Words(text), old(resumableWords), old(resumableIndex)),
                                               Inbox(old(queue), old(rate)), during, 0)
      ensures resumable ==>
                RunEffect(Words(text), ResumeStart(Words(text), old(resumableWords), old(resumableIndex)),
                          Spoken(log[|old(log)|..]), resumableWords, resumableIndex, outcome)
                && outcome == ExpectedOutcome(|Words(text)|, ResumeStart(Words(text), old(resumableWords), old(resumableIndex)), during)
    {
      isSpeaking := true;
      if resumable {
        outcome := SpeakResumable(text, during);
      } else {
        SpeakSimple(text, during);
        outcome := Completed;
      }
      isSpeaking := false;
    }

    /** One turn of `_worker_loop` after the callers ran: take the head of the
        queue, if any (an empty queue is the `get` timing out), and dispatch it. */
    method WorkerStep(during: Interleaving) returns (ghost outcome: RunOutcome)
      requires Valid() && running
      modifies this`queue, this`isSpeaking, this`rate, this`running, this`resumableWords, this`resumableIndex, this`log
      ensures Valid() && old(log) <= log
      ensures old(queue) == [] ==> unchanged(this)
      ensures State() == Dispatch(old(State()), during)
      ensures old(queue) != [] && old(queue)[0].Speak? ==>
                running && !isSpeaking
                && (!old(queue)[0].resumable ==>
                      log[|old(log)|..] == [Say(old(queue)[0].text)] && resumableWords == [] && resumableIndex == 0
                      && queue == ChunkCalls(old(queue)[1..], during, 0) && rate == old(rate))
                && (old(queue)[0].resumable ==>
                      var words := Words(old(queue)[0].text);
                      var start := ResumeStart(words, old(resumableWords), old(resumableIndex));
                      RunEffect(words, start, Spoken(log[|old(log)|..]), resumableWords, resumableIndex, outcome)
                      && outcome == ExpectedOutcome(|words|, start, during)
                      && Inbox(queue, rate) == RunInbox(|words|, start, Inbox(old(queue)[1..], old(rate)), during, 0))
      ensures old(queue) != [] && !old(queue)[0].Speak? ==>
                queue == old(queue)[1..] && resumableWords == old(resumableWords) && resumableIndex == old(resumableIndex)
      ensures old(queue) != [] && old(queue)[0].Stop? ==>
                running && !isSpeaking && rate == old(rate) && log == old(log) + [StopEngine]
      ensures old(queue) != [] && old(queue)[0].SetRate? ==>
                running && isSpeaking == old(isSpeaking) && rate == old(queue)[0].rate && log == old(log) + [RateProperty(rate)]
      ensures old(queue) != [] && old(queue)[0].Shutdown? ==>
                !running && isSpeaking == old(isSpeaking) && rate == old(rate) && log == old(log) + [StopEngine]
    {
      outcome := Completed;
      if queue == [] {
        return;
      }
      var cmd := queue[0];
      queue := queue[1..];
      match cmd
      case Speak(text, resumable) =>
        outcome := DoSpeak(text, resumable, during);
      case Stop =>
        EngineRateAfter(log, StopEngine);
        log := log + [StopEngine];
        isSpeaking := false;
      case SetRate(r) =>
        rate := r;
        EngineRateAfter(log, RateProperty(r));
        log := log + [RateProperty(r)];
      case Shutdown =>
        running := false;
        EngineRateAfter(log, StopEngine);
        log := log + [StopEngine];  // the clean-up after the loop: engine.stop()
    }

    /** One turn of `_worker_loop`: the callers' operations, then the worker's
        step. `taken` is the queue the worker takes its command from. */
    method RunRound(round: Round) returns (ghost taken: seq<Command>)
      requires Valid() && running
      modifies this`queue, this`isSpeaking, this`rate, this`running, this`resumableWords, this`resumableIndex, this`log
      ensures Valid() && old(log) <= log
      ensures State() == Turn(old(State()), round)
      ensures taken == AfterCalls(old(queue), round.callers)
      ensures !running ==> taken != [] && taken[0].Shutdown? && queue == taken[1..] && log != [] && log[|log| - 1] == StopEngine
    {
      CallAll(round.callers);
      taken := queue;
      var _ := WorkerStep(round.during);
    }

    /** `_worker_loop`, one `Round` per turn, until SHUTDOWN is taken or the
        rounds run out. The state it leaves is the fold `Turns` over the rounds;
        `ran` is the number of rounds run, the first after which the worker has
        stopped if it stops; `taken` is the queue the callers of that last round
        left, whose head was the SHUTDOWN and whose rest is never dispatched. */
    method WorkerLoop(rounds: seq<Round>) returns (ran: nat, ghost taken: seq<Command>)
      requires Valid()
      modifies this`queue, this`isSpeaking, this`rate, this`running, this`resumableWords, this`resumableIndex, this`log
      ensures Valid() && old(log) <= log && ran <= |rounds|
      ensures State() == Turns(old(State()), rounds[..ran])
      ensures !old(running) ==> unchanged(this) && ran == 0
      ensures old(running) && 0 < ran ==> Turns(old(State()), rounds[..ran - 1]).running
      ensures old(running) && running ==> ran == |rounds|
      ensures old(running) && !running ==>
                0 < ran && taken == AfterCalls(Turns(old(State()), rounds[..ran - 1]).queue, rounds[ran - 1].callers)
                && taken != [] && taken[0].Shutdown? && queue == taken[1..] && log[|log| - 1] == StopEngine
    {
      ghost var s0 := State();
      assert s0 == old(State());
      ran := 0;
      taken := [];
      while running && ran < |rounds|
        invariant 0 <= ran <= |rounds|
        invariant Valid() && old(log) <= log
        invariant State() == Turns(s0, rounds[..ran])
        invariant !old(running) ==> unchanged(this) && ran == 0
        invariant old(running) && 0 < ran ==> Turns(s0, rounds[..ran - 1]).running
        invariant old(running) && !running ==>
                    0 < ran && taken == AfterCalls(Turns(s0, rounds[..ran - 1]).queue, rounds[ran - 1].callers)
                    && taken != [] && taken[0].Shutdown? && queue == taken[1..] && log != [] && log[|log| - 1] == StopEngine
        invariant running ==> old(running)
      {
        TurnsStep(s0, rounds, ran);
        taken := RunRound(rounds[ran]);
        ran := ran + 1;
      }
    }
  }
}
