/**
 * The curses `UI` of `MimiMail/ui.py`: list and message views, and the
 * earlier in-UI resumable speech of a message body.
 *
 * The speech threads the UI starts are run at once, to completion. The user
 * can stop a message while it is spoken: `stops[k]` says whether the stop
 * key ('s', or 'q' leaving the view) is handled while chunk `k` is spoken.
 * Drawing is not modelled; a key handler is a method taking the key code.
 */
module MailUI {
  import opened Basics
  import opened Text
  import opened Chunking
  import opened Engine
  import opened Gmail

  // ---- key codes -------------------------------------------------------------

  /** `curses.KEY_DOWN`, `curses.KEY_UP` and `curses.KEY_ENTER`. */
  const KeyDown: int := 258
  const KeyUp: int := 259
  const KeyEnter: int := 343
  /** The line feed that Enter also sends. */
  const KeyNewline: int := 10

  /** How a key moves the list cursor or the message scroll offset. */
  function Delta(k: int): int {
    if k == KeyDown then 1 else if k == KeyUp then -1 else 0
  }

  // ---- list view arithmetic --------------------------------------------------

  /** `max(0, c)` then `min(n - 1, c)`: the list cursor after a key. */
  function ClampCursor(c: int, n: nat): (r: int)
    ensures n > 0 ==> 0 <= r < n
    ensures n == 0 ==> r == -1
    ensures 0 <= c < n ==> r == c
  {
    Min(n - 1, Max(0, c))
  }

  /** Lines 182-185: move the window of `max` rows so that it shows the cursor. */
  function ScrollFor(cursor: int, scroll: int, max: int): (s: int)
    ensures max >= 1 ==> s <= cursor < s + max
    ensures scroll <= cursor < scroll + max ==> s == scroll
  {
    var s1 := if cursor < scroll then cursor else scroll;
    if cursor >= s1 + max then cursor - max + 1 else s1
  }

  /** Python's `xs[i]` on a list of length `n`: negative indices count from the
      end; anything else out of range raises `IndexError` (`None`). */
  function PyIndex(n: nat, i: int): (r: Option<nat>)
    ensures r.Some? ==> r.value < n && r.value == if i >= 0 then i else n + i
    ensures r.Some? <==> -(n as int) <= i < n
  {
    if 0 <= i < n then Some(i) else if -(n as int) <= i < 0 then Some(n + i) else None
  }

  /**
   * As written (lines 168-177): the summary spoken after KEY_DOWN or KEY_UP is
   * looked up with the moved cursor before the clamp of lines 179-180.
   */
  function ScrollTargetAsWritten(n: nat, cursor: int, k: int): (r: Option<nat>)
    ensures r.None? <==> cursor + Delta(k) >= n || cursor + Delta(k) < -(n as int)
    ensures r.Some? && cursor + Delta(k) < 0 ==> r.value == n + cursor + Delta(k)
  {
    PyIndex(n, cursor + Delta(k))
  }

  /** KEY_DOWN on the last row raises `IndexError`. */
  lemma DownOnLastRowRaises(n: nat)
    requires n >= 1
    ensures ScrollTargetAsWritten(n, n - 1, KeyDown).None?
  {
  }

  /** KEY_UP on the first row speaks the last message while the first stays highlighted. */
  lemma UpOnFirstRowSpeaksLast(n: nat)
    requires n >= 2
    ensures ScrollTargetAsWritten(n, 0, KeyUp) == Some(n - 1)
    ensures ClampCursor(0 + Delta(KeyUp), n) == 0
  {
  }

  /** Corrected: the summary of the row the clamped cursor highlights, if there are rows. */
  function ScrollTarget(n: nat, cursor: int, k: int): (r: Option<nat>)
    ensures r.Some? <==> n > 0
    ensures r.Some? ==> r.value < n && r.value == ClampCursor(cursor + Delta(k), n)
  {
    if n == 0 then None else Some(ClampCursor(cursor + Delta(k), n) as nat)
  }

  /** Where the moved cursor is still on a row, the correction changes nothing. */
  lemma ScrollTargetAgrees(n: nat, cursor: int, k: int)
    requires 0 <= cursor + Delta(k) < n
    ensures ScrollTarget(n, cursor, k) == ScrollTargetAsWritten(n, cursor, k)
  {
  }

  // ---- the message body's resumable speech -----------------------------------

  /** How one run of `_speak_message` ends. */
  datatype MessageRun = Finished | StoppedAt(at: nat)

  /** The run from the chunk at `pos`, chunk number `k`. The stop flag is
      checked after each chunk, so a stop during a chunk leaves `pos` at its start. */
  function MessageOutcome(n: nat, pos: nat, stops: seq<bool>, k: nat): (r: MessageRun)
    ensures r.StoppedAt? ==> pos <= r.at < n && IsBoundary(pos, r.at)
    decreases n - pos
  {
    if pos >= n then Finished
    else if k < |stops| && stops[k] then StoppedAt(pos)
    else MessageOutcome(n, pos + ChunkSize, stops, k + 1)
  }

  /** The first stop at or after chunk `k`. */
  function FirstTrue(stops: seq<bool>, k: nat): (r: Option<nat>)
    ensures r.Some? ==> k <= r.value < |stops| && stops[r.value]
    ensures r.Some? ==> forall j :: k <= j < r.value ==> !stops[j]
    ensures r.None? ==> forall j :: k <= j < |stops| ==> !stops[j]
    decreases |stops| - k
  {
    if k >= |stops| then None else if stops[k] then Some(k) else FirstTrue(stops, k + 1)
  }

  /** The run stops at the first chunk during which the user stops it, if it has not finished before. */
  function ExpectedMessageOutcome(n: nat, start: nat, stops: seq<bool>): MessageRun {
    match FirstTrue(stops, 0)
    case Some(k) => if start + ChunkSize * k < n then StoppedAt(start + ChunkSize * k) else Finished
    case None => Finished
  }

  lemma {:induction false} MessageOutcomeFrom(n: nat, pos: nat, stops: seq<bool>, k: nat)
    ensures MessageOutcome(n, pos, stops, k) ==
              match FirstTrue(stops, k)
              case Some(j) => if pos + ChunkSize * (j - k) < n then StoppedAt(pos + ChunkSize * (j - k)) else Finished
              case None => Finished
    decreases n - pos
  {
    if pos < n && !(k < |stops| && stops[k]) {
      MessageOutcomeFrom(n, pos + ChunkSize, stops, k + 1);
      if k < |stops| {
        assert FirstTrue(stops, k) == FirstTrue(stops, k + 1);
      }
      match FirstTrue(stops, k + 1)
      case Some(j) =>
        assert pos + ChunkSize + ChunkSize * (j - (k + 1)) == pos + ChunkSize * (j - k);
      case None =>
    }
  }

  /** The step-by-step outcome is the closed form. */
  lemma MessageOutcomeClosedForm(n: nat, start: nat, stops: seq<bool>)
    ensures MessageOutcome(n, start, stops, 0) == ExpectedMessageOutcome(n, start, stops)
  {
    MessageOutcomeFrom(n, start, stops, 0);
  }

  /**
   * What a run from `start` over `words` has done: a finished run has spoken
   * every chunk and cleared the stored words; a stopped run has spoken every
   * chunk up to and including the interrupted one, and keeps the words with the
   * index at the start of that chunk.
   */
  ghost predicate MessageRunEffect(words: seq<string>, start: nat, spoken: seq<string>,
                                   wordsAfter: seq<string>, indexAfter: nat, outcome: MessageRun)
  {
    match outcome
    case Finished =>
      wordsAfter == [] && indexAfter == 0 && spoken == Texts(ChunksFrom(words, start))
    case StoppedAt(at) =>
      IsBoundary(start, at) && at < |words| && wordsAfter == words && indexAfter == at
      && spoken + Texts(ChunksFrom(words, ChunkEnd(|words|, at))) == Texts(ChunksFrom(words, start))
  }

  /** A stopped run has spoken the chunks before the interrupted one, then that one. */
  lemma {:induction false} StoppedSpoke(words: seq<string>, start: nat, spoken: seq<string>, at: nat)
    requires MessageRunEffect(words, start, spoken, words, at, StoppedAt(at))
    ensures (at - start) / ChunkSize <= |ChunksFrom(words, start)|
    ensures spoken == Texts(ChunksFrom(words, start)[..(at - start) / ChunkSize] + [words[at..ChunkEnd(|words|, at)]])
  {
    ChunksThrough(words, start, at);
    CancelSuffix(spoken, Texts(ChunksFrom(words, start)[..(at - start) / ChunkSize] + [words[at..ChunkEnd(|words|, at)]]),
                 Texts(ChunksFrom(words, ChunkEnd(|words|, at))));
  }

  lemma CancelSuffix(a: seq<string>, b: seq<string>, c: seq<string>)
    requires a + c == b + c
    ensures a == b
  {
    assert |a| == |b|;
    assert a == (a + c)[..|a|];
    assert b == (b + c)[..|b|];
  }

  /** A listener of a stopped run hears the words from `start` to the end of the interrupted chunk. */
  lemma {:induction false} StoppedHeard(words: seq<string>, start: nat, spoken: seq<string>, at: nat)
    requires AllWords(words)
    requires MessageRunEffect(words, start, spoken, words, at, StoppedAt(at))
    ensures spoken != [] && spoken[|spoken| - 1] == Join(words[at..ChunkEnd(|words|, at)])
    ensures Resplit(spoken) == words[start..ChunkEnd(|words|, at)]
  {
    StoppedSpoke(words, start, spoken, at);
    var pre := ChunksFrom(words, start)[..(at - start) / ChunkSize];
    var last := words[at..ChunkEnd(|words|, at)];
    TextsAppend(pre, [last]);
    HeardThrough(words, start, at);
  }

  /**
   * Stopping a message and speaking it again: the second run restarts at the
   * interrupted chunk, so that chunk is spoken twice and every other word once.
   */
  lemma {:induction false} StopResumeRepeatsChunk(words: seq<string>, start: nat, s1: seq<string>, at: nat,
                               s2: seq<string>, wordsAfter: seq<string>, indexAfter: nat)
    requires AllWords(words)
    requires MessageRunEffect(words, start, s1, words, at, StoppedAt(at))
    requires MessageRunEffect(words, ResumeStart(words, words, at), s2, wordsAfter, indexAfter, Finished)
    ensures ResumeStart(words, words, at) == at
    ensures s1 != [] && s2 != [] && s1[|s1| - 1] == s2[0] == Join(words[at..ChunkEnd(|words|, at)])
    ensures Resplit(s1 + s2) == words[start..ChunkEnd(|words|, at)] + words[at..]
  {
    StoppedHeard(words, start, s1, at);
    HeardWords(words, at);
    ResplitAppend(s1, s2);
  }

  // ---- the UI object ---------------------------------------------------------

  class UI {
    var cursorY: int
    var listScroll: int
    var speechRate: int
    var speaking: bool
    var showUrls: bool
    var speakOnScroll: bool
    var stopFlag: bool
    var messageWords: seq<string>
    var messageWordIndex: nat
    var messageSpeaking: bool
    /** `scroll_y`, the message view's first shown line. */
    var scrollY: int
    /** The calls made on the UI's pyttsx3 engine. */
    var log: seq<EngineCall>

    /** The stored resume point is a chunk start, the engine runs at
        `speech_rate`, and the message view never scrolls above its top. */
    ghost predicate Valid()
      reads this`messageWords, this`messageWordIndex, this`log, this`speechRate, this`scrollY
    {
      CursorOk(messageWords, messageWordIndex) && EngineRate(log) == Some(speechRate) && scrollY >= 0
    }

    /** Since the log was `base`, the engine has spoken the chunks of the stored
        words from `start` up to `upTo`. */
    ghost predicate HeardUpTo(base: seq<EngineCall>, start: nat, upTo: nat)
      reads this`log, this`messageWords
    {
      base <= log && Spoken(log[|base|..]) + Texts(ChunksFrom(messageWords, upTo)) == Texts(ChunksFrom(messageWords, start))
    }

    constructor ()
      ensures Valid()
      ensures cursorY == 0 && listScroll == 0 && speechRate == 130 && log == [RateProperty(130)]
      ensures !speaking && !showUrls && speakOnScroll && !stopFlag
      ensures messageWords == [] && messageWordIndex == 0 && !messageSpeaking && scrollY == 0
    {
      cursorY := 0;
      listScroll := 0;
      speechRate := 130;
      log := [RateProperty(130)];
      speaking := false;
      showUrls := false;
      speakOnScroll := true;
      stopFlag := false;
      messageWords := [];
      messageWordIndex := 0;
      messageSpeaking := false;
      scrollY := 0;
    }

    /** `_stop_speech`: raise the stop flag and stop the engine. */
    method StopSpeech()
      requires Valid()
      modifies this`stopFlag, this`speaking, this`log
      ensures Valid()
      ensures stopFlag && !speaking && log == old(log) + [StopEngine]
    {
      stopFlag := true;
      speaking := false;
      EngineRateAfter(log, StopEngine);
      log := log + [StopEngine];
    }

    /** `_speak_simple`, the thread body: say the text unless a stop is pending. */
    method SpeakSimple(text: string)
      requires Valid()
      modifies this`log
      ensures Valid()
      ensures log == old(log) + if stopFlag then [] else [Say(text)]
    {
      if stopFlag {
        return;
      }
      SayAndWait(text);
    }

    /** `engine.say(text)` and `engine.runAndWait()`. */
    method SayAndWait(text: string)
      requires Valid()
      modifies this`log
      ensures Valid() && log == old(log) + [Say(text)]
    {
      EngineRateAfter(log, Say(text));
      log := log + [Say(text)];
    }

    /** `_start_speech_simple`: clear the flag and speak the whole text. */
    method StartSpeechSimple(text: string)
      requires Valid()
      modifies this`stopFlag, this`speaking, this`log
      ensures Valid()
      ensures !stopFlag && speaking && log == old(log) + [Say(text)]
    {
      stopFlag := false;
      speaking := true;
      SpeakSimple(text);
    }

    /** The message view's stop: `_stop_speech()`, then `_message_speaking = False`. */
    method StopKey()
      requires Valid()
      modifies this`stopFlag, this`speaking, this`messageSpeaking, this`log
      ensures Valid() && stopFlag && !speaking && !messageSpeaking && log == old(log) + [StopEngine]
    {
      StopSpeech();
      messageSpeaking := false;
    }

    /** `_stop_speech()` then `_start_speech_simple(text)`, as a move in the list view does. */
    method SpeakInstead(text: string)
      requires Valid()
      modifies this`stopFlag, this`speaking, this`log
      ensures Valid()
      ensures !stopFlag && speaking && log == old(log) + [StopEngine, Say(text)]
    {
      StopSpeech();
      StartSpeechSimple(text);
    }

    /**
     * `_start_message_speech` and the thread it starts: resume at the stored
     * index when the words are the stored words and the index is positive,
     * else store the new words and start from the first.
     */
    method StartMessageSpeech(text: string, stops: seq<bool>) returns (ghost outcome: MessageRun)
      requires Valid()
      modifies this`stopFlag, this`speaking, this`messageSpeaking, this`messageWords, this`messageWordIndex, this`log
      ensures Valid() && !messageSpeaking && stopFlag == outcome.StoppedAt? && old(log) <= log
      ensures MessageRunEffect(Words(text), ResumeStart(Words(text), old(messageWords), old(messageWordIndex)),
                               Spoken(log[|old(log)|..]), messageWords, messageWordIndex, outcome)
      ensures outcome == ExpectedMessageOutcome(|Words(text)|, ResumeStart(Words(text), old(messageWords), old(messageWordIndex)), stops)
    {
      stopFlag := false;
      messageSpeaking := true;
      var words := Words(text);
      var start: nat;
      if words == messageWords && messageWordIndex > 0 {
        start := messageWordIndex;
      } else {
        messageWords := words;
        messageWordIndex := 0;
        start := 0;
      }
      outcome := SpeakMessage(start, stops);
      MessageOutcomeClosedForm(|words|, start, stops);
    }

    /** Say the chunk at the index; `stop` is the stop key handled meanwhile,
        which runs `_stop_speech` and clears `_message_speaking`. */
    method SayMessageChunk(ghost base: seq<EngineCall>, ghost start: nat, stop: bool)
      requires Valid() && !stopFlag && messageWordIndex < |messageWords| && HeardUpTo(base, start, messageWordIndex)
      modifies this`stopFlag, this`speaking, this`messageSpeaking, this`log
      ensures Valid() && stopFlag == stop
      ensures HeardUpTo(base, start, ChunkEnd(|messageWords|, messageWordIndex))
      ensures log == old(log) + [Say(Join(messageWords[messageWordIndex..ChunkEnd(|messageWords|, messageWordIndex)]))]
                    + if stop then [StopEngine] else []
    {
      var i := messageWordIndex;
      var e := ChunkEnd(|messageWords|, i);
      var chunk := Join(messageWords[i..e]);
      NextChunk(messageWords, start, i, Spoken(log[|base|..]));
      SpokenSince(base, log, Say(chunk));
      SayAndWait(chunk);
      if stop {
        StopHeard(base, start, e);
      }
    }

    /** The stop key during a chunk: what has been heard stays heard. */
    method StopHeard(ghost base: seq<EngineCall>, ghost start: nat, ghost upTo: nat)
      requires Valid() && HeardUpTo(base, start, upTo)
      modifies this`stopFlag, this`speaking, this`messageSpeaking, this`log
      ensures Valid() && HeardUpTo(base, start, upTo)
      ensures stopFlag && !speaking && !messageSpeaking && log == old(log) + [StopEngine]
    {
      SpokenSince(base, log, StopEngine);
      StopKey();
    }

    /**
     * `_speak_message(start_index)`: speak 20-word chunks from `start`,
     * checking the stop flag before and after each; the index only moves past
     * a chunk the flag did not interrupt. A finished run clears the stored words.
     */
    method SpeakMessage(start: nat, stops: seq<bool>) returns (ghost outcome: MessageRun)
      requires Valid() && CursorOk(messageWords, start)
      modifies this`stopFlag, this`speaking, this`messageSpeaking, this`messageWords, this`messageWordIndex, this`log
      ensures Valid() && !messageSpeaking && old(log) <= log
      ensures old(stopFlag) ==> stopFlag && messageWords == old(messageWords) && messageWordIndex == start && log == old(log)
      ensures !old(stopFlag) ==> stopFlag == outcome.StoppedAt? && outcome == MessageOutcome(|old(messageWords)|, start, stops, 0)
      ensures !old(stopFlag) ==>
                MessageRunEffect(old(messageWords), start, Spoken(log[|old(log)|..]), messageWords, messageWordIndex, outcome)
    {
      messageWordIndex := start;
      assert log[|log|..] == [];
      outcome := SpeakChunks(start, stops);
      if !stopFlag {
        messageWordIndex := 0;
        messageWords := [];
      }
      messageSpeaking := false;
    }

    /** The loop of `_speak_message`, from the index `start`. */
    method SpeakChunks(ghost start: nat, stops: seq<bool>) returns (ghost outcome: MessageRun)
      requires Valid() && CursorOk(messageWords, start) && messageWordIndex == start && HeardUpTo(log, start, start)
      modifies this`stopFlag, this`speaking, this`messageSpeaking, this`messageWordIndex, this`log
      ensures EngineRate(log) == Some(speechRate) && old(log) <= log
      ensures old(stopFlag) ==> stopFlag && messageWordIndex == start && log == old(log)
      ensures !old(stopFlag) ==> stopFlag == outcome.StoppedAt? && outcome == MessageOutcome(|messageWords|, start, stops, 0)
      ensures !old(stopFlag) && outcome.Finished? ==> HeardUpTo(old(log), start, |messageWords|)
      ensures !old(stopFlag) && outcome.StoppedAt? ==>
                outcome.at == messageWordIndex < |messageWords| && IsBoundary(start, messageWordIndex)
                && messageWordIndex % ChunkSize == 0
                && HeardUpTo(old(log), start, ChunkEnd(|messageWords|, messageWordIndex))
    {
      var n: nat := 0;  // chunks spoken so far: selects the stop that may come during each
      outcome := Finished;
      while messageWordIndex < |messageWords|
        invariant start <= messageWordIndex <= |messageWords|
        invariant messageWordIndex < |messageWords| ==> IsBoundary(start, messageWordIndex) && messageWordIndex % ChunkSize == 0
        invariant EngineRate(log) == Some(speechRate) && scrollY >= 0 && HeardUpTo(old(log), start, messageWordIndex)
        invariant stopFlag == old(stopFlag) && outcome.Finished?
        invariant old(stopFlag) ==> messageWordIndex == start && log == old(log)
        invariant MessageOutcome(|messageWords|, start, stops, 0) == MessageOutcome(|messageWords|, messageWordIndex, stops, n)
        decreases |messageWords| - messageWordIndex
      {
        if stopFlag {
          break;
        }
        var stopped := MessageStep(old(log), start, n, stops);
        n := n + 1;
        if stopped {
          outcome := StoppedAt(messageWordIndex);
          break;
        }
      }
    }

    /** One turn of the loop past its first check: say chunk `n`, then stop if
        the flag was raised meanwhile, or move the index to the chunk's end. */
    method MessageStep(ghost base: seq<EngineCall>, ghost start: nat, n: nat, stops: seq<bool>) returns (stopped: bool)
      requires Valid() && !stopFlag && messageWordIndex < |messageWords| && IsBoundary(start, messageWordIndex)
      requires HeardUpTo(base, start, messageWordIndex)
      modifies this`stopFlag, this`speaking, this`messageSpeaking, this`messageWordIndex, this`log
      ensures stopped == stopFlag == (n < |stops| && stops[n]) && EngineRate(log) == Some(speechRate)
      ensures MessageOutcome(|messageWords|, old(messageWordIndex), stops, n)
              == if stopped then StoppedAt(old(messageWordIndex)) else MessageOutcome(|messageWords|, messageWordIndex, stops, n + 1)
      ensures stopped ==> messageWordIndex == old(messageWordIndex) && HeardUpTo(base, start, ChunkEnd(|messageWords|, messageWordIndex))
      ensures !stopped ==> messageWordIndex == ChunkEnd(|messageWords|, old(messageWordIndex)) && HeardUpTo(base, start, messageWordIndex)
      ensures !stopped && messageWordIndex < |messageWords| ==> IsBoundary(start, messageWordIndex) && messageWordIndex % ChunkSize == 0
    {
      SayMessageChunk(base, start, n < |stops| && stops[n]);
      if stopFlag {
        return true;
      }
      BoundaryNext(start, messageWordIndex);
      messageWordIndex := ChunkEnd(|messageWords|, messageWordIndex);
      return false;
    }

    /** The list view's first pass (`k == 0`): speak the highlighted summary. */
    method EnterMenu(summaries: seq<string>)
      requires Valid() && (|summaries| > 0 ==> 0 <= cursorY < |summaries|)
      modifies this`stopFlag, this`speaking, this`log
      ensures Valid()
      ensures speakOnScroll && |summaries| > 0 ==> speaking && log == old(log) + [Say(summaries[cursorY])]
      ensures !(speakOnScroll && |summaries| > 0) ==> unchanged(this)
    {
      if speakOnScroll && |summaries| > 0 {
        StartSpeechSimple(summaries[cursorY]);
      }
    }

    /**
     * One key in the list view (lines 168-192), with the summary spoken on a
     * move taken from the clamped cursor. Enter returns the message to open.
     */
    method MenuKey(k: int, summaries: seq<string>, maxMessages: int) returns (selected: Option<nat>)
      requires Valid()
      modifies this`cursorY, this`listScroll, this`speakOnScroll, this`stopFlag, this`speaking, this`log
      ensures Valid()
      ensures cursorY == ClampCursor(old(cursorY) + Delta(k), |summaries|)
      ensures listScroll == ScrollFor(cursorY, old(listScroll), maxMessages)
      ensures (k == KeyDown || k == KeyUp) && speakOnScroll && |summaries| > 0 ==>
                !stopFlag && speaking && log == old(log) + [StopEngine, Say(summaries[cursorY])]
      ensures (k == KeyNewline || k == KeyEnter) && |summaries| > 0 ==>
                selected == Some(cursorY as nat) && stopFlag && !speaking && log == old(log) + [StopEngine]
      ensures selected.Some? <==> (k == KeyNewline || k == KeyEnter) && |summaries| > 0
      ensures speakOnScroll == (if k == 't' as int then !old(speakOnScroll) else old(speakOnScroll))
      ensures !((k == KeyDown || k == KeyUp) && old(speakOnScroll) && |summaries| > 0)
              && !((k == KeyNewline || k == KeyEnter) && |summaries| > 0) ==>
                log == old(log) && stopFlag == old(stopFlag) && speaking == old(speaking)
    {
      selected := None;
      var n := |summaries|;
      var target := ScrollTarget(n, cursorY, k);
      cursorY := cursorY + Delta(k);
      cursorY := Max(0, cursorY);
      cursorY := Min(n - 1, cursorY);
      if (k == KeyDown || k == KeyUp) && speakOnScroll && target.Some? {
        SpeakInstead(summaries[target.value]);
      }
      if cursorY < listScroll {
        listScroll := cursorY;
      }
      if cursorY >= listScroll + maxMessages {
        listScroll := cursorY - maxMessages + 1;
      }
      if k == KeyNewline || k == KeyEnter {
        if n > 0 {
          StopSpeech();
          selected := Some(cursorY as nat);
        }
      } else if k == 't' as int {
        speakOnScroll := !speakOnScroll;
      }
    }

    /** Opening a message (lines 195-204): the stored resume point is cleared and the view is at its top. */
    method EnterMessage()
      requires Valid()
      modifies this`messageWords, this`messageWordIndex, this`scrollY
      ensures Valid() && messageWords == [] && messageWordIndex == 0 && scrollY == 0
    {
      scrollY := 0;
      messageWords := [];
      messageWordIndex := 0;
    }

    /** The text 's' speaks: the body, with URLs removed unless they are shown. */
    function SpeechText(body: string, spans: seq<Span>): string
      requires OrderedSpans(spans, 0, |body|)
      reads this
    {
      if showUrls then body else Spliced(body, spans, "", 0)
    }

    /**
     * One key in the message view (lines 263-288). `body` is the message text
     * and `spans` the URL matches in it; 's' starts or stops the body's speech.
     */
    method MessageKey(k: int, body: string, spans: seq<Span>, stops: seq<bool>) returns (ghost outcome: Option<MessageRun>)
      requires Valid() && OrderedSpans(spans, 0, |body|)
      modifies this
      ensures Valid()
      ensures scrollY == Max(0, old(scrollY) + Delta(k)) && old(log) <= log
      ensures cursorY == old(cursorY) && listScroll == old(listScroll) && speakOnScroll == old(speakOnScroll)
      ensures speechRate == old(speechRate) + (if k == '+' as int then 10 else if k == '-' as int then -10 else 0)
      ensures k == '+' as int || k == '-' as int ==> log == old(log) + [RateProperty(speechRate)]
      ensures showUrls == (if k == 'u' as int then !old(showUrls) else old(showUrls))
      ensures k == 's' as int && !old(messageSpeaking) ==>
                outcome.Some? && !messageSpeaking && stopFlag == outcome.value.StoppedAt?
                && MessageRunEffect(Words(old(SpeechText(body, spans))),
                                    ResumeStart(Words(old(SpeechText(body, spans))), old(messageWords), old(messageWordIndex)),
                                    Spoken(log[|old(log)|..]), messageWords, messageWordIndex, outcome.value)
                && outcome.value == ExpectedMessageOutcome(|Words(old(SpeechText(body, spans)))|,
                                      ResumeStart(Words(old(SpeechText(body, spans))), old(messageWords), old(messageWordIndex)),
                                      stops)
      ensures k == 's' as int && old(messageSpeaking) ==>
                stopFlag && !speaking && !messageSpeaking && log == old(log) + [StopEngine]
                && messageWords == old(messageWords) && messageWordIndex == old(messageWordIndex)
      ensures k != 's' as int ==> messageWords == old(messageWords) && messageWordIndex == old(messageWordIndex)
                                  && stopFlag == old(stopFlag) && speaking == old(speaking)
                                  && messageSpeaking == old(messageSpeaking)
      ensures !(k in {'s' as int, '+' as int, '-' as int}) ==> log == old(log)
    {
      outcome := None;
      if k == KeyDown {
        scrollY := scrollY + 1;
      } else if k == KeyUp {
        scrollY := scrollY - 1;
      } else if k == 's' as int {
        outcome := SpeakKey(body, spans, stops);
      } else if k == '+' as int {
        ChangeRate(10);
      } else if k == '-' as int {
        ChangeRate(-10);
      } else if k == 'u' as int {
        showUrls := !showUrls;
      }
      scrollY := Max(0, scrollY);
    }

    /** The 's' key (lines 267-276): start speaking the body, with URLs removed
        unless they are shown, or stop the speech under way. */
    method SpeakKey(body: string, spans: seq<Span>, stops: seq<bool>) returns (ghost outcome: Option<MessageRun>)
      requires Valid() && OrderedSpans(spans, 0, |body|)
      modifies this`stopFlag, this`speaking, this`messageSpeaking, this`messageWords, this`messageWordIndex, this`log
      ensures Valid() && !messageSpeaking && old(log) <= log
      ensures !old(messageSpeaking) ==>
                outcome.Some? && stopFlag == outcome.value.StoppedAt?
                && MessageRunEffect(Words(old(SpeechText(body, spans))),
                                    ResumeStart(Words(old(SpeechText(body, spans))), old(messageWords), old(messageWordIndex)),
                                    Spoken(log[|old(log)|..]), messageWords, messageWordIndex, outcome.value)
                && outcome.value == ExpectedMessageOutcome(|Words(old(SpeechText(body, spans)))|,
                                      ResumeStart(Words(old(SpeechText(body, spans))), old(messageWords), old(messageWordIndex)),
                                      stops)
      ensures old(messageSpeaking) ==>
                stopFlag && !speaking && log == old(log) + [StopEngine]
                && messageWords == old(messageWords) && messageWordIndex == old(messageWordIndex)
    {
      outcome := None;
      if !messageSpeaking {
        var text := body;
        if !showUrls {
          text := ReplaceUrls(body, spans, "");
        }
        var run := StartMessageSpeech(text, stops);
        outcome := Some(run);
      } else {
        StopKey();
      }
    }

    /** '+' and '-' (lines 278-283): change the rate by `delta` and set it on the engine. */
    method ChangeRate(delta: int)
      requires Valid()
      modifies this`speechRate, this`log
      ensures Valid() && speechRate == old(speechRate) + delta && log == old(log) + [RateProperty(speechRate)]
    {
      speechRate := speechRate + delta;
      EngineRateAfter(log, RateProperty(speechRate));
      log := log + [RateProperty(speechRate)];
    }

    /** Leaving the message view (lines 290-293): speech still running is stopped. */
    method LeaveMessage()
      requires Valid()
      modifies this`stopFlag, this`speaking, this`messageSpeaking, this`log
      ensures Valid() && !messageSpeaking
      ensures old(messageSpeaking) ==> stopFlag && log == old(log) + [StopEngine]
      ensures !old(messageSpeaking) ==> unchanged(this)
    {
      if messageSpeaking {
        StopKey();
      }
    }

    /** `draw_message`: keys are handled until 'q', which leaves the view. */
    method MessageView(keys: seq<int>, body: string, spans: seq<Span>, stops: seq<seq<bool>>)
      requires Valid() && OrderedSpans(spans, 0, |body|)
      modifies this
      ensures Valid() && !messageSpeaking && scrollY >= 0
      ensures cursorY == old(cursorY) && listScroll == old(listScroll)
    {
      EnterMessage();
      var i := 0;
      var k := 0;
      while k != 'q' as int && i < |keys|
        invariant 0 <= i <= |keys| && Valid()
        invariant cursorY == old(cursorY) && listScroll == old(listScroll)
        decreases |keys| - i
      {
        k := keys[i];
        var _ := MessageKey(k, body, spans, if i < |stops| then stops[i] else []);
        i := i + 1;
      }
      LeaveMessage();
    }
  }
}
