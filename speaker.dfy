/**
 * The Windows SAPI speaker of `MimiMail/speaker.py`: a queue of
 * `(interrupt, text)` items drained by one worker that owns the SAPI voice.
 * `text == None` is the shutdown sentinel; an interrupting item is spoken with
 * flag value 1 (which the source's comment calls the purge flag), any other
 * with flag 0.
 */
module Sapi {
  import opened Basics

  // ---- words per minute to SAPI rate -----------------------------------------

  /** Python's `int(a / b)` for `b > 0`: division truncated toward zero. */
  function TruncDiv(a: int, b: int): (q: int)
    requires b > 0
    ensures a >= 0 ==> 0 <= a - q * b < b
    ensures a < 0 ==> -b < a - q * b <= 0
  {
    if a >= 0 then a / b
    else
      var p := (-a) / b;
      assert 0 <= (-a) - p * b < b;
      assert (-p) * b == -(p * b);
      -p
  }

  /** Truncation is symmetric about zero, unlike Euclidean division. */
  lemma TruncDivNegate(a: int, b: int)
    requires b > 0
    ensures TruncDiv(-a, b) == -TruncDiv(a, b)
  {
  }

  /** `_wpm_to_sapi_rate`: `(wpm - 150) / 10`, truncated, clamped to `[-10, 10]`. */
  function WpmToSapiRate(wpm: int): (r: int)
    ensures -10 <= r <= 10
    ensures -10 < r < 10 ==> -10 < (wpm - 150) - 10 * r < 10
  {
    Max(-10, Min(10, TruncDiv(wpm - 150, 10)))
  }

  /** The ends of SAPI's scale are where the clamp says. */
  lemma SapiRateRange(wpm: int)
    ensures wpm >= 250 ==> WpmToSapiRate(wpm) == 10
    ensures wpm <= 50 ==> WpmToSapiRate(wpm) == -10
    ensures 50 < wpm < 250 ==> -10 < WpmToSapiRate(wpm) < 10
  {
  }

  /** Truncation makes 141 to 159 words per minute all SAPI's default rate 0, and only those. */
  lemma SapiRateZero(wpm: int)
    ensures WpmToSapiRate(wpm) == 0 <==> 141 <= wpm <= 159
  {
  }

  /** A faster words-per-minute rate never gives a slower SAPI rate. */
  lemma SapiRateMonotone(v: int, w: int)
    requires v <= w
    ensures WpmToSapiRate(v) <= WpmToSapiRate(w)
  {
    assert TruncDiv(v - 150, 10) <= TruncDiv(w - 150, 10);
  }

  // ---- decimal rendering of the rate tag -------------------------------------

  /** The decimal digits of `n`, as `str(n)` writes them. */
  function NatDigits(n: nat): (s: string)
    ensures |s| >= 1
    ensures forall i :: 0 <= i < |s| ==> '0' <= s[i] <= '9'
  {
    if n < 10 then [('0' as int + n) as char] else NatDigits(n / 10) + [('0' as int + n % 10) as char]
  }

  /** `str(n)`. */
  function IntToString(n: int): string {
    if n < 0 then "-" + NatDigits(-n) else NatDigits(n)
  }

  /** The value of a string of decimal digits. */
  function DigitsValue(s: string): nat
    requires forall i :: 0 <= i < |s| ==> '0' <= s[i] <= '9'
  {
    if s == [] then 0 else 10 * DigitsValue(s[..|s| - 1]) + (s[|s| - 1] as int - '0' as int)
  }

  /** Reading back the value of an integer's decimal form. */
  function ParseInt(s: string): int
    requires |s| >= 1
    requires forall i :: 1 <= i < |s| ==> '0' <= s[i] <= '9'
    requires s[0] == '-' || '0' <= s[0] <= '9'
  {
    if s[0] == '-' then -(DigitsValue(s[1..]) as int) else DigitsValue(s)
  }

  lemma {:induction false} DigitsRoundTrip(n: nat)
    ensures DigitsValue(NatDigits(n)) == n
  {
    if n >= 10 {
      var s := NatDigits(n);
      DigitsRoundTrip(n / 10);
      assert s[..|s| - 1] == NatDigits(n / 10);
    }
  }

  /** `str` is undone by reading the digits back, so different rates give different text. */
  lemma IntToStringRoundTrip(n: int)
    ensures |IntToString(n)| >= 1
    ensures forall i :: 1 <= i < |IntToString(n)| ==> '0' <= IntToString(n)[i] <= '9'
    ensures ParseInt(IntToString(n)) == n
  {
    if n < 0 {
      DigitsRoundTrip(-n);
      assert IntToString(n)[1..] == NatDigits(-n);
    } else {
      DigitsRoundTrip(n);
    }
  }

  /** The SAPI XML that `set_rate` queues: `<rate absspeed="r"/>`. */
  function RateTag(wpm: int): (t: string)
    ensures |t| > 19 && t[..16] == "<rate absspeed=\"" && t[|t| - 3..] == "\"/>"
  {
    "<rate absspeed=\"" + IntToString(WpmToSapiRate(wpm)) + "\"/>"
  }

  /** Between its fixed prefix and suffix, the rate tag carries exactly the converted rate. */
  lemma RateTagCarriesRate(wpm: int)
    ensures var t := RateTag(wpm); ParseInt(t[16..|t| - 3]) == WpmToSapiRate(wpm)
  {
    var t := RateTag(wpm);
    var r := IntToString(WpmToSapiRate(wpm));
    IntToStringRoundTrip(WpmToSapiRate(wpm));
    assert t[16..|t| - 3] == r;
  }

  // ---- the queue and its worker ----------------------------------------------

  /** One `(interrupt, text)` queue item; `text == None` is the shutdown signal. */
  datatype Item = Item(interrupt: bool, text: Option<string>)

  /** A call on the SAPI voice object. */
  datatype VoiceCall =
    | SetVoiceRate(rate: int)                // voice.Rate = ...
    | SpeakText(text: string, flags: int)    // voice.Speak(text, flags)

  /** What `stop()` leaves: an empty utterance with the interrupt flag. */
  const PurgeItem: Item := Item(true, Some(""))

  /** How many items, from the front, the worker speaks before it meets the sentinel. */
  function SpokenCount(items: seq<Item>): (n: nat)
    ensures n <= |items|
    ensures forall i :: 0 <= i < n ==> items[i].text.Some?
    ensures n < |items| ==> items[n].text.None?
  {
    if items == [] || items[0].text.None? then 0 else 1 + SpokenCount(items[1..])
  }

  /** The voice calls the worker makes for `items`: one `Speak` per item, in order,
      up to the sentinel, flag 1 exactly for interrupting items. */
  function Voiced(items: seq<Item>): seq<VoiceCall> {
    if items == [] || items[0].text.None? then []
    else [SpeakText(items[0].text.value, if items[0].interrupt then 1 else 0)] + Voiced(items[1..])
  }

  /** The worker voices the items before the sentinel, each in its place, with flag 1 exactly for interrupting ones. */
  lemma {:induction false} VoicedItems(items: seq<Item>)
    ensures |Voiced(items)| == SpokenCount(items)
    ensures forall i :: 0 <= i < |Voiced(items)| ==>
              Voiced(items)[i] == SpeakText(items[i].text.value, if items[i].interrupt then 1 else 0)
  {
    if items != [] && items[0].text.Some? {
      VoicedItems(items[1..]);
    }
  }

  /** Items queued behind a sentinel are never voiced. */
  lemma {:induction false} VoicedStopsAtSentinel(a: seq<Item>, b: seq<Item>)
    requires SpokenCount(a) < |a|
    ensures Voiced(a + b) == Voiced(a)
  {
    if a[0].text.Some? {
      assert (a + b)[0] == a[0];
      assert (a + b)[1..] == a[1..] + b;
      VoicedStopsAtSentinel(a[1..], b);
    }
  }

  /** Without a sentinel, voicing is FIFO over concatenation. */
  lemma {:induction false} VoicedAppend(a: seq<Item>, b: seq<Item>)
    requires SpokenCount(a) == |a|
    ensures Voiced(a + b) == Voiced(a) + Voiced(b)
  {
    if a == [] {
      assert a + b == b;
    } else {
      assert (a + b)[0] == a[0];
      assert (a + b)[1..] == a[1..] + b;
      VoicedAppend(a[1..], b);
    }
  }

  /** Every item before the sentinel is spoken. */
  lemma SpokenPrefix(q: seq<Item>, i: nat)
    requires i <= SpokenCount(q)
    ensures SpokenCount(q[..i]) == i
  {
  }

  /** One more item voiced: the next item is spoken, or it is the sentinel and nothing more is. */
  lemma {:induction false} VoicedStep(q: seq<Item>, i: nat)
    requires i < |q| && i <= SpokenCount(q)
    ensures q[i].text.Some? ==> i < SpokenCount(q) && Voiced(q[..i + 1]) == Voiced(q[..i]) + Voiced([q[i]])
    ensures q[i].text.None? ==> i == SpokenCount(q) && Voiced(q) == Voiced(q[..i]) + Voiced([q[i]])
  {
    SpokenPrefix(q, i);
    if q[i].text.Some? {
      assert q[..i + 1] == q[..i] + [q[i]];
      VoicedAppend(q[..i], [q[i]]);
    } else {
      VoicedAtSentinel(q, i);
    }
  }

  lemma {:induction false} VoicedAtSentinel(q: seq<Item>, i: nat)
    requires i < |q| && SpokenCount(q[..i]) == i && q[i].text.None?
    ensures Voiced(q) == Voiced(q[..i]) + Voiced([q[i]])
  {
    assert q == q[..i] + q[i..];
    VoicedAppend(q[..i], q[i..]);
    assert Voiced(q[i..]) == [];
  }

  class Speaker {
    /** `self.queue`. */
    var queue: seq<Item>
    /** `self.rate`, in words per minute. */
    var rate: int
    /** The calls made on the SAPI voice, oldest first. */
    var log: seq<VoiceCall>
    /** Whether the worker thread is still in its loop. */
    var alive: bool

    /** `__init__`, together with the worker's start: the voice gets the converted default rate. */
    constructor ()
      ensures queue == [] && rate == 130 && alive
      ensures log == [SetVoiceRate(WpmToSapiRate(130))]
    {
      queue := [];
      rate := 130;
      log := [SetVoiceRate(WpmToSapiRate(130))];
      alive := true;
    }

    /** `stop()`: clear the queue, then queue a purging empty utterance. */
    method Stop()
      modifies this
      ensures queue == [PurgeItem]
      ensures rate == old(rate) && log == old(log) && alive == old(alive)
    {
      queue := [];
      queue := queue + [PurgeItem];
    }

    /** `say(text, interrupt)`: an interrupting item first stops, then is queued behind the purge. */
    method Say(text: string, interrupt: bool)
      modifies this
      ensures interrupt ==> queue == [PurgeItem, Item(true, Some(text))]
      ensures !interrupt ==> queue == old(queue) + [Item(false, Some(text))]
      ensures rate == old(rate) && log == old(log) && alive == old(alive)
    {
      if interrupt {
        Stop();
      }
      queue := queue + [Item(interrupt, Some(text))];
    }

    /** `set_rate(wpm)`: store the rate and queue a SAPI rate tag for the worker to speak. */
    method SetRate(wpm: int)
      modifies this
      ensures rate == wpm
      ensures queue == old(queue) + [Item(false, Some(RateTag(wpm)))]
      ensures log == old(log) && alive == old(alive)
    {
      rate := wpm;
      queue := queue + [Item(false, Some(RateTag(wpm)))];
    }

    /** One turn of `_worker`'s loop: take the head item; the sentinel ends the loop,
        anything else is spoken with the purge flag exactly when it interrupts. */
    method WorkerStep()
      requires alive && queue != []
      modifies this
      ensures queue == old(queue[1..]) && rate == old(rate)
      ensures alive == old(queue[0].text.Some?)
      ensures log == old(log) + Voiced([old(queue[0])])
    {
      var item := queue[0];
      queue := queue[1..];
      if item.text.None? {
        alive := false;
      } else {
        var flags := if item.interrupt then 1 else 0;
        log := log + [SpeakText(item.text.value, flags)];
      }
    }

    /**
     * The worker drains the queue: everything up to the sentinel is voiced in
     * FIFO order; the sentinel, if queued, ends the thread and what is queued
     * behind it stays unread.
     */
    method Worker()
      modifies this
      ensures rate == old(rate)
      ensures old(alive) ==> log == old(log) + Voiced(old(queue))
      ensures old(alive) ==> queue == old(queue[Min(SpokenCount(queue) + 1, |queue|)..])
      ensures alive == (old(alive) && SpokenCount(old(queue)) == |old(queue)|)
      ensures !old(alive) ==> unchanged(this)
    {
      if !alive {
        return;
      }
      ghost var q0 := queue;
      ghost var log0 := log;
      var i := 0;
      while alive && queue != []
        invariant 0 <= i <= |q0| && queue == q0[i..] && rate == old(rate)
        invariant alive ==> i <= SpokenCount(q0) && log == log0 + Voiced(q0[..i])
        invariant !alive ==> i == SpokenCount(q0) + 1 && log == log0 + Voiced(q0)
        decreases |queue|
      {
        VoicedStep(q0, i);
        WorkerStep();
        i := i + 1;
      }
      if alive {
        assert q0[..i] == q0;
      }
    }

    /**
     * `shutdown()`: stop, queue the sentinel and wait for the worker. A live
     * worker speaks the purge and exits with the queue empty; a worker that has
     * already exited leaves both items queued.
     */
    method Shutdown()
      modifies this
      ensures !alive && rate == old(rate)
      ensures old(alive) ==> queue == [] && log == old(log) + [SpeakText("", 1)]
      ensures !old(alive) ==> queue == [PurgeItem, Item(false, None)] && log == old(log)
    {
      Stop();
      queue := queue + [Item(false, None)];
      assert SpokenCount(queue) == 1;
      Worker();
    }
  }
}
