/**
 * The text-to-speech engine (pyttsx3) seen as a log of the calls made on it.
 * `Say(t)` stands for `engine.say(t)` followed by `engine.runAndWait()`.
 */
module Engine {
  import opened Basics

  datatype EngineCall =
    | Say(text: string)         // engine.say(text); engine.runAndWait()
    | RateProperty(rate: int)   // engine.setProperty('rate', rate)
    | StopEngine                // engine.stop()

  /** The texts spoken, in order. */
  function Spoken(log: seq<EngineCall>): seq<string> {
    if log == [] then []
    else (if log[0].Say? then [log[0].text] else []) + Spoken(log[1..])
  }

  /** The rate the engine was last set to. */
  function EngineRate(log: seq<EngineCall>): Option<int> {
    if log == [] then None
    else if log[|log| - 1].RateProperty? then Some(log[|log| - 1].rate)
    else EngineRate(log[..|log| - 1])
  }

  lemma {:induction false} SpokenAppend(a: seq<EngineCall>, b: seq<EngineCall>)
    ensures Spoken(a + b) == Spoken(a) + Spoken(b)
  {
    if a == [] {
      assert a + b == b;
    } else {
      assert (a + b)[0] == a[0];
      assert (a + b)[1..] == a[1..] + b;
      SpokenAppend(a[1..], b);
    }
  }

  lemma SpokenSay(log: seq<EngineCall>, t: string)
    ensures Spoken(log + [Say(t)]) == Spoken(log) + [t]
  {
    SpokenAppend(log, [Say(t)]);
  }

  lemma SpokenSilent(log: seq<EngineCall>, c: EngineCall)
    requires !c.Say?
    ensures Spoken(log + [c]) == Spoken(log)
  {
    SpokenAppend(log, [c]);
  }

  /** What is spoken after a prefix `base` of the log, when one more call is made. */
  lemma SpokenSince(base: seq<EngineCall>, log: seq<EngineCall>, c: EngineCall)
    requires base <= log
    ensures base <= log + [c]
    ensures Spoken((log + [c])[|base|..]) == Spoken(log[|base|..]) + (if c.Say? then [c.text] else [])
  {
    assert (log + [c])[|base|..] == log[|base|..] + [c];
    SpokenAppend(log[|base|..], [c]);
  }

  lemma EngineRateAfter(log: seq<EngineCall>, c: EngineCall)
    ensures EngineRate(log + [c]) == if c.RateProperty? then Some(c.rate) else EngineRate(log)
  {
    assert (log + [c])[..|log|] == log;
  }
}
