/**
 The fixed-window counter of the credential endpoints: a map of windows, swept only once it has grown
 past `MAX_TRACKED`, and dropped wholesale when even the live windows are too many.
 */
module RateLimit {
  const MAX_TRACKED := 10_000

  datatype Window = Window(count: int, resetAt: int)

  type Windows = map<string, Window>

  datatype Call = Call(key: string, max: int, windowMs: int, now: int)

  datatype Answer = Admitted | Refused(retryAfterSeconds: int)

  // ----- one call

  function Live(m: Windows, now: int): Windows {
    map k | k in m && m[k].resetAt > now :: m[k]
  }

  function Swept(m: Windows, now: int): Windows {
    if |Live(m, now)| > MAX_TRACKED then map[] else Live(m, now)
  }

  function CeilSeconds(ms: int): int {
    -((-ms) / 1000)
  }

  function Decide(m: Windows, c: Call): Answer {
    if c.key !in m || m[c.key].resetAt <= c.now || m[c.key].count < c.max then Admitted
    else
      var s := CeilSeconds(m[c.key].resetAt - c.now);
      Refused(if s > 1 then s else 1)
  }

  function Note(m: Windows, c: Call): Windows {
    if c.key !in m || m[c.key].resetAt <= c.now then m[c.key := Window(1, c.now + c.windowMs)]
    else if m[c.key].count >= c.max then m
    else m[c.key := m[c.key].(count := m[c.key].count + 1)]
  }

  /** The map a call looks its key up in. */
  function Trimmed(m: Windows, now: int): Windows {
    if |m| > MAX_TRACKED then Swept(m, now) else m
  }

  // ----- runs

  type History = seq<Call>

  function WindowsOf(h: History): Windows {
    if h == [] then map[]
    else
      var c := h[|h| - 1];
      Note(Trimmed(WindowsOf(h[..|h| - 1]), c.now), c)
  }

  /** What call `i` of a run is told. */
  function AnswerAt(h: History, i: nat): Answer
    requires i < |h|
  {
    Decide(Trimmed(WindowsOf(h[..i]), h[i].now), h[i])
  }

  class Limiter {
    var windows: Windows
    ghost var history: History

    ghost predicate Valid()
      reads this
    {
      windows == WindowsOf(history)
    }

    constructor ()
      ensures Valid() && history == []
    {
      windows := map[];
      history := [];
    }

    method Sweep(now: int)
      modifies this`windows
      ensures windows == Swept(old(windows), now)
    {
      var todo := windows.Keys;
      ghost var before := windows;
      while todo != {}
        invariant todo <= before.Keys
        invariant windows == map k | k in before && (k in todo || before[k].resetAt > now) :: before[k]
        decreases |todo|
      {
        var k :| k in todo;
        todo := todo - {k};
        if windows[k].resetAt <= now {
          windows := windows - {k};
        }
      }
      assert windows == Live(before, now);
      if |windows| > MAX_TRACKED {
        windows := map[];
      }
    }

    method RateLimit(key: string, max: int, windowMs: int, now: int) returns (answer: Answer)
      requires Valid()
      modifies this
      ensures Valid() && history == old(history) + [Call(key, max, windowMs, now)]
      ensures answer == AnswerAt(history, |history| - 1)
    {
      ghost var call := Call(key, max, windowMs, now);
      ghost var past := history;
      history := history + [call];
      assert history[..|history| - 1] == past;
      if |windows| > MAX_TRACKED {
        Sweep(now);
      }
      if key !in windows || windows[key].resetAt <= now {
        windows := windows[key := Window(1, now + windowMs)];
        return Admitted;
      }
      if windows[key].count >= max {
        var s := CeilSeconds(windows[key].resetAt - now);
        return Refused(if s > 1 then s else 1);
      }
      windows := windows[key := windows[key].(count := windows[key].count + 1)];
      answer := Admitted;
    }
  }

  /** On every run the map holds at most one key more than `MAX_TRACKED`. */
  lemma {:induction false} SizeBounded(h: History)
    ensures |WindowsOf(h)| <= MAX_TRACKED + 1
  {}

  lemma {:induction false} SubsetSize<T>(a: set<T>, b: set<T>)
    requires a <= b
    ensures |a| <= |b|
    decreases a
  {
    if a != {} {
      var x :| x in a;
      SubsetSize(a - {x}, b - {x});
    }
  }
}
