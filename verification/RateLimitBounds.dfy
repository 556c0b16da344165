/**
 What the limiter promises over whole runs: the sweep is invisible while it never clears live windows,
 no span of one window's length admits twice `max` calls, and a refused caller who waits is let in.
 */
module RateLimitBounds {
  import opened RateLimit

  /** The limiter that never deletes anything. */
  function Kept(h: History): Windows {
    if h == [] then map[] else Note(Kept(h[..|h| - 1]), h[|h| - 1])
  }

  ghost predicate Ordered(h: History) {
    forall i, j :: 0 <= i < j < |h| ==> h[i].now <= h[j].now
  }

  predicate FewAt(h: History, i: nat)
    requires i < |h|
  {
    |Live(Kept(h[..i]), h[i].now)| <= MAX_TRACKED
  }

  /** Before each call, at most `MAX_TRACKED` windows are still open. */
  ghost predicate FewLive(h: History) {
    forall i :: 0 <= i < |h| ==> FewAt(h, i)
  }

  // ----- the sweep is invisible

  /** `m` is `kept` without some windows that have run out by `now`. */
  predicate Trims(m: Windows, kept: Windows, now: int) {
    && (forall k <- m :: k in kept && m[k] == kept[k])
    && (forall k <- kept :: k !in m ==> kept[k].resetAt <= now)
  }

  lemma SameLive(m: Windows, kept: Windows, now: int)
    requires Trims(m, kept, now)
    ensures Live(m, now) == Live(kept, now)
  {}

  lemma SameStep(m: Windows, kept: Windows, c: Call)
    requires Trims(m, kept, c.now)
    ensures Decide(m, c) == Decide(kept, c) && Trims(Note(m, c), Note(kept, c), c.now)
  {}

  lemma TrimmedTrims(m: Windows, kept: Windows, now: int)
    requires Trims(m, kept, now) && |Live(kept, now)| <= MAX_TRACKED
    ensures Trims(Trimmed(m, now), kept, now)
  {
    SameLive(m, kept, now);
  }

  /** As of its last call, the limiter's map is the kept one without windows that have run out. */
  ghost predicate Invisible(h: History, now: int) {
    Trims(WindowsOf(h), Kept(h), now)
  }

  lemma {:induction false} SweepIsInvisible(h: History, now: int)
    requires Ordered(h) && FewLive(h) && (h != [] ==> h[|h| - 1].now <= now)
    ensures Invisible(h, now)
  {
    if h != [] {
      var last := h[|h| - 1].now;
      FewerLive(h, |h| - 1);
      SweepIsInvisible(h[..|h| - 1], last);
      FewBefore(h);
      OneMore(h);
      InvisibleLater(h, last, now);
    }
  }

  lemma FewBefore(h: History)
    requires h != [] && FewLive(h)
    ensures |Live(Kept(h[..|h| - 1]), h[|h| - 1].now)| <= MAX_TRACKED
  {
    assert FewAt(h, |h| - 1);
  }

  lemma InvisibleLater(h: History, t: int, now: int)
    requires Invisible(h, t) && t <= now
    ensures Invisible(h, now)
  {}

  lemma OneMore(h: History)
    requires h != [] && |Live(Kept(h[..|h| - 1]), h[|h| - 1].now)| <= MAX_TRACKED
    requires Invisible(h[..|h| - 1], h[|h| - 1].now)
    ensures Invisible(h, h[|h| - 1].now)
  {
    var g, c := h[..|h| - 1], h[|h| - 1];
    TrimmedTrims(WindowsOf(g), Kept(g), c.now);
    SameStep(Trimmed(WindowsOf(g), c.now), Kept(g), c);
  }

  lemma FewerLive(h: History, n: nat)
    requires n <= |h| && Ordered(h) && FewLive(h)
    ensures Ordered(h[..n]) && FewLive(h[..n])
  {
    forall i | 0 <= i < n ensures FewAt(h[..n], i) {
      assert FewAt(h, i) && h[..n][..i] == h[..i];
    }
  }

  /**
   Main result: on every run whose live windows never exceed `MAX_TRACKED`, each call is told what the
   limiter that never deletes would tell it.
   */
  lemma SweepRefines(h: History, i: nat)
    requires Ordered(h) && FewLive(h) && i < |h|
    ensures AnswerAt(h, i) == Decide(Kept(h[..i]), h[i])
  {
    FewerLive(h, i);
    SweepIsInvisible(h[..i], h[i].now);
    var m, kept := WindowsOf(h[..i]), Kept(h[..i]);
    assert FewAt(h, i);
    TrimmedTrims(m, kept, h[i].now);
    SameStep(Trimmed(m, h[i].now), kept, h[i]);
  }

  // ----- how many calls a span admits

  /** The times at which calls of `key` were let through. */
  function AdmittedAt(h: History, key: string): seq<int> {
    if h == [] then []
    else
      var before := AdmittedAt(h[..|h| - 1], key);
      if h[|h| - 1].key == key && AnswerAt(h, |h| - 1) == Admitted then before + [h[|h| - 1].now] else before
  }

  function KeptAdmittedAt(h: History, key: string): seq<int> {
    if h == [] then []
    else
      var g, c := h[..|h| - 1], h[|h| - 1];
      if c.key == key && Decide(Kept(g), c) == Admitted then KeptAdmittedAt(g, key) + [c.now]
          else KeptAdmittedAt(g, key)
  }

  lemma {:induction false} SameAdmitted(h: History, key: string)
    requires Ordered(h) && FewLive(h)
    ensures AdmittedAt(h, key) == KeptAdmittedAt(h, key)
  {
    if h != [] {
      FewerLive(h, |h| - 1);
      SameAdmitted(h[..|h| - 1], key);
      SweepRefines(h, |h| - 1);
    }
  }

  /** How many of `times` lie in [from, to). */
  function Within(times: seq<int>, from: int, to: int): nat {
    if times == [] then 0
    else
      var t := times[|times| - 1];
      Within(times[..|times| - 1], from, to) + if from <= t < to then 1 else 0
  }

  predicate AllBefore(times: seq<int>, t: int) {
    forall i :: 0 <= i < |times| ==> times[i] < t
  }

  /** How many lie in the half-open span of `width` that starts at `from`. */
  function InSpan(times: seq<int>, from: int, width: int): nat {
    Within(times, from, from + width)
  }

  lemma WithinPush(times: seq<int>, t: int, from: int, to: int)
    ensures Within(times + [t], from, to) == Within(times, from, to) + if from <= t < to then 1 else 0
  {
    assert (times + [t])[..|times|] == times;
  }

  lemma {:induction false} WithinSplits(times: seq<int>, a: int, b: int, c: int)
    requires a <= b <= c
    ensures Within(times, a, c) == Within(times, a, b) + Within(times, b, c)
  {
    if times != [] {
      WithinSplits(times[..|times| - 1], a, b, c);
    }
  }

  lemma {:induction false} WithinBeyond(times: seq<int>, a: int, b: int, c: int)
    requires b <= c && AllBefore(times, b)
    ensures Within(times, a, c) == Within(times, a, b)
  {
    if times != [] {
      WithinBeyond(times[..|times| - 1], a, b, c);
    }
  }

  /** Every call of `key` carries the same options. */
  ghost predicate Fixed(h: History, key: string, max: int, windowMs: int) {
    forall c <- h :: c.key == key ==> c.max == max && c.windowMs == windowMs
  }

  /**
   What holds of the admitted times and the current window [w.resetAt - windowMs, w.resetAt): the window
   has admitted `w.count`, one of them at its very start; any span reaching into it from before admitted
   fewer than `max` before it; and no span at all admitted 2 * max.
   */
  ghost predicate Bounded(times: seq<int>, w: Window, max: int, windowMs: int) {
    var start := w.resetAt - windowMs;
    && 1 <= w.count <= max
    && AllBefore(times, w.resetAt)
    && Within(times, start, w.resetAt) == w.count
    && Within(times, start, start + 1) >= 1
    && (forall a :: a > start - windowMs ==> Within(times, a, start) <= max - 1)
    && (forall a :: InSpan(times, a, windowMs) <= 2 * max - 1)
  }

  lemma {:induction false} WithinNone(times: seq<int>, from: int, to: int)
    requires forall i :: 0 <= i < |times| ==> times[i] < from || times[i] >= to
    ensures Within(times, from, to) == 0
  {
    if times != [] {
      WithinNone(times[..|times| - 1], from, to);
    }
  }

  lemma FirstWindow(now: int, max: int, windowMs: int)
    requires max >= 1 && windowMs >= 1
    ensures Bounded([now], Window(1, now + windowMs), max, windowMs)
  {
    forall a, b ensures Within([now], a, b) == if a <= now < b then 1 else 0 {
      WithinPush([], now, a, b);
    }
  }

  lemma NextWindow(times: seq<int>, w: Window, max: int, windowMs: int, now: int)
    requires windowMs >= 1 && Bounded(times, w, max, windowMs) && w.resetAt <= now
    ensures Bounded(times + [now], Window(1, now + windowMs), max, windowMs)
  {
    var start := w.resetAt - windowMs;
    forall a | a > now - windowMs ensures Within(times, a, now) <= max - 1 {
      if a < w.resetAt {
        WithinBeyond(times, a, w.resetAt, now);
        WithinSplits(times, start, start + 1, w.resetAt);
        WithinSplits(times, start + 1, a, w.resetAt);
      } else {
        WithinNone(times, a, now);
      }
    }
    forall a ensures InSpan(times + [now], a, windowMs) <= 2 * max - 1 {
      assert InSpan(times, a, windowMs) <= 2 * max - 1;
      WithinPush(times, now, a, a + windowMs);
      if a <= now < a + windowMs {
        WithinBeyond(times, a, now, a + windowMs);
      }
    }
    forall a | a > now - windowMs ensures Within(times + [now], a, now) <= max - 1 {
      WithinPush(times, now, a, now);
    }
    WithinNone(times, now, now + windowMs);
    WithinNone(times, now, now + 1);
    WithinPush(times, now, now, now + windowMs);
    WithinPush(times, now, now, now + 1);
  }

  lemma SameWindow(times: seq<int>, w: Window, max: int, windowMs: int, now: int)
    requires windowMs >= 1 && Bounded(times, w, max, windowMs) && w.resetAt - windowMs <= now < w.resetAt
      && w.count < max
    ensures Bounded(times + [now], w.(count := w.count + 1), max, windowMs)
  {
    var start := w.resetAt - windowMs;
    WithinPush(times, now, start, w.resetAt);
    WithinPush(times, now, start, start + 1);
    forall a | a > start - windowMs ensures Within(times + [now], a, start) <= max - 1 {
      WithinPush(times, now, a, start);
    }
    forall a ensures InSpan(times + [now], a, windowMs) <= 2 * max - 1 {
      assert InSpan(times, a, windowMs) <= 2 * max - 1;
      WithinPush(times, now, a, a + windowMs);
      if a <= now < a + windowMs {
        if a <= start {
          WithinSplits(times, a, start, a + windowMs);
          WithinSplits(times, start, a + windowMs, w.resetAt);
        } else {
          WithinSplits(times, start, a, w.resetAt);
          WithinBeyond(times, a, w.resetAt, a + windowMs);
        }
      }
    }
  }

  /** The window of `key` in the limiter that never deletes, with the calls it let through. */
  ghost predicate KeyBounded(h: History, key: string, max: int, windowMs: int) {
    var times := KeptAdmittedAt(h, key);
    if key in Kept(h) then
      && Bounded(times, Kept(h)[key], max, windowMs)
      && Kept(h)[key].resetAt - windowMs <= h[|h| - 1].now
    else times == []
  }

  lemma {:induction false} KeyStaysBounded(h: History, key: string, max: int, windowMs: int)
    requires Ordered(h) && Fixed(h, key, max, windowMs) && max >= 1 && windowMs >= 1
    ensures h == [] ==> key !in Kept(h)
    ensures KeyBounded(h, key, max, windowMs)
  {
    hide Bounded;
    hide FewLive;
    if h != [] {
      var g, c := h[..|h| - 1], h[|h| - 1];
      KeyStaysBounded(g, key, max, windowMs);
      var times := KeptAdmittedAt(g, key);
      if c.key == key {
        if key !in Kept(g) {
          FirstWindow(c.now, max, windowMs);
          assert times + [c.now] == [c.now];
        } else if Kept(g)[key].resetAt <= c.now {
          NextWindow(times, Kept(g)[key], max, windowMs, c.now);
        } else if Kept(g)[key].count < max {
          SameWindow(times, Kept(g)[key], max, windowMs, c.now);
        }
      }
    }
  }

  /**
   Main result: with fixed options, a clock that never goes back and no wholesale clear, every half-open
   span of `windowMs` admits at most 2 * max - 1 calls of a key.
   */
  lemma SpanBound(h: History, key: string, max: int, windowMs: int, from: int)
    requires Ordered(h) && FewLive(h) && Fixed(h, key, max, windowMs) && max >= 1 && windowMs >= 1
    ensures InSpan(AdmittedAt(h, key), from, windowMs) <= 2 * max - 1
  {
    SameAdmitted(h, key);
    KeyStaysBounded(h, key, max, windowMs);
  }

  /** Main result: the window a key is in has let through exactly its count, which is at most `max`. */
  lemma WindowBound(h: History, key: string, max: int, windowMs: int)
    requires Ordered(h) && FewLive(h) && Fixed(h, key, max, windowMs) && max >= 1 && windowMs >= 1
    requires key in Kept(h)
    ensures Within(AdmittedAt(h, key), Kept(h)[key].resetAt - windowMs, Kept(h)[key].resetAt)
      == Kept(h)[key].count <= max
  {
    hide FewLive;
    hide Fixed;
    hide Ordered;
    SameAdmitted(h, key);
    KeyStaysBounded(h, key, max, windowMs);
  }

  // ----- the bound is reached

  function Repeat(c: Call, n: nat): History {
    if n == 0 then [] else Repeat(c, n - 1) + [c]
  }

  lemma KeptStep(h: History, c: Call)
    ensures Kept(h + [c]) == Note(Kept(h), c)
    ensures KeptAdmittedAt(h + [c], c.key)
         == if Decide(Kept(h), c) == Admitted then KeptAdmittedAt(h, c.key) + [c.now] else KeptAdmittedAt(h, c.key)
  {
    assert (h + [c])[..|h|] == h;
  }

  /** The open window of `key` after `h`, and the calls admitted so far. */
  ghost predicate Stands(h: History, key: string, w: Window, a: int, b: int, n: nat) {
    key in Kept(h) && Kept(h)[key] == w && Within(KeptAdmittedAt(h, key), a, b) == n
  }

  lemma {:induction false} RepeatFills(h: History, c: Call, n: nat, w: Window, a: int, b: int, before: nat)
    requires Stands(h, c.key, w, a, b, before) && w.resetAt > c.now && w.count + n <= c.max && a <= c.now < b
    ensures Stands(h + Repeat(c, n), c.key, w.(count := w.count + n), a, b, before + n)
  {
    if n == 0 {
      assert h + Repeat(c, n) == h;
    } else {
      RepeatFills(h, c, n - 1, w, a, b, before);
      var g := h + Repeat(c, n - 1);
      assert h + Repeat(c, n) == g + [c];
      FillsOne(g, c, w.(count := w.count + n - 1), a, b, before + n - 1);
    }
  }

  lemma FillsOne(h: History, c: Call, w: Window, a: int, b: int, n: nat)
    requires Stands(h, c.key, w, a, b, n) && w.resetAt > c.now && w.count < c.max && a <= c.now < b
    ensures Stands(h + [c], c.key, w.(count := w.count + 1), a, b, n + 1)
  {
    KeptStep(h, c);
    WithinPush(KeptAdmittedAt(h, c.key), c.now, a, b);
  }

  lemma FirstCall(c: Call, a: int, b: int)
    requires !(a <= c.now < b)
    ensures Stands([c], c.key, Window(1, c.now + c.windowMs), a, b, 0)
  {
    assert [] + [c] == [c];
    KeptStep([], c);
    WithinPush([], c.now, a, b);
  }

  lemma Reopens(h: History, c: Call, w: Window, a: int, b: int, before: nat)
    requires Stands(h, c.key, w, a, b, before) && w.resetAt <= c.now && a <= c.now < b
    ensures Stands(h + [c], c.key, Window(1, c.now + c.windowMs), a, b, before + 1)
  {
    KeptStep(h, c);
    WithinPush(KeptAdmittedAt(h, c.key), c.now, a, b);
  }

  lemma FullWindow(key: string, max: int, windowMs: int, b: int) returns (full: History)
    requires max >= 1 && windowMs >= 2 && windowMs - 1 < b
    ensures full == [Call(key, max, windowMs, 0)] + Repeat(Call(key, max, windowMs, windowMs - 1), max - 1)
    ensures Stands(full, key, Window(max, windowMs), windowMs - 1, b, max - 1)
  {
    var first, late := Call(key, max, windowMs, 0), Call(key, max, windowMs, windowMs - 1);
    FirstCall(first, windowMs - 1, b);
    RepeatFills([first], late, max - 1, Window(1, windowMs), windowMs - 1, b, 0);
    full := [first] + Repeat(late, max - 1);
  }

  lemma BurstAdmits(key: string, max: int, windowMs: int, b: int) returns (full: History, next: Call)
    requires max >= 1 && windowMs >= 2 && windowMs < b
    ensures full == [Call(key, max, windowMs, 0)] + Repeat(Call(key, max, windowMs, windowMs - 1), max - 1)
    ensures next == Call(key, max, windowMs, windowMs)
    ensures Within(KeptAdmittedAt(full + [next] + Repeat(next, max - 1), key), windowMs - 1, b) == 2 * max - 1
  {
    next := Call(key, max, windowMs, windowMs);
    full := FullWindow(key, max, windowMs, b);
    Reopens(full, next, Window(max, windowMs), windowMs - 1, b, max - 1);
    FilledAgain(full + [next], next, max, windowMs, b);
  }

  lemma FilledAgain(h: History, next: Call, max: int, windowMs: int, b: int)
    requires max >= 1 && windowMs >= 1 && next.max == max && next.now == windowMs < b
    requires Stands(h, next.key, Window(1, windowMs + windowMs), windowMs - 1, b, max)
    ensures Within(KeptAdmittedAt(h + Repeat(next, max - 1), next.key), windowMs - 1, b) == 2 * max - 1
  {
    RepeatFills(h, next, max - 1, Window(1, windowMs + windowMs), windowMs - 1, b, max);
  }

  lemma {:induction false} Repeats(c: Call, n: nat)
    ensures |Repeat(c, n)| == n && forall i :: 0 <= i < n ==> Repeat(c, n)[i] == c
  {
    if n > 0 {
      Repeats(c, n - 1);
    }
  }

  lemma {:induction false} OneKey(h: History, key: string)
    requires forall i :: 0 <= i < |h| ==> h[i].key == key
    ensures Kept(h).Keys <= {key}
  {
    if h != [] {
      OneKey(h[..|h| - 1], key);
    }
  }

  lemma OneKeyIsFew(h: History, key: string)
    requires forall i :: 0 <= i < |h| ==> h[i].key == key
    ensures FewLive(h)
  {
    forall i | 0 <= i < |h| ensures FewAt(h, i) {
      OneKey(h[..i], key);
      var live := Live(Kept(h[..i]), h[i].now);
      SubsetSize(live.Keys, {key});
      assert |live.Keys| == |live|;
    }
  }

  /** One call at 0, then max - 1 at the end of that window, then max at the start of the next. */
  predicate Burst(h: History, key: string, max: int, windowMs: int) {
    forall i :: 0 <= i < |h| ==>
      h[i] == Call(key, max, windowMs, if i == 0 then 0 else if i < max then windowMs - 1 else windowMs)
  }

  lemma BurstIsFair(h: History, key: string, max: int, windowMs: int)
    requires Burst(h, key, max, windowMs) && windowMs >= 2
    ensures Ordered(h) && FewLive(h) && Fixed(h, key, max, windowMs)
  {
    OneKeyIsFew(h, key);
  }

  lemma IsBurst(full: History, next: Call, key: string, max: int, windowMs: int)
    requires max >= 1 && next == Call(key, max, windowMs, windowMs)
    requires full == [Call(key, max, windowMs, 0)] + Repeat(Call(key, max, windowMs, windowMs - 1), max - 1)
    ensures Burst(full + [next] + Repeat(next, max - 1), key, max, windowMs)
  {
    Repeats(Call(key, max, windowMs, windowMs - 1), max - 1);
    Repeats(next, max - 1);
  }

  /** The bound cannot be lowered: calls crowded around the end of a window reach it. */
  lemma SpanBoundIsTight(key: string, max: int, windowMs: int) returns (h: History)
    requires max >= 1 && windowMs >= 2
    ensures Ordered(h) && FewLive(h) && Fixed(h, key, max, windowMs)
    ensures InSpan(AdmittedAt(h, key), windowMs - 1, windowMs) == 2 * max - 1
  {
    hide Within;
    hide KeptAdmittedAt;
    hide AdmittedAt;
    hide FewLive;
    hide Ordered;
    hide Fixed;
    hide Repeat;
    hide Burst;
    var full, next := BurstAdmits(key, max, windowMs, windowMs - 1 + windowMs);
    h := full + [next] + Repeat(next, max - 1);
    IsBurst(full, next, key, max, windowMs);
    BurstIsFair(h, key, max, windowMs);
    SameAdmitted(h, key);
  }

  // ----- waiting is enough

  lemma {:induction false} UntouchedKey(h: History, n: nat, key: string)
    requires n <= |h| && forall i :: n <= i < |h| ==> h[i].key != key
    ensures key in WindowsOf(h) ==> key in WindowsOf(h[..n]) && WindowsOf(h)[key] == WindowsOf(h[..n])[key]
    decreases |h|
  {
    if |h| > n {
      var g := h[..|h| - 1];
      assert g[..n] == h[..n];
      UntouchedKey(g, n, key);
    } else {
      assert h[..n] == h;
    }
  }

  lemma RefusalLeavesWindow(h: History, i: nat)
    requires i < |h| && AnswerAt(h, i).Refused?
    ensures h[i].key in WindowsOf(h[..i + 1])
    ensures WindowsOf(h[..i + 1])[h[i].key].resetAt <= h[i].now + 1000 * AnswerAt(h, i).retryAfterSeconds
  {
    assert h[..i + 1][..i] == h[..i];
    var m := Trimmed(WindowsOf(h[..i]), h[i].now);
    assert WindowsOf(h[..i + 1]) == Note(m, h[i]) == m;
  }

  /** The wait is no longer than it has to be: a second earlier the window is still open. */
  lemma RetryIsLeast(h: History, i: nat)
    requires i < |h| && AnswerAt(h, i).Refused?
    ensures var s := AnswerAt(h, i).retryAfterSeconds;
      && s >= 1 && h[i].key in WindowsOf(h[..i + 1])
      && (s > 1 ==> WindowsOf(h[..i + 1])[h[i].key].resetAt > h[i].now + 1000 * (s - 1))
  {
    RefusalLeavesWindow(h, i);
    assert h[..i + 1][..i] == h[..i];
  }

  /**
   Main result: a refused caller whose key is next used once `retryAfterSeconds` have passed is let
   through, whatever other keys, sweeps and clears came between.
   */
  lemma WaitingIsEnough(h: History, i: nat, j: nat)
    requires i < j < |h| && h[j].key == h[i].key && AnswerAt(h, i).Refused?
    requires forall k :: i < k < j ==> h[k].key != h[i].key
    requires h[j].now >= h[i].now + 1000 * AnswerAt(h, i).retryAfterSeconds
    ensures AnswerAt(h, j) == Admitted
  {
    RefusalLeavesWindow(h, i);
    assert h[..j][..i + 1] == h[..i + 1];
    UntouchedKey(h[..j], i + 1, h[i].key);
  }
}
