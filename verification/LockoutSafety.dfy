/**
 What the lockout answers: refusal in terms of the run of failures, locks that later attempts cannot
 extend, and accounts that cannot disturb one another.
 */
module LockoutSafety {
  import opened Wrappers
  import opened Lockout

  /** The clock never goes back. */
  ghost predicate Ordered(h: History) {
    forall i, j :: 0 <= i < j < |h| ==> h[i].at <= h[j].at
  }

  /** `now` is not before any step of `h`. */
  ghost predicate Reached(h: History, now: int) {
    forall i :: 0 <= i < |h| ==> h[i].at <= now
  }

  // ----- refusal

  lemma CollectedIsOld(h: History, i: nat, now: int)
    requires i < |h| && Collected(h, i) && Reached(h, now)
    ensures now > h[i].at + WINDOW
  {}

  /**
   Main result: sign-in is refused at `now` exactly when the last failure, not followed by a success,
   ended a run of at least five and lies less than fifteen minutes back.
   */
  lemma RefusedExactly(h: History, e: string, now: int)
    requires Reached(h, now)
    ensures Refused(RowsOf(h), e, now) <==>
      exists i: nat :: Standing(h, e, i) && Run(h, e, i) >= 5 && now < h[i].at + 15 * MINUTE
  {
    RowsAreRuns(h, e);
    if Refused(RowsOf(h), e, now) {
      var i: nat :| Live(h, e, i);
      assert Standing(h, e, i) && Run(h, e, i) >= 5 && now < h[i].at + 15 * MINUTE;
    }
    if i: nat :| Standing(h, e, i) && Run(h, e, i) >= 5 && now < h[i].at + 15 * MINUTE {
      if Collected(h, i) {
        CollectedIsOld(h, i, now);
        assert false;
      }
      assert Live(h, e, i);
    }
  }

  // ----- one account's attempts do not overlap

  /** Where the attempts on one account stand: let through and running, or past its sweep at that time. */
  datatype Phase = Idle | Admitted | AtCount(swept: int)

  function PhaseOf(h: History, e: string): Phase {
    if h == [] then Idle
    else
      var g, s := h[..|h| - 1], h[|h| - 1];
      if s.email != e then PhaseOf(g, e)
      else
        match s
        case Check(_, t) => if Refused(RowsOf(g), e, t) then Idle else Admitted
        case Clear(_, _) => Idle
        case Sweep(_, t) => AtCount(t)
        case Count(_, _) => Idle
  }

  /**
   The steps on `e` are whole attempts, one after another: a check, then nothing if it was refused, a
   clear if it succeeded, a sweep and a count if it failed. An attempt may be abandoned at any point.
   */
  ghost predicate OneByOne(h: History, e: string) {
    h == [] ||
    var g, s := h[..|h| - 1], h[|h| - 1];
    && OneByOne(g, e)
    && (s.email == e ==>
          match s
          case Check(_, _) => true
          case Clear(_, _) => PhaseOf(g, e) == Admitted
          case Sweep(_, _) => PhaseOf(g, e) == Admitted
          case Count(_, _) => PhaseOf(g, e).AtCount?)
  }

  lemma LockedShape(h: History, e: string)
    ensures e in RowsOf(h) && RowsOf(h)[e].locked.Some? ==> RowsOf(h)[e].locked.value == RowsOf(h)[e].last + LOCKOUT
    ensures e in RowsOf(h) ==> (RowsOf(h)[e].locked.Some? <==> RowsOf(h)[e].failures >= MAX_FAILURES)
  {
    RowsAreRuns(h, e);
    if e in RowsOf(h) {
      var i: nat :| Live(h, e, i);
    }
  }

  lemma OrderedPrefix(h: History)
    requires h != [] && Ordered(h)
    ensures Ordered(h[..|h| - 1]) && Reached(h[..|h| - 1], h[|h| - 1].at)
  {}

  /** While an account is locked no attempt on it is under way. */
  lemma {:induction false} LockedIsIdle(h: History, e: string)
    requires Ordered(h) && OneByOne(h, e)
    requires h != [] && Refused(RowsOf(h), e, h[|h| - 1].at)
    ensures PhaseOf(h, e) == Idle
  {
    var n := |h| - 1;
    var g, s := h[..n], h[n];
    OrderedPrefix(h);
    if !CountOf(s, e) {
      assert Refused(RowsOf(g), e, s.at);
      if g != [] {
        assert Refused(RowsOf(g), e, g[|g| - 1].at);
        LockedIsIdle(g, e);
      }
    }
  }

  /**
   Main result: while a lock lasts nothing touches it. However many attempts are made on the account or
   on others, its row stays as it was, so no refused attempt extends the lock or adds to the count.
   */
  lemma {:induction false} LockNotExtended(h: History, e: string, k: nat)
    requires Ordered(h) && OneByOne(h, e) && 0 < k <= |h|
    requires e in RowsOf(h[..k]) && RowsOf(h[..k])[e].locked.Some?
    requires forall i :: 0 <= i < |h| ==> h[i].at < RowsOf(h[..k])[e].locked.value
    ensures e in RowsOf(h) && RowsOf(h)[e] == RowsOf(h[..k])[e]
    decreases |h|
  {
    if k == |h| {
      assert h[..k] == h;
    } else {
      var n := |h| - 1;
      var g, s := h[..n], h[n];
      OrderedPrefix(h);
      assert g[..k] == h[..k];
      LockNotExtended(g, e, k);
      LockedIsIdle(g, e);
      LockedShape(g, e);
    }
  }

  // ----- other accounts

  /** Only the steps on `e`. */
  function Own(h: History, e: string): History {
    if h == [] then []
    else if h[|h| - 1].email == e then Own(h[..|h| - 1], e) + [h[|h| - 1]]
    else Own(h[..|h| - 1], e)
  }

  /**
   Another account's sweep takes a row that is about to be raised: it comes between a sweep on `e` and the
   count it belongs to, and finds the last failure outside the window.
   */
  ghost predicate Takes(g: History, s: Step, e: string) {
    && s.Sweep? && s.email != e && PhaseOf(g, e).AtCount?
    && e in RowsOf(Own(g, e)) && s.at > RowsOf(Own(g, e))[e].last + WINDOW
  }

  ghost predicate Undisturbed(h: History, e: string) {
    h == [] || (Undisturbed(h[..|h| - 1], e) && !Takes(h[..|h| - 1], h[|h| - 1], e))
  }

  /** The same row, or one that has expired, was collected, and would be by the account's own next sweep. */
  predicate Agree(all: Rows, own: Rows, e: string, now: int, phase: Phase) {
    if e in all then e in own && all[e] == own[e]
    else e in own ==> own[e].last + WINDOW < now && !phase.AtCount?
  }

  lemma OwnStep(h: History, e: string)
    requires h != []
    ensures var g, s := h[..|h| - 1], h[|h| - 1];
      RowsOf(Own(h, e)) == if s.email == e then After(RowsOf(Own(g, e)), s) else RowsOf(Own(g, e))
  {
    var g, s := h[..|h| - 1], h[|h| - 1];
    if s.email == e {
      assert Own(h, e)[..|Own(h, e)| - 1] == Own(g, e);
    }
  }

  /** A sweep takes `e`'s row exactly when its last failure has left the window. */
  lemma SweptExactly(h: History, e: string, now: int)
    requires e in RowsOf(h)
    ensures Stale(RowsOf(h)[e], now) <==> RowsOf(h)[e].last + WINDOW < now
  {
    LockedShape(h, e);
  }

  lemma AgreeAtOwn(h: History, own: History, e: string, s: Step, before: int, phase: Phase)
    requires s.email == e && before <= s.at && Agree(RowsOf(h), RowsOf(own), e, before, phase)
    requires s.Count? ==> phase.AtCount?
    ensures Agree(After(RowsOf(h), s), After(RowsOf(own), s), e, s.at, if s.Sweep? then AtCount(s.at) else Idle)
  {
    if e in RowsOf(own) {
      SweptExactly(own, e, s.at);
    }
  }

  lemma AgreeAtOther(h: History, own: History, e: string, s: Step, before: int, phase: Phase)
    requires s.email != e && before <= s.at && Agree(RowsOf(h), RowsOf(own), e, before, phase)
    requires s.Sweep? && phase.AtCount? && e in RowsOf(own) ==> s.at <= RowsOf(own)[e].last + WINDOW
    ensures Agree(After(RowsOf(h), s), RowsOf(own), e, s.at, phase)
  {
    if e in RowsOf(h) {
      SweptExactly(h, e, s.at);
    }
  }

  lemma {:induction false} AlwaysAgree(h: History, e: string, now: int)
    requires Ordered(h) && OneByOne(h, e) && Undisturbed(h, e) && Reached(h, now)
    ensures Agree(RowsOf(h), RowsOf(Own(h, e)), e, now, PhaseOf(h, e))
  {
    if h != [] {
      var g, s := h[..|h| - 1], h[|h| - 1];
      OrderedPrefix(h);
      AlwaysAgree(g, e, s.at);
      OwnStep(h, e);
      if s.email == e {
        AgreeAtOwn(g, Own(g, e), e, s, s.at, PhaseOf(g, e));
      } else {
        AgreeAtOther(g, Own(g, e), e, s, s.at, PhaseOf(g, e));
      }
    }
  }

  /** A failure counted now would get the count it would get had the other accounts never been there. */
  ghost predicate CountsAlone(h: History, e: string) {
    forall now :: Counted(RowsOf(h), e, now) == Counted(RowsOf(Own(h, e)), e, now)
  }

  /** At every moment of the history at which a failure on `e` is due to be counted. */
  ghost predicate AlwaysCountsAlone(h: History, e: string) {
    forall n :: 0 <= n <= |h| && PhaseOf(h[..n], e).AtCount? ==> CountsAlone(h[..n], e)
  }

  lemma {:induction false} UndisturbedPrefix(h: History, e: string, n: nat)
    requires n <= |h| && Ordered(h) && OneByOne(h, e)
    ensures Ordered(h[..n]) && OneByOne(h[..n], e) && (Undisturbed(h, e) ==> Undisturbed(h[..n], e))
  {
    if n < |h| {
      assert h[..|h| - 1][..n] == h[..n];
      UndisturbedPrefix(h[..|h| - 1], e, n);
    } else {
      assert h[..n] == h;
    }
  }

  lemma {:induction false} FirstTaken(h: History, e: string) returns (n: nat)
    requires !Undisturbed(h, e)
    ensures n < |h| && Undisturbed(h[..n], e) && Takes(h[..n], h[n], e)
  {
    var g := h[..|h| - 1];
    if Undisturbed(g, e) {
      n := |h| - 1;
    } else {
      n := FirstTaken(g, e);
      assert g[..n] == h[..n];
    }
  }

  lemma LastReached(h: History)
    requires Ordered(h)
    ensures Reached(h, if h == [] then 0 else h[|h| - 1].at)
  {}

  /** A sweep that takes the row makes the failure that was about to be counted the first of a new run. */
  lemma TakenDiffers(g: History, s: Step, e: string)
    requires Ordered(g + [s]) && OneByOne(g, e) && Undisturbed(g, e) && Takes(g, s, e)
    ensures PhaseOf(g + [s], e).AtCount? && !CountsAlone(g + [s], e)
  {
    var h := g + [s];
    assert h[..|h| - 1] == g;
    OrderedPrefix(h);
    AlwaysAgree(g, e, s.at);
    OwnStep(h, e);
    SweptExactly(g, e, s.at);
    RowsAreRuns(Own(g, e), e);
    var i: nat :| Live(Own(g, e), e, i);
    assert Counted(RowsOf(h), e, s.at).failures == 1;
    assert Counted(RowsOf(Own(h, e)), e, s.at).failures > 1;
  }

  /**
   Main result: all of an account's counts are the ones it would get alone if and only if no foreign sweep
   takes its row between a sweep of its own and the count that belongs to it.
   */
  lemma OthersDoNotMatter(h: History, e: string)
    requires Ordered(h) && OneByOne(h, e)
    ensures AlwaysCountsAlone(h, e) <==> Undisturbed(h, e)
  {
    if Undisturbed(h, e) {
      forall n | 0 <= n <= |h| && PhaseOf(h[..n], e).AtCount? ensures CountsAlone(h[..n], e) {
        UndisturbedPrefix(h, e, n);
        LastReached(h[..n]);
        AlwaysAgree(h[..n], e, if n == 0 then 0 else h[n - 1].at);
      }
    } else {
      var n := FirstTaken(h, e);
      UndisturbedPrefix(h, e, n);
      UndisturbedPrefix(h, e, n + 1);
      assert h[..n + 1] == h[..n] + [h[n]];
      TakenDiffers(h[..n], h[n], e);
    }
  }

  /** Then its refusals are the ones it would get alone, too. */
  lemma RefusedAlone(h: History, e: string, now: int)
    requires Ordered(h) && OneByOne(h, e) && Undisturbed(h, e) && Reached(h, now)
    ensures Refused(RowsOf(h), e, now) <==> Refused(RowsOf(Own(h, e)), e, now)
  {
    AlwaysAgree(h, e, now);
    LockedShape(Own(h, e), e);
  }

  // ----- an account's answers from its own attempts

  /** A finished attempt: a failure, swept and counted at these times, or a success. */
  datatype Try = Failed(sweptAt: int, countAt: int) | Passed

  function Tries(h: History, e: string): seq<Try> {
    if h == [] then []
    else
      var g, s := h[..|h| - 1], h[|h| - 1];
      if s.email != e then Tries(g, e)
      else if s.Count? && PhaseOf(g, e).AtCount? then Tries(g, e) + [Failed(PhaseOf(g, e).swept, s.at)]
      else if s.Clear? then Tries(g, e) + [Passed]
      else Tries(g, e)
  }

  /** Failures at the end of the list, each swept at most fifteen minutes after the one before was counted. */
  predicate Close(ts: seq<Try>, n: nat) {
    && n <= |ts|
    && (forall i :: |ts| - n <= i < |ts| ==> ts[i].Failed?)
    && (forall i :: |ts| - n < i < |ts| ==> ts[i].sweptAt <= ts[i - 1].countAt + 15 * MINUTE)
  }

  function Streak(ts: seq<Try>): (n: nat)
    ensures ts != [] && ts[|ts| - 1].Failed? <==> n > 0
  {
    if ts == [] || ts[|ts| - 1].Passed? then 0
    else if |ts| > 1 && ts[|ts| - 2].Failed? && ts[|ts| - 1].sweptAt <= ts[|ts| - 2].countAt + 15 * MINUTE
    then Streak(ts[..|ts| - 1]) + 1
    else 1
  }

  /** The streak is the longest such stretch. */
  lemma {:induction false} StreakIsLongest(ts: seq<Try>, n: nat)
    ensures Close(ts, Streak(ts)) && (Close(ts, n) ==> n <= Streak(ts))
  {
    if ts != [] {
      var front := ts[..|ts| - 1];
      StreakIsLongest(front, if n == 0 then 0 else n - 1);
      if Close(ts, n) && n > 1 {
        assert forall i :: 0 <= i < |front| ==> front[i] == ts[i];
        assert Close(front, n - 1);
      }
    }
  }

  /** The row an account has alone: its last streak, unless a sweep has found it out of the window. */
  predicate RowIsStreak(own: Rows, ts: seq<Try>, e: string, now: int, phase: Phase) {
    if e in own then
      && Streak(ts) > 0 && own[e].failures == Streak(ts) && own[e].last == ts[|ts| - 1].countAt
      && (phase.AtCount? ==> phase.swept <= own[e].last + WINDOW)
    else
      Streak(ts) > 0 ==>
        && ts[|ts| - 1].countAt + WINDOW < now
        && (phase.AtCount? ==> ts[|ts| - 1].countAt + WINDOW < phase.swept)
  }

  lemma {:induction false} RowsAreStreaks(h: History, e: string, now: int)
    requires Ordered(h) && OneByOne(h, e) && Reached(h, now)
    ensures RowIsStreak(RowsOf(Own(h, e)), Tries(h, e), e, now, PhaseOf(h, e))
  {
    if h != [] {
      var g, s := h[..|h| - 1], h[|h| - 1];
      OrderedPrefix(h);
      RowsAreStreaks(g, e, s.at);
      OwnStep(h, e);
      if s.email == e {
        StreakStep(Own(g, e), Tries(g, e), e, s, PhaseOf(g, e));
      }
    }
  }

  lemma StreakStep(own: History, ts: seq<Try>, e: string, s: Step, phase: Phase)
    requires s.email == e && RowIsStreak(RowsOf(own), ts, e, s.at, phase) && (s.Count? ==> phase.AtCount?)
    ensures RowIsStreak(
      After(RowsOf(own), s),
      if s.Count? then ts + [Failed(phase.swept, s.at)] else if s.Clear? then ts + [Passed] else ts,
      e, s.at, if s.Sweep? then AtCount(s.at) else Idle)
  {
    match s
    case Check(_, _) =>
    case Clear(_, _) =>
    case Sweep(_, t) =>
      if e in RowsOf(own) {
        SweptExactly(own, e, t);
      }
    case Count(_, t) =>
      var more := ts + [Failed(phase.swept, t)];
      assert more[..|more| - 1] == ts;
  }

  /** The count a failure gets is the streak's with the failure at its end. */
  lemma CountIsStreak(all: Rows, own: Rows, ts: seq<Try>, e: string, now: int, swept: int)
    requires Agree(all, own, e, now, AtCount(swept)) && RowIsStreak(own, ts, e, now, AtCount(swept))
    ensures Counted(all, e, now).failures == Streak(ts + [Failed(swept, now)])
  {
    var more := ts + [Failed(swept, now)];
    assert more[..|more| - 1] == ts;
  }

  /** The row is locked exactly while the streak says so. */
  lemma RefusalIsStreak(own: History, ts: seq<Try>, e: string, now: int, phase: Phase)
    requires RowIsStreak(RowsOf(own), ts, e, now, phase)
    ensures Refused(RowsOf(own), e, now) <==> Streak(ts) >= MAX_FAILURES && now < ts[|ts| - 1].countAt + LOCKOUT
  {
    if e in RowsOf(own) {
      LockedShape(own, e);
    }
  }

  /**
   Main result: for an undisturbed account, the count a failure gets is the length of the streak it ends, and
   sign-in is refused exactly while the last streak has five failures or more and ended under fifteen minutes ago.
   */
  lemma CountsAreStreaks(h: History, e: string, now: int)
    requires Ordered(h) && OneByOne(h, e) && Undisturbed(h, e) && Reached(h, now)
    ensures var ts := Tries(h, e);
      && (PhaseOf(h, e).AtCount? ==>
            Counted(RowsOf(h), e, now).failures == Streak(ts + [Failed(PhaseOf(h, e).swept, now)]))
      && (Refused(RowsOf(h), e, now) <==> Streak(ts) >= 5 && now < ts[|ts| - 1].countAt + 15 * MINUTE)
  {
    RowsAreStreaks(h, e, now);
    RefusedAlone(h, e, now);
    AlwaysAgree(h, e, now);
    RefusalIsStreak(Own(h, e), Tries(h, e), e, now, PhaseOf(h, e));
    if PhaseOf(h, e).AtCount? {
      CountIsStreak(RowsOf(h), RowsOf(Own(h, e)), Tries(h, e), e, now, PhaseOf(h, e).swept);
    }
  }

  /**
   Such a disturbance happens: a foreign sweep between one account's sweep and its count, on a later
   clock, takes away the row the count was about to raise.
   */
  lemma DisturbedDiffers()
    ensures exists h: History, e: string, now: int ::
      && Ordered(h) && OneByOne(h, e) && Reached(h, now) && PhaseOf(h, e).AtCount?
      && Counted(RowsOf(h), e, now) != Counted(RowsOf(Own(h, e)), e, now)
  {
    var h0: History := [Check("a", 0)];
    var h1: History := h0 + [Sweep("a", 0)];
    var h2: History := h1 + [Count("a", 0)];
    var h3: History := h2 + [Check("a", WINDOW)];
    var h4: History := h3 + [Sweep("a", WINDOW)];
    var h5: History := h4 + [Sweep("b", WINDOW + 1)];
    assert h0[..0] == [] && h1[..1] == h0 && h2[..2] == h1 && h3[..3] == h2 && h4[..4] == h3 && h5[..5] == h4;
    assert RowsOf(h0) == map[] && RowsOf(h1) == map[];
    var row := Attempt(1, 0, None);
    assert RowsOf(h2) == map["a" := row] == RowsOf(h3) == RowsOf(h4);
    assert RowsOf(h5) == map[];
    assert OneByOne(h0, "a") && OneByOne(h1, "a") && OneByOne(h2, "a") && OneByOne(h3, "a") && OneByOne(h4, "a");
    assert PhaseOf(h5, "a") == PhaseOf(h4, "a") == AtCount(WINDOW);
    OwnAlone(h0, h1, h2, h3, h4, h5);
    assert Counted(RowsOf(h5), "a", WINDOW + 1).failures == 1;
    assert Counted(RowsOf(h4), "a", WINDOW + 1).failures == 2;
    assert Ordered(h5) && OneByOne(h5, "a") && Reached(h5, WINDOW + 1);
  }

  lemma OwnAlone(h0: History, h1: History, h2: History, h3: History, h4: History, h5: History)
    requires h0 == [Check("a", 0)] && h1 == h0 + [Sweep("a", 0)] && h2 == h1 + [Count("a", 0)]
    requires h3 == h2 + [Check("a", WINDOW)] && h4 == h3 + [Sweep("a", WINDOW)] && h5 == h4 + [Sweep("b", WINDOW + 1)]
    ensures Own(h5, "a") == h4
  {
    assert h0[..0] == [] && h1[..1] == h0 && h2[..2] == h1 && h3[..3] == h2 && h4[..4] == h3 && h5[..5] == h4;
    assert Own(h0, "a") == h0;
    assert Own(h1, "a") == h1;
    assert Own(h2, "a") == h2;
    assert Own(h3, "a") == h3;
    assert Own(h4, "a") == h4;
  }
}
