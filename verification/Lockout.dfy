/**
 The per-account lockout: one row per email, counted up on failure, deleted on success, and collected
 lazily by whichever failed attempt comes next, of any account. Every query is one step; attempts on
 different accounts may interleave query by query.
 */
module Lockout {
  import opened Wrappers

  const MAX_FAILURES := 5
  const MINUTE := 60_000
  const LOCKOUT := 15 * MINUTE
  const WINDOW := 15 * MINUTE

  datatype Attempt = Attempt(failures: nat, last: int, locked: Option<int>)

  type Rows = map<string, Attempt>

  /** The queries of the two hooks: the before hook's look, and the after hook's delete, sweep and upsert. */
  datatype Step =
    | Check(email: string, at: int)
    | Clear(email: string, at: int)
    | Sweep(email: string, at: int)
    | Count(email: string, at: int)

  // ----- the queries

  predicate Refused(rows: Rows, email: string, now: int) {
    email in rows && rows[email].locked.Some? && rows[email].locked.value > now
  }

  predicate Stale(a: Attempt, now: int) {
    a.last < now - WINDOW && (a.locked.None? || a.locked.value < now)
  }

  function Swept(rows: Rows, now: int): Rows {
    map e | e in rows && !Stale(rows[e], now) :: rows[e]
  }

  function Counted(rows: Rows, email: string, now: int): Attempt {
    if email !in rows then Attempt(1, now, None)
    else
      var n := rows[email].failures + 1;
      Attempt(n, now, if n >= MAX_FAILURES then Some(now + LOCKOUT) else rows[email].locked)
  }

  function After(rows: Rows, step: Step): Rows {
    match step
    case Check(_, _) => rows
    case Clear(e, _) => rows - {e}
    case Sweep(_, t) => Swept(rows, t)
    case Count(e, t) => rows[e := Counted(rows, e, t)]
  }

  type History = seq<Step>

  function RowsOf(h: History): Rows {
    if h == [] then map[] else After(RowsOf(h[..|h| - 1]), h[|h| - 1])
  }

  // ----- the hooks

  datatype Verdict = Refusal | Admission

  class Attempts {
    var rows: Rows
    ghost var history: History

    ghost predicate Valid()
      reads this
    {
      rows == RowsOf(history)
    }

    constructor ()
      ensures Valid() && history == []
    {
      rows := map[];
      history := [];
    }

    /** The before hook. `fold` lower-cases; a request without an email is let through unexamined. */
    method Before(raw: string, now: int, fold: string -> string) returns (v: Verdict)
      requires Valid()
      modifies this`history
      ensures Valid() && rows == old(rows)
      ensures v == if fold(raw) != "" && Refused(rows, fold(raw), now) then Refusal else Admission
      ensures history == old(history) + if fold(raw) == "" then [] else [Check(fold(raw), now)]
    {
      var email := fold(raw);
      if email == "" {
        return Admission;
      }
      v := if Refused(rows, email, now) then Refusal else Admission;
      Record(Check(email, now));
    }

    /** The after hook of an attempt that was let through; its two queries may read different clocks. */
    method AfterHook(raw: string, failed: bool, sweepAt: int, countAt: int, fold: string -> string)
      requires Valid()
      modifies this
      ensures Valid()
      ensures history == old(history) +
        if fold(raw) == "" then []
        else if failed then [Sweep(fold(raw), sweepAt), Count(fold(raw), countAt)]
        else [Clear(fold(raw), sweepAt)]
    {
      var email := fold(raw);
      if email == "" {
        return;
      }
      if !failed {
        rows := rows - {email};
        Record(Clear(email, sweepAt));
        return;
      }
      Collect(email, sweepAt);
      rows := rows[email := Counted(rows, email, countAt)];
      Record(Count(email, countAt));
      assert history == old(history) + [Sweep(email, sweepAt), Count(email, countAt)];
    }

    method Collect(email: string, now: int)
      requires Valid()
      modifies this
      ensures Valid() && history == old(history) + [Sweep(email, now)]
    {
      ghost var before := rows;
      var todo := rows.Keys;
      while todo != {}
        invariant history == old(history) && before == RowsOf(history)
        invariant todo <= before.Keys
        invariant rows == map e | e in before && (e in todo || !Stale(before[e], now)) :: before[e]
        decreases |todo|
      {
        var e :| e in todo;
        todo := todo - {e};
        if Stale(rows[e], now) {
          rows := rows - {e};
        }
      }
      Record(Sweep(email, now));
    }

    ghost method Record(step: Step)
      requires rows == After(RowsOf(history), step)
      modifies this`history
      ensures Valid() && history == old(history) + [step]
    {
      history := history + [step];
      assert history[..|history| - 1] == old(history);
    }
  }

  // ----- what a row means

  predicate CountOf(s: Step, e: string) {
    s.Count? && s.email == e
  }

  predicate ClearOf(s: Step, e: string) {
    s.Clear? && s.email == e
  }

  /** The failure counted at `i` is the last step of `e` so far to touch its row on purpose. */
  ghost predicate Standing(h: History, e: string, i: nat) {
    && i < |h| && CountOf(h[i], e)
    && forall k :: i < k < |h| ==> !CountOf(h[k], e) && !ClearOf(h[k], e)
  }

  /** Some sweep after `i` found the failure of `i` more than fifteen minutes old. */
  ghost predicate Collected(h: History, i: nat)
    requires i < |h|
  {
    exists k :: i < k < |h| && h[k].Sweep? && h[k].at > h[i].at + 15 * MINUTE
  }

  /** The failure at `i` carries on from the one at `p`: no success and no collection came between. */
  ghost predicate Follows(h: History, e: string, p: nat, i: nat)
    requires p < i <= |h|
  {
    Standing(h[..i], e, p) && !Collected(h[..i], p)
  }

  /** How many failures the run ending at `i` has. */
  ghost function Run(h: History, e: string, i: nat): (n: nat)
    requires i < |h|
    ensures n >= 1
    decreases i
  {
    if p: nat :| p < i && Follows(h, e, p, i) then Run(h, e, p) + 1 else 1
  }

  lemma StandingUnique(h: History, e: string, i: nat, j: nat)
    requires Standing(h, e, i) && Standing(h, e, j)
    ensures i == j
  {}

  lemma RunStep(h: History, e: string, p: nat, i: nat)
    requires p < i < |h| && Follows(h, e, p, i)
    ensures Run(h, e, i) == Run(h, e, p) + 1
  {
    forall q: nat | q < i && Follows(h, e, q, i) ensures q == p {
      StandingUnique(h[..i], e, p, q);
    }
  }

  lemma {:induction false} RunOfPrefix(h: History, e: string, i: nat, n: nat)
    requires i < n <= |h|
    ensures Run(h[..n], e, i) == Run(h, e, i)
    decreases i
  {
    assert h[..n][..i] == h[..i];
    if p: nat :| p < i && Follows(h, e, p, i) {
      assert Follows(h[..n], e, p, i);
      RunStep(h, e, p, i);
      RunStep(h[..n], e, p, i);
      RunOfPrefix(h, e, p, n);
    } else {
      assert forall q: nat :: q < i ==> Follows(h[..n], e, q, i) == Follows(h, e, q, i);
    }
  }

  /** A chain of failures, each carrying on from the one before. */
  ghost predicate Chain(h: History, e: string, c: seq<nat>) {
    && (forall k :: 0 <= k < |c| ==> c[k] < |h|)
    && (forall k :: 0 < k < |c| ==> c[k - 1] < c[k] && Follows(h, e, c[k - 1], c[k]))
  }

  /** `Run` is the length of the longest chain ending there. */
  lemma {:induction false} RunIsLongest(h: History, e: string, c: seq<nat>)
    requires c != [] && Chain(h, e, c)
    ensures |c| <= Run(h, e, c[|c| - 1])
    decreases |c|
  {
    if |c| > 1 {
      var n := |c| - 1;
      RunIsLongest(h, e, c[..n]);
      RunStep(h, e, c[n - 1], c[n]);
    }
  }

  lemma {:induction false} RunIsReached(h: History, e: string, i: nat) returns (c: seq<nat>)
    requires i < |h|
    ensures c != [] && Chain(h, e, c) && c[|c| - 1] == i && |c| == Run(h, e, i)
    decreases i
  {
    if p: nat :| p < i && Follows(h, e, p, i) {
      c := RunIsReached(h, e, p);
      RunStep(h, e, p, i);
      c := c + [i];
    } else {
      c := [i];
    }
  }

  // ----- rows refine runs

  function Meaning(run: nat, last: int): Attempt {
    Attempt(run, last, if run >= MAX_FAILURES then Some(last + LOCKOUT) else None)
  }

  /** The failure at `i` is the last word on `e` and still within reach. */
  ghost predicate Live(h: History, e: string, i: nat) {
    Standing(h, e, i) && !Collected(h, i)
  }

  /** The row of `e`, read off the history alone. */
  ghost predicate RowMeans(rows: Rows, h: History, e: string) {
    && (e in rows <==> exists i: nat :: Live(h, e, i))
    && (forall i: nat :: Live(h, e, i) ==> e in rows && rows[e] == Meaning(Run(h, e, i), h[i].at))
  }

  predicate Expires(s: Step, last: int) {
    s.Sweep? && s.at > last + WINDOW
  }

  lemma CollectedStep(g: History, s: Step, i: nat)
    requires i < |g|
    ensures Collected(g + [s], i) <==> Collected(g, i) || Expires(s, g[i].at)
  {
    var h := g + [s];
    if Collected(g, i) {
      var k :| i < k < |g| && g[k].Sweep? && g[k].at > g[i].at + WINDOW;
      assert h[k] == g[k];
    }
    if Expires(s, g[i].at) {
      assert h[|g|] == s;
    }
  }

  lemma LiveAfterCount(g: History, s: Step, e: string, i: nat)
    requires CountOf(s, e)
    ensures Live(g + [s], e, i) <==> i == |g|
  {
    var h := g + [s];
    assert h[|g|] == s;
  }

  lemma LiveAfterQuiet(g: History, s: Step, e: string, i: nat)
    requires !CountOf(s, e)
    ensures Live(g + [s], e, i) <==> Live(g, e, i) && !ClearOf(s, e) && !Expires(s, g[i].at)
  {
    var h := g + [s];
    assert h[|g|] == s;
    if i < |g| {
      CollectedStep(g, s, i);
      StandingStep(g, s, e, i);
    }
  }

  lemma StandingStep(g: History, s: Step, e: string, i: nat)
    requires i < |g| && !CountOf(s, e)
    ensures Standing(g + [s], e, i) <==> Standing(g, e, i) && !ClearOf(s, e)
  {
    var h := g + [s];
    assert forall k :: 0 <= k < |g| ==> h[k] == g[k];
    assert h[|g|] == s;
    if Standing(h, e, i) {
      assert forall k :: i < k < |g| ==> !CountOf(h[k], e) && !ClearOf(h[k], e);
    }
  }

  lemma RunAfter(g: History, s: Step, e: string, i: nat)
    requires i < |g|
    ensures Run(g + [s], e, i) == Run(g, e, i)
  {
    assert (g + [s])[..|g|] == g;
    RunOfPrefix(g + [s], e, i, |g|);
  }

  /**
   Main result: after any interleaving of queries, an account has a row exactly when its last failure
   has been neither cleared nor collected, and the row counts the run of failures ending there.
   */
  lemma {:induction false} RowsAreRuns(h: History, e: string)
    ensures RowMeans(RowsOf(h), h, e)
  {
    if h != [] {
      var n := |h| - 1;
      RowsAreRuns(h[..n], e);
      assert h == h[..n] + [h[n]];
      if CountOf(h[n], e) {
        CountExtends(RowsOf(h[..n]), h[..n], h[n], e);
      } else {
        QuietExtends(RowsOf(h[..n]), h[..n], h[n], e);
      }
    }
  }

  lemma RunGrows(g: History, s: Step, e: string, p: nat)
    requires CountOf(s, e) && Live(g, e, p)
    ensures Run(g + [s], e, |g|) == Run(g, e, p) + 1
  {
    assert (g + [s])[..|g|] == g;
    assert Follows(g + [s], e, p, |g|);
    RunStep(g + [s], e, p, |g|);
    RunAfter(g, s, e, p);
  }

  lemma RunStarts(g: History, s: Step, e: string)
    requires CountOf(s, e) && forall p: nat :: !Live(g, e, p)
    ensures Run(g + [s], e, |g|) == 1
  {
    assert (g + [s])[..|g|] == g;
    assert forall p: nat :: p < |g| && Follows(g + [s], e, p, |g|) ==> Live(g, e, p);
  }

  lemma CountedMeans(rows: Rows, g: History, s: Step, e: string)
    requires CountOf(s, e) && RowMeans(rows, g, e)
    ensures Counted(rows, e, s.at) == Meaning(Run(g + [s], e, |g|), s.at)
  {
    if e in rows {
      var p: nat :| Live(g, e, p);
      RunGrows(g, s, e, p);
    } else {
      RunStarts(g, s, e);
    }
  }

  lemma CountExtends(rows: Rows, g: History, s: Step, e: string)
    requires CountOf(s, e) && RowMeans(rows, g, e)
    ensures RowMeans(After(rows, s), g + [s], e)
  {
    CountedMeans(rows, g, s, e);
    forall i: nat ensures Live(g + [s], e, i) <==> i == |g| {
      LiveAfterCount(g, s, e, i);
    }
    assert Live(g + [s], e, |g|);
  }

  lemma QuietExtends(rows: Rows, g: History, s: Step, e: string)
    requires !CountOf(s, e) && RowMeans(rows, g, e)
    ensures RowMeans(After(rows, s), g + [s], e)
  {
    forall i: nat
      ensures Live(g + [s], e, i) <==> Live(g, e, i) && !ClearOf(s, e) && !Expires(s, g[i].at)
      ensures Live(g, e, i) ==> Run(g + [s], e, i) == Run(g, e, i)
    {
      LiveAfterQuiet(g, s, e, i);
      if i < |g| {
        RunAfter(g, s, e, i);
      }
    }
    if e in After(rows, s) {
      var i: nat :| Live(g, e, i);
      assert Live(g + [s], e, i);
    }
  }
}
