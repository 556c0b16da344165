/**
 Which texts pass the word check. A folded line that is spoilt cannot be made up for later in the text,
 because a fence line stands between any two stretches that the check reads differently.
 */
module UnwrapChecked {
  import opened Wrappers
  import opened Unwrap
  import opened UnwrapProofs
  import opened UnwrapWords
  import opened UnwrapDrift

  // ----- the condition

  /** Line `k` is folded into the block at line `i`, and its words are not kept. */
  ghost predicate SpoiltAt(g: Grammar, lines: Lines, s: nat, i: nat, k: nat)
    requires s <= |lines|
  {
    && i < k < |lines|
    && BlockStart(g, lines, s, i) && k < BlockAt(g, lines, i).next && !IsFence(lines[i])
    && Spoils(lines[i], lines[k], InCode(lines[..i], false))
  }

  /** No block of the text has such a line. */
  ghost predicate KeepsWords(g: Grammar, lines: Lines) {
    forall i: nat, k: nat :: !SpoiltAt(g, lines, FrontEnd(lines), i, k)
  }

  // ----- no way back

  /** The texts differ before a letter other than `>` that both hold at the same place among such letters. */
  ghost predicate Marked(u: string, v: string, m: nat, n: nat) {
    && 0 < m <= |u| && 0 < n <= |v| && m != n
    && |Squash(u[..m])| == |Squash(v[..n])|
    && !Dropped(u[m - 1]) && !Dropped(v[n - 1])
  }

  ghost predicate Closed(u: string, v: string) {
    exists m: nat, n: nat :: Marked(u, v, m, n)
  }

  lemma ClosedDiffers(u: string, v: string)
    requires Closed(u, v)
    ensures u != v
  {
    var m: nat, n: nat :| Marked(u, v, m, n);
    if u == v {
      if m < n {
        SquashGrows(u, m, n);
      } else {
        SquashGrows(u, n, m);
      }
    }
  }

  lemma SquashGrows(u: string, m: nat, n: nat)
    requires m < n <= |u| && !Dropped(u[n - 1])
    ensures |Squash(u[..m])| < |Squash(u[..n])|
  {
    assert u[..n] == u[..m] + u[m..n];
    SquashAppend(u[..m], u[m..n]);
    SquashLast(u[m..n]);
  }

  lemma ClosedStays(u: string, v: string, x: string, y: string)
    requires Closed(u, v)
    ensures Closed(u + x, v + y)
  {
    var m: nat, n: nat :| Marked(u, v, m, n);
    assert (u + x)[..m] == u[..m] && (v + y)[..n] == v[..n];
    assert Marked(u + x, v + y, m, n);
  }

  lemma FenceCloses(u: string, v: string, x: string)
    requires Squash(u) == Squash(v) && |u| != |v| && x != "" && !Dropped(x[0])
    ensures Closed(u + x, v + x)
  {
    assert (u + x)[..|u| + 1] == u + [x[0]] && (v + x)[..|v| + 1] == v + [x[0]];
    SquashAppend(u, [x[0]]);
    SquashAppend(v, [x[0]]);
    assert Marked(u + x, v + x, |u| + 1, |v| + 1);
  }

  /** What has been read before and after, up to some block: the same, or beyond repair. */
  ghost predicate SoFar(u: Lines, v: Lines, code: bool, spoilt: bool) {
    Drift(u, v, code, spoilt) || (spoilt && Closed(Glue(u), Glue(v)))
  }

  lemma SoFarDecides(u: Lines, v: Lines, code: bool, spoilt: bool)
    requires SoFar(u, v, code, spoilt)
    ensures u == v <==> !spoilt
  {
    if !Drift(u, v, code, spoilt) {
      ClosedDiffers(Glue(u), Glue(v));
    }
  }

  lemma SoFarFolds(u: Lines, v: Lines, x: Lines, y: Lines, code: bool, p: bool, q: bool)
    requires SoFar(u, v, code, p) && Drift(x, y, code, q)
    ensures SoFar(u + x, v + y, code, p || q)
  {
    if Drift(u, v, code, p) {
      DriftsAdd(u, v, p, x, y, q, code);
    } else {
      GlueAppend(u, x);
      GlueAppend(v, y);
      ClosedStays(Glue(u), Glue(v), Glue(x), Glue(y));
    }
  }

  lemma SoFarPastFence(u: Lines, v: Lines, x: Lines, code: bool, after: bool, spoilt: bool)
    requires SoFar(u, v, code, spoilt) && Glue(x) != "" && !Dropped(Glue(x)[0])
    ensures SoFar(u + x, v + x, after, spoilt)
  {
    GlueAppend(u, x);
    GlueAppend(v, x);
    if !spoilt {
      NoDrift(u + x, after);
    } else if Drift(u, v, code, spoilt) {
      FenceCloses(Glue(u), Glue(v), Glue(x));
    } else {
      ClosedStays(Glue(u), Glue(v), Glue(x), Glue(x));
    }
  }

  lemma {:induction false} DenseHead(s: string)
    requires Nonblank(s)
    ensures Dense(s) != "" && Dense(s)[0] == s[Lead(s)]
  {
    var k := Lead(s);
    LeadIsWhite(s);
    LeadStops(s);
    assert s == s[..k] + ([s[k]] + s[k + 1..]);
    DenseAppend(s[..k], [s[k]] + s[k + 1..]);
    DenseAppend([s[k]], s[k + 1..]);
    WordsOfBlank(s[..k]);
    GlueWords(s[..k]);
    assert Dense([s[k]]) == [s[k]];
  }

  /** A fenced block is read as it stands and starts with a letter other than `>`. */
  lemma FenceReads(lines: Lines, i: nat, j: nat, code: bool)
    requires i < j <= |lines| && IsFence(lines[i])
    ensures Glue(Read(lines[i..j], code)) != "" && !Dropped(Glue(Read(lines[i..j], code))[0])
  {
    hide Read, Glue, Dense, Words;
    var line, rest := lines[i], lines[i + 1..j];
    RangeHead(lines, i, j);
    ReadAppend([line], rest, code);
    ReadOne(line, code);
    GlueAppend(Words(line), Read(rest, !code));
    GlueWords(line);
    DenseHead(line);
    assert line[Lead(line)] == LStrip(line)[0];
  }

  // ----- the whole text

  /** No block from line `s` on is spoilt. */
  predicate Clean(g: Grammar, lines: Lines, s: nat, code: bool)
    requires s <= |lines|
    decreases |lines| - s
  {
    s < |lines| ==>
      var j := BlockAt(g, lines, s).next;
      && (IsFence(lines[s]) || !AnySpoils(lines[s], lines[s + 1..j], code))
      && Clean(g, lines, j, InCode(lines[s..j], code))
  }

  lemma {:induction false} FromDecides(g: Grammar, lines: Lines, s: nat, u: Lines, v: Lines, code: bool, spoilt: bool)
    requires s <= |lines| && SoFar(u, v, code, spoilt)
    ensures u + Read(lines[s..], code) == v + Read(UnwrappedFrom(g, lines, s), code) <==>
            !spoilt && Clean(g, lines, s, code)
    decreases |lines| - s
  {
    hide SoFar, Read, UnwrappedFrom, BlockAt, AnySpoils, InCode;
    if s == |lines| {
      NothingLeft(g, lines, code);
      assert u + [] == u && v + [] == v;
      SoFarDecides(u, v, code, spoilt);
    } else {
      var b := BlockAt(g, lines, s);
      var x, y, after := Read(lines[s..b.next], code), Read(b.emitted, code), InCode(lines[s..b.next], code);
      var q := !IsFence(lines[s]) && AnySpoils(lines[s], lines[s + 1..b.next], code);
      BlockSoFar(g, lines, s, u, v, code, spoilt);
      FromDecides(g, lines, b.next, u + x, v + y, after, spoilt || q);
      StepReads(g, lines, s, code);
      Regroup(u, x, Read(lines[b.next..], after));
      Regroup(v, y, Read(UnwrappedFrom(g, lines, b.next), after));
    }
  }

  lemma NothingLeft(g: Grammar, lines: Lines, code: bool)
    ensures Read(lines[|lines|..], code) == [] && Read(UnwrappedFrom(g, lines, |lines|), code) == []
  {}

  lemma StepReads(g: Grammar, lines: Lines, s: nat, code: bool)
    requires s < |lines|
    requires var b := BlockAt(g, lines, s);
      InCode(b.emitted, code) == InCode(lines[s..b.next], code)
    ensures var b := BlockAt(g, lines, s);
      var after := InCode(lines[s..b.next], code);
      && Read(lines[s..], code) == Read(lines[s..b.next], code) + Read(lines[b.next..], after)
      && Read(UnwrappedFrom(g, lines, s), code) ==
         Read(b.emitted, code) + Read(UnwrappedFrom(g, lines, b.next), after)
  {
    var b := BlockAt(g, lines, s);
    assert lines[s..] == lines[s..b.next] + lines[b.next..];
    ReadAppend(lines[s..b.next], lines[b.next..], code);
    ReadAppend(b.emitted, UnwrappedFrom(g, lines, b.next), code);
  }

  lemma BlockSoFar(g: Grammar, lines: Lines, s: nat, u: Lines, v: Lines, code: bool, spoilt: bool)
    requires s < |lines| && SoFar(u, v, code, spoilt)
    ensures var b := BlockAt(g, lines, s);
      var after := InCode(lines[s..b.next], code);
      && InCode(b.emitted, code) == after
      && SoFar(u + Read(lines[s..b.next], code), v + Read(b.emitted, code), after,
               spoilt || (!IsFence(lines[s]) && AnySpoils(lines[s], lines[s + 1..b.next], code)))
  {
    hide SoFar, Drift, Read;
    var b := BlockAt(g, lines, s);
    var x := Read(lines[s..b.next], code);
    if IsFence(lines[s]) {
      FenceReads(lines, s, b.next, code);
      SoFarPastFence(u, v, x, code, InCode(lines[s..b.next], code), spoilt);
    } else {
      BlockDriftsAt(g, lines, s, code);
      SoFarFolds(u, v, x, Read(b.emitted, code), code, spoilt, AnySpoils(lines[s], lines[s + 1..b.next], code));
    }
  }

  lemma {:induction false} CleanMeans(g: Grammar, lines: Lines, s: nat)
    requires s <= |lines|
    ensures Clean(g, lines, s, InCode(lines[..s], false)) <==> forall i: nat, k: nat :: !SpoiltAt(g, lines, s, i, k)
    decreases |lines| - s
  {
    if s < |lines| {
      var j := BlockAt(g, lines, s).next;
      var code := InCode(lines[..s], false);
      assert lines[..j] == lines[..s] + lines[s..j];
      KeptAppend(lines[..s], lines[s..j], false);
      CleanMeans(g, lines, j);
      SpoiltHere(g, lines, s);
      forall i: nat, k: nat | SpoiltAt(g, lines, j, i, k) ensures SpoiltAt(g, lines, s, i, k) {
      }
      forall i: nat, k: nat | SpoiltAt(g, lines, s, i, k) ensures i == s || SpoiltAt(g, lines, j, i, k) {
      }
    }
  }

  lemma SpoiltHere(g: Grammar, lines: Lines, s: nat)
    requires s < |lines|
    ensures var rest := lines[s + 1..BlockAt(g, lines, s).next];
      (!IsFence(lines[s]) && AnySpoils(lines[s], rest, InCode(lines[..s], false)))
      <==> exists k: nat :: SpoiltAt(g, lines, s, s, k)
  {
    var j, code := BlockAt(g, lines, s).next, InCode(lines[..s], false);
    var rest := lines[s + 1..j];
    if !IsFence(lines[s]) && AnySpoils(lines[s], rest, code) {
      var k :| 0 <= k < |rest| && Spoils(lines[s], rest[k], code);
      assert rest[k] == lines[s + 1 + k];
      assert SpoiltAt(g, lines, s, s, s + 1 + k);
    }
    if k: nat :| SpoiltAt(g, lines, s, s, k) {
      assert rest[k - s - 1] == lines[k];
    }
  }

  lemma StartsSame(u: Lines, code: bool)
    ensures SoFar(u, u, code, false)
  {}

  /** The words read before and after are the same exactly when no line is spoilt. */
  lemma LinesDecide(g: Grammar, lines: Lines)
    ensures Read(lines, false) == Read(Unwrapped(g, lines), false) <==> KeepsWords(g, lines)
  {
    hide Read, SoFar, Drift, UnwrappedFrom, Clean, SpoiltAt, FrontEnd, InCode;
    var s := FrontEnd(lines);
    var front, code := lines[..s], InCode(lines[..s], false);
    StartsSame(Read(front, false), code);
    FromDecides(g, lines, s, Read(front, false), Read(front, false), code, false);
    assert lines == front + lines[s..];
    ReadAppend(front, lines[s..], false);
    ReadAppend(front, UnwrappedFrom(g, lines, s), false);
    CleanMeans(g, lines, s);
  }

  // ----- from text to lines and back

  predicate NoBreak(s: string) {
    forall i :: 0 <= i < |s| ==> s[i] != '\n'
  }

  predicate NoBreaks(lines: Lines) {
    forall k :: 0 <= k < |lines| ==> NoBreak(lines[k])
  }

  lemma {:induction false} SplitHasNoBreaks(text: string)
    ensures NoBreaks(Split(text))
  {
    if text != "" {
      SplitHasNoBreaks(text[..|text| - 1]);
    }
  }

  lemma {:induction false} SplitPush(text: string, line: string)
    requires NoBreak(line)
    ensures var before := Split(text);
      Split(text + line) == before[..|before| - 1] + [before[|before| - 1] + line]
  {
    var before := Split(text);
    if line == "" {
      assert text + line == text && before[|before| - 1] + line == before[|before| - 1];
    } else {
      var n := |line| - 1;
      SplitPush(text, line[..n]);
      assert (text + line)[..|text| + n] == text + line[..n] && (text + line)[|text| + n] == line[n];
      assert before[|before| - 1] + line == before[|before| - 1] + line[..n] + [line[n]];
    }
  }

  lemma {:induction false} SplitUnsplit(lines: Lines)
    requires lines != [] && NoBreaks(lines)
    ensures Split(Unsplit(lines)) == lines
  {
    hide Split;
    var n := |lines| - 1;
    var last := lines[n];
    if n == 0 {
      SplitNothing();
      SplitPush("", last);
      assert "" + last == last;
    } else {
      SplitUnsplit(lines[..n]);
      SplitAfterBreak(Unsplit(lines[..n]), last);
      assert lines == lines[..n] + [last];
    }
  }

  lemma SplitNothing()
    ensures Split("") == [""]
  {}

  lemma SplitBreaks(text: string)
    ensures Split(text + "\n") == Split(text) + [""]
  {
    assert (text + "\n")[..|text|] == text;
  }

  lemma SplitAfterBreak(text: string, last: string)
    requires NoBreak(last)
    ensures Split(text + "\n" + last) == Split(text) + [last]
  {
    hide Split;
    SplitBreaks(text);
    SplitPush(text + "\n", last);
    assert "" + last == last;
  }

  lemma {:induction false} NoBreakJoin(parts: Lines)
    requires NoBreaks(parts)
    ensures NoBreak(Join(parts)) && NoBreaks(NonEmpty(parts))
  {
    if parts != [] {
      NoBreakJoin(parts[..|parts| - 1]);
    }
  }

  lemma {:induction false} NoBreakRStrip(s: string)
    requires NoBreak(s)
    ensures NoBreak(RStrip(s))
  {
    if s != "" && White(s[|s| - 1]) {
      NoBreakRStrip(s[..|s| - 1]);
    }
  }

  lemma NoBreakStrip(s: string)
    requires NoBreak(s)
    ensures NoBreak(Strip(s)) && NoBreak(Content(s)) && NoBreak(Marker(s))
  {
    NoBreakRStrip(LStrip(s));
    NoBreakRStrip(LStrip(Unquoted(s)));
  }

  lemma {:induction false} NoBreakParts(part: string -> string, lines: Lines)
    requires forall k :: 0 <= k < |lines| ==> NoBreak(part(lines[k]))
    ensures NoBreaks(Parts(part, lines))
  {
    if lines != [] {
      NoBreakParts(part, lines[..|lines| - 1]);
    }
  }

  lemma NoBreakFolded(first: string, part: string -> string, lines: Lines, i: nat, j: nat)
    requires i < j <= |lines| && NoBreak(first) && NoBreaks(lines) && (part == Strip || part == Content)
    ensures NoBreak(Join(Folded(first, part, lines, i, j)))
    ensures NoBreak(Join(NonEmpty(Folded(first, part, lines, i, j))))
  {
    var rest := lines[i + 1..j];
    forall k | 0 <= k < |rest| ensures NoBreak(part(rest[k])) {
      assert rest[k] == lines[i + 1 + k];
      NoBreakStrip(rest[k]);
    }
    NoBreakParts(part, rest);
    NoBreakJoin(Folded(first, part, lines, i, j));
    NoBreakJoin(NonEmpty(Folded(first, part, lines, i, j)));
  }

  lemma NoBreakBlock(g: Grammar, lines: Lines, i: nat)
    requires i < |lines| && NoBreaks(lines)
    ensures NoBreaks(BlockAt(g, lines, i).emitted)
  {
    hide RStrip, Content, Marker, Join, NonEmpty, Folded, End, Fence, Structural, Quote, Bullet, Strip;
    var line := lines[i];
    NoBreakRStrip(line);
    NoBreakStrip(line);
    if Fence(line).Some? || Structural(g, line) {
    } else if Quote(line).Some? {
      NoBreakFolded(Content(line), Content, lines, i, End(QuoteGoes(g), lines, i + 1));
    } else if Bullet(g, line).Some? {
      NoBreakFolded(RStrip(line), Strip, lines, i, End(ItemGoes(g, Bullet(g, line).value), lines, i + 1));
    } else {
      NoBreakFolded(RStrip(line), Strip, lines, i, End(ParagraphGoes(g), lines, i + 1));
    }
  }

  lemma {:induction false} NoBreakFrom(g: Grammar, lines: Lines, i: nat)
    requires i <= |lines| && NoBreaks(lines)
    ensures NoBreaks(UnwrappedFrom(g, lines, i))
    ensures i < |lines| ==> UnwrappedFrom(g, lines, i) != []
    decreases |lines| - i
  {
    if i < |lines| {
      NoBreakBlock(g, lines, i);
      BlockFaithful(g, lines, i);
      NoBreakFrom(g, lines, BlockAt(g, lines, i).next);
    }
  }

  /** Reading the output's lines back gives the lines that were put out. */
  lemma OutputReadsBack(g: Grammar, text: string)
    ensures Split(Unsplit(Unwrapped(g, Split(text)))) == Unwrapped(g, Split(text))
  {
    var lines := Split(text);
    SplitHasNoBreaks(text);
    NoBreakFrom(g, lines, FrontEnd(lines));
    SplitUnsplit(Unwrapped(g, lines));
  }

  // ----- the script

  /**
   Main result: the script rewrites a text exactly when no folded line is spoilt; any other text it refuses
   and leaves alone.
   */
  method Rewrite(g: Grammar, before: string) returns (r: Option<string>)
    ensures r.Some? <==> KeepsWords(g, Split(before))
    ensures r.Some? ==> r.value == Unsplit(Unwrapped(g, Split(before)))
    ensures r.Some? ==> Read(Split(r.value), false) == Read(Split(before), false)
  {
    var after := UnwrapText(g, before);
    var wordsBefore := TextWords(before);
    var wordsAfter := TextWords(after);
    OutputReadsBack(g, before);
    LinesDecide(g, Split(before));
    WordsUnsplit(KeptLines(Split(before), false));
    WordsUnsplit(KeptLines(Split(after), false));
    r := if wordsBefore == wordsAfter then Some(after) else None;
  }
}
