/**
 What folding a block does to its words as the check reads them: they stay, unless a line carries quote
 markers that the fold and the check count differently. Outside code `>` are then gained, in code lost.
 */
module UnwrapDrift {
  import opened Wrappers
  import opened Unwrap
  import opened UnwrapProofs
  import opened UnwrapWords

  // ----- the condition

  /**
   A continuation line whose words the block it is folded into does not keep: in a quote, one with a second
   `>` or any at all where the check sees code; elsewhere, one with a quote marker where it sees none.
   */
  predicate Spoils(first: string, line: string, code: bool) {
    if Quote(first).Some? then code || Arrows(LStrip(line)) >= 2 else !code && Quote(line).Some?
  }

  // ----- words without the gaps

  function Glue(words: Lines): string {
    if words == [] then "" else Glue(words[..|words| - 1]) + words[|words| - 1]
  }

  /** A text without its white space. */
  function Dense(s: string): string {
    if s == "" then ""
    else Dense(s[..|s| - 1]) + if White(s[|s| - 1]) then "" else [s[|s| - 1]]
  }

  lemma {:induction false} DenseAppend(a: string, b: string)
    ensures Dense(a + b) == Dense(a) + Dense(b)
  {
    hide White;
    if b == "" {
      assert a + b == a;
    } else {
      var n := |b| - 1;
      DenseAppend(a, b[..n]);
      assert (a + b)[..|a| + n] == a + b[..n] && (a + b)[|a| + n] == b[n];
      Concat(Dense(a), Dense(b[..n]), if White(b[n]) then "" else [b[n]]);
    }
  }

  lemma GluePush(words: Lines, last: string)
    ensures Glue(words + [last]) == Glue(words) + last
  {
    assert (words + [last])[..|words|] == words;
  }

  lemma {:induction false} GlueAppend(a: Lines, b: Lines)
    ensures Glue(a + b) == Glue(a) + Glue(b)
  {
    if b == [] {
      assert a + b == a;
    } else {
      var n := |b| - 1;
      GlueAppend(a, b[..n]);
      PushJoins(a, b);
      GluePush(a + b[..n], b[n]);
      Concat(Glue(a), Glue(b[..n]), b[n]);
    }
  }

  lemma Concat(a: string, b: string, c: string)
    ensures a + (b + c) == a + b + c
  {}

  lemma {:induction false} GlueWords(s: string)
    ensures Glue(Words(s)) == Dense(s)
  {
    hide Words, White, Glue;
    if s == "" {
      NoWords();
    } else {
      var n := |s| - 1;
      var front := s[..n];
      GlueWords(front);
      assert s == front + [s[n]];
      WordsPush(front, s[n]);
      LastWord(front);
      GluePushed(front, s[n]);
    }
  }

  lemma NoWords()
    ensures Words("") == [] && Glue([]) == ""
  {}

  lemma GluePushed(s: string, c: char)
    requires Words(s) != [] || s == "" || White(s[|s| - 1])
    ensures Glue(Pushed(Words(s), s, c)) == Glue(Words(s)) + if White(c) then "" else [c]
  {
    hide Words, White, Glue;
    if White(c) {
      assert Glue(Words(s)) + "" == Glue(Words(s));
    } else if s == "" || White(s[|s| - 1]) {
      GluePush(Words(s), [c]);
    } else {
      GlueExtend(Words(s), c);
    }
  }

  lemma GlueExtend(words: Lines, c: char)
    requires words != []
    ensures Glue(words[..|words| - 1] + [words[|words| - 1] + [c]]) == Glue(words) + [c]
  {
    var front, last := words[..|words| - 1], words[|words| - 1];
    Concat(Glue(front), last, [c]);
    GluePush(front, last + [c]);
  }

  lemma {:induction false} SquashDense(s: string)
    ensures Squash(Dense(s)) == Squash(s)
  {
    if s != "" {
      var n := |s| - 1;
      SquashDense(s[..n]);
      SquashLast(s);
      if White(s[n]) {
        assert Dense(s) == Dense(s[..n]) && Squash(s) == Squash(s[..n]);
      } else {
        SquashAppend(Dense(s[..n]), [s[n]]);
      }
    }
  }

  lemma DenseCut(s: string, m: nat, n: nat)
    requires m <= n <= |s|
    ensures Dense(s[m..]) == Dense(s[m..n]) + Dense(s[n..])
    ensures m < n && !White(s[m]) ==> |Dense(s[n..])| < |Dense(s[m..])|
  {
    assert s[m..] == s[m..n] + s[n..];
    DenseAppend(s[m..n], s[n..]);
    if m < n && !White(s[m]) {
      assert s[m..n] == [s[m]] + s[m + 1..n];
      DenseAppend([s[m]], s[m + 1..n]);
      assert Dense([s[m]]) == [s[m]];
    }
  }

  // ----- drift

  /**
   What the check reads in some lines before and after, where code is open or not. Letters other than `>`
   are the same; outside code `>` are only gained and in code only lost, and then the words differ.
   */
  ghost predicate Drift(u: Lines, v: Lines, code: bool, spoilt: bool) {
    && Squash(Glue(u)) == Squash(Glue(v))
    && (if code then |Glue(v)| <= |Glue(u)| else |Glue(u)| <= |Glue(v)|)
    && (if spoilt then |Glue(u)| != |Glue(v)| else u == v)
  }

  lemma DriftsAdd(u: Lines, v: Lines, p: bool, x: Lines, y: Lines, q: bool, code: bool)
    requires Drift(u, v, code, p) && Drift(x, y, code, q)
    ensures Drift(u + x, v + y, code, p || q)
  {
    GlueAppend(u, x);
    GlueAppend(v, y);
    SquashAppend(Glue(u), Glue(x));
    SquashAppend(Glue(v), Glue(y));
  }

  lemma NoDrift(u: Lines, code: bool)
    ensures Drift(u, u, code, false)
  {}

  /** The drift between the words of two texts. */
  lemma DriftOf(s: string, t: string, code: bool, spoilt: bool)
    requires Squash(s) == Squash(t)
    requires if code then |Dense(t)| <= |Dense(s)| else |Dense(s)| <= |Dense(t)|
    requires if spoilt then |Dense(s)| != |Dense(t)| else Words(s) == Words(t)
    ensures Drift(Words(s), Words(t), code, spoilt)
  {
    GlueWords(s);
    GlueWords(t);
    SquashDense(s);
    SquashDense(t);
  }

  lemma MarksAreDropped(line: string)
    ensures AllDropped(line[..MarkEnd(line)])
    ensures Squash(Unmarked(line)) == Squash(line)
    ensures Quote(line).Some? <==> Arrows(LStrip(line)) > 0
    ensures Quote(line).Some? ==> Lead(line) < MarkEnd(line) && line[Lead(line)] == '>'
  {
    var k := Lead(line);
    LeadIsWhite(line);
    assert forall i :: 0 <= i < Arrows(LStrip(line)) ==> LStrip(line)[i] == line[k + i];
    assert forall i {:trigger line[i]} :: k <= i < k + Arrows(LStrip(line)) ==> line[i] == LStrip(line)[i - k];
    SquashCut(line, MarkEnd(line));
  }

  lemma DenseStrip(s: string)
    ensures Dense(Strip(s)) == Dense(s)
  {
    WordsStrip(s);
    GlueWords(s);
    GlueWords(Strip(s));
  }

  lemma QuoteInCode(line: string)
    requires Quote(line).Some?
    ensures |Dense(Content(line))| < |Dense(line)|
  {
    var k, q := Lead(line), Quote(line).value;
    QuoteIsDropped(line);
    DenseStrip(line[q..]);
    DenseCut(line, 0, k);
    DenseCut(line, k, q);
    assert line[0..] == line;
  }

  lemma QuoteMarks(line: string)
    requires Quote(line).Some?
    ensures Arrows(LStrip(line)) >= 2 ==> |Dense(Unmarked(line))| < |Dense(Content(line))|
    ensures Arrows(LStrip(line)) == 1 ==> Unmarked(line) == Unquoted(line)
  {
    hide White, Dense;
    var k, q := Lead(line), Quote(line).value;
    QuoteIsDropped(line);
    assert k + 1 < |line| ==> LStrip(line)[1] == line[k + 1];
    if Arrows(LStrip(line)) >= 2 {
      ArrowIsNoSpace();
      assert q == k + 1 && line[q] == '>';
      DenseStrip(line[q..]);
      DenseCut(line, q, MarkEnd(line));
    } else {
      ArrowsStop(LStrip(line));
    }
  }

  lemma ArrowIsNoSpace()
    ensures !White('>')
  {}

  lemma {:induction false} ArrowsStop(s: string)
    ensures Arrows(s) < |s| ==> s[Arrows(s)] != '>'
  {
    if s != "" && s[0] == '>' {
      ArrowsStop(s[1..]);
    }
  }

  /** A line folded into a quote. */
  lemma QuoteLineDrifts(line: string, code: bool)
    requires Quote(line).Some? && !IsFence(line)
    ensures Drift(Words(Kept(line, code)), Words(Content(line)), code, code || Arrows(LStrip(line)) >= 2)
  {
    hide Words, Dense, Content, Unquoted, Quote, MarkEnd, Lead;
    MarksAreDropped(line);
    SquashContent(line);
    if code {
      QuoteInCode(line);
    } else {
      QuoteMarks(line);
      if Arrows(LStrip(line)) < 2 {
        ContentWords(line);
      }
    }
    DriftOf(Kept(line, code), Content(line), code, code || Arrows(LStrip(line)) >= 2);
  }

  lemma ContentWords(line: string)
    ensures Words(Content(line)) == Words(Unquoted(line)) && Dense(Content(line)) == Dense(Unquoted(line))
  {
    WordsStrip(Unquoted(line));
    DenseStrip(Unquoted(line));
  }

  /** A line folded into a list item or a paragraph. */
  lemma PlainLineDrifts(line: string, code: bool)
    requires !IsFence(line)
    ensures Drift(Words(Kept(line, code)), Words(Strip(line)), code, !code && Quote(line).Some?)
  {
    MarksAreDropped(line);
    SquashStrip(line);
    DenseStrip(line);
    WordsStrip(line);
    if !code && Quote(line).Some? {
      var k, m := Lead(line), MarkEnd(line);
      DenseCut(line, 0, k);
      DenseCut(line, k, m);
      assert line[0..] == line;
    } else if !code {
      assert MarkEnd(line) == 0;
    }
    DriftOf(Kept(line, code), Strip(line), code, !code && Quote(line).Some?);
  }

  // ----- what stands in front

  predicate Nonblank(s: string) {
    Lead(s) < |s|
  }

  /** What may follow without joining on to the last word. */
  predicate Spaced(t: string) {
    t == "" || White(t[0])
  }

  lemma {:induction false} LeadAppend(s: string, t: string)
    requires Nonblank(s)
    ensures Lead(s + t) == Lead(s) && LStrip(s + t) == LStrip(s) + t
  {
    if White(s[0]) {
      LeadAppend(s[1..], t);
      assert (s + t)[1..] == s[1..] + t;
    }
    LeadIsWhite(s);
  }

  lemma {:induction false} ArrowsAppend(s: string, t: string)
    requires Spaced(t)
    ensures Arrows(s + t) == Arrows(s)
  {
    if s == "" {
      assert s + t == t;
    } else if s[0] == '>' {
      ArrowsAppend(s[1..], t);
      assert (s + t)[1..] == s[1..] + t;
    }
  }

  lemma FenceAppend(s: string, t: string)
    requires Nonblank(s) && Spaced(t)
    ensures IsFence(s + t) == IsFence(s)
  {
    LeadAppend(s, t);
    PrefixAppend(LStrip(s), t, "```");
    PrefixAppend(LStrip(s), t, "~~~");
  }

  lemma PrefixAppend(s: string, t: string, p: string)
    requires Spaced(t) && forall i :: 0 <= i < |p| ==> !White(p[i])
    ensures StartsWith(s + t, p) == StartsWith(s, p)
  {
    if |s| < |p| <= |s + t| {
      assert (s + t)[|s|] == t[0];
    }
    if StartsWith(s, p) {
      assert forall i :: 0 <= i < |p| ==> (s + t)[i] == s[i] == p[i];
      assert (s + t)[..|p|] == s[..|p|];
    } else if |p| <= |s| {
      assert (s + t)[..|p|] == s[..|p|];
    }
  }

  /** Words that follow on a line are kept as they are. */
  lemma KeptJoin(s: string, t: string, code: bool)
    requires Nonblank(s) && Spaced(t) && !IsFence(s)
    ensures !IsFence(s + t) && Words(Kept(s + t, code)) == Words(Kept(s, code)) + Words(t)
  {
    FenceAppend(s, t);
    if code {
      WordsAppend(s, t);
    } else {
      MarkEndAppend(s, t);
      CutApart(s, t, MarkEnd(s), MarkEnd(s + t));
    }
  }

  lemma MarkEndAppend(s: string, t: string)
    requires Nonblank(s) && Spaced(t)
    ensures MarkEnd(s + t) == MarkEnd(s) || (MarkEnd(s) == |s| < |s + t| && MarkEnd(s + t) == |s| + 1)
  {
    LeadAppend(s, t);
    ArrowsAppend(LStrip(s), t);
    var e := Lead(s) + Arrows(LStrip(s));
    assert e < |s| ==> (s + t)[e] == s[e];
    assert e == |s| < |s + t| ==> (s + t)[e] == t[0];
  }

  lemma CutApart(s: string, t: string, m: nat, n: nat)
    requires Spaced(t) && m <= |s| && n <= |s + t| && (n == m || (m == |s| && n == |s| + 1))
    ensures Words((s + t)[n..]) == Words(s[m..]) + Words(t)
  {
    if n == m {
      assert (s + t)[m..] == s[m..] + t;
      WordsAppend(s[m..], t);
    } else {
      assert (s + t)[n..] == t[1..] && t == [t[0]] + t[1..];
      WordsOfBlank([t[0]]);
      WordsAppend([t[0]], t[1..]);
    }
  }

  lemma {:induction false} RStripTail(s: string) returns (t: string)
    ensures s == RStrip(s) + t && Spaced(t) && forall i :: 0 <= i < |t| ==> White(t[i])
  {
    if s != "" && White(s[|s| - 1]) {
      var rest := RStripTail(s[..|s| - 1]);
      t := rest + [s[|s| - 1]];
    } else {
      t := "";
    }
  }

  lemma {:induction false} BlankIsLead(s: string)
    requires forall i :: 0 <= i < |s| ==> White(s[i])
    ensures Lead(s) == |s|
  {
    if s != "" {
      BlankIsLead(s[1..]);
    }
  }

  lemma {:induction false} LeadBlankAppend(s: string, t: string)
    requires Lead(s) == |s|
    ensures Lead(s + t) == |s| + Lead(t)
  {
    if s == "" {
      assert s + t == t;
    } else {
      LeadBlankAppend(s[1..], t);
      assert (s + t)[1..] == s[1..] + t;
    }
  }

  lemma RStripKeeps(s: string, code: bool)
    requires Nonblank(s) && !IsFence(s)
    ensures Nonblank(RStrip(s)) && !IsFence(RStrip(s)) && Words(Kept(RStrip(s), code)) == Words(Kept(s, code))
  {
    var t := RStripTail(s);
    BlankIsLead(t);
    if !Nonblank(RStrip(s)) {
      LeadBlankAppend(RStrip(s), t);
    }
    FenceAppend(RStrip(s), t);
    KeptJoin(RStrip(s), t, code);
    WordsOfBlank(t);
  }

  // ----- folding

  /** What `" ".join` puts after the first part. */
  function Tail(parts: Lines): string {
    if parts == [] then "" else Tail(parts[..|parts| - 1]) + " " + parts[|parts| - 1]
  }

  lemma {:induction false} JoinTail(head: string, parts: Lines)
    ensures Join([head] + parts) == head + Tail(parts)
  {
    if parts == [] {
      assert [head] + parts == [head];
    } else {
      var n := |parts| - 1;
      var front := parts[..n];
      JoinTail(head, front);
      assert [head] + parts == [head] + front + [parts[n]];
      JoinPush([head] + front, parts[n]);
      Concat(head, Tail(front), " ");
      Concat(head, Tail(front) + " ", parts[n]);
    }
  }

  lemma JoinPush(parts: Lines, last: string)
    requires parts != []
    ensures Join(parts + [last]) == Join(parts) + " " + last
  {
    assert (parts + [last])[..|parts|] == parts;
  }

  lemma {:induction false} WordsTail(parts: Lines)
    ensures Spaced(Tail(parts)) && Words(Tail(parts)) == WordsOf(parts)
  {
    if parts != [] {
      var n := |parts| - 1;
      WordsTail(parts[..n]);
      WordsAppend(Tail(parts[..n]), " ");
      WordsOfBlank(" ");
      WordsAppend(Tail(parts[..n]) + " ", parts[n]);
    }
  }

  lemma {:induction false} WordsNonEmpty(parts: Lines)
    ensures WordsOf(NonEmpty(parts)) == WordsOf(parts)
  {
    if parts != [] {
      var n := |parts| - 1;
      WordsNonEmpty(parts[..n]);
      if parts[n] == "" {
        assert NonEmpty(parts) == NonEmpty(parts[..n]);
      } else {
        WordsOfPush(NonEmpty(parts[..n]), parts[n]);
      }
    }
  }

  lemma {:induction false} NonEmptyHead(head: string, parts: Lines)
    requires head != ""
    ensures NonEmpty([head] + parts) == [head] + NonEmpty(parts)
  {
    if parts == [] {
      assert [head] + parts == [head];
      assert [head][..0] == [];
    } else {
      var n := |parts| - 1;
      NonEmptyHead(head, parts[..n]);
      assert ([head] + parts)[..n + 1] == [head] + parts[..n];
    }
  }

  predicate AnySpoils(first: string, rest: Lines, code: bool) {
    exists k :: 0 <= k < |rest| && Spoils(first, rest[k], code)
  }

  /** What a continuation line adds to the block. */
  ghost predicate Fits(first: string, part: string -> string, line: string, code: bool) {
    !IsFence(line) && Drift(Words(Kept(line, code)), Words(part(line)), code, Spoils(first, line, code))
  }

  lemma {:induction false} RestDrifts(first: string, part: string -> string, rest: Lines, code: bool)
    requires forall k :: 0 <= k < |rest| ==> Fits(first, part, rest[k], code)
    ensures InCode(rest, code) == code
    ensures Drift(Read(rest, code), WordsOf(Parts(part, rest)), code, AnySpoils(first, rest, code))
  {
    hide Words, Kept, Spoils, IsFence, Drift, Read, AnySpoils;
    if rest == [] {
      NothingRead(first, code);
    } else {
      var n := |rest| - 1;
      var front, last := rest[..n], rest[n];
      RestDrifts(first, part, front, code);
      assert Fits(first, part, last, code);
      RestStep(first, front, last, code);
      WordsOfPush(Parts(part, front), part(last));
      DriftsAdd(Read(front, code), WordsOf(Parts(part, front)), AnySpoils(first, front, code),
                Words(Kept(last, code)), Words(part(last)), Spoils(first, last, code), code);
      assert rest == front + [last];
    }
  }

  lemma NothingRead(first: string, code: bool)
    ensures Read([], code) == [] && !AnySpoils(first, [], code) && Drift([], [], code, false)
  {}

  lemma RestStep(first: string, front: Lines, last: string, code: bool)
    requires InCode(front, code) == code && !IsFence(last)
    ensures InCode(front + [last], code) == code
    ensures Read(front + [last], code) == Read(front, code) + Words(Kept(last, code))
    ensures AnySpoils(first, front + [last], code) == (AnySpoils(first, front, code) || Spoils(first, last, code))
  {
    hide Read, Words, Kept, Spoils;
    ReadAppend(front, [last], code);
    ReadOne(last, code);
    AnySpoilsPush(first, front, last, code);
  }

  lemma AnySpoilsPush(first: string, front: Lines, last: string, code: bool)
    ensures AnySpoils(first, front + [last], code) <==> AnySpoils(first, front, code) || Spoils(first, last, code)
  {
    var rest := front + [last];
    assert forall k :: 0 <= k < |front| ==> rest[k] == front[k];
    assert rest[|front|] == last;
  }

  /** A block that becomes one line: its first line's words, then what the parts add. */
  lemma FoldDrifts(line: string, head: string, part: string -> string, rest: Lines, parts: Lines, code: bool)
    requires !IsFence(line) && Nonblank(head) && !IsFence(head)
    requires Words(Kept(head, code)) == Words(Kept(line, code))
    requires forall k :: 0 <= k < |rest| ==> Fits(line, part, rest[k], code)
    requires WordsOf(parts) == WordsOf(Parts(part, rest))
    ensures InCode([line] + rest, code) == code && InCode([head + Tail(parts)], code) == code
    ensures Drift(Read([line] + rest, code), Read([head + Tail(parts)], code), code, AnySpoils(line, rest, code))
  {
    ReadOne(line, code);
    ReadAppend([line], rest, code);
    RestDrifts(line, part, rest, code);
    WordsTail(parts);
    KeptJoin(head, Tail(parts), code);
    ReadOne(head + Tail(parts), code);
    NoDrift(Words(Kept(line, code)), code);
    DriftsAdd(Words(Kept(line, code)), Words(Kept(line, code)), false,
              Read(rest, code), WordsOf(parts), AnySpoils(line, rest, code), code);
  }

  lemma {:induction false} EndGoesOn(goesOn: string -> bool, lines: Lines, i: nat)
    requires i <= |lines|
    ensures forall k :: i <= k < End(goesOn, lines, i) ==> goesOn(lines[k])
    ensures End(goesOn, lines, i) < |lines| ==> !goesOn(lines[End(goesOn, lines, i)])
    decreases |lines| - i
  {
    if i < |lines| && goesOn(lines[i]) {
      EndGoesOn(goesOn, lines, i + 1);
    }
  }

  lemma {:induction false} LeadStops(s: string)
    ensures Nonblank(s) ==> !White(s[Lead(s)])
  {
    if s != "" && White(s[0]) {
      LeadStops(s[1..]);
    }
  }

  lemma StripNonblank(s: string)
    requires Strip(s) != ""
    ensures Nonblank(s) && Nonblank(Strip(s))
  {
    LeadStops(s);
    var t := RStripTail(LStrip(s));
    assert Strip(s)[0] == LStrip(s)[0];
  }

  lemma QuotedIsNonblank(p: string, t: string)
    requires Lead(p) == |p|
    ensures Nonblank(p + ">" + t) && !IsFence(p + ">" + t)
  {
    LeadBlankAppend(p, ">");
    LeadAppend(p + ">", t);
    assert LStrip(p + ">" + t)[0] == '>';
  }

  lemma MarkSpaced(p: string, t: string)
    requires Lead(p) == |p| && t != "" && White(t[0])
    ensures var line := p + ">" + t;
      Quote(line) == Some(|p| + 2) && MarkEnd(line) == |p| + 2 && !IsFence(line)
  {
    hide White, Lead, Arrows, Fence;
    var s := p + ">";
    LeadBlankAppend(p, ">");
    assert Lead(">") == 0 by {
      BareArrow();
    }
    LeadAppend(s, t);
    assert LStrip(s) == ">" && LStrip(s + t) == ">" + t;
    OneArrow(t);
    assert (s + t)[|p|] == '>' && (s + t)[|s|] == t[0];
    QuotedIsNonblank(p, t);
  }

  lemma BareArrow()
    ensures Lead(">") == 0 && !IsFence(">") && Arrows(">") == 1
  {}

  lemma OneArrow(t: string)
    requires t != "" && White(t[0])
    ensures Arrows(">" + t) == 1
  {
    ArrowsAppend(">", t);
  }

  lemma QuoteHeadShape(line: string) returns (w: string)
    requires Quote(line).Some? && Content(line) != ""
    ensures Nonblank(Marker(line) + Content(line)) && !IsFence(Marker(line) + Content(line))
    ensures Spaced(w) && Words(w) == [] && Marker(line) + Content(line) + w == Marker(line) + LStrip(Unquoted(line))
  {
    hide Words, Content, Fence, Lead;
    var k, q := Lead(line), Quote(line).value;
    var p := line[..k];
    LeadIsWhite(line);
    BlankIsLead(p);
    assert Marker(line) == p + ">" + line[k + 1..q];
    Concat(p + ">", line[k + 1..q], Content(line));
    QuotedIsNonblank(p, line[k + 1..q] + Content(line));
    w := ContentTail(line);
    Concat(Marker(line), Content(line), w);
  }

  lemma ContentTail(line: string) returns (w: string)
    ensures Spaced(w) && Words(w) == [] && Content(line) + w == LStrip(Unquoted(line))
  {
    w := RStripTail(LStrip(Unquoted(line)));
    WordsOfBlank(w);
  }

  /** The words of a quote's first line are those of its marker and its text. */
  lemma QuoteHeadKeeps(line: string, code: bool)
    requires Quote(line).Some? && Content(line) != ""
    ensures var head := Marker(line) + Content(line);
      Nonblank(head) && !IsFence(head) && Words(Kept(head, code)) == Words(Kept(line, code))
  {
    hide Words, Quote, Content, Marker, Fence, Lead, Kept, Unquoted;
    var w := QuoteHeadShape(line);
    KeptJoin(Marker(line) + Content(line), w, code);
    MarkerApart(line, code);
  }

  lemma MarkerApart(line: string, code: bool)
    requires Quote(line).Some?
    ensures Words(Kept(Marker(line) + LStrip(Unquoted(line)), code)) == Words(Kept(line, code))
  {
    hide Words, Kept, Lead;
    var k, q := Lead(line), Quote(line).value;
    var p, r := line[..k], line[q..];
    if Lead(r) == 0 {
      assert Marker(line) + LStrip(r) == line;
    } else {
      LeadIsWhite(line);
      LeadIsWhite(r);
      BlankIsLead(p);
      assert White(line[q]);
      assert line == p + ">" + ([line[k + 1]] + r);
      assert Marker(line) + LStrip(r) == p + ">" + ([line[k + 1]] + LStrip(r));
      GapKeeps(p, line[k + 1], r, code);
    }
  }

  lemma GapKeeps(p: string, w: char, r: string, code: bool)
    requires Lead(p) == |p| && White(w)
    ensures Words(Kept(p + ">" + ([w] + LStrip(r)), code)) == Words(Kept(p + ">" + ([w] + r), code))
  {
    hide *;
    WordsLStrip(r);
    MarkedWords(p, w, r, code);
    MarkedWords(p, w, LStrip(r), code);
  }

  lemma MarkedWords(p: string, w: char, r: string, code: bool)
    requires Lead(p) == |p| && White(w)
    ensures Words(Kept(p + ">" + ([w] + r), code)) == (if code then Words(p + ">" + [w]) else []) + Words(r)
  {
    hide Words, White, Lead, Fence, MarkEnd, Quote;
    var line := p + ">" + ([w] + r);
    MarkSpaced(p, [w] + r);
    WordsAppend(p + ">" + [w], r);
    Concat(p + ">", [w], r);
    assert line[|p| + 2..] == r;
    assert code || Kept(line, code) == r;
  }

  lemma QuoteFits(line: string, rest: Lines, code: bool)
    requires Quote(line).Some? && forall k :: 0 <= k < |rest| ==> Quote(rest[k]).Some?
    ensures forall k :: 0 <= k < |rest| ==> Fits(line, Content, rest[k], code)
  {
    hide Drift, Words, Content;
    forall k | 0 <= k < |rest| ensures Fits(line, Content, rest[k], code) {
      QuoteIsNoFence(rest[k]);
      QuoteLineDrifts(rest[k], code);
    }
  }

  lemma QuoteFold(line: string, rest: Lines, parts: Lines, code: bool)
    requires Quote(line).Some? && Content(line) != ""
    requires forall k :: 0 <= k < |rest| ==> Quote(rest[k]).Some?
    requires WordsOf(parts) == WordsOf(Parts(Content, rest))
    ensures var head := Marker(line) + Content(line);
      && InCode([line] + rest, code) == code && InCode([head + Tail(parts)], code) == code
      && Drift(Read([line] + rest, code), Read([head + Tail(parts)], code), code, AnySpoils(line, rest, code))
  {
    hide Drift, Words, Content, Marker, Read, Fits, Quote;
    QuoteIsNoFence(line);
    QuoteFits(line, rest, code);
    QuoteHeadKeeps(line, code);
    FoldDrifts(line, Marker(line) + Content(line), Content, rest, parts, code);
  }

  lemma QuoteBlockDrifts(g: Grammar, lines: Lines, i: nat, code: bool)
    requires i < |lines| && !IsFence(lines[i]) && Quote(lines[i]).Some?
    requires Content(lines[i]) != "" && !g.alert(Content(lines[i]))
    ensures var b := QuoteBlock(g, lines, i);
      BlockDrifts(lines, i, b, code)
  {
    hide Read, Drift, AnySpoils, Lead, InCode, NonEmpty, Join, WordsOf, Parts, Fence, Content, Marker, Quote;
    var line, j := lines[i], End(QuoteGoes(g), lines, i + 1);
    var rest := lines[i + 1..j];
    EndGoesOn(QuoteGoes(g), lines, i + 1);
    assert forall k :: 0 <= k < |rest| ==> rest[k] == lines[i + 1 + k] && QuoteGoes(g)(lines[i + 1 + k]);
    var parts := Parts(Content, rest);
    WordsNonEmpty(parts);
    PlainJoin(Content(line), parts);
    Concat(Marker(line), Content(line), Tail(NonEmpty(parts)));
    RangeHead(lines, i, j);
    QuoteFold(line, rest, NonEmpty(parts), code);
  }

  lemma QuoteIsNoFence(line: string)
    requires Quote(line).Some?
    ensures !IsFence(line)
  {}

  /** What a block does to the words the check reads. */
  ghost predicate BlockDrifts(lines: Lines, i: nat, b: Block, code: bool)
    requires i < b.next <= |lines|
  {
    && InCode(lines[i..b.next], code) == code
    && InCode(b.emitted, code) == code
    && Drift(Read(lines[i..b.next], code), Read(b.emitted, code), code,
             AnySpoils(lines[i], lines[i + 1..b.next], code))
  }

  lemma PlainFits(line: string, rest: Lines, code: bool)
    requires Quote(line).None? && forall k :: 0 <= k < |rest| ==> !IsFence(rest[k])
    ensures forall k :: 0 <= k < |rest| ==> Fits(line, Strip, rest[k], code)
  {
    forall k | 0 <= k < |rest| ensures Fits(line, Strip, rest[k], code) {
      PlainLineDrifts(rest[k], code);
    }
  }

  lemma PlainFold(line: string, rest: Lines, parts: Lines, code: bool)
    requires Nonblank(line) && !IsFence(line) && Quote(line).None?
    requires forall k :: 0 <= k < |rest| ==> !IsFence(rest[k])
    requires WordsOf(parts) == WordsOf(Parts(Strip, rest))
    ensures InCode([line] + rest, code) == code && InCode([RStrip(line) + Tail(parts)], code) == code
    ensures Drift(Read([line] + rest, code), Read([RStrip(line) + Tail(parts)], code), code,
                  AnySpoils(line, rest, code))
  {
    PlainFits(line, rest, code);
    RStripKeeps(line, code);
    FoldDrifts(line, RStrip(line), Strip, rest, parts, code);
  }

  lemma ItemBlockDrifts(g: Grammar, lines: Lines, i: nat, indent: nat, code: bool)
    requires i < |lines| && !IsFence(lines[i]) && Quote(lines[i]).None? && Nonblank(lines[i])
    ensures var j := End(ItemGoes(g, indent), lines, i + 1);
      BlockDrifts(lines, i, Block([Join(Folded(RStrip(lines[i]), Strip, lines, i, j))], j), code)
  {
    hide Read, Drift, AnySpoils, Structural, Quote, Bullet, Lead, InCode, RStrip, Fence, Join, Parts, Tail;
    var line, j := lines[i], End(ItemGoes(g, indent), lines, i + 1);
    var rest := lines[i + 1..j];
    EndGoesOn(ItemGoes(g, indent), lines, i + 1);
    assert forall k :: 0 <= k < |rest| ==> rest[k] == lines[i + 1 + k] && ItemGoes(g, indent)(lines[i + 1 + k]);
    JoinTail(RStrip(line), Parts(Strip, rest));
    RangeHead(lines, i, j);
    PlainFold(line, rest, Parts(Strip, rest), code);
  }

  lemma ParagraphBlockDrifts(g: Grammar, lines: Lines, i: nat, code: bool)
    requires i < |lines| && !IsFence(lines[i]) && Quote(lines[i]).None? && Nonblank(lines[i])
    ensures var j := End(ParagraphGoes(g), lines, i + 1);
      BlockDrifts(lines, i, Block([Join(NonEmpty(Folded(RStrip(lines[i]), Strip, lines, i, j)))], j), code)
  {
    hide Read, Drift, AnySpoils, Structural, Quote, Bullet, Lead, InCode, RStrip, NonEmpty, Join, WordsOf, Parts,
         Fence, Tail, LStrip;
    var line, j := lines[i], End(ParagraphGoes(g), lines, i + 1);
    var rest := lines[i + 1..j];
    EndGoesOn(ParagraphGoes(g), lines, i + 1);
    assert forall k :: 0 <= k < |rest| ==> rest[k] == lines[i + 1 + k] && ParagraphGoes(g)(lines[i + 1 + k]);
    var parts := Parts(Strip, rest);
    WordsNonEmpty(parts);
    RangeHead(lines, i, j);
    RStripNonblank(line);
    PlainJoin(RStrip(line), parts);
    PlainFold(line, rest, NonEmpty(parts), code);
  }

  lemma RStripNonblank(line: string)
    requires Nonblank(line) && !IsFence(line)
    ensures RStrip(line) != ""
  {
    RStripKeeps(line, true);
  }

  lemma PlainJoin(head: string, parts: Lines)
    requires head != ""
    ensures Join(NonEmpty([head] + parts)) == head + Tail(NonEmpty(parts))
  {
    NonEmptyHead(head, parts);
    JoinTail(head, NonEmpty(parts));
  }

  lemma OneLineDrifts(lines: Lines, i: nat, text: string, code: bool)
    requires i < |lines| && !IsFence(lines[i]) && !IsFence(text)
    requires Words(Kept(text, code)) == Words(Kept(lines[i], code))
    ensures BlockDrifts(lines, i, Block([text], i + 1), code)
  {
    assert lines[i..i + 1] == [lines[i]];
    ReadOne(lines[i], code);
    ReadOne(text, code);
    NoDrift(Words(Kept(text, code)), code);
  }

  lemma BlockDriftsAt(g: Grammar, lines: Lines, i: nat, code: bool)
    requires i < |lines| && !IsFence(lines[i])
    ensures BlockDrifts(lines, i, BlockAt(g, lines, i), code)
  {
    var line := lines[i];
    if Structural(g, line) {
      OneLineDrifts(lines, i, line, code);
    } else {
      StripNonblank(line);
      if Quote(line).Some? {
        if Content(line) == "" || g.alert(Content(line)) {
          RStripKeeps(line, code);
          OneLineDrifts(lines, i, RStrip(line), code);
        } else {
          QuoteBlockDrifts(g, lines, i, code);
        }
      } else if Bullet(g, line).Some? {
        ItemBlockDrifts(g, lines, i, Bullet(g, line).value, code);
      } else {
        ParagraphBlockDrifts(g, lines, i, code);
      }
    }
  }
}
