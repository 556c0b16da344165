/**
 What unwrapping keeps: every character but white space and quote markers, in order; the number of
 lines never grows; frontmatter and fenced code pass through line for line.
 */
module UnwrapProofs {
  import opened Unwrap

  predicate Dropped(c: char) {
    White(c) || c == '>'
  }

  /** A text without its white space and its `>`. */
  function Squash(s: string): string {
    if s == "" then ""
    else Squash(s[..|s| - 1]) + if Dropped(s[|s| - 1]) then "" else [s[|s| - 1]]
  }

  function SquashAll(lines: Lines): string {
    if lines == [] then "" else SquashAll(lines[..|lines| - 1]) + Squash(lines[|lines| - 1])
  }

  // ----- pieces

  lemma {:induction false} SquashAppend(a: string, b: string)
    ensures Squash(a + b) == Squash(a) + Squash(b)
  {
    if b == "" {
      assert a + b == a;
    } else {
      var n := |b| - 1;
      SquashAppend(a, b[..n]);
      assert (a + b)[..|a| + n] == a + b[..n];
    }
  }

  lemma {:induction false} SquashAllAppend(a: Lines, b: Lines)
    ensures SquashAll(a + b) == SquashAll(a) + SquashAll(b)
  {
    if b == [] {
      assert a + b == a;
    } else {
      var n := |b| - 1;
      SquashAllAppend(a, b[..n]);
      assert a + b == (a + b[..n]) + [b[n]] && b == b[..n] + [b[n]];
      SquashAllPush(a + b[..n], b[n]);
      SquashAllPush(b[..n], b[n]);
    }
  }

  lemma SquashAllPush(lines: Lines, last: string)
    ensures SquashAll(lines + [last]) == SquashAll(lines) + Squash(last)
  {
    assert (lines + [last])[..|lines|] == lines;
  }

  lemma SquashOne(s: string)
    ensures SquashAll([s]) == Squash(s)
  {
    assert [s][..0] == [];
  }

  predicate AllDropped(s: string) {
    forall i :: 0 <= i < |s| ==> Dropped(s[i])
  }

  lemma {:induction false} SquashNothing(s: string)
    requires AllDropped(s)
    ensures Squash(s) == ""
  {
    if s != "" {
      SquashNothing(s[..|s| - 1]);
    }
  }

  lemma {:induction false} LeadIsWhite(s: string)
    ensures forall i :: 0 <= i < Lead(s) ==> White(s[i])
  {
    if s != "" && White(s[0]) {
      LeadIsWhite(s[1..]);
      assert forall i :: 1 <= i < Lead(s) ==> s[i] == s[1..][i - 1];
    }
  }

  lemma SquashCut(s: string, k: nat)
    requires k <= |s| && AllDropped(s[..k])
    ensures Squash(s[k..]) == Squash(s)
  {
    CutJoins(s, k);
    SquashDropped(s[..k], s[k..], s);
  }

  lemma SquashDropped(a: string, b: string, s: string)
    requires s == a + b && AllDropped(a)
    ensures Squash(s) == Squash(b)
  {
    SquashNothing(a);
    SquashAppend(a, b);
  }

  lemma CutJoins(s: string, k: nat)
    requires k <= |s|
    ensures s == s[..k] + s[k..]
  {}

  lemma SquashJoined(a: string, b: string, s: string)
    requires s == a + b
    ensures Squash(s) == Squash(a) + Squash(b)
  {
    SquashAppend(a, b);
  }

  lemma {:induction false} SquashRStrip(s: string)
    ensures Squash(RStrip(s)) == Squash(s)
  {
    if s != "" && White(s[|s| - 1]) {
      SquashRStrip(s[..|s| - 1]);
    }
  }

  lemma SquashStrip(s: string)
    ensures Squash(Strip(s)) == Squash(s)
  {
    LeadIsWhite(s);
    SquashCut(s, Lead(s));
    SquashRStrip(LStrip(s));
  }

  lemma QuoteIsDropped(s: string)
    requires Quote(s).Some?
    ensures Quote(s).value <= |s| && AllDropped(s[..Quote(s).value])
  {
    LeadIsWhite(s);
  }

  lemma SquashUnquoted(s: string)
    ensures Squash(Unquoted(s)) == Squash(s) && Squash(Marker(s)) == ""
  {
    if Quote(s).Some? {
      QuoteIsDropped(s);
      SquashCut(s, Quote(s).value);
      SquashNothing(Marker(s));
    }
  }

  lemma SquashContent(s: string)
    ensures Squash(Content(s)) == Squash(s)
  {
    SquashUnquoted(s);
    SquashStrip(Unquoted(s));
  }

  lemma {:induction false} SquashJoin(parts: Lines)
    ensures Squash(Join(parts)) == SquashAll(parts)
  {
    if |parts| == 1 {
      SquashOne(parts[0]);
      assert parts == [parts[0]];
    } else if |parts| > 1 {
      var n := |parts| - 1;
      SquashJoin(parts[..n]);
      SquashAppend(Join(parts[..n]) + " ", parts[n]);
      SquashAppend(Join(parts[..n]), " ");
      SquashNothing(" ");
    }
  }

  lemma {:induction false} SquashNonEmpty(parts: Lines)
    ensures SquashAll(NonEmpty(parts)) == SquashAll(parts)
  {
    if parts != [] {
      var n := |parts| - 1;
      SquashNonEmpty(parts[..n]);
      if parts[n] == "" {
        assert NonEmpty(parts) == NonEmpty(parts[..n]);
      } else {
        SquashAllAppend(NonEmpty(parts[..n]), [parts[n]]);
        SquashOne(parts[n]);
      }
    }
  }

  lemma {:induction false} SquashParts(part: string -> string, lines: Lines)
    requires forall s: string :: Squash(part(s)) == Squash(s)
    ensures SquashAll(Parts(part, lines)) == SquashAll(lines)
  {
    if lines != [] {
      var n := |lines| - 1;
      SquashParts(part, lines[..n]);
      SquashAllAppend(Parts(part, lines[..n]), [part(lines[n])]);
      SquashOne(part(lines[n]));
    }
  }

  lemma SquashFolded(first: string, part: string -> string, lines: Lines, i: nat, j: nat)
    requires i < j <= |lines| && Squash(first) == Squash(lines[i])
    requires forall s: string :: Squash(part(s)) == Squash(s)
    ensures SquashAll(Folded(first, part, lines, i, j)) == SquashAll(lines[i..j])
  {
    var rest := lines[i + 1..j];
    RangeHead(lines, i, j);
    SquashParts(part, rest);
    SquashHead(first, Parts(part, rest));
    SquashHead(lines[i], rest);
  }

  lemma RangeHead(lines: Lines, i: nat, j: nat)
    requires i < j <= |lines|
    ensures lines[i..j] == [lines[i]] + lines[i + 1..j]
  {}

  lemma SquashHead(first: string, rest: Lines)
    ensures SquashAll([first] + rest) == Squash(first) + SquashAll(rest)
  {
    SquashAllAppend([first], rest);
    SquashOne(first);
  }

  // ----- blocks

  /** A block's output stands for exactly the lines it consumes, in no more lines. */
  ghost predicate Faithful(lines: Lines, i: nat, b: Block)
    requires i <= b.next <= |lines|
  {
    SquashAll(b.emitted) == SquashAll(lines[i..b.next]) && 1 <= |b.emitted| <= b.next - i
  }

  lemma OneLine(lines: Lines, i: nat, text: string)
    requires i < |lines| && Squash(text) == Squash(lines[i])
    ensures Faithful(lines, i, Block([text], i + 1))
  {
    SquashOne(text);
    SquashOne(lines[i]);
    assert lines[i..i + 1] == [lines[i]];
  }

  lemma QuoteBlockFaithful(g: Grammar, lines: Lines, i: nat)
    requires i < |lines|
    ensures Faithful(lines, i, QuoteBlock(g, lines, i))
  {
    var line := lines[i];
    if Content(line) == "" || g.alert(Content(line)) {
      SquashRStrip(line);
      OneLine(lines, i, RStrip(line));
    } else {
      var j := End(QuoteGoes(g), lines, i + 1);
      var parts := Folded(Content(line), Content, lines, i, j);
      SquashContents(line);
      SquashFolded(Content(line), Content, lines, i, j);
      JoinFaithful(Marker(line), parts, lines, i, j);
    }
  }

  lemma SquashContents(line: string)
    ensures Squash(Marker(line)) == ""
    ensures forall s: string :: Squash(Content(s)) == Squash(s)
  {
    SquashUnquoted(line);
    forall s: string ensures Squash(Content(s)) == Squash(s) {
      SquashContent(s);
    }
  }

  lemma SquashStrips()
    ensures forall s: string :: Squash(Strip(s)) == Squash(s)
  {
    forall s: string ensures Squash(Strip(s)) == Squash(s) {
      SquashStrip(s);
    }
  }

  lemma JoinFaithful(marker: string, parts: Lines, lines: Lines, i: nat, j: nat)
    requires i < j <= |lines| && Squash(marker) == "" && SquashAll(parts) == SquashAll(lines[i..j])
    ensures Faithful(lines, i, Block([marker + Join(NonEmpty(parts))], j))
  {
    SquashNonEmpty(parts);
    SquashJoin(NonEmpty(parts));
    SquashAppend(marker, Join(NonEmpty(parts)));
    SquashOne(marker + Join(NonEmpty(parts)));
  }

  lemma ItemFaithful(g: Grammar, lines: Lines, i: nat, indent: nat)
    requires i < |lines|
    ensures var j := End(ItemGoes(g, indent), lines, i + 1);
      Faithful(lines, i, Block([Join(Folded(RStrip(lines[i]), Strip, lines, i, j))], j))
  {
    var j := End(ItemGoes(g, indent), lines, i + 1);
    var parts := Folded(RStrip(lines[i]), Strip, lines, i, j);
    SquashRStrip(lines[i]);
    SquashStrips();
    SquashFolded(RStrip(lines[i]), Strip, lines, i, j);
    SquashJoin(parts);
    SquashOne(Join(parts));
  }

  lemma ParagraphFaithful(g: Grammar, lines: Lines, i: nat)
    requires i < |lines|
    ensures var j := End(ParagraphGoes(g), lines, i + 1);
      Faithful(lines, i, Block([Join(NonEmpty(Folded(RStrip(lines[i]), Strip, lines, i, j)))], j))
  {
    var j := End(ParagraphGoes(g), lines, i + 1);
    var parts := Folded(RStrip(lines[i]), Strip, lines, i, j);
    SquashRStrip(lines[i]);
    SquashStrips();
    SquashFolded(RStrip(lines[i]), Strip, lines, i, j);
    JoinFaithful("", parts, lines, i, j);
    assert "" + Join(NonEmpty(parts)) == Join(NonEmpty(parts));
  }

  lemma BlockFaithful(g: Grammar, lines: Lines, i: nat)
    requires i < |lines|
    ensures Faithful(lines, i, BlockAt(g, lines, i))
  {
    var line := lines[i];
    if Fence(line).Some? {
    } else if Structural(g, line) {
      OneLine(lines, i, line);
    } else if Quote(line).Some? {
      QuoteBlockFaithful(g, lines, i);
    } else if Bullet(g, line).Some? {
      ItemFaithful(g, lines, i, Bullet(g, line).value);
    } else {
      ParagraphFaithful(g, lines, i);
    }
  }

  // ----- the whole text

  lemma {:induction false} FromFaithful(g: Grammar, lines: Lines, i: nat)
    requires i <= |lines|
    ensures SquashAll(UnwrappedFrom(g, lines, i)) == SquashAll(lines[i..])
    ensures |UnwrappedFrom(g, lines, i)| <= |lines| - i
    decreases |lines| - i
  {
    if i < |lines| {
      var b := BlockAt(g, lines, i);
      BlockFaithful(g, lines, i);
      FromFaithful(g, lines, b.next);
      assert lines[i..] == lines[i..|lines|] && lines[b.next..] == lines[b.next..|lines|];
      JoinRanges(lines, i, b.next, |lines|, b.emitted, UnwrappedFrom(g, lines, b.next));
    }
  }

  /** Main result: for every input the text survives, white space and `>` aside, in no more lines. */
  lemma UnwrapConserves(g: Grammar, lines: Lines)
    ensures SquashAll(Unwrapped(g, lines)) == SquashAll(lines)
    ensures |Unwrapped(g, lines)| <= |lines|
  {
    var i := FrontEnd(lines);
    FromFaithful(g, lines, i);
    assert lines[..i] == lines[0..i] && lines[i..] == lines[i..|lines|] && lines == lines[0..|lines|];
    JoinRanges(lines, 0, i, |lines|, lines[..i], UnwrappedFrom(g, lines, i));
  }

  /** `i` is where some block starts, counting blocks from line `s`. */
  ghost predicate BlockStart(g: Grammar, lines: Lines, s: nat, i: nat)
    requires s <= |lines|
    decreases |lines| - s
  {
    i == s || (s < |lines| && BlockStart(g, lines, BlockAt(g, lines, s).next, i))
  }

  lemma {:induction false} StartsLater(g: Grammar, lines: Lines, s: nat, i: nat)
    requires s <= |lines| && BlockStart(g, lines, s, i)
    ensures s <= i <= |lines|
    decreases |lines| - s
  {
    if i != s {
      StartsLater(g, lines, BlockAt(g, lines, s).next, i);
    }
  }

  /** Lines are consumed once and in order: at each block's start, what is out stands for what was read. */
  lemma {:induction false} SplitsAt(g: Grammar, lines: Lines, s: nat, i: nat) returns (before: Lines)
    requires s <= |lines| && BlockStart(g, lines, s, i)
    ensures s <= i <= |lines|
    ensures UnwrappedFrom(g, lines, s) == before + UnwrappedFrom(g, lines, i)
    ensures SquashAll(before) == SquashAll(lines[s..i])
    decreases |lines| - s
  {
    StartsLater(g, lines, s, i);
    if i == s {
      before := [];
    } else {
      var b := BlockAt(g, lines, s);
      var rest := SplitsAt(g, lines, b.next, i);
      before := b.emitted + rest;
      StepsTo(g, lines, s, i, b, rest);
    }
  }

  lemma StepsTo(g: Grammar, lines: Lines, s: nat, i: nat, b: Block, rest: Lines)
    requires s < |lines| && b == BlockAt(g, lines, s) && b.next <= i <= |lines|
    requires UnwrappedFrom(g, lines, b.next) == rest + UnwrappedFrom(g, lines, i)
    requires SquashAll(rest) == SquashAll(lines[b.next..i])
    ensures UnwrappedFrom(g, lines, s) == b.emitted + rest + UnwrappedFrom(g, lines, i)
    ensures SquashAll(b.emitted + rest) == SquashAll(lines[s..i])
  {
    BlockFaithful(g, lines, s);
    JoinRanges(lines, s, b.next, i, b.emitted, rest);
    Regroup(b.emitted, rest, UnwrappedFrom(g, lines, i));
  }

  lemma JoinRanges(lines: Lines, s: nat, m: nat, i: nat, first: Lines, rest: Lines)
    requires s <= m <= i <= |lines|
    requires SquashAll(first) == SquashAll(lines[s..m]) && SquashAll(rest) == SquashAll(lines[m..i])
    ensures SquashAll(first + rest) == SquashAll(lines[s..i])
  {
    var a, b := lines[s..m], lines[m..i];
    RangeSplits(lines, s, m, i);
    SquashAllAppend(first, rest);
    SquashAllAppend(a, b);
  }

  lemma RangeSplits(lines: Lines, s: nat, m: nat, i: nat)
    requires s <= m <= i <= |lines|
    ensures lines[s..i] == lines[s..m] + lines[m..i]
  {}

  lemma FenceVerbatim(g: Grammar, lines: Lines, i: nat)
    requires i < |lines| && Fence(lines[i]).Some?
    ensures var j := FenceEnd(lines, i + 1, Fence(lines[i]).value);
      UnwrappedFrom(g, lines, i) == lines[i..j] + UnwrappedFrom(g, lines, j)
  {}

  /**
   Main result: frontmatter and every fenced block come out line for line, in place: between the output
   of what precedes it and the output of what follows.
   */
  lemma VerbatimInPlace(g: Grammar, lines: Lines, i: nat) returns (before: Lines)
    requires BlockStart(g, lines, FrontEnd(lines), i) && i < |lines| && Fence(lines[i]).Some?
    ensures var j := FenceEnd(lines, i + 1, Fence(lines[i]).value);
      Unwrapped(g, lines) == before + (lines[i..j] + UnwrappedFrom(g, lines, j))
    ensures SquashAll(before) == SquashAll(lines[..i])
    ensures lines[..FrontEnd(lines)] <= Unwrapped(g, lines)
  {
    var s := FrontEnd(lines);
    var mid := SplitsAt(g, lines, s, i);
    before := lines[..s] + mid;
    FenceVerbatim(g, lines, i);
    Regroup(lines[..s], mid, UnwrappedFrom(g, lines, i));
    assert lines[..s] == lines[0..s] && lines[..i] == lines[0..i];
    JoinRanges(lines, 0, s, i, lines[..s], mid);
  }

  // ----- from text to lines and back

  /** `text.split("\n")` */
  function Split(text: string): (lines: Lines)
    ensures lines != []
  {
    if text == "" then [""]
    else Extend(Split(text[..|text| - 1]), text[|text| - 1])
  }

  /** `"\n".join(lines)` */
  function Unsplit(lines: Lines): string {
    if lines == [] then ""
    else if |lines| == 1 then lines[0]
    else Unsplit(lines[..|lines| - 1]) + "\n" + lines[|lines| - 1]
  }

  lemma SplitBreak(lines: Lines)
    ensures SquashAll(lines + [""]) == SquashAll(lines)
  {
    SquashAllAppend(lines, [""]);
    SquashOne("");
  }

  lemma SplitChar(front: Lines, last: string, c: char)
    ensures SquashAll(front + [last + [c]]) == SquashAll(front + [last]) + Squash([c])
  {
    SquashAllAppend(front, [last + [c]]);
    SquashAllAppend(front, [last]);
    SquashOne(last + [c]);
    SquashOne(last);
    SquashAppend(last, [c]);
  }

  lemma SquashLast(text: string)
    requires text != ""
    ensures Squash(text) == Squash(text[..|text| - 1]) + Squash([text[|text| - 1]])
  {
    var n := |text| - 1;
    SquashJoined(text[..n], [text[n]], text);
  }

  lemma {:induction false} SquashSplit(text: string)
    ensures SquashAll(Split(text)) == Squash(text)
  {
    if text == "" {
      SquashOne("");
    } else {
      var c := text[|text| - 1];
      SquashSplit(text[..|text| - 1]);
      SquashLast(text);
      SplitStep(Split(text[..|text| - 1]), c);
    }
  }

  /** One more character: a line break starts a line, anything else goes on with the last one. */
  function Extend(before: Lines, c: char): Lines
    requires before != []
  {
    if c == '\n' then before + [""] else before[..|before| - 1] + [before[|before| - 1] + [c]]
  }

  lemma SplitStep(before: Lines, c: char)
    requires before != []
    ensures SquashAll(Extend(before, c)) == SquashAll(before) + Squash([c])
  {
    if c == '\n' {
      SplitBreak(before);
      SquashNothing([c]);
    } else {
      var n := |before| - 1;
      SplitChar(before[..n], before[n], c);
      assert before == before[..n] + [before[n]];
    }
  }

  lemma {:induction false} SquashUnsplit(lines: Lines)
    ensures Squash(Unsplit(lines)) == SquashAll(lines)
  {
    if |lines| == 1 {
      SquashOne(lines[0]);
      assert lines == [lines[0]];
    } else if |lines| > 1 {
      var n := |lines| - 1;
      SquashUnsplit(lines[..n]);
      SquashAppend(Unsplit(lines[..n]) + "\n", lines[n]);
      SquashAppend(Unsplit(lines[..n]), "\n");
      SquashNothing("\n");
    }
  }

  method UnwrapText(g: Grammar, text: string) returns (r: string)
    ensures r == Unsplit(Unwrapped(g, Split(text)))
    ensures Squash(r) == Squash(text)
  {
    var out := UnwrapLines(g, Split(text));
    r := Unsplit(out);
    UnwrapConserves(g, Split(text));
    SquashSplit(text);
    SquashUnsplit(out);
  }
}
