/**
 Unwrapping goes all the way: behind a folded block stands no line that would go on with it, except a list
 marker that has lost the space behind it.
 */
module UnwrapJoined {
  import opened Wrappers
  import opened Unwrap
  import opened UnwrapProofs
  import opened UnwrapWords
  import opened UnwrapDrift

  // ----- the condition

  /** Whether `line` would be folded into a block whose first line is `first`. */
  predicate GoesOnWith(g: Grammar, first: string, line: string) {
    if Quote(first).Some? then Content(first) != "" && !g.alert(Content(first)) && QuoteGoesOn(g, line)
    else if Bullet(g, first).Some? then ItemGoesOn(g, line, Bullet(g, first).value)
    else ParagraphGoesOn(g, line)
  }

  /** A list item of nothing but its marker, into which nothing is folded. */
  predicate BareItem(g: Grammar, lines: Lines, k: nat)
    requires k < |lines|
  {
    var line := lines[k];
    && !IsFence(line) && !Structural(g, line) && Quote(line).None?
    && Bullet(g, line) == Some(|line|)
    && !(k + 1 < |lines| && ItemGoesOn(g, lines[k + 1], |line|))
  }

  // ----- list markers

  lemma {:induction false} DigitsAppend(g: Grammar, r: string, t: string)
    ensures Digits(g, r) <= Digits(g, r + t)
    ensures Digits(g, r) < |r| ==> Digits(g, r + t) == Digits(g, r)
  {
    if r != "" {
      assert (r + t)[1..] == r[1..] + t;
      DigitsAppend(g, r[1..], t);
    }
  }

  lemma MarkerEndAppend(g: Grammar, r: string, t: string, e: nat)
    requires 0 < e <= |r|
    ensures MarkerEnd(g, r + t) == Some(e) <==> MarkerEnd(g, r) == Some(e)
  {
    DigitsAppend(g, r, t);
    var d, full := Digits(g, r), Digits(g, r + t);
    assert (r + t)[0] == r[0];
    assert d < |r| ==> (r + t)[d] == r[d];
  }

  /** The last letter of a list marker. */
  lemma MarkerIsDark(g: Grammar, r: string)
    requires MarkerEnd(g, r).Some?
    ensures !White(r[MarkerEnd(g, r).value - 1])
  {}

  /** A list item's line, taken apart: indentation, marker, and white space behind it. */
  lemma ItemParts(g: Grammar, line: string) returns (e: nat)
    requires Bullet(g, line).Some?
    ensures Lead(line) < e <= |line| && MarkerEnd(g, line[Lead(line)..]) == Some(e - Lead(line))
    ensures Lead(line[e..]) > 0 && Bullet(g, line).value == e + Lead(line[e..]) && !White(line[e - 1])
  {
    var k := Lead(line);
    e := k + MarkerEnd(g, line[k..]).value;
    MarkerIsDark(g, line[k..]);
    assert line[k..][e - k - 1] == line[e - 1];
  }

  /** Whether a line that starts with a marker is an item depends on what follows. */
  lemma MarkerThen(g: Grammar, p: string, t: string)
    requires Nonblank(p) && MarkerEnd(g, LStrip(p)) == Some(|p| - Lead(p))
    ensures Bullet(g, p + t).Some? <==> Lead(t) > 0
  {
    var k := Lead(p);
    LeadAppend(p, t);
    MarkerEndAppend(g, LStrip(p), t, |p| - k);
    assert (p + t)[k..] == LStrip(p) + t && (p + t)[|p|..] == t;
  }

  lemma {:induction false} RStripBehind(p: string, r: string)
    requires p == "" || !White(p[|p| - 1])
    ensures RStrip(p + r) == p + RStrip(r)
  {
    if r == "" {
      assert p + r == p;
    } else {
      var n := |r| - 1;
      assert (p + r)[..|p| + n] == p + r[..n] && (p + r)[|p| + n] == r[n];
      RStripBehind(p, r[..n]);
    }
  }

  lemma RStripHead(r: string)
    requires r != "" && White(r[0])
    ensures if Lead(r) == |r| then RStrip(r) == "" else RStrip(r) != "" && RStrip(r)[0] == r[0]
  {
    hide RStrip, Lead, White;
    var w := RStripTail(r);
    if Lead(r) == |r| {
      LeadIsWhite(r);
      RStripBlank(r);
    } else {
      BlankIsLead(w);
      assert RStrip(r) == "" ==> r == w;
    }
  }

  lemma {:induction false} RStripBlank(w: string)
    requires forall i :: 0 <= i < |w| ==> White(w[i])
    ensures RStrip(w) == ""
  {
    if w != "" {
      RStripBlank(w[..|w| - 1]);
    }
  }

  /** The line as its marker `p` and what follows. */
  lemma ItemSplits(g: Grammar, line: string) returns (p: string, r: string)
    requires Bullet(g, line).Some?
    ensures line == p + r && RStrip(line) == p + RStrip(r) && Lead(r) > 0
    ensures Nonblank(p) && MarkerEnd(g, LStrip(p)) == Some(|p| - Lead(p))
    ensures Bullet(g, line) == Some(|line|) <==> Lead(r) == |r|
  {
    hide White, Lead, RStrip, MarkerEnd, LStrip;
    var e := ItemParts(g, line);
    p, r := line[..e], line[e..];
    assert line == p + r;
    ItemPrefix(g, line, e);
    RStripBehind(p, r);
  }

  /** The first line of an item, as it is put out in front of `t`. */
  lemma ItemOut(g: Grammar, line: string, t: string)
    requires Bullet(g, line).Some? && Spaced(t)
    ensures Bullet(g, RStrip(line) + t).None? <==> Bullet(g, line) == Some(|line|) && t == ""
  {
    hide *;
    var p, r := ItemSplits(g, line);
    PartsOut(g, p, r, t, RStrip(line) + t);
  }

  lemma PartsOut(g: Grammar, p: string, r: string, t: string, out: string)
    requires Nonblank(p) && MarkerEnd(g, LStrip(p)) == Some(|p| - Lead(p)) && Lead(r) > 0 && Spaced(t)
    requires out == p + RStrip(r) + t
    ensures Bullet(g, out).None? <==> Lead(r) == |r| && t == ""
  {
    hide *;
    assert out == p + (RStrip(r) + t);
    MarkerThen(g, p, RStrip(r) + t);
    GapOut(r, t);
  }

  /** White space behind a marker stays as long as something follows. */
  lemma GapOut(r: string, t: string)
    requires Lead(r) > 0 && Spaced(t)
    ensures Lead(RStrip(r) + t) == 0 <==> Lead(r) == |r| && t == ""
  {
    LeadOf(r);
    RStripHead(r);
    LeadOf(RStrip(r) + t);
    if RStrip(r) == "" {
      assert RStrip(r) + t == t;
    }
  }

  lemma LeadOf(s: string)
    ensures Lead(s) > 0 <==> s != "" && White(s[0])
  {}

  lemma ItemPrefix(g: Grammar, line: string, e: nat)
    requires Lead(line) < e <= |line| && MarkerEnd(g, line[Lead(line)..]) == Some(e - Lead(line))
    ensures var p := line[..e];
      Nonblank(p) && Lead(p) == Lead(line) && MarkerEnd(g, LStrip(p)) == Some(|p| - Lead(p))
  {
    hide MarkerEnd, White, Lead;
    var k := Lead(line);
    var a, m, r := line[..k], line[k..e], line[e..];
    LeadStops(line);
    LeadIsWhite(line);
    BlankIsLead(a);
    LeadOf(m);
    assert m[0] == line[k];
    LeadBlankAppend(a, m);
    assert line[..e] == a + m && line[k..] == m + r;
    MarkerEndAppend(g, m, r, e - k);
  }

  // ----- what comes out first

  /** The line put out for the block at line `k`, if it is not one that passes through. */
  lemma OutAt(g: Grammar, lines: Lines, k: nat) returns (t: string)
    requires k < |lines| && !IsFence(lines[k]) && !Structural(g, lines[k])
    ensures Spaced(t)
    ensures var line := lines[k];
      var out := BlockAt(g, lines, k).emitted;
      if Quote(line).Some? then
        if Content(line) == "" || g.alert(Content(line)) then out == [RStrip(line)]
        else out == [Marker(line) + Content(line) + t]
      else
        && out == [RStrip(line) + t]
        && (Bullet(g, line).Some? ==> (t == "" <==> End(ItemGoes(g, Bullet(g, line).value), lines, k + 1) == k + 1))
  {
    hide Fence, Content, Marker, RStrip, Quote, Structural, Bullet, Lead, Strip, Join, NonEmpty, Parts, Tail;
    var line := lines[k];
    if Quote(line).Some? {
      var parts := Parts(Content, lines[k + 1..End(QuoteGoes(g), lines, k + 1)]);
      if Content(line) == "" || g.alert(Content(line)) {
        t := "";
      } else {
        t := Tail(NonEmpty(parts));
        WordsTail(NonEmpty(parts));
        PlainJoin(Content(line), parts);
        Concat(Marker(line), Content(line), t);
      }
    } else if Bullet(g, line).Some? {
      var parts := Parts(Strip, lines[k + 1..End(ItemGoes(g, Bullet(g, line).value), lines, k + 1)]);
      t := Tail(parts);
      WordsTail(parts);
      JoinTail(RStrip(line), parts);
      TailEmpty(parts);
    } else {
      var parts := Parts(Strip, lines[k + 1..End(ParagraphGoes(g), lines, k + 1)]);
      t := Tail(NonEmpty(parts));
      WordsTail(NonEmpty(parts));
      TextStays(g, line);
      PlainJoin(RStrip(line), parts);
    }
  }

  lemma TailEmpty(parts: Lines)
    ensures Tail(parts) == "" <==> parts == []
  {}

  lemma TextStays(g: Grammar, line: string)
    requires !Structural(g, line)
    ensures Nonblank(line) && Nonblank(RStrip(line)) && RStrip(line) != ""
    ensures Lead(RStrip(line)) == Lead(line) && LStrip(RStrip(line)) != ""
    ensures LStrip(RStrip(line))[0] == LStrip(line)[0]
  {
    StripNonblank(line);
    var w := RStripTail(line);
    BlankIsLead(w);
    if Lead(RStrip(line)) == |RStrip(line)| {
      LeadBlankAppend(RStrip(line), w);
    }
    LeadAppend(RStrip(line), w);
  }

  /** The line that comes out is indented like the block's first line and of the same kind. */
  lemma OutLooks(g: Grammar, lines: Lines, k: nat)
    requires k < |lines| && !IsFence(lines[k]) && !Structural(g, lines[k])
    ensures var out := BlockAt(g, lines, k).emitted;
      && |out| == 1
      && Lead(out[0]) == Lead(lines[k])
      && !IsFence(out[0])
      && (Quote(out[0]).Some? <==> Quote(lines[k]).Some?)
      && (Bullet(g, out[0]).Some? ==> Quote(out[0]).None?)
      && (Bullet(g, lines[k]).Some? ==> (Bullet(g, out[0]).None? <==> BareItem(g, lines, k)))
  {
    var line := lines[k];
    var t := OutAt(g, lines, k);
    var out := BlockAt(g, lines, k).emitted;
    TextStays(g, line);
    MarkedIsNoQuote(g, line);
    MarkedIsNoQuote(g, out[0]);
    if Quote(line).Some? {
      if Content(line) == "" || g.alert(Content(line)) {
        FirstLetter(RStrip(line), line);
      } else {
        QuoteOut(line, t);
      }
    } else {
      LeadAppend(RStrip(line), t);
      FenceAppend(RStrip(line), t);
      RStripKeeps(line, true);
      FirstLetter(RStrip(line) + t, line);
      if Bullet(g, line).Some? {
        ItemOut(g, line, t);
        EndAt(ItemGoes(g, Bullet(g, line).value), lines, k + 1);
      }
    }
  }

  lemma EndAt(goesOn: string -> bool, lines: Lines, k: nat)
    requires k <= |lines|
    ensures End(goesOn, lines, k) == k <==> !(k < |lines| && goesOn(lines[k]))
  {}

  lemma MarkedIsNoQuote(g: Grammar, line: string)
    ensures Bullet(g, line).Some? ==> Quote(line).None?
  {
    if Bullet(g, line).Some? {
      assert line[Lead(line)..][0] == line[Lead(line)];
    }
  }

  lemma FirstLetter(s: string, line: string)
    requires Nonblank(s) && Nonblank(line) && LStrip(s)[0] == LStrip(line)[0]
    ensures Quote(s).Some? <==> Quote(line).Some?
    ensures Quote(s).Some? ==> !IsFence(s)
  {
    assert s[Lead(s)] == LStrip(s)[0] && line[Lead(line)] == LStrip(line)[0];
  }

  lemma QuoteOut(line: string, t: string)
    requires Quote(line).Some?
    ensures var out := Marker(line) + Content(line) + t;
      Lead(out) == Lead(line) && Quote(out).Some? && !IsFence(out)
  {
    hide Content, Lead, Fence, White;
    var k, q := Lead(line), Quote(line).value;
    var p, rest := line[..k], line[k + 1..q] + Content(line) + t;
    LeadIsWhite(line);
    BlankIsLead(p);
    assert Marker(line) == p + ">" + line[k + 1..q];
    Concat(p + ">", line[k + 1..q], Content(line));
    Concat(p + ">", line[k + 1..q] + Content(line), t);
    QuotedLooks(p, rest);
  }

  lemma QuotedLooks(p: string, rest: string)
    requires Lead(p) == |p|
    ensures var out := p + ">" + rest;
      Lead(out) == |p| && Quote(out).Some? && !IsFence(out)
  {
    QuotedIsNonblank(p, rest);
    LeadBlankAppend(p, ">");
    LeadAppend(p + ">", rest);
    assert (p + ">" + rest)[|p|] == '>';
  }

  // ----- quotes that stand alone

  /** Stripping a line with something on it: white space `p`, a letter, and the rest. */
  lemma StripAs(p: string, c: char, r: string)
    requires Lead(p) == |p| && !White(c)
    ensures Nonblank(p + [c] + r)
    ensures RStrip(p + [c] + r) == p + [c] + RStrip(r)
    ensures Strip(p + [c] + r) == [c] + RStrip(r)
  {
    hide RStrip, White;
    LeadOfLetter(c);
    LeadBlankAppend(p, [c]);
    LeadAppend(p + [c], r);
    assert LStrip(p + [c]) == [c];
    RStripBehind(p + [c], r);
    RStripBehind([c], r);
  }

  lemma LeadOfLetter(c: char)
    requires !White(c)
    ensures Lead([c]) == 0
  {}

  lemma StripRStrip(s: string)
    ensures Strip(RStrip(s)) == Strip(s)
  {
    hide RStrip, Lead, White, Strip;
    LeadStops(s);
    LeadIsWhite(s);
    if Nonblank(s) {
      var k := Lead(s);
      var p, r := s[..k], s[k + 1..];
      assert s == p + [s[k]] + r;
      BlankIsLead(p);
      StripAs(p, s[k], r);
      StripAs(p, s[k], RStrip(r));
      RStripTwice(r);
    } else {
      RStripBlank(s);
      StripBlank(s);
      StripNothing();
    }
  }

  lemma StripBlank(s: string)
    requires Lead(s) == |s|
    ensures Strip(s) == ""
  {}

  lemma StripNothing()
    ensures Strip("") == "" && RStrip("") == ""
  {}

  lemma RStripTwice(s: string)
    ensures RStrip(RStrip(s)) == RStrip(s)
  {
    RStripEnds(s);
  }

  lemma {:induction false} RStripEnds(s: string)
    ensures RStrip(s) == "" || !White(RStrip(s)[|RStrip(s)| - 1])
  {
    if s != "" && White(s[|s| - 1]) {
      RStripEnds(s[..|s| - 1]);
    }
  }

  lemma UnquotedIs(p: string, rest: string)
    requires Lead(p) == |p|
    ensures Quote(p + ">" + rest).Some?
    ensures Unquoted(p + ">" + rest) == if rest != "" && White(rest[0]) then rest[1..] else rest
  {
    hide White, Lead;
    var line := p + ">" + rest;
    LeadOfArrow(p, rest);
    assert |line[Lead(line)..]| == |rest| + 1;
    assert line[|p|] == '>' && line[|p| + 1..] == rest;
    assert rest != "" ==> line[|p| + 1] == rest[0] && line[|p| + 2..] == rest[1..];
  }

  lemma ContentIs(p: string, rest: string)
    requires Lead(p) == |p|
    ensures Quote(p + ">" + rest).Some? && Content(p + ">" + rest) == Strip(rest)
  {
    hide RStrip, Quote, Unquoted, White;
    UnquotedIs(p, rest);
    LeadOf(rest);
    if rest != "" && White(rest[0]) {
      assert LStrip(rest) == LStrip(rest[1..]);
    }
  }

  /** A quote line that no quote goes on with stands alone, and goes on with no quote as it is put out. */
  lemma LoneQuote(g: Grammar, line: string)
    requires Quote(line).Some? && !QuoteGoesOn(g, line)
    ensures Content(line) == "" || g.alert(Content(line))
    ensures !QuoteGoesOn(g, RStrip(line))
  {
    hide White, Lead, RStrip, Strip, Content, Quote;
    var p, rest := QuoteParts(line);
    ContentIs(p, rest);
    ContentIs(p, RStrip(rest));
    RStripBehind(p + ">", rest);
    StripRStrip(rest);
    StripRStrip(line);
    LoneArrow(p, rest);
  }

  lemma QuoteParts(line: string) returns (p: string, rest: string)
    requires Quote(line).Some?
    ensures line == p + ">" + rest && Lead(p) == |p| && !White('>')
  {
    p, rest := line[..Lead(line)], line[Lead(line) + 1..];
    LeadIsWhite(line);
    BlankIsLead(p);
  }

  lemma LoneArrow(p: string, rest: string)
    requires Lead(p) == |p|
    ensures Strip(p + ">" + rest) != ""
    ensures Strip(p + ">" + rest) == ">" ==> Strip(rest) == ""
  {
    hide RStrip, Lead;
    LeadOfArrow(p, rest);
    RStripBehind(">", rest);
    assert |">" + RStrip(rest)| > 1 <==> RStrip(rest) != "";
    StripRStrip(rest);
    StripNothing();
  }

  lemma LeadOfArrow(p: string, rest: string)
    requires Lead(p) == |p|
    ensures LStrip(p + ">" + rest) == ">" + rest
  {
    LeadBlankAppend(p, ">");
    LeadAppend(p + ">", rest);
  }

  // ----- the main result

  /** Behind a block comes what its own rule does not take, or a bare list marker without its space. */
  lemma NextOut(g: Grammar, lines: Lines, i: nat)
    requires i < |lines| && !IsFence(lines[i]) && !Structural(g, lines[i]) && BlockAt(g, lines, i).next < |lines|
    ensures var j := BlockAt(g, lines, i).next;
      var out := BlockAt(g, lines, j).emitted;
      && out != []
      && (GoesOnWith(g, lines[i], out[0]) <==> LosesSpace(g, lines[i], lines, j, out[0]))
  {
    hide Content, RStrip, Structural, Bullet, Lead, Strip, Quote, Fence, Join, Folded;
    var first, j := lines[i], BlockAt(g, lines, i).next;
    var line, out := lines[j], BlockAt(g, lines, j).emitted;
    NotTaken(g, lines, i);
    if !IsFence(line) && !Structural(g, line) {
      OutLooks(g, lines, j);
      MarkedIsNoQuote(g, line);
      if Quote(first).Some? && Quote(line).Some? && Content(first) != "" && !g.alert(Content(first)) {
        LoneQuote(g, line);
      }
    }
  }

  /** A bare list marker: it comes out without the space behind it, as text that the block before would take. */
  predicate LosesSpace(g: Grammar, first: string, lines: Lines, k: nat, out: string)
    requires k < |lines|
  {
    && BareItem(g, lines, k) && !Structural(g, out) && Quote(first).None?
    && (Bullet(g, first).Some? ==> Lead(lines[k]) >= Bullet(g, first).value)
  }

  lemma NotTaken(g: Grammar, lines: Lines, i: nat)
    requires i < |lines| && !IsFence(lines[i]) && !Structural(g, lines[i]) && BlockAt(g, lines, i).next < |lines|
    ensures !GoesOnWith(g, lines[i], lines[BlockAt(g, lines, i).next])
  {
    hide Content, RStrip, Structural, Bullet, Lead, Strip, Quote, Fence, Join, Folded;
    var first := lines[i];
    EndGoesOn(QuoteGoes(g), lines, i + 1);
    EndGoesOn(ParagraphGoes(g), lines, i + 1);
    if Bullet(g, first).Some? {
      EndGoesOn(ItemGoes(g, Bullet(g, first).value), lines, i + 1);
    }
  }

  /**
   Main result: a block comes out as one line in its place, and the line behind it would go on with the
   block exactly when it is a bare list marker that has lost its space.
   */
  lemma FoldsAllTheWay(g: Grammar, lines: Lines, i: nat) returns (before: Lines)
    requires BlockStart(g, lines, FrontEnd(lines), i) && i < |lines|
    requires !IsFence(lines[i]) && !Structural(g, lines[i])
    ensures var b := BlockAt(g, lines, i);
      var rest := UnwrappedFrom(g, lines, b.next);
      && |b.emitted| == 1
      && Unwrapped(g, lines) == before + (b.emitted + rest)
      && (b.next == |lines| ==> rest == [])
      && (b.next < |lines| ==>
            rest != [] && (GoesOnWith(g, lines[i], rest[0]) <==> LosesSpace(g, lines[i], lines, b.next, rest[0])))
  {
    hide BlockAt, GoesOnWith, LosesSpace, SquashAll;
    var s := FrontEnd(lines);
    var mid := SplitsAt(g, lines, s, i);
    before := lines[..s] + mid;
    var b := BlockAt(g, lines, i);
    Regroup(lines[..s], mid, b.emitted + UnwrappedFrom(g, lines, b.next));
    OutLooks(g, lines, i);
    if b.next < |lines| {
      NextOut(g, lines, i);
    }
  }

  // ----- structure

  /** A line that is left alone: blank, a heading, rule, table, HTML block, link reference or fence. */
  predicate LeftAlone(g: Grammar, line: string) {
    || Strip(line) == "" || g.heading(line) || g.rule(line) || g.linkRef(line)
    || "|" <= LStrip(line) || "<" <= LStrip(line) || "```" <= LStrip(line) || "~~~" <= LStrip(line)
  }

  /** A quote line that has to stand alone: a bare `>` or an alert marker. */
  predicate Separate(g: Grammar, line: string) {
    Quote(line).Some? && (Content(line) == "" || g.alert(Content(line)))
  }

  /**
   Main result: what is folded into a block is never structure. Into a quote go quote lines that need not stand
   alone; into an item or a paragraph go lines that are neither left alone nor items, an item's indented to its
   text and a paragraph's no quotes. Lines that are left alone or separate come out as blocks of their own.
   */
  lemma StructureStays(g: Grammar, lines: Lines, i: nat)
    requires i < |lines|
    ensures var b := BlockAt(g, lines, i);
      && (LeftAlone(g, lines[i]) && !IsFence(lines[i]) ==> b == Block([lines[i]], i + 1))
      && (!LeftAlone(g, lines[i]) && Separate(g, lines[i]) ==> b == Block([RStrip(lines[i])], i + 1))
      && (!IsFence(lines[i]) ==> forall k :: i < k < b.next ==>
            if Quote(lines[i]).Some? then Quote(lines[k]).Some? && !Separate(g, lines[k])
            else
              && !LeftAlone(g, lines[k]) && Bullet(g, lines[k]).None?
              && (Bullet(g, lines[i]).Some? ==> Lead(lines[k]) >= Bullet(g, lines[i]).value)
              && (Bullet(g, lines[i]).None? ==> Quote(lines[k]).None?))
  {
    hide Lead, RStrip, Strip, Bullet, Join, Folded, Content, Quote;
    var line := lines[i];
    EndGoesOn(ParagraphGoes(g), lines, i + 1);
    EndGoesOn(QuoteGoes(g), lines, i + 1);
    if Bullet(g, line).Some? {
      EndGoesOn(ItemGoes(g, Bullet(g, line).value), lines, i + 1);
    }
    forall k | 0 <= k < |lines| && QuoteGoesOn(g, lines[k]) ensures !Separate(g, lines[k]) {
      if Content(lines[k]) == "" {
        BareIsArrow(lines[k]);
      }
    }
    forall k | i < k < BlockAt(g, lines, i).next && !IsFence(line) && Quote(line).None?
      ensures ItemGoesOn(g, lines[k], 0)
    {
      assert if Bullet(g, line).Some? then ItemGoes(g, Bullet(g, line).value)(lines[k]) else ParagraphGoes(g)(lines[k]);
    }
  }

  /** A quote line without text is a bare `>`. */
  lemma BareIsArrow(line: string)
    requires Quote(line).Some? && Content(line) == ""
    ensures Strip(line) == ">"
  {
    hide White, Lead, RStrip, Strip, Content, Quote;
    var p, rest := QuoteParts(line);
    ContentIs(p, rest);
    StripAs(p, '>', rest);
    StripEmpty(rest);
  }

  lemma StripEmpty(rest: string)
    requires Strip(rest) == ""
    ensures RStrip(rest) == ""
  {
    SomethingStays(rest);
    LeadIsWhite(rest);
    RStripBlank(rest);
  }

  lemma SomethingStays(s: string)
    ensures Nonblank(s) ==> Strip(s) != ""
  {
    if Nonblank(s) {
      LeadStops(s);
      var c, r := LStrip(s)[0], LStrip(s)[1..];
      RStripBehind([c], r);
      assert LStrip(s) == [c] + r;
    }
  }
}
