/**
 The script's own safety check: the words of a file, quote markers outside fenced code stripped, must not
 change. It is proved exactly which texts the check lets through.
 */
module UnwrapWords {
  import opened Wrappers
  import opened Unwrap
  import opened UnwrapProofs

  // ----- words

  /** `str.split()` */
  function Words(s: string): (r: Lines)
    ensures s != "" && !White(s[|s| - 1]) ==> r != []
  {
    if s == "" then []
    else
      var n := |s| - 1;
      var before := Words(s[..n]);
      if White(s[n]) then before
      else if n == 0 || White(s[n - 1]) then before + [[s[n]]]
      else before[..|before| - 1] + [before[|before| - 1] + [s[n]]]
  }

  /** Two texts meet between words. */
  predicate Apart(s: string, t: string) {
    s == "" || t == "" || White(s[|s| - 1]) || White(t[0])
  }

  /** One more character. */
  function Pushed(before: Lines, s: string, c: char): Lines
    requires before != [] || s == "" || White(s[|s| - 1])
  {
    if White(c) then before
    else if s == "" || White(s[|s| - 1]) then before + [[c]]
    else before[..|before| - 1] + [before[|before| - 1] + [c]]
  }

  lemma WordsPush(s: string, c: char)
    ensures Words(s + [c]) == Pushed(Words(s), s, c)
  {
    var t := s + [c];
    assert t[..|s|] == s && t[|s|] == c;
    assert s != "" ==> t[|s| - 1] == s[|s| - 1];
  }

  lemma {:induction false} WordsAppend(s: string, t: string)
    requires Apart(s, t)
    ensures Words(s + t) == Words(s) + Words(t)
  {
    hide Words, Pushed, White;
    if t == "" {
      WordsAppendNothing(s);
    } else {
      var n := |t| - 1;
      var front := t[..n];
      assert Apart(s, front);
      WordsAppend(s, front);
      Reassociate(s, front, t[n], t);
      PushedApart(s, front, t[n]);
      WordsPush(s + front, t[n]);
      WordsPush(front, t[n]);
    }
  }

  lemma WordsAppendNothing(s: string)
    ensures Words(s + "") == Words(s) + Words("")
  {
    assert s + "" == s;
  }

  lemma Reassociate(s: string, front: string, c: char, t: string)
    requires t == front + [c]
    ensures s + t == s + front + [c]
  {}

  lemma PushedApart(s: string, t: string, c: char)
    requires Apart(s, t + [c]) && Words(s + t) == Words(s) + Words(t)
    ensures s + t == "" || White((s + t)[|s + t| - 1]) || Words(s + t) != []
    ensures Pushed(Words(s + t), s + t, c) == Words(s) + Pushed(Words(t), t, c)
  {
    hide White, Words;
    LastWord(s + t);
    LastWord(t);
    if t == "" {
      assert s + t == s && Words(t) == [];
      PushedFirst(s, c);
    } else {
      assert (s + t)[|s + t| - 1] == t[|t| - 1];
      if !White(t[|t| - 1]) && !White(c) {
        ExtendLast(Words(s), Words(t), c);
      }
    }
  }

  lemma LastWord(s: string)
    ensures s == "" || White(s[|s| - 1]) || Words(s) != []
    ensures s == "" ==> Words(s) == []
  {}

  lemma PushedFirst(s: string, c: char)
    requires s == "" || White(s[|s| - 1]) || White(c)
    ensures Pushed(Words(s), s, c) == Words(s) + Pushed([], "", c)
  {}

  lemma ExtendLast(a: Lines, b: Lines, c: char)
    requires b != []
    ensures var ab := a + b;
      ab[..|ab| - 1] + [ab[|ab| - 1] + [c]] == a + (b[..|b| - 1] + [b[|b| - 1] + [c]])
  {}

  lemma {:induction false} WordsOfBlank(s: string)
    requires forall i :: 0 <= i < |s| ==> White(s[i])
    ensures Words(s) == []
  {
    if s != "" {
      WordsOfBlank(s[..|s| - 1]);
    }
  }

  lemma WordsLStrip(s: string)
    ensures Words(LStrip(s)) == Words(s)
  {
    var k := Lead(s);
    LeadIsWhite(s);
    WordsOfBlank(s[..k]);
    assert s == s[..k] + s[k..];
    assert k > 0 ==> White(s[..k][k - 1]);
    WordsAppend(s[..k], s[k..]);
  }

  lemma {:induction false} WordsRStrip(s: string)
    ensures Words(RStrip(s)) == Words(s)
  {
    if s != "" && White(s[|s| - 1]) {
      WordsRStrip(s[..|s| - 1]);
    }
  }

  lemma WordsStrip(s: string)
    ensures Words(Strip(s)) == Words(s)
  {
    WordsLStrip(s);
    WordsRStrip(LStrip(s));
  }

  // ----- what the check reads

  /** How many `>` the text starts with. */
  function Arrows(s: string): (a: nat)
    ensures a <= |s|
    ensures forall i :: 0 <= i < a ==> s[i] == '>'
  {
    if s != "" && s[0] == '>' then Arrows(s[1..]) + 1 else 0
  }

  /** How much `^\s*>+\s?` takes off the line. */
  function MarkEnd(line: string): (m: nat)
    ensures m <= |line|
  {
    var k := Lead(line);
    var e := k + Arrows(LStrip(line));
    if e == k then 0 else if e < |line| && White(line[e]) then e + 1 else e
  }

  function Unmarked(line: string): string {
    line[MarkEnd(line)..]
  }

  predicate IsFence(line: string) {
    Fence(line).Some?
  }

  /** Whether fenced code is open after the lines, by the check's own toggling. */
  predicate InCode(lines: Lines, code: bool) {
    if lines == [] then code
    else
      var n := |lines| - 1;
      if IsFence(lines[n]) then !InCode(lines[..n], code) else InCode(lines[..n], code)
  }

  function Kept(line: string, code: bool): string {
    if IsFence(line) || code then line else Unmarked(line)
  }

  function KeptLines(lines: Lines, code: bool): (r: Lines)
    ensures |r| == |lines|
  {
    if lines == [] then []
    else
      var n := |lines| - 1;
      KeptLines(lines[..n], code) + [Kept(lines[n], InCode(lines[..n], code))]
  }

  /** `words(text)` */
  method TextWords(text: string) returns (words: Lines)
    ensures words == Words(Unsplit(KeptLines(Split(text), false)))
  {
    var lines := Split(text);
    var kept: Lines, fenced := [], false;
    for i := 0 to |lines|
      invariant kept == KeptLines(lines[..i], false) && fenced == InCode(lines[..i], false)
    {
      assert lines[..i + 1][..i] == lines[..i];
      kept := kept + [Kept(lines[i], fenced)];
      if IsFence(lines[i]) {
        fenced := !fenced;
      }
    }
    assert lines[..|lines|] == lines;
    words := Words(Unsplit(kept));
  }

  // ----- the words of a list of lines

  /** The words of each line in turn. */
  function WordsOf(lines: Lines): Lines {
    if lines == [] then [] else WordsOf(lines[..|lines| - 1]) + Words(lines[|lines| - 1])
  }

  lemma WordsOfPush(lines: Lines, last: string)
    ensures WordsOf(lines + [last]) == WordsOf(lines) + Words(last)
  {
    assert (lines + [last])[..|lines|] == lines;
  }

  lemma WordsOfOne(line: string)
    ensures WordsOf([line]) == Words(line)
  {
    assert [line][..0] == [];
  }

  lemma {:induction false} WordsOfAppend(a: Lines, b: Lines)
    ensures WordsOf(a + b) == WordsOf(a) + WordsOf(b)
  {
    if b == [] {
      assert a + b == a;
    } else {
      var n := |b| - 1;
      WordsOfAppend(a, b[..n]);
      PushJoins(a, b);
      WordsOfPush(a + b[..n], b[n]);
      Regroup(WordsOf(a), WordsOf(b[..n]), Words(b[n]));
    }
  }

  lemma PushJoins(a: Lines, b: Lines)
    requires b != []
    ensures a + b == (a + b[..|b| - 1]) + [b[|b| - 1]]
  {}

  lemma {:induction false} WordsUnsplit(lines: Lines)
    ensures Words(Unsplit(lines)) == WordsOf(lines)
  {
    if |lines| == 1 {
      WordsOfOne(lines[0]);
      assert lines == [lines[0]];
    } else if |lines| > 1 {
      var n := |lines| - 1;
      WordsUnsplit(lines[..n]);
      WordsAppend(Unsplit(lines[..n]), "\n");
      WordsOfBlank("\n");
      WordsAppend(Unsplit(lines[..n]) + "\n", lines[n]);
    }
  }

  /** The words the check reads in the lines, from a point where code is open or not. */
  function Read(lines: Lines, code: bool): Lines {
    WordsOf(KeptLines(lines, code))
  }

  lemma KeptPush(lines: Lines, last: string, code: bool)
    ensures InCode(lines + [last], code) == (InCode(lines, code) != IsFence(last))
    ensures KeptLines(lines + [last], code) == KeptLines(lines, code) + [Kept(last, InCode(lines, code))]
  {
    assert (lines + [last])[..|lines|] == lines;
  }

  lemma {:induction false} KeptAppend(a: Lines, b: Lines, code: bool)
    ensures InCode(a + b, code) == InCode(b, InCode(a, code))
    ensures KeptLines(a + b, code) == KeptLines(a, code) + KeptLines(b, InCode(a, code))
  {
    if b == [] {
      assert a + b == a;
    } else {
      var n := |b| - 1;
      KeptAppend(a, b[..n], code);
      PushJoins(a, b);
      KeptPush(a + b[..n], b[n], code);
      Regroup(KeptLines(a, code), KeptLines(b[..n], InCode(a, code)), [Kept(b[n], InCode(a + b[..n], code))]);
    }
  }

  lemma ReadAppend(a: Lines, b: Lines, code: bool)
    ensures InCode(a + b, code) == InCode(b, InCode(a, code))
    ensures Read(a + b, code) == Read(a, code) + Read(b, InCode(a, code))
  {
    KeptAppend(a, b, code);
    WordsOfAppend(KeptLines(a, code), KeptLines(b, InCode(a, code)));
  }

  lemma ReadOne(line: string, code: bool)
    ensures Read([line], code) == Words(Kept(line, code))
    ensures InCode([line], code) == if IsFence(line) then !code else code
  {
    assert [line][..0] == [];
    WordsOfOne(Kept(line, code));
    assert KeptLines([line], code) == [Kept(line, code)];
  }
}
