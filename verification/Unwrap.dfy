/**
 Joining hard-wrapped markdown paragraphs. The loops of `unwrap` are proved against `Unwrapped`, which
 says block by block what the output is; what that keeps of the text is proved in `UnwrapProofs`.
 */
module Unwrap {
  import opened Wrappers

  type Lines = seq<string>

  /** The line patterns that only decide where a block ends, and what `\d` takes for a digit beyond ASCII. */
  datatype Grammar = Grammar(
    heading: string -> bool,
    rule: string -> bool,
    linkRef: string -> bool,
    alert: string -> bool,
    digit: char -> bool)

  // ----- whitespace

  /** `str.isspace` and `\s`. */
  predicate White(c: char) {
    var u := c as int;
    || 0x09 <= u <= 0x0d || 0x1c <= u <= 0x20 || u == 0x85 || u == 0xa0 || u == 0x1680
    || 0x2000 <= u <= 0x200a || u == 0x2028 || u == 0x2029 || u == 0x202f || u == 0x205f || u == 0x3000
  }

  /** How many characters of white space `s` starts with. */
  function Lead(s: string): (k: nat)
    ensures k <= |s|
  {
    if s != "" && White(s[0]) then Lead(s[1..]) + 1 else 0
  }

  function LStrip(s: string): string {
    s[Lead(s)..]
  }

  function RStrip(s: string): string {
    if s != "" && White(s[|s| - 1]) then RStrip(s[..|s| - 1]) else s
  }

  function Strip(s: string): string {
    RStrip(LStrip(s))
  }

  // ----- line patterns

  predicate StartsWith(s: string, p: string) {
    p <= s
  }

  function Fence(line: string): Option<string> {
    if StartsWith(LStrip(line), "```") then Some("```")
    else if StartsWith(LStrip(line), "~~~") then Some("~~~")
    else None
  }

  predicate Structural(g: Grammar, line: string) {
    || Strip(line) == "" || g.heading(line) || g.rule(line)
    || StartsWith(LStrip(line), "|") || StartsWith(LStrip(line), "<") || g.linkRef(line)
  }

  /** The length of a quote marker: white space, `>`, and at most one more character of white space. */
  function Quote(line: string): Option<nat> {
    var k := Lead(line);
    if k < |line| && line[k] == '>' then
      Some(if k + 1 < |line| && White(line[k + 1]) then k + 2 else k + 1)
    else None
  }

  function Unquoted(line: string): string {
    var q := Quote(line);
    if q.Some? && q.value <= |line| then line[q.value..] else line
  }

  predicate IsDigit(g: Grammar, c: char) {
    '0' <= c <= '9' || ('\U{7f}' < c && g.digit(c))
  }

  /** How many digits `s` starts with. */
  function Digits(g: Grammar, s: string): (d: nat)
    ensures d <= |s|
  {
    if s != "" && IsDigit(g, s[0]) then Digits(g, s[1..]) + 1 else 0
  }

  /** The end of a list marker at the start of `s`: a dash, star or plus, or digits and a dot or bracket. */
  function MarkerEnd(g: Grammar, s: string): (e: Option<nat>)
    ensures e.Some? ==> 0 < e.value <= |s|
  {
    var d := Digits(g, s);
    if s != "" && s[0] in "-*+" then Some(1)
    else if 0 < d < |s| && s[d] in ".)" then Some(d + 1)
    else None
  }

  /** The length of a list marker with the white space around it, of which some has to follow. */
  function Bullet(g: Grammar, line: string): (b: Option<nat>)
    ensures b.Some? ==> b.value <= |line|
  {
    var k := Lead(line);
    var e := MarkerEnd(g, line[k..]);
    if e.Some? && Lead(line[k + e.value..]) > 0 then Some(k + e.value + Lead(line[k + e.value..])) else None
  }

  // ----- where blocks end

  predicate ClosesFence(line: string, marker: string) {
    StartsWith(Strip(line), marker)
  }

  function FenceEnd(lines: Lines, i: nat, marker: string): (j: nat)
    requires i <= |lines|
    ensures i <= j <= |lines|
    decreases |lines| - i
  {
    if i == |lines| then i
    else if ClosesFence(lines[i], marker) then i + 1
    else FenceEnd(lines, i + 1, marker)
  }

  predicate QuoteGoesOn(g: Grammar, line: string) {
    Quote(line).Some? && Strip(line) != ">" && Strip(line) != "" && !g.alert(Content(line))
  }

  predicate ItemGoesOn(g: Grammar, line: string, indent: nat) {
    !(Structural(g, line) || Fence(line).Some? || Bullet(g, line).Some?) && Lead(line) >= indent
  }

  predicate ParagraphGoesOn(g: Grammar, line: string) {
    !(Structural(g, line) || Fence(line).Some? || Bullet(g, line).Some? || Quote(line).Some?)
  }

  /** The first line from `i` on that does not go on with the block. */
  function End(goesOn: string -> bool, lines: Lines, i: nat): (j: nat)
    requires i <= |lines|
    ensures i <= j <= |lines|
    decreases |lines| - i
  {
    if i < |lines| && goesOn(lines[i]) then End(goesOn, lines, i + 1) else i
  }

  function QuoteGoes(g: Grammar): string -> bool {
    line => QuoteGoesOn(g, line)
  }

  function ItemGoes(g: Grammar, indent: nat): string -> bool {
    line => ItemGoesOn(g, line, indent)
  }

  function ParagraphGoes(g: Grammar): string -> bool {
    line => ParagraphGoesOn(g, line)
  }

  // ----- what a block becomes

  /** `" ".join(parts)` */
  function Join(parts: Lines): string {
    if parts == [] then ""
    else if |parts| == 1 then parts[0]
    else Join(parts[..|parts| - 1]) + " " + parts[|parts| - 1]
  }

  function NonEmpty(parts: Lines): Lines {
    if parts == [] then []
    else NonEmpty(parts[..|parts| - 1]) + if parts[|parts| - 1] == "" then [] else [parts[|parts| - 1]]
  }

  function Parts(part: string -> string, lines: Lines): (r: Lines)
    ensures |r| == |lines|
  {
    if lines == [] then [] else Parts(part, lines[..|lines| - 1]) + [part(lines[|lines| - 1])]
  }

  /** The text of a quoted line. */
  function Content(line: string): string {
    Strip(Unquoted(line))
  }

  /** The first part of a block, and what the lines after it up to `j` add. */
  function Folded(first: string, part: string -> string, lines: Lines, i: nat, j: nat): Lines
    requires i < j <= |lines|
  {
    [first] + Parts(part, lines[i + 1..j])
  }

  /** One block: the lines it emits, and the line after it. */
  datatype Block = Block(emitted: Lines, next: nat)

  function BlockAt(g: Grammar, lines: Lines, i: nat): (b: Block)
    requires i < |lines|
    ensures i < b.next <= |lines|
  {
    var line := lines[i];
    if Fence(line).Some? then
      var j := FenceEnd(lines, i + 1, Fence(line).value);
      Block(lines[i..j], j)
    else if Structural(g, line) then Block([line], i + 1)
    else if Quote(line).Some? then QuoteBlock(g, lines, i)
    else if Bullet(g, line).Some? then
      var j := End(ItemGoes(g, Bullet(g, line).value), lines, i + 1);
      Block([Join(Folded(RStrip(line), Strip, lines, i, j))], j)
    else
      var j := End(ParagraphGoes(g), lines, i + 1);
      Block([Join(NonEmpty(Folded(RStrip(line), Strip, lines, i, j)))], j)
  }

  function QuoteBlock(g: Grammar, lines: Lines, i: nat): (b: Block)
    requires i < |lines|
    ensures i < b.next <= |lines|
  {
    var line := lines[i];
    if Content(line) == "" || g.alert(Content(line)) then Block([RStrip(line)], i + 1)
    else
      var j := End(QuoteGoes(g), lines, i + 1);
      Block([Marker(line) + Join(NonEmpty(Folded(Content(line), Content, lines, i, j)))], j)
  }

  function Marker(line: string): string {
    var q := Quote(line);
    if q.Some? && q.value <= |line| then line[..q.value] else ""
  }

  /** What is emitted from line `i` on. */
  function UnwrappedFrom(g: Grammar, lines: Lines, i: nat): Lines
    requires i <= |lines|
    decreases |lines| - i
  {
    if i == |lines| then []
    else
      var b := BlockAt(g, lines, i);
      b.emitted + UnwrappedFrom(g, lines, b.next)
  }

  // ----- frontmatter

  predicate Dashes(line: string) {
    Strip(line) == "---"
  }

  /** The first closing line of frontmatter at or after `j`, if any. */
  function DashesFrom(lines: Lines, j: nat): (r: Option<nat>)
    requires j <= |lines|
    ensures r.Some? ==> j <= r.value < |lines| && Dashes(lines[r.value])
    ensures forall k :: j <= k < |lines| && Dashes(lines[k]) ==> r.Some? && r.value <= k
    decreases |lines| - j
  {
    if j == |lines| then None
    else if Dashes(lines[j]) then Some(j)
    else DashesFrom(lines, j + 1)
  }

  /** How many lines pass through as frontmatter. */
  function FrontEnd(lines: Lines): (n: nat)
    ensures n <= |lines|
  {
    if lines != [] && Dashes(lines[0]) && DashesFrom(lines, 1).Some? then DashesFrom(lines, 1).value + 1 else 0
  }

  function Unwrapped(g: Grammar, lines: Lines): Lines {
    lines[..FrontEnd(lines)] + UnwrappedFrom(g, lines, FrontEnd(lines))
  }

  // ----- the loops

  method FrontMatter(lines: Lines) returns (out: Lines, i: nat)
    ensures i == FrontEnd(lines) && out == lines[..i]
  {
    out, i := [], 0;
    if |lines| > 0 && Strip(lines[0]) == "---" {
      for j := 1 to |lines|
        invariant forall k :: 1 <= k < j ==> !Dashes(lines[k])
      {
        if Strip(lines[j]) == "---" {
          assert Dashes(lines[j]);
          return lines[..j + 1], j + 1;
        }
      }
    }
  }

  method CopyFence(lines: Lines, start: nat) returns (out: Lines, i: nat)
    requires start < |lines| && Fence(lines[start]).Some?
    ensures i == FenceEnd(lines, start + 1, Fence(lines[start]).value) && out == lines[start..i]
  {
    var marker := Fence(lines[start]).value;
    out, i := [lines[start]], start + 1;
    while i < |lines|
      invariant start < i <= |lines| && out == lines[start..i]
      invariant FenceEnd(lines, i, marker) == FenceEnd(lines, start + 1, marker)
    {
      out := out + [lines[i]];
      i := i + 1;
      if ClosesFence(lines[i - 1], marker) {
        return;
      }
    }
  }

  /** The inner loops: collect the block's parts until a line that does not go on with it. */
  method Fold(first: string, goesOn: string -> bool, part: string -> string, lines: Lines, start: nat)
    returns (buf: Lines, i: nat)
    requires start < |lines|
    ensures i == End(goesOn, lines, start + 1) && buf == Folded(first, part, lines, start, i)
  {
    buf := [first];
    i := start + 1;
    while i < |lines| && goesOn(lines[i])
      invariant start < i <= |lines| && buf == Folded(first, part, lines, start, i)
      invariant End(goesOn, lines, i) == End(goesOn, lines, start + 1)
    {
      assert lines[start + 1..i + 1][..i - start - 1] == lines[start + 1..i];
      buf := buf + [part(lines[i])];
      i := i + 1;
    }
  }

  method OneBlock(g: Grammar, lines: Lines, start: nat) returns (out: Lines, i: nat)
    requires start < |lines|
    ensures BlockAt(g, lines, start) == Block(out, i)
  {
    var line := lines[start];
    if Fence(line).Some? {
      out, i := CopyFence(lines, start);
    } else if Structural(g, line) {
      out, i := [line], start + 1;
    } else if Quote(line).Some? {
      if Content(line) == "" || g.alert(Content(line)) {
        return [RStrip(line)], start + 1;
      }
      var buf;
      buf, i := Fold(Content(line), QuoteGoes(g), Content, lines, start);
      out := [Marker(line) + Join(NonEmpty(buf))];
    } else if Bullet(g, line).Some? {
      var buf;
      buf, i := Fold(RStrip(line), ItemGoes(g, Bullet(g, line).value), Strip, lines, start);
      out := [Join(buf)];
    } else {
      var buf;
      buf, i := Fold(RStrip(line), ParagraphGoes(g), Strip, lines, start);
      out := [Join(NonEmpty(buf))];
    }
  }

  method UnwrapLines(g: Grammar, lines: Lines) returns (out: Lines)
    ensures out == Unwrapped(g, lines)
  {
    var i;
    out, i := FrontMatter(lines);
    while i < |lines|
      invariant i <= |lines|
      invariant out + UnwrappedFrom(g, lines, i) == Unwrapped(g, lines)
      decreases |lines| - i
    {
      var block, next := OneBlock(g, lines, i);
      Regroup(out, block, UnwrappedFrom(g, lines, next));
      out := out + block;
      i := next;
    }
  }

  lemma Regroup(a: Lines, b: Lines, c: Lines)
    ensures a + (b + c) == a + b + c
  {}
}
