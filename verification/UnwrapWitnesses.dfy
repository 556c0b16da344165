/** Texts that unwrapping refuses, or leaves for a second run. */
module UnwrapWitnesses {
  import opened Wrappers
  import opened Unwrap
  import opened UnwrapWords
  import opened UnwrapDrift
  import opened UnwrapChecked

  /** None of the texts below holds a heading, rule, link reference or alert. */
  const PLAIN := Grammar(_ => false, _ => false, _ => false, _ => false, _ => false)

  lemma StripLetter(c: char, after: string)
    requires !White(c) && (after == "" || after == " ")
    ensures RStrip([c] + after) == [c] && Strip([c] + after) == [c]
    ensures Lead([c] + after) == 0
  {
    var s := [c] + after;
    assert after == "" ==> s == [c];
    assert after == " " ==> s[..1] == [c] && White(s[1]);
    assert s[0..] == s;
  }

  /** A paragraph line, then a list marker with nothing but a space behind it. */
  const BARE: Lines := ["a", "- "]

  lemma BareLines()
    ensures !IsFence("a") && !Structural(PLAIN, "a") && Quote("a").None? && Bullet(PLAIN, "a").None?
    ensures !IsFence("- ") && !Structural(PLAIN, "- ") && Quote("- ").None? && Bullet(PLAIN, "- ") == Some(2)
    ensures !IsFence("-") && !Structural(PLAIN, "-") && Quote("-").None? && Bullet(PLAIN, "-").None?
    ensures RStrip("- ") == "-" && RStrip("a") == "a" && Strip("-") == "-" && RStrip("-") == "-"
    ensures Strip("a") == "a"
  {
    StripLetter('a', "");
    StripLetter('-', " ");
    StripLetter('-', "");
    assert "- "[0..] == "- " && "- "[1..] == " " && " "[1..] == "" && "a"[0..] == "a" && "-"[0..] == "-";
    assert "-"[1..] == "";
    assert ['a'] + "" == "a" && ['-'] + " " == "- " && ['-'] + "" == "-";
  }

  lemma FirstRun()
    ensures Unwrapped(PLAIN, BARE) == ["a", "-"]
  {
    BareLines();
    var lines := BARE;
    assert FrontEnd(lines) == 0;
    assert !ParagraphGoes(PLAIN)(lines[1]);
    assert End(ParagraphGoes(PLAIN), lines, 1) == 1 && End(ItemGoes(PLAIN, 2), lines, 2) == 2;
    JoinTail("a", []);
    JoinTail("-", []);
    assert NonEmpty(["a"]) == ["a"];
    assert BlockAt(PLAIN, lines, 0) == Block(["a"], 1);
    assert BlockAt(PLAIN, lines, 1) == Block(["-"], 2);
    assert UnwrappedFrom(PLAIN, lines, 2) == [];
    assert UnwrappedFrom(PLAIN, lines, 1) == ["-"];
  }

  lemma SecondRun()
    ensures Unwrapped(PLAIN, ["a", "-"]) == ["a -"]
  {
    hide RStrip, Strip, Lead, Structural, Quote, Bullet, Fence;
    BareLines();
    var lines := ["a", "-"];
    NoFrontMatter(lines);
    assert ParagraphGoes(PLAIN)(lines[1]);
    assert End(ParagraphGoes(PLAIN), lines, 1) == 2;
    FoldsTwo(lines);
    assert BlockAt(PLAIN, lines, 0) == Block(["a -"], 2);
    assert UnwrappedFrom(PLAIN, lines, 2) == [];
  }

  lemma NoFrontMatter(lines: Lines)
    requires lines != [] && lines[0] == "a"
    ensures FrontEnd(lines) == 0
  {
    BareLines();
  }

  lemma FoldsTwo(lines: Lines)
    requires lines == ["a", "-"]
    ensures Join(NonEmpty(Folded("a", Strip, lines, 0, 2))) == "a -"
  {
    hide Strip, Join, NonEmpty, Parts, Tail;
    OnePart();
    assert lines[1..2] == ["-"];
    PlainJoin("a", ["-"]);
  }

  lemma OnePart()
    ensures Parts(Strip, ["-"]) == ["-"] && NonEmpty(["-"]) == ["-"] && Tail(["-"]) == " -"
  {
    hide Strip;
    BareLines();
    assert ["-"][..0] == [];
  }

  /** Unwrapping what has been unwrapped can still change it: the marker loses its space, and then its line. */
  lemma TwiceWitness()
    ensures Unwrapped(PLAIN, Unwrapped(PLAIN, BARE)) != Unwrapped(PLAIN, BARE)
    ensures KeepsWords(PLAIN, BARE) && KeepsWords(PLAIN, Unwrapped(PLAIN, BARE))
  {
    hide KeepsWords, Unwrapped, RStrip, Strip, Lead, Structural, Bullet, Fence;
    FirstRun();
    SecondRun();
    BareLines();
    NoQuotes(BARE);
    NoQuotes(["a", "-"]);
  }

  lemma NoQuotes(lines: Lines)
    requires forall k :: 0 <= k < |lines| ==> Quote(lines[k]).None?
    ensures KeepsWords(PLAIN, lines)
  {}

  /** A quote with a quote inside it. */
  const NESTED: Lines := ["> a", ">> b"]

  lemma NestedLines()
    ensures !IsFence("> a") && !Structural(PLAIN, "> a") && Quote("> a") == Some(2) && !Dashes("> a")
    ensures Content("> a") == "a" && Quote(">> b").Some? && Strip(">> b") != ">" && Strip(">> b") != ""
    ensures Arrows(LStrip(">> b")) == 2
  {
    StripLetter('a', "");
    assert ['a'] + "" == "a" && "> a"[2..] == "a";
    assert "> a"[0..] == "> a" && ">> b"[0..] == ">> b" && ">> b"[1..] == "> b" && "> b"[1..] == " b";
  }

  /** The fold keeps one `>` more than the check, which refuses the text. */
  lemma NestedQuoteWitness()
    ensures !KeepsWords(PLAIN, NESTED)
  {
    hide RStrip, Strip, Lead, LStrip, Structural, Bullet, Fence, Content, Arrows, Quote;
    NestedLines();
    var lines := NESTED;
    assert QuoteGoes(PLAIN)(lines[1]);
    assert End(QuoteGoes(PLAIN), lines, 1) == 2;
    assert BlockAt(PLAIN, lines, 0).next == 2;
    assert Spoils(lines[0], lines[1], InCode(lines[..0], false));
    assert SpoiltAt(PLAIN, lines, FrontEnd(lines), 0, 1);
  }
}
