/** Slugs: lower-cased, every run of other characters one dash, no dash at either end. */
module Slugs {
  /** `[a-z0-9]` */
  predicate SlugChar(c: char) {
    'a' <= c <= 'z' || '0' <= c <= '9'
  }

  /** `replace(/[^a-z0-9]+/g, "-")` */
  function Collapse(s: string): string {
    if s == "" then ""
    else
      var before, c := Collapse(s[..|s| - 1]), s[|s| - 1];
      if SlugChar(c) then before + [c]
      else if |s| > 1 && !SlugChar(s[|s| - 2]) then before
      else before + "-"
  }

  /** `replace(/^-+|-+$/g, "")` */
  function TrimDashes(s: string): string {
    TrimRight(TrimLeft(s))
  }

  function TrimLeft(s: string): string {
    if s != "" && s[0] == '-' then TrimLeft(s[1..]) else s
  }

  function TrimRight(s: string): string {
    if s != "" && s[|s| - 1] == '-' then TrimRight(s[..|s| - 1]) else s
  }

  /** JavaScript's white space and line terminators. */
  predicate JsWhite(c: char) {
    var u := c as int;
    || 0x09 <= u <= 0x0d || u == 0x20 || u == 0xa0 || u == 0x1680 || 0x2000 <= u <= 0x200a
    || u == 0x2028 || u == 0x2029 || u == 0x202f || u == 0x205f || u == 0x3000 || u == 0xfeff
  }

  function TrimWhite(s: string): string {
    if s != "" && JsWhite(s[0]) then TrimWhite(s[1..])
    else if s != "" && JsWhite(s[|s| - 1]) then TrimWhite(s[..|s| - 1])
    else s
  }

  function Slugify(lower: string -> string, input: string): string {
    TrimDashes(Collapse(TrimWhite(lower(input))))
  }

  /** a-z, 0-9 and single inner dashes. */
  ghost predicate IsSlug(s: string) {
    && (forall i :: 0 <= i < |s| ==> SlugChar(s[i]) || s[i] == '-')
    && (s != "" ==> s[0] != '-' && s[|s| - 1] != '-')
    && NoDoubleDash(s)
  }

  predicate NoDoubleDash(s: string) {
    forall i :: 0 < i < |s| ==> s[i - 1] != '-' || s[i] != '-'
  }

  /** Lower-casing leaves slugs alone. */
  ghost predicate Lowers(lower: string -> string) {
    forall s: string :: IsSlug(s) ==> lower(s) == s
  }

  lemma {:induction false} CollapseForm(s: string)
    ensures forall i :: 0 <= i < |Collapse(s)| ==> SlugChar(Collapse(s)[i]) || Collapse(s)[i] == '-'
    ensures NoDoubleDash(Collapse(s))
    ensures s != "" ==> Collapse(s) != "" && (Collapse(s)[|Collapse(s)| - 1] == '-' <==> !SlugChar(s[|s| - 1]))
  {
    if s != "" {
      CollapseForm(s[..|s| - 1]);
    }
  }

  lemma {:induction false} TrimLeftForm(s: string)
    requires NoDoubleDash(s) && forall i :: 0 <= i < |s| ==> SlugChar(s[i]) || s[i] == '-'
    ensures var t := TrimLeft(s);
      NoDoubleDash(t) && (forall i :: 0 <= i < |t| ==> SlugChar(t[i]) || t[i] == '-') && (t != "" ==> t[0] != '-')
  {
    if s != "" && s[0] == '-' {
      TrimLeftForm(s[1..]);
    }
  }

  lemma {:induction false} TrimRightForm(s: string)
    requires NoDoubleDash(s) && (forall i :: 0 <= i < |s| ==> SlugChar(s[i]) || s[i] == '-')
      && (s != "" ==> s[0] != '-')
    ensures IsSlug(TrimRight(s))
  {
    if s != "" && s[|s| - 1] == '-' {
      TrimRightForm(s[..|s| - 1]);
    }
  }

  lemma TrimmedIsSlug(s: string)
    ensures IsSlug(TrimDashes(Collapse(s)))
  {
    CollapseForm(s);
    TrimLeftForm(Collapse(s));
    TrimRightForm(TrimLeft(Collapse(s)));
  }

  lemma {:induction false} SlugCollapses(s: string)
    requires NoDoubleDash(s) && forall i :: 0 <= i < |s| ==> SlugChar(s[i]) || s[i] == '-'
    ensures Collapse(s) == s
  {
    if s != "" {
      SlugCollapses(s[..|s| - 1]);
    }
  }

  /** Main result: slugging gives a slug, and slugs are exactly the texts it leaves alone; so it is idempotent. */
  lemma SlugifyIsIdempotent(lower: string -> string, input: string)
    requires Lowers(lower)
    ensures IsSlug(Slugify(lower, input))
    ensures IsSlug(input) <==> Slugify(lower, input) == input
    ensures Slugify(lower, Slugify(lower, input)) == Slugify(lower, input)
  {
    TrimmedIsSlug(TrimWhite(lower(input)));
    SlugIsFixed(lower, Slugify(lower, input));
    if IsSlug(input) {
      SlugIsFixed(lower, input);
    }
  }

  lemma SlugIsFixed(lower: string -> string, s: string)
    requires Lowers(lower) && IsSlug(s)
    ensures Slugify(lower, s) == s
  {
    assert TrimWhite(s) == s;
    SlugCollapses(s);
  }

  // ----- capitals

  function AsciiLower(s: string): (r: string)
    ensures |r| == |s|
  {
    seq(|s|, i requires 0 <= i < |s| => if 'A' <= s[i] <= 'Z' then (s[i] as int + 32) as char else s[i])
  }

  /** `toLowerCase` on a text of ASCII characters. */
  ghost predicate LowersAscii(lower: string -> string) {
    forall s: string :: (forall i :: 0 <= i < |s| ==> s[i] as int < 0x80) ==> lower(s) == AsciiLower(s)
  }

  predicate Alphanumeric(c: char) {
    SlugChar(c) || 'A' <= c <= 'Z'
  }

  /** A text of ASCII letters and digits keeps every one of them, the letters in lower case. */
  lemma LettersAreKept(lower: string -> string, word: string)
    requires LowersAscii(lower) && forall i :: 0 <= i < |word| ==> Alphanumeric(word[i])
    ensures |Slugify(lower, word)| == |word|
    ensures forall i :: 0 <= i < |word| ==>
      Slugify(lower, word)[i] == if 'A' <= word[i] <= 'Z' then (word[i] as int + 32) as char else word[i]
  {
    var low := AsciiLower(word);
    assert IsSlug(low);
    forall s: string | IsSlug(s) ensures AsciiLower(s) == s {}
    assert Lowers(lower);
    SlugIsFixed(lower, low);
    assert lower(word) == low == lower(low);
  }
}
