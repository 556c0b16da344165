/**
 Spreadsheet column names: bijective base 26 (ECMA-376 Part 1, section 18.3.1.4), where "A" is
 column 0 and "AA" follows "Z".
 */
module Columns {
  predicate Letter(c: char) {
    'A' <= c <= 'Z'
  }

  predicate Letters(s: string) {
    forall c <- s :: Letter(c)
  }

  function Digit(c: char): (d: nat)
    requires Letter(c)
    ensures 1 <= d <= 26
  {
    c as int - 64
  }

  /** The number a name spells, counting "A" as 1 and the empty name as 0. */
  function Value(s: string): nat
    requires Letters(s)
  {
    if s == "" then 0 else Value(s[..|s| - 1]) * 26 + Digit(s[|s| - 1])
  }

  /** How many letters `ref` starts with: "BC12" starts with two. */
  predicate Leads(ref: string, k: nat) {
    && k <= |ref| && (forall j :: 0 <= j < k ==> Letter(ref[j]))
    && (k < |ref| ==> !Letter(ref[k]))
  }

  method ColumnIndex(ref: string) returns (column: int)
    ensures forall k: nat :: Leads(ref, k) ==> column == Value(ref[..k]) - 1
    ensures exists k: nat :: Leads(ref, k)
  {
    var n, i := 0, 0;
    while i < |ref|
      invariant 0 <= i <= |ref| && Letters(ref[..i]) && n == Value(ref[..i])
    {
      var c := ref[i] as int;
      if c < 65 || c > 90 {
        break;
      }
      assert ref[..i + 1][..i] == ref[..i];
      n := n * 26 + (c - 64);
      i := i + 1;
    }
    assert Leads(ref, i);
    column := n - 1;
  }

  // ----- the standard printer

  function Symbol(d: nat): char
    requires 1 <= d <= 26
  {
    (d + 64) as char
  }

  function Name(n: nat): (s: string)
    ensures Letters(s)
  {
    if n == 0 then "" else Name((n - 1) / 26) + [Symbol((n - 1) % 26 + 1)]
  }

  /** Every number has a name that spells it. */
  lemma {:induction false} ValueOfName(n: nat)
    ensures Value(Name(n)) == n
  {
    if n > 0 {
      var front := Name((n - 1) / 26);
      ValueOfName((n - 1) / 26);
      assert Name(n)[..|Name(n)| - 1] == front;
    }
  }

  lemma DivUnique(q: nat, d: nat)
    requires 1 <= d <= 26
    ensures (q * 26 + d - 1) / 26 == q && (q * 26 + d - 1) % 26 == d - 1
  {}

  /** Every name is the one name of its number. */
  lemma {:induction false} NameOfValue(s: string)
    requires Letters(s)
    ensures Name(Value(s)) == s
  {
    if s != "" {
      var front, last := s[..|s| - 1], s[|s| - 1];
      NameOfValue(front);
      DivUnique(Value(front), Digit(last));
      assert s == front + [last];
    }
  }

  // ----- order

  /** Shorter names come first; names of one length, in alphabetical order. */
  predicate Before(s: string, t: string) {
    |s| < |t| || (|s| == |t| && exists i :: 0 <= i < |s| && s[..i] == t[..i] && s[i] < t[i])
  }

  /** The smallest number with a name of `k` letters: 1, 27, 703, ... */
  function First(k: nat): nat {
    if k == 0 then 0 else First(k - 1) * 26 + 1
  }

  lemma {:induction false} ValueInRange(s: string)
    requires Letters(s)
    ensures First(|s|) <= Value(s) < First(|s| + 1)
  {
    if s != "" {
      ValueInRange(s[..|s| - 1]);
    }
  }

  lemma {:induction false} FirstGrows(j: nat, k: nat)
    requires j <= k
    ensures First(j) <= First(k)
  {
    if j < k {
      FirstGrows(j, k - 1);
    }
  }

  lemma {:induction false} Alphabetical(s: string, t: string, i: nat)
    requires Letters(s) && Letters(t) && |s| == |t|
    requires i < |s| && s[..i] == t[..i] && s[i] < t[i]
    ensures Value(s) < Value(t)
  {
    var n := |s| - 1;
    if i == n {
      assert s[..n] == t[..n];
    } else {
      assert s[..n][..i] == s[..i] && t[..n][..i] == t[..i];
      Alphabetical(s[..n], t[..n], i);
    }
  }

  lemma BeforeIsLess(s: string, t: string)
    requires Letters(s) && Letters(t) && Before(s, t)
    ensures Value(s) < Value(t)
  {
    if |s| < |t| {
      ShorterIsLess(s, t);
    } else {
      var i :| 0 <= i < |s| && s[..i] == t[..i] && s[i] < t[i];
      Alphabetical(s, t, i);
    }
  }

  /** Main result: reading a name as a number keeps the order of names, strictly and both ways. */
  lemma OrderKept(s: string, t: string)
    requires Letters(s) && Letters(t)
    ensures Before(s, t) <==> Value(s) < Value(t)
  {
    if Before(s, t) {
      BeforeIsLess(s, t);
    } else if |t| < |s| {
      ShorterIsLess(t, s);
    } else if s != t {
      var i := FirstDifference(s, t);
      Alphabetical(t, s, i);
    }
  }

  lemma ShorterIsLess(s: string, t: string)
    requires Letters(s) && Letters(t) && |s| < |t|
    ensures Value(s) < Value(t)
  {
    ValueInRange(s);
    ValueInRange(t);
    FirstGrows(|s| + 1, |t|);
  }

  lemma {:induction false} FirstDifference(s: string, t: string) returns (i: nat)
    requires |s| == |t| && s != t
    ensures i < |s| && s[..i] == t[..i] && s[i] != t[i]
  {
    var n := |s| - 1;
    if s[..n] == t[..n] {
      assert s == s[..n] + [s[n]] && t == t[..n] + [t[n]];
      i := n;
    } else {
      i := FirstDifference(s[..n], t[..n]);
      assert s[..n][..i] == s[..i] && t[..n][..i] == t[..i];
    }
  }
}
