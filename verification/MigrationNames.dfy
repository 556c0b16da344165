/**
 Numbered migration files: a new one takes the number after the highest present, four digits at least,
 and files are run in the order their names sort in.
 */
module MigrationNames {
  import opened Slugs

  predicate Digit(c: char) {
    '0' <= c <= '9'
  }

  function DigitValue(c: char): (d: nat)
    requires Digit(c)
    ensures d < 10
  {
    c as int - '0' as int
  }

  /** How many digits a name starts with. */
  function DigitRun(name: string): (k: nat)
    ensures k <= |name| && forall i :: 0 <= i < k ==> Digit(name[i])
    ensures k < |name| ==> !Digit(name[k])
  {
    if name != "" && Digit(name[0]) then 1 + DigitRun(name[1..]) else 0
  }

  function Number(digits: string): nat
    requires forall i :: 0 <= i < |digits| ==> Digit(digits[i])
  {
    if digits == "" then 0 else Number(digits[..|digits| - 1]) * 10 + DigitValue(digits[|digits| - 1])
  }

  /** The highest leading number of the names, 0 for names without one. */
  function Highest(existing: seq<string>): nat {
    if existing == [] then 0
    else
      var max, name := Highest(existing[..|existing| - 1]), existing[|existing| - 1];
      var n := Number(name[..DigitRun(name)]);
      if n > max then n else max
  }

  function Decimal(n: nat): string {
    (if n < 10 then "" else Decimal(n / 10)) + [('0' as int + n % 10) as char]
  }

  /** `padStart(4, "0")` */
  function Pad4(s: string): string {
    if |s| >= 4 then s else Zeros(4 - |s|) + s
  }

  function Zeros(n: nat): string {
    if n == 0 then "" else Zeros(n - 1) + "0"
  }

  function SafeSlug(lower: string -> string, slug: string): string {
    var s := TrimDashes(Collapse(lower(slug)));
    if s == "" then "migration" else s
  }

  function NextMigrationFilename(lower: string -> string, existing: seq<string>, slug: string): string {
    Pad4(Decimal(Highest(existing) + 1)) + "-" + SafeSlug(lower, slug) + ".sql"
  }

  /** `nextMigrationFilename`'s reduce, as the loop it is. */
  method HighestOf(existing: seq<string>) returns (max: nat)
    ensures max == Highest(existing)
    ensures forall i :: 0 <= i < |existing| ==> Number(existing[i][..DigitRun(existing[i])]) <= max
    ensures max == 0 || exists i :: 0 <= i < |existing| && Number(existing[i][..DigitRun(existing[i])]) == max
  {
    max := 0;
    for k := 0 to |existing|
      invariant max == Highest(existing[..k])
      invariant forall i :: 0 <= i < k ==> Number(existing[i][..DigitRun(existing[i])]) <= max
      invariant max == 0 || exists i :: 0 <= i < k && Number(existing[i][..DigitRun(existing[i])]) == max
    {
      assert existing[..k + 1][..k] == existing[..k];
      var n := Number(existing[k][..DigitRun(existing[k])]);
      if n > max {
        max := n;
      }
    }
    assert existing[..|existing|] == existing;
  }

  // ----- order

  /** The order `sort()` lists names in: by code unit, a proper prefix first. */
  predicate Sorts(a: string, b: string) {
    if b == "" then false
    else if a == "" then true
    else a[0] < b[0] || (a[0] == b[0] && Sorts(a[1..], b[1..]))
  }

  lemma {:induction false} SortsAtDifference(a: string, b: string, i: nat)
    requires i < |a| && i < |b| && a[..i] == b[..i] && a[i] != b[i]
    ensures Sorts(a, b) <==> a[i] < b[i]
  {
    if i > 0 {
      assert a[0] == a[..i][0] && b[0] == b[..i][0];
      assert a[1..][..i - 1] == a[..i][1..] && b[1..][..i - 1] == b[..i][1..];
      SortsAtDifference(a[1..], b[1..], i - 1);
    }
  }

  // ----- four digits

  predicate FourDigits(name: string) {
    DigitRun(name) == 4
  }

  function Four(name: string): (n: nat)
    requires |name| >= 4 && forall i :: 0 <= i < 4 ==> Digit(name[i])
    ensures n < 10000
  {
    DigitValue(name[0]) * 1000 + DigitValue(name[1]) * 100 + DigitValue(name[2]) * 10 + DigitValue(name[3])
  }

  lemma FourIsNumber(name: string)
    requires FourDigits(name)
    ensures |name| >= 4 && Number(name[..DigitRun(name)]) == Four(name)
  {
    NumberOfFour(name);
  }

  lemma NumberOfFour(name: string)
    requires |name| >= 4 && forall i :: 0 <= i < 4 ==> Digit(name[i])
    ensures Number(name[..4]) == Four(name)
  {
    var d := name[..4];
    assert d[..3][..2] == d[..2] && d[..2][..1] == d[..1] && d[..1][..0] == "";
    assert Number(d[..1]) == DigitValue(name[0]);
    assert Number(d[..2]) == Number(d[..1]) * 10 + DigitValue(name[1]);
    assert Number(d[..3]) == Number(d[..2]) * 10 + DigitValue(name[2]);
    assert Number(d) == Number(d[..3]) * 10 + DigitValue(name[3]);
  }

  /** Of two names with four digits each, the lower number sorts first. */
  lemma FourOrders(a: string, b: string)
    requires |a| >= 4 && |b| >= 4
    requires forall i :: 0 <= i < 4 ==> Digit(a[i]) && Digit(b[i])
    requires Four(a) < Four(b)
    ensures Sorts(a, b) && !Sorts(b, a)
  {
    var i := if a[0] != b[0] then 0 else if a[1] != b[1] then 1 else if a[2] != b[2] then 2 else 3;
    FirstOfFour(a, b, i);
    SortsAtDifference(a, b, i);
    SortsAtDifference(b, a, i);
  }

  lemma FirstOfFour(a: string, b: string, i: nat)
    requires |a| >= 4 && |b| >= 4
    requires forall k :: 0 <= k < 4 ==> Digit(a[k]) && Digit(b[k])
    requires Four(a) < Four(b)
    requires i == if a[0] != b[0] then 0 else if a[1] != b[1] then 1 else if a[2] != b[2] then 2 else 3
    ensures a[i] < b[i] && a[..i] == b[..i]
  {
    var x, y := DigitValue(a[i]), DigitValue(b[i]);
    assert x < y || x == y || x > y;
  }

  predicate AllDigits(s: string) {
    forall i :: 0 <= i < |s| ==> Digit(s[i])
  }

  function PowerOfTen(k: nat): nat {
    if k == 0 then 1 else 10 * PowerOfTen(k - 1)
  }

  /** Writing a number in decimal and reading it back. */
  lemma {:induction false} DecimalReadsBack(n: nat)
    ensures AllDigits(Decimal(n)) && Number(Decimal(n)) == n
  {
    var last := ('0' as int + n % 10) as char;
    if n >= 10 {
      DecimalReadsBack(n / 10);
      assert Decimal(n)[..|Decimal(n)| - 1] == Decimal(n / 10);
    } else {
      assert Decimal(n) == [last] && Decimal(n)[..0] == "";
    }
  }

  lemma {:induction false} DecimalLength(n: nat, k: nat)
    requires n < PowerOfTen(k) && k >= 1
    ensures 1 <= |Decimal(n)| <= k
  {
    if n >= 10 {
      DecimalLength(n / 10, k - 1);
    }
  }

  lemma {:induction false} ZerosAreDigits(k: nat)
    ensures |Zeros(k)| == k && AllDigits(Zeros(k)) && Number(Zeros(k)) == 0
  {
    if k > 0 {
      ZerosAreDigits(k - 1);
      assert Zeros(k)[..k - 1] == Zeros(k - 1);
    }
  }

  lemma {:induction false} ZerosInFront(k: nat, s: string)
    requires AllDigits(s)
    ensures AllDigits(Zeros(k) + s) && Number(Zeros(k) + s) == Number(s)
  {
    ZerosAreDigits(k);
    if s == "" {
      assert Zeros(k) + s == Zeros(k);
    } else {
      var n := |s| - 1;
      ZerosInFront(k, s[..n]);
      assert (Zeros(k) + s)[..k + n] == Zeros(k) + s[..n];
    }
  }

  lemma PadIsZeros(s: string)
    requires |s| <= 4
    ensures Pad4(s) == Zeros(4 - |s|) + s
  {
    if |s| == 4 {
      assert Zeros(0) + s == s;
    }
  }

  lemma PadKeepsNumber(s: string, p: string, k: nat)
    requires AllDigits(s) && p == Zeros(k) + s
    ensures |p| == k + |s| && AllDigits(p) && Number(p) == Number(s)
  {
    ZerosAreDigits(k);
    ZerosInFront(k, s);
  }

  lemma DecimalDigits(n: nat)
    requires n < 10000
    ensures var p := Pad4(Decimal(n)); |p| == 4 && AllDigits(p) && Four(p) == n
  {
    DecimalReadsBack(n);
    TenThousand();
    DecimalLength(n, 4);
    PadIsZeros(Decimal(n));
    PadKeepsNumber(Decimal(n), Pad4(Decimal(n)), 4 - |Decimal(n)|);
    FourOfAll(Pad4(Decimal(n)));
  }

  lemma TenThousand()
    ensures PowerOfTen(4) == 10000
  {
    assert PowerOfTen(1) == 10 && PowerOfTen(2) == 100 && PowerOfTen(3) == 1000;
  }

  lemma FourOfAll(p: string)
    requires |p| == 4 && AllDigits(p)
    ensures Four(p) == Number(p)
  {
    NumberOfFour(p);
    assert p[..4] == p;
  }

  // ----- generated names

  ghost predicate AllFour(existing: seq<string>) {
    forall i :: 0 <= i < |existing| ==> FourDigits(existing[i])
  }

  lemma {:induction false} HighestBounds(existing: seq<string>)
    requires AllFour(existing)
    ensures Highest(existing) <= 9999
    ensures forall i :: 0 <= i < |existing| ==> |existing[i]| >= 4 && Four(existing[i]) <= Highest(existing)
    ensures Highest(existing) == 0 || exists i :: 0 <= i < |existing| && Four(existing[i]) == Highest(existing)
  {
    if existing != [] {
      var n := |existing| - 1;
      HighestBounds(existing[..n]);
      FourIsNumber(existing[n]);
      assert forall i :: 0 <= i < n ==> existing[i] == existing[..n][i];
    }
  }

  lemma NextHasFour(lower: string -> string, existing: seq<string>, slug: string)
    requires Highest(existing) < 9999
    ensures var name := NextMigrationFilename(lower, existing, slug);
      FourDigits(name) && |name| >= 4 && Four(name) == Highest(existing) + 1
  {
    var n := Highest(existing) + 1;
    DecimalDigits(n);
    var p, name := Pad4(Decimal(n)), NextMigrationFilename(lower, existing, slug);
    assert name[..4] == p && name[4] == '-';
    RunOf(name, 4);
  }

  lemma {:induction false} RunOf(name: string, k: nat)
    requires k < |name| && !Digit(name[k]) && forall i :: 0 <= i < k ==> Digit(name[i])
    ensures DigitRun(name) == k
  {
    if k > 0 {
      RunOf(name[1..], k - 1);
    }
  }

  lemma NextAfterHighest(lower: string -> string, existing: seq<string>, slug: string)
    requires AllFour(existing) && Highest(existing) < 9999
    ensures forall e <- existing :: Sorts(e, NextMigrationFilename(lower, existing, slug))
  {
    var name := NextMigrationFilename(lower, existing, slug);
    HighestBounds(existing);
    NextHasFour(lower, existing, slug);
    forall e | e in existing ensures Sorts(e, name) {
      var i :| 0 <= i < |existing| && existing[i] == e;
      FourOrders(existing[i], name);
    }
  }

  /** The ten-thousandth file takes a fifth digit and sorts before its predecessor. */
  lemma TenThousandthSortsEarly(lower: string -> string, existing: seq<string>, slug: string, e: string)
    requires AllFour(existing) && Highest(existing) == 9999 && e in existing && FourDigits(e) && Four(e) == 9999
    ensures !Sorts(e, NextMigrationFilename(lower, existing, slug))
  {
    var name := NextMigrationFilename(lower, existing, slug);
    assert name[0] == '1' by {
      DecimalStart();
    }
    assert e[0] == '9';
    SortsAtDifference(e, name, 0);
  }

  lemma DecimalStart()
    ensures Decimal(10000) == "10000"
  {
    assert Decimal(1) == "1" && Decimal(10) == Decimal(1) + "0";
    assert Decimal(100) == Decimal(10) + "0" && Decimal(1000) == Decimal(100) + "0";
    assert Decimal(10000) == Decimal(1000) + "0";
  }

  /**
   Main result: while every name present starts with exactly four digits, the generated name sorts strictly
   after all of them if and only if the highest number is below 9999.
   */
  lemma NextSortsLast(lower: string -> string, existing: seq<string>, slug: string)
    requires AllFour(existing)
    ensures (forall e <- existing :: Sorts(e, NextMigrationFilename(lower, existing, slug))) <==>
      Highest(existing) < 9999
  {
    HighestBounds(existing);
    if Highest(existing) < 9999 {
      NextAfterHighest(lower, existing, slug);
    } else {
      var i :| 0 <= i < |existing| && Four(existing[i]) == 9999;
      TenThousandthSortsEarly(lower, existing, slug, existing[i]);
      assert existing[i] in existing;
    }
  }

  /** The names present after generating one file per slug, in turn. */
  function Series(lower: string -> string, existing: seq<string>, slugs: seq<string>): (names: seq<string>)
    ensures |names| == |existing| + |slugs| && existing <= names
  {
    if slugs == [] then existing
    else
      var before := Series(lower, existing, slugs[..|slugs| - 1]);
      before + [NextMigrationFilename(lower, before, slugs[|slugs| - 1])]
  }

  lemma {:induction false} SeriesNumbers(lower: string -> string, existing: seq<string>, slugs: seq<string>)
    requires AllFour(existing) && Highest(existing) + |slugs| <= 9999
    ensures var names := Series(lower, existing, slugs);
      AllFour(names) && Highest(names) == Highest(existing) + |slugs|
  {
    if slugs != [] {
      var n := |slugs| - 1;
      SeriesNumbers(lower, existing, slugs[..n]);
      var before := Series(lower, existing, slugs[..n]);
      NextHasFour(lower, before, slugs[n]);
      var name := NextMigrationFilename(lower, before, slugs[n]);
      FourIsNumber(name);
      assert (before + [name])[..|before|] == before;
    }
  }

  /** Main result: any series of generations is listed in the order it was generated. */
  lemma {:induction false} SeriesListsInOrder(
      lower: string -> string, existing: seq<string>, slugs: seq<string>, i: nat, j: nat)
    requires AllFour(existing) && Highest(existing) + |slugs| <= 9999
    requires i < j < |existing| + |slugs| && |existing| <= j
    ensures var names := Series(lower, existing, slugs); Sorts(names[i], names[j])
    decreases |slugs|
  {
    hide Sorts;
    hide AllFour;
    hide Highest;
    hide NextMigrationFilename;
    var n := |slugs| - 1;
    var before := Series(lower, existing, slugs[..n]);
    SeriesNumbers(lower, existing, slugs[..n]);
    if j == |existing| + n {
      NextAfterHighest(lower, before, slugs[n]);
      assert before[i] in before;
    } else {
      SeriesListsInOrder(lower, existing, slugs[..n], i, j);
    }
  }
}
