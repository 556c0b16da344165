/**
 JSON values and `JSON.stringify` (RFC 8259). Text is a sequence of UTF-16 code units; a number is
 carried as the text it prints as. The printed form of a value determines the value.
 */
module Json {
  newtype unit = x: int | 0 <= x < 0x1_0000

  type Text = seq<unit>

  const QUOTE: unit := 34
  const BACKSLASH: unit := 92
  const COMMA: unit := 44
  const COLON: unit := 58
  const OPEN_LIST: unit := 91
  const CLOSE_LIST: unit := 93
  const OPEN_OBJECT: unit := 123
  const CLOSE_OBJECT: unit := 125

  /** A character a printed number can hold: a digit, or one of + - . e */
  predicate NumberUnit(u: unit) {
    48 <= u <= 57 || u == 43 || u == 45 || u == 46 || u == 101
  }

  /** A printed number starts with a digit or a minus sign. */
  predicate IsNumber(t: Text) {
    && t != [] && (48 <= t[0] <= 57 || t[0] == 45)
    && forall i :: 0 <= i < |t| ==> NumberUnit(t[i])
  }

  type Number = t: Text | IsNumber(t) witness [48]

  datatype Json =
    | Null
    | Bool(value: bool)
    | Num(number: Number)
    | Str(text: Text)
    | Arr(items: seq<Json>)
    | Obj(members: seq<Member>)

  datatype Member = Member(key: Text, value: Json)

  // ----- strings

  predicate High(u: unit) {
    0xd800 <= u < 0xdc00
  }

  predicate Low(u: unit) {
    0xdc00 <= u < 0xe000
  }

  /** A surrogate without its other half. */
  predicate Lone(t: Text, i: nat)
    requires i < |t|
  {
    || (High(t[i]) && !(i + 1 < |t| && Low(t[i + 1])))
    || (Low(t[i]) && !(i > 0 && High(t[i - 1])))
  }

  function Hex(d: int): unit
    requires 0 <= d < 16
  {
    if d < 10 then (48 + d) as unit else (87 + d) as unit
  }

  /** The letter of a two-character escape, or 0 where there is none. */
  function Short(u: unit): unit {
    if u == 8 then 98 else if u == 9 then 116 else if u == 10 then 110 else if u == 12 then 102
    else if u == 13 then 114 else if u == QUOTE then QUOTE else if u == BACKSLASH then BACKSLASH else 0
  }

  function Escape(u: unit, lone: bool): Text {
    if Short(u) != 0 then [BACKSLASH, Short(u)]
    else if u < 32 || lone then
      var n := u as int;
      [BACKSLASH, 117, Hex(n / 4096), Hex(n / 256 % 16), Hex(n / 16 % 16), Hex(n % 16)]
    else [u]
  }

  function Escaped(t: Text, i: nat): Text
    requires i <= |t|
    decreases |t| - i
  {
    if i == |t| then [] else Escape(t[i], Lone(t, i)) + Escaped(t, i + 1)
  }

  function Quoted(t: Text): Text {
    [QUOTE] + Escaped(t, 0) + [QUOTE]
  }

  // ----- values

  function Print(v: Json): Text
    decreases v, 1, 0
  {
    match v
    case Null => [110, 117, 108, 108]
    case Bool(true) => [116, 114, 117, 101]
    case Bool(false) => [102, 97, 108, 115, 101]
    case Num(n) => n
    case Str(t) => Quoted(t)
    case Arr(items) => [OPEN_LIST] + PrintItems(v, 0) + [CLOSE_LIST]
    case Obj(ms) => [OPEN_OBJECT] + PrintMembers(v, 0) + [CLOSE_OBJECT]
  }

  function PrintItems(v: Json, i: nat): Text
    requires v.Arr? && i <= |v.items|
    decreases v, 0, |v.items| - i
  {
    if i == |v.items| then []
    else (if i == 0 then [] else [COMMA]) + Print(v.items[i]) + PrintItems(v, i + 1)
  }

  function PrintMembers(v: Json, i: nat): Text
    requires v.Obj? && i <= |v.members|
    decreases v, 0, |v.members| - i
  {
    if i == |v.members| then []
    else
      (if i == 0 then [] else [COMMA]) + Quoted(v.members[i].key) + [COLON] + Print(v.members[i].value)
      + PrintMembers(v, i + 1)
  }

  // ----- strings are unambiguous

  lemma HexInjective(a: int, b: int)
    requires 0 <= a < 16 && 0 <= b < 16 && Hex(a) == Hex(b)
    ensures a == b
  {}

  lemma Digits(n: int)
    requires 0 <= n < 0x1_0000
    ensures n == n / 4096 * 4096 + n / 256 % 16 * 256 + n / 16 % 16 * 16 + n % 16
    ensures 0 <= n / 4096 < 16
  {
    assert n / 256 == n / 16 / 16 && n / 4096 == n / 256 / 16;
  }

  lemma ShortInjective(u: unit, v: unit)
    requires Short(u) == Short(v) != 0
    ensures u == v
  {}

  lemma LongInjective(u: unit, v: unit)
    requires Short(u) == 0 == Short(v) && Escape(u, true) == Escape(v, true)
    ensures u == v
  {
    var m, n := u as int, v as int;
    Digits(m);
    Digits(n);
    var a, b := Escape(u, true), Escape(v, true);
    assert a[2] == b[2] && a[3] == b[3] && a[4] == b[4] && a[5] == b[5];
    HexInjective(m / 4096, n / 4096);
    HexInjective(m / 256 % 16, n / 256 % 16);
    HexInjective(m / 16 % 16, n / 16 % 16);
    HexInjective(m % 16, n % 16);
  }

  lemma SameLength(a: Text, b: Text, x: Text, y: Text)
    requires a + x == b + y && |a| == |b|
    ensures a == b && x == y
  {
    assert (a + x)[..|a|] == a && (b + y)[..|b|] == b;
    assert (a + x)[|a|..] == x && (b + y)[|b|..] == y;
  }

  /** Whatever follows it, the text of one unit says which unit it was and where it stopped. */
  lemma UnitUnambiguous(u: unit, l: bool, v: unit, m: bool, x: Text, y: Text)
    requires Escape(u, l) + x == Escape(v, m) + y
    ensures u == v && x == y
  {
    var a, b := Escape(u, l), Escape(v, m);
    assert (a + x)[0] == a[0] && (b + y)[0] == b[0];
    if |a| == 1 || |b| == 1 {
      assert |a| == |b|;
    } else {
      assert (a + x)[1] == a[1] && (b + y)[1] == b[1];
      assert |a| == |b|;
    }
    SameLength(a, b, x, y);
    if |a| == 2 {
      ShortInjective(u, v);
    } else if |a| == 6 {
      assert a == Escape(u, true) && b == Escape(v, true);
      LongInjective(u, v);
    }
  }

  lemma EscapedSplits(t: Text, i: nat, x: Text)
    requires i < |t|
    ensures Escaped(t, i) + x == Escape(t[i], Lone(t, i)) + (Escaped(t, i + 1) + x)
  {}

  /** The closing quote comes next exactly when the text is used up. */
  lemma EscapedEnds(t: Text, i: nat, x: Text)
    requires i <= |t|
    ensures var r := Escaped(t, i) + ([QUOTE] + x); r != [] && (r[0] == QUOTE <==> i == |t|)
    ensures i == |t| ==> Escaped(t, i) + ([QUOTE] + x) == [QUOTE] + x
  {
    if i < |t| {
      EscapedSplits(t, i, [QUOTE] + x);
    }
  }

  lemma {:induction false} EscapedUnambiguous(s: Text, t: Text, i: nat, x: Text, y: Text)
    requires i <= |s| && i <= |t| && s[..i] == t[..i]
    requires Escaped(s, i) + ([QUOTE] + x) == Escaped(t, i) + ([QUOTE] + y)
    ensures s == t && x == y
    decreases |s| - i
  {
    EscapedEnds(s, i, x);
    EscapedEnds(t, i, y);
    if i == |s| {
      assert s == s[..i] && t == t[..i];
      SameLength([QUOTE], [QUOTE], x, y);
    } else {
      var q, r := [QUOTE] + x, [QUOTE] + y;
      EscapedSplits(s, i, q);
      EscapedSplits(t, i, r);
      UnitUnambiguous(s[i], Lone(s, i), t[i], Lone(t, i), Escaped(s, i + 1) + q, Escaped(t, i + 1) + r);
      EscapedUnambiguous(s, t, i + 1, x, y);
    }
  }

  lemma QuotedUnambiguous(s: Text, t: Text, x: Text, y: Text)
    requires Quoted(s) + x == Quoted(t) + y
    ensures s == t && x == y
  {
    assert Quoted(s) + x == [QUOTE] + (Escaped(s, 0) + ([QUOTE] + x));
    assert Quoted(t) + y == [QUOTE] + (Escaped(t, 0) + ([QUOTE] + y));
    SameLength([QUOTE], [QUOTE], Escaped(s, 0) + ([QUOTE] + x), Escaped(t, 0) + ([QUOTE] + y));
    EscapedUnambiguous(s, t, 0, x, y);
  }

  // ----- values are unambiguous

  /** What can follow a printed value: nothing, or the punctuation of the list or object around it. */
  predicate Tail(x: Text) {
    x == [] || x[0] == COMMA || x[0] == CLOSE_LIST || x[0] == CLOSE_OBJECT
  }

  lemma ReachesIn(a: Text, b: Text, x: Text, y: Text)
    requires a + x == b + y && |a| < |b|
    ensures x != [] && x[0] == b[|a|]
  {
    assert (a + x)[|a|] == (b + y)[|a|];
  }

  lemma NumbersUnambiguous(m: Number, n: Number, x: Text, y: Text)
    requires m + x == n + y && Tail(x) && Tail(y)
    ensures m == n && x == y
  {
    if |m| < |n| {
      ReachesIn(m, n, x, y);
    } else if |n| < |m| {
      ReachesIn(n, m, y, x);
    }
    SameLength(m, n, x, y);
  }

  /** The first character says which kind of value follows. */
  function Opening(v: Json): (u: unit)
    ensures Print(v) != [] && Print(v)[0] == u
    ensures u != CLOSE_LIST && u != CLOSE_OBJECT && u != COMMA
  {
    Print(v)[0]
  }

  lemma SameKind(a: Json, b: Json, x: Text, y: Text)
    requires Print(a) + x == Print(b) + y
    ensures a.Null? == b.Null? && a.Bool? == b.Bool? && a.Num? == b.Num? && a.Str? == b.Str? && a.Arr? == b.Arr?
      && a.Obj? == b.Obj?
    ensures a.Bool? ==> a == b
  {
    assert (Print(a) + x)[0] == Opening(a) && (Print(b) + y)[0] == Opening(b);
  }

  function Comma(i: nat): Text {
    if i == 0 then [] else [COMMA]
  }

  lemma ItemsSplit(v: Json, i: nat, x: Text)
    requires v.Arr? && i < |v.items|
    ensures PrintItems(v, i) + x == Comma(i) + (Print(v.items[i]) + (PrintItems(v, i + 1) + x))
  {}

  /** The closing bracket comes next exactly when the items are used up, and otherwise a comma or the first item. */
  lemma ItemsEnd(v: Json, i: nat, x: Text)
    requires v.Arr? && i <= |v.items|
    ensures var r := PrintItems(v, i) + ([CLOSE_LIST] + x); r != [] && (r[0] == CLOSE_LIST <==> i == |v.items|)
    ensures i == |v.items| ==> PrintItems(v, i) + ([CLOSE_LIST] + x) == [CLOSE_LIST] + x
    ensures i > 0 ==> Tail(PrintItems(v, i) + ([CLOSE_LIST] + x))
  {
    if i < |v.items| {
      ItemsSplit(v, i, [CLOSE_LIST] + x);
      var u := Opening(v.items[i]);
    }
  }

  lemma {:induction false} ItemsUnambiguous(a: Json, b: Json, i: nat, x: Text, y: Text)
    requires a.Arr? && b.Arr? && i <= |a.items| && i <= |b.items| && a.items[..i] == b.items[..i]
    requires PrintItems(a, i) + ([CLOSE_LIST] + x) == PrintItems(b, i) + ([CLOSE_LIST] + y)
    ensures a == b && x == y
    decreases a, 0, |a.items| - i
  {
    ItemsEnd(a, i, x);
    ItemsEnd(b, i, y);
    if i == |a.items| {
      assert a.items == a.items[..i] && b.items == b.items[..i];
      SameLength([CLOSE_LIST], [CLOSE_LIST], x, y);
    } else {
      var restA, restB := PrintItems(a, i + 1) + ([CLOSE_LIST] + x), PrintItems(b, i + 1) + ([CLOSE_LIST] + y);
      ItemsSplit(a, i, [CLOSE_LIST] + x);
      ItemsSplit(b, i, [CLOSE_LIST] + y);
      SameLength(Comma(i), Comma(i), Print(a.items[i]) + restA, Print(b.items[i]) + restB);
      ItemsEnd(a, i + 1, x);
      ItemsEnd(b, i + 1, y);
      PrintUnambiguous(a.items[i], b.items[i], restA, restB);
      NextPrefix(a.items, b.items, i);
      ItemsUnambiguous(a, b, i + 1, x, y);
    }
  }

  lemma NextPrefix<T>(a: seq<T>, b: seq<T>, i: nat)
    requires i < |a| && i < |b| && a[..i] == b[..i] && a[i] == b[i]
    ensures a[..i + 1] == b[..i + 1]
  {
    assert a[..i + 1] == a[..i] + [a[i]] && b[..i + 1] == b[..i] + [b[i]];
  }

  function MemberText(m: Member, rest: Text): Text {
    Quoted(m.key) + ([COLON] + (Print(m.value) + rest))
  }

  lemma MembersSplit(v: Json, i: nat, x: Text)
    requires v.Obj? && i < |v.members|
    ensures PrintMembers(v, i) + x == Comma(i) + MemberText(v.members[i], PrintMembers(v, i + 1) + x)
  {}

  lemma MembersEnd(v: Json, i: nat, x: Text)
    requires v.Obj? && i <= |v.members|
    ensures var r := PrintMembers(v, i) + ([CLOSE_OBJECT] + x); r != [] && (r[0] == CLOSE_OBJECT <==> i == |v.members|)
    ensures i == |v.members| ==> PrintMembers(v, i) + ([CLOSE_OBJECT] + x) == [CLOSE_OBJECT] + x
    ensures i > 0 ==> Tail(PrintMembers(v, i) + ([CLOSE_OBJECT] + x))
  {
    if i < |v.members| {
      MembersSplit(v, i, [CLOSE_OBJECT] + x);
      assert MemberText(v.members[i], PrintMembers(v, i + 1) + ([CLOSE_OBJECT] + x))[0] == QUOTE;
    }
  }

  /** One member: its key, then its value, each unambiguous in turn. */
  lemma MemberUnambiguous(a: Json, b: Json, i: nat, x: Text, y: Text)
    requires a.Obj? && b.Obj? && i < |a.members| && i < |b.members|
    requires Tail(x) && Tail(y) && MemberText(a.members[i], x) == MemberText(b.members[i], y)
    ensures a.members[i] == b.members[i] && x == y
    decreases a, 0, |a.members| - i, 0
  {
    var m, n := a.members[i], b.members[i];
    QuotedUnambiguous(m.key, n.key, [COLON] + (Print(m.value) + x), [COLON] + (Print(n.value) + y));
    SameLength([COLON], [COLON], Print(m.value) + x, Print(n.value) + y);
    PrintUnambiguous(m.value, n.value, x, y);
  }

  lemma {:induction false} MembersUnambiguous(a: Json, b: Json, i: nat, x: Text, y: Text)
    requires a.Obj? && b.Obj? && i <= |a.members| && i <= |b.members| && a.members[..i] == b.members[..i]
    requires PrintMembers(a, i) + ([CLOSE_OBJECT] + x) == PrintMembers(b, i) + ([CLOSE_OBJECT] + y)
    ensures a == b && x == y
    decreases a, 0, |a.members| - i, 1
  {
    MembersEnd(a, i, x);
    MembersEnd(b, i, y);
    if i == |a.members| {
      assert a.members == a.members[..i] && b.members == b.members[..i];
      SameLength([CLOSE_OBJECT], [CLOSE_OBJECT], x, y);
    } else {
      var restA, restB := PrintMembers(a, i + 1) + ([CLOSE_OBJECT] + x), PrintMembers(b, i + 1) + ([CLOSE_OBJECT] + y);
      MembersSplit(a, i, [CLOSE_OBJECT] + x);
      MembersSplit(b, i, [CLOSE_OBJECT] + y);
      SameLength(Comma(i), Comma(i), MemberText(a.members[i], restA), MemberText(b.members[i], restB));
      MembersEnd(a, i + 1, x);
      MembersEnd(b, i + 1, y);
      MemberUnambiguous(a, b, i, restA, restB);
      NextPrefix(a.members, b.members, i);
      MembersUnambiguous(a, b, i + 1, x, y);
    }
  }

  /** Main result: the printed form determines the value, and where it ends. */
  lemma {:induction false} PrintUnambiguous(a: Json, b: Json, x: Text, y: Text)
    requires Print(a) + x == Print(b) + y && Tail(x) && Tail(y)
    ensures a == b && x == y
    decreases a, 1, 0
  {
    SameKind(a, b, x, y);
    match a {
      case Null => SameLength(Print(a), Print(b), x, y);
      case Bool(_) => SameLength(Print(a), Print(b), x, y);
      case Num(n) => NumbersUnambiguous(n, b.number, x, y);
      case Str(t) => QuotedUnambiguous(t, b.text, x, y);
      case Arr(_) => ListsUnambiguous(a, b, x, y);
      case Obj(_) => ObjectsUnambiguous(a, b, x, y);
    }
  }

  lemma ListsUnambiguous(a: Json, b: Json, x: Text, y: Text)
    requires a.Arr? && b.Arr? && Print(a) + x == Print(b) + y && Tail(x) && Tail(y)
    ensures a == b && x == y
    decreases a, 0, |a.items| + 1
  {
    assert Print(a) + x == [OPEN_LIST] + (PrintItems(a, 0) + ([CLOSE_LIST] + x));
    assert Print(b) + y == [OPEN_LIST] + (PrintItems(b, 0) + ([CLOSE_LIST] + y));
    SameLength([OPEN_LIST], [OPEN_LIST], PrintItems(a, 0) + ([CLOSE_LIST] + x), PrintItems(b, 0) + ([CLOSE_LIST] + y));
    ItemsUnambiguous(a, b, 0, x, y);
  }

  lemma ObjectSplits(v: Json, x: Text)
    requires v.Obj?
    ensures Print(v) + x == [OPEN_OBJECT] + (PrintMembers(v, 0) + ([CLOSE_OBJECT] + x))
  {}

  lemma ObjectsUnambiguous(a: Json, b: Json, x: Text, y: Text)
    requires a.Obj? && b.Obj? && Print(a) + x == Print(b) + y && Tail(x) && Tail(y)
    ensures a == b && x == y
    decreases a, 0, |a.members| + 1
  {
    ObjectSplits(a, x);
    ObjectSplits(b, y);
    SameLength([OPEN_OBJECT], [OPEN_OBJECT], PrintMembers(a, 0) + ([CLOSE_OBJECT] + x),
        PrintMembers(b, 0) + ([CLOSE_OBJECT] + y));
    MembersUnambiguous(a, b, 0, x, y);
  }
}
