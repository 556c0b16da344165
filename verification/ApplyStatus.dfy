/**
 Whether the configuration on disk is the one last applied: both sides are put into canonical form,
 printed, and the texts compared.
 */
module ApplyStatus {
  import opened Wrappers
  import opened Json

  type Members = seq<Member>

  // ----- key order

  /** JavaScript's `<` on strings: by code unit, a proper prefix first. */
  predicate KeyLess(a: Text, b: Text) {
    if b == [] then false
    else if a == [] then true
    else a[0] < b[0] || (a[0] == b[0] && KeyLess(a[1..], b[1..]))
  }

  lemma {:induction false} KeyLessTotal(a: Text, b: Text)
    ensures a != b ==> KeyLess(a, b) || KeyLess(b, a)
    ensures !(KeyLess(a, b) && KeyLess(b, a)) && !KeyLess(a, a)
  {
    if a != [] {
      KeyLessTotal(a[1..], a[1..]);
    }
    if a != [] && b != [] {
      KeyLessTotal(a[1..], b[1..]);
      assert a == [a[0]] + a[1..] && b == [b[0]] + b[1..];
    }
  }

  lemma {:induction false} KeyLessTransitive(a: Text, b: Text, c: Text)
    requires KeyLess(a, b) && KeyLess(b, c)
    ensures KeyLess(a, c)
  {
    if a != [] && a[0] == b[0] == c[0] {
      KeyLessTransitive(a[1..], b[1..], c[1..]);
    }
  }

  // ----- sorting by key

  function Insert(m: Member, ms: Members): Members {
    if ms == [] || KeyLess(m.key, ms[0].key) then [m] + ms else [ms[0]] + Insert(m, ms[1..])
  }

  function Sort(ms: Members): Members {
    if ms == [] then [] else Insert(ms[0], Sort(ms[1..]))
  }

  ghost predicate DistinctKeys(ms: Members) {
    forall i, j :: 0 <= i < j < |ms| ==> ms[i].key != ms[j].key
  }

  ghost predicate Increasing(ms: Members) {
    forall i, j :: 0 <= i < j < |ms| ==> KeyLess(ms[i].key, ms[j].key)
  }

  lemma {:induction false} InsertKeeps(m: Member, ms: Members)
    ensures multiset(Insert(m, ms)) == multiset(ms) + multiset{m}
  {
    if !(ms == [] || KeyLess(m.key, ms[0].key)) {
      InsertKeeps(m, ms[1..]);
      assert ms == [ms[0]] + ms[1..];
    }
  }

  lemma {:induction false} SortKeeps(ms: Members)
    ensures multiset(Sort(ms)) == multiset(ms) && |Sort(ms)| == |ms|
  {
    if ms != [] {
      SortKeeps(ms[1..]);
      InsertKeeps(ms[0], Sort(ms[1..]));
      assert ms == [ms[0]] + ms[1..];
    }
    assert |multiset(Sort(ms))| == |Sort(ms)|;
  }

  lemma SameElements(a: Members, b: Members)
    requires multiset(a) == multiset(b)
    ensures forall m :: m in a <==> m in b
  {
    forall m ensures m in a <==> m in b {
      assert m in a <==> multiset(a)[m] > 0;
      assert m in b <==> multiset(b)[m] > 0;
    }
  }

  lemma {:induction false} InsertIncreasing(m: Member, ms: Members)
    requires Increasing(ms) && forall i :: 0 <= i < |ms| ==> ms[i].key != m.key
    ensures Increasing(Insert(m, ms))
  {
    if ms == [] {
    } else if KeyLess(m.key, ms[0].key) {
      forall j | 1 <= j < |ms| ensures KeyLess(m.key, ms[j].key) {
        KeyLessTransitive(m.key, ms[0].key, ms[j].key);
      }
    } else {
      KeyLessTotal(m.key, ms[0].key);
      InsertIncreasing(m, ms[1..]);
      var rest := Insert(m, ms[1..]);
      InsertKeeps(m, ms[1..]);
      forall j | 0 <= j < |rest| ensures KeyLess(ms[0].key, rest[j].key) {
        assert rest[j] in multiset(ms[1..]) + multiset{m};
        if rest[j] != m {
          var k :| 0 <= k < |ms[1..]| && ms[1..][k] == rest[j];
        }
      }
    }
  }

  lemma {:induction false} SortIncreasing(ms: Members)
    requires DistinctKeys(ms)
    ensures Increasing(Sort(ms))
  {
    if ms != [] {
      var rest := ms[1..];
      SortIncreasing(rest);
      SortKeeps(rest);
      SameElements(Sort(rest), rest);
      forall i | 0 <= i < |Sort(rest)| ensures Sort(rest)[i].key != ms[0].key {
        assert Sort(rest)[i] in rest;
        var k :| 0 <= k < |rest| && rest[k] == Sort(rest)[i];
        assert ms[k + 1] == rest[k];
      }
      InsertIncreasing(ms[0], Sort(rest));
    }
  }

  predicate HasKey(ms: Members, k: Text) {
    exists i :: 0 <= i < |ms| && ms[i].key == k
  }

  ghost predicate SameKeys(a: Members, b: Members) {
    forall k :: HasKey(a, k) <==> HasKey(b, k)
  }

  /** Members in increasing key order are determined by the set of their keys. */
  lemma {:induction false} KeysDetermineOrder(a: Members, b: Members)
    requires Increasing(a) && Increasing(b) && SameKeys(a, b)
    ensures |a| == |b| && forall i :: 0 <= i < |a| ==> a[i].key == b[i].key
  {
    if a == [] || b == [] {
      EmptyTogether(a, b);
    } else {
      HeadsAgree(a, b);
      TailKeys(a, b);
      KeysDetermineOrder(a[1..], b[1..]);
      forall i | 0 <= i < |a| ensures a[i].key == b[i].key {
        assert i > 0 ==> a[i] == a[1..][i - 1] && b[i] == b[1..][i - 1];
      }
    }
  }

  lemma EmptyTogether(a: Members, b: Members)
    requires SameKeys(a, b)
    ensures a == [] <==> b == []
  {
    assert a != [] ==> HasKey(a, a[0].key);
    assert b != [] ==> HasKey(b, b[0].key);
  }

  lemma HeadIsLeast(a: Members, k: Text)
    requires Increasing(a) && HasKey(a, k)
    ensures k == a[0].key || KeyLess(a[0].key, k)
  {}

  lemma HeadsAgree(a: Members, b: Members)
    requires a != [] && b != [] && Increasing(a) && Increasing(b) && SameKeys(a, b)
    ensures a[0].key == b[0].key
  {
    assert HasKey(a, a[0].key) && HasKey(b, b[0].key);
    HeadIsLeast(b, a[0].key);
    HeadIsLeast(a, b[0].key);
    KeyLessTotal(a[0].key, b[0].key);
  }

  /** The keys after the first are the keys other than the first. */
  lemma TailKey(a: Members, k: Text)
    requires a != [] && Increasing(a)
    ensures HasKey(a[1..], k) <==> HasKey(a, k) && k != a[0].key
  {
    if HasKey(a[1..], k) {
      var i :| 0 <= i < |a[1..]| && a[1..][i].key == k;
      assert a[i + 1].key == k && KeyLess(a[0].key, k);
      KeyLessTotal(k, k);
    }
    if HasKey(a, k) && k != a[0].key {
      var i :| 0 <= i < |a| && a[i].key == k;
      assert a[1..][i - 1].key == k;
    }
  }

  lemma TailKeys(a: Members, b: Members)
    requires a != [] && b != [] && Increasing(a) && Increasing(b) && a[0].key == b[0].key && SameKeys(a, b)
    ensures SameKeys(a[1..], b[1..])
  {
    forall k ensures HasKey(a[1..], k) <==> HasKey(b[1..], k) {
      TailKey(a, k);
      TailKey(b, k);
    }
  }

  // ----- own-property order

  predicate Digit(u: unit) {
    48 <= u <= 57
  }

  /** A canonical array index: such keys are listed first, by value; a shorter numeral is a smaller one. */
  predicate IsIndex(k: Text) {
    && k != [] && (forall i :: 0 <= i < |k| ==> Digit(k[i]))
    && (k[0] != 48 || |k| == 1) && IndexValue(k) < 0xffff_ffff
  }

  function IndexValue(k: Text): nat {
    if k == [] || !Digit(k[|k| - 1]) then 0 else IndexValue(k[..|k| - 1]) * 10 + (k[|k| - 1] as int - 48)
  }

  function InsertIndex(m: Member, ms: Members): Members {
    if ms == [] || IndexValue(m.key) < IndexValue(ms[0].key) then [m] + ms else [ms[0]] + InsertIndex(m, ms[1..])
  }

  /** The order in which an object lists properties added in the order `ms`. */
  function OwnOrder(ms: Members): Members {
    Indices(ms) + Names(ms)
  }

  function Indices(ms: Members): Members {
    if ms == [] then []
    else if IsIndex(ms[0].key) then InsertIndex(ms[0], Indices(ms[1..]))
    else Indices(ms[1..])
  }

  function Names(ms: Members): Members {
    if ms == [] then []
    else if IsIndex(ms[0].key) then Names(ms[1..])
    else [ms[0]] + Names(ms[1..])
  }

  lemma {:induction false} InsertIndexKeeps(m: Member, ms: Members)
    ensures multiset(InsertIndex(m, ms)) == multiset(ms) + multiset{m}
  {
    if !(ms == [] || IndexValue(m.key) < IndexValue(ms[0].key)) {
      InsertIndexKeeps(m, ms[1..]);
      assert ms == [ms[0]] + ms[1..];
    }
  }

  lemma {:induction false} OwnOrderKeeps(ms: Members)
    ensures multiset(OwnOrder(ms)) == multiset(ms)
  {
    if ms != [] {
      OwnOrderKeeps(ms[1..]);
      assert ms == [ms[0]] + ms[1..];
      if IsIndex(ms[0].key) {
        InsertIndexKeeps(ms[0], Indices(ms[1..]));
      }
    }
  }

  // ----- canonical form

  function Canonical(v: Json): Json
    decreases v, 1, 0
  {
    match v
    case Arr(items) => Arr(seq(|items|, i requires 0 <= i < |items| => Canonical(items[i])))
    case Obj(ms) => Obj(OwnOrder(CanonicalMembers(v)))
    case _ => v
  }

  /** The entries, sorted by key, each value canonical in turn. */
  function CanonicalMembers(v: Json): (r: Members)
    requires v.Obj?
    ensures |r| == |v.members|
    ensures forall i :: 0 <= i < |r| ==> |Sort(v.members)| == |r| && r[i].key == Sort(v.members)[i].key
    decreases v, 0, 1
  {
    SortKeeps(v.members);
    SameElements(Sort(v.members), v.members);
    var sorted := Sort(v.members);
    seq(|sorted|, i requires 0 <= i < |sorted| => Member(sorted[i].key, CanonicalOf(v, sorted[i])))
  }

  function CanonicalOf(v: Json, m: Member): Json
    requires v.Obj? && m in v.members
    decreases v, 0, 0
  {
    Canonical(m.value)
  }

  /** Objects have one member per key, at every depth. */
  ghost predicate Proper(v: Json) {
    match v
    case Arr(items) => forall i :: 0 <= i < |items| ==> Proper(items[i])
    case Obj(ms) => DistinctKeys(ms) && forall i :: 0 <= i < |ms| ==> Proper(ms[i].value)
    case _ => true
  }

  /** Equal up to the order of object keys, at every depth. */
  ghost predicate Same(a: Json, b: Json)
    decreases a, 2
  {
    if a.Arr? && b.Arr? then
      |a.items| == |b.items| && forall i :: 0 <= i < |a.items| ==> Same(a.items[i], b.items[i])
    else if a.Obj? && b.Obj? then
      |a.members| == |b.members| && forall i :: 0 <= i < |a.members| ==> HasSame(a, i, b)
    else a == b
  }

  /** Some member of `b` has the key of member `i` of `a`, and the same value. */
  ghost predicate HasSame(a: Json, i: nat, b: Json)
    requires a.Obj? && b.Obj? && i < |a.members|
    decreases a, 1
  {
    exists j :: 0 <= j < |b.members| && SameMember(a, i, b, j)
  }

  ghost predicate SameMember(a: Json, i: nat, b: Json, j: nat)
    requires a.Obj? && b.Obj? && i < |a.members| && j < |b.members|
    decreases a, 0
  {
    a.members[i].key == b.members[j].key && Same(a.members[i].value, b.members[j].value)
  }

  // ----- equal canonical forms mean the same value

  lemma SortedAt(v: Json, i: nat) returns (k: nat)
    requires v.Obj? && i < |v.members|
    ensures |Sort(v.members)| == |v.members|
    ensures k < |v.members| && Sort(v.members)[k] == v.members[i]
    ensures CanonicalMembers(v)[k] == Member(v.members[i].key, Canonical(v.members[i].value))
  {
    SortKeeps(v.members);
    SameElements(Sort(v.members), v.members);
    assert v.members[i] in Sort(v.members);
    k :| 0 <= k < |v.members| && Sort(v.members)[k] == v.members[i];
  }

  lemma SortedFrom(v: Json, k: nat) returns (i: nat)
    requires v.Obj? && k < |v.members|
    ensures |Sort(v.members)| == |v.members|
    ensures i < |v.members| && v.members[i] == Sort(v.members)[k]
    ensures CanonicalMembers(v)[k] == Member(v.members[i].key, Canonical(v.members[i].value))
  {
    SortKeeps(v.members);
    SameElements(Sort(v.members), v.members);
    assert Sort(v.members)[k] in v.members;
    i :| 0 <= i < |v.members| && v.members[i] == Sort(v.members)[k];
  }

  /** Every member of `a` reappears, in canonical form, among the members of `b`. */
  lemma Reappears(a: Json, b: Json, i: nat) returns (j: nat)
    requires a.Obj? && b.Obj? && i < |a.members| && Canonical(a) == Canonical(b)
    ensures j < |b.members| && a.members[i].key == b.members[j].key
    ensures Canonical(a.members[i].value) == Canonical(b.members[j].value)
  {
    var k := SortedAt(a, i);
    var m := CanonicalMembers(a)[k];
    OwnOrderKeeps(CanonicalMembers(a));
    OwnOrderKeeps(CanonicalMembers(b));
    SameElements(CanonicalMembers(a), CanonicalMembers(b));
    assert m in CanonicalMembers(b);
    var l :| 0 <= l < |CanonicalMembers(b)| && CanonicalMembers(b)[l] == m;
    j := SortedFrom(b, l);
  }

  lemma SameCount(a: Json, b: Json)
    requires a.Obj? && b.Obj? && Canonical(a) == Canonical(b)
    ensures |a.members| == |b.members|
  {
    OwnOrderKeeps(CanonicalMembers(a));
    OwnOrderKeeps(CanonicalMembers(b));
    assert |multiset(CanonicalMembers(a))| == |CanonicalMembers(a)|;
    assert |multiset(CanonicalMembers(b))| == |CanonicalMembers(b)|;
  }

  lemma {:induction false} CanonicalMeansSame(a: Json, b: Json)
    requires Canonical(a) == Canonical(b)
    ensures Same(a, b)
    decreases a
  {
    if a.Arr? {
      forall i | 0 <= i < |a.items| ensures Same(a.items[i], b.items[i]) {
        assert Canonical(a).items[i] == Canonical(b).items[i];
        CanonicalMeansSame(a.items[i], b.items[i]);
      }
    } else if a.Obj? {
      SameCount(a, b);
      forall i | 0 <= i < |a.members| ensures HasSame(a, i, b) {
        var j := Reappears(a, b, i);
        CanonicalMeansSame(a.members[i].value, b.members[j].value);
        assert SameMember(a, i, b, j);
      }
    }
  }

  // ----- the same value has one canonical form

  lemma {:induction false} SameMeansCanonical(a: Json, b: Json)
    requires Same(a, b) && Proper(a) && Proper(b)
    ensures Canonical(a) == Canonical(b)
    decreases a
  {
    if a.Arr? && b.Arr? {
      forall i | 0 <= i < |a.items| ensures Canonical(a.items[i]) == Canonical(b.items[i]) {
        SameMeansCanonical(a.items[i], b.items[i]);
      }
      assert Canonical(a).items == Canonical(b).items;
    } else if a.Obj? && b.Obj? {
      forall i | 0 <= i < |a.members| ensures HasMatch(a, i, b) {
        assert HasSame(a, i, b);
        var j :| 0 <= j < |b.members| && SameMember(a, i, b, j);
        SameMeansCanonical(a.members[i].value, b.members[j].value);
        assert CanonicalMatch(a, i, b, j);
      }
      SameMembers(a, b);
    }
  }

  predicate CanonicalMatch(a: Json, i: nat, b: Json, j: nat)
    requires a.Obj? && b.Obj? && i < |a.members| && j < |b.members|
  {
    a.members[i].key == b.members[j].key && Canonical(a.members[i].value) == Canonical(b.members[j].value)
  }

  predicate HasMatch(a: Json, i: nat, b: Json)
    requires a.Obj? && b.Obj? && i < |a.members|
  {
    exists j :: 0 <= j < |b.members| && CanonicalMatch(a, i, b, j)
  }

  lemma SameMembers(a: Json, b: Json)
    requires a.Obj? && b.Obj? && DistinctKeys(a.members) && DistinctKeys(b.members) && |a.members| == |b.members|
    requires forall i :: 0 <= i < |a.members| ==> HasMatch(a, i, b)
    ensures CanonicalMembers(a) == CanonicalMembers(b)
  {
    SortIncreasing(a.members);
    SortIncreasing(b.members);
    SortedKeysAgree(a, b);
    KeysDetermineOrder(Sort(a.members), Sort(b.members));
    forall k | 0 <= k < |a.members| ensures CanonicalMembers(a)[k] == CanonicalMembers(b)[k] {
      var i := SortedFrom(a, k);
      var j := SortedFrom(b, k);
      assert HasMatch(a, i, b);
      var l :| 0 <= l < |b.members| && CanonicalMatch(a, i, b, l);
      assert b.members[l].key == b.members[j].key;
    }
  }

  function KeySet(ms: Members): set<Text> {
    set i | 0 <= i < |ms| :: ms[i].key
  }

  lemma {:induction false} KeyCount(ms: Members)
    requires DistinctKeys(ms)
    ensures |KeySet(ms)| == |ms|
  {
    if ms != [] {
      var n := |ms| - 1;
      KeyCount(ms[..n]);
      assert KeySet(ms) == KeySet(ms[..n]) + {ms[n].key};
    }
  }

  lemma SubsetOfSize<T>(a: set<T>, b: set<T>)
    requires a <= b && |a| == |b|
    ensures a == b
    decreases a
  {
    if a != {} {
      var x :| x in a;
      SubsetOfSize(a - {x}, b - {x});
    } else {
      assert b == {};
    }
  }

  lemma SortHasKey(ms: Members, k: Text)
    ensures HasKey(Sort(ms), k) <==> k in KeySet(ms)
  {
    SortKeeps(ms);
    SameElements(Sort(ms), ms);
    if HasKey(Sort(ms), k) {
      var i :| 0 <= i < |Sort(ms)| && Sort(ms)[i].key == k;
      assert Sort(ms)[i] in ms;
    }
    if k in KeySet(ms) {
      var i :| 0 <= i < |ms| && ms[i].key == k;
      assert ms[i] in Sort(ms);
    }
  }

  lemma SortedKeysAgree(a: Json, b: Json)
    requires a.Obj? && b.Obj? && DistinctKeys(a.members) && DistinctKeys(b.members) && |a.members| == |b.members|
    requires forall i :: 0 <= i < |a.members| ==> HasMatch(a, i, b)
    ensures SameKeys(Sort(a.members), Sort(b.members))
  {
    KeyCount(a.members);
    KeyCount(b.members);
    forall k | k in KeySet(a.members) ensures k in KeySet(b.members) {
      var i :| 0 <= i < |a.members| && a.members[i].key == k;
      assert HasMatch(a, i, b);
    }
    SubsetOfSize(KeySet(a.members), KeySet(b.members));
    forall k ensures HasKey(Sort(a.members), k) <==> HasKey(Sort(b.members), k) {
      SortHasKey(a.members, k);
      SortHasKey(b.members, k);
    }
  }

  // ----- the answer

  datatype Status = NotApplied | Applied | Drifted

  /** `applied` is None where the source has undefined. */
  function StatusOf(yaml: Json, applied: Option<Json>): Status {
    if applied.None? || applied.value.Null? then NotApplied
    else if Print(Canonical(yaml)) == Print(Canonical(applied.value)) then Applied
    else Drifted
  }

  /**
   Main result: for values with one member per key, the comparison is exact. A configuration that has been
   applied is reported as applied if and only if it equals the one on disk up to key order at every depth.
   */
  lemma StatusIsExact(yaml: Json, applied: Option<Json>)
    requires Proper(yaml) && (applied.Some? ==> Proper(applied.value))
    ensures StatusOf(yaml, applied).NotApplied? <==> applied.None? || applied.value.Null?
    ensures StatusOf(yaml, applied).Applied? <==> applied.Some? && !applied.value.Null? && Same(yaml, applied.value)
  {
    if applied.Some? && !applied.value.Null? {
      var a, b := Canonical(yaml), Canonical(applied.value);
      if Print(a) == Print(b) {
        assert Print(a) + [] == Print(b) + [];
        PrintUnambiguous(a, b, [], []);
        CanonicalMeansSame(yaml, applied.value);
      }
      if Same(yaml, applied.value) {
        SameMeansCanonical(yaml, applied.value);
      }
    }
  }
}
