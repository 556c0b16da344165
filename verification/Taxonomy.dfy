/** Terms of a vocabulary drawn from a dataset: one upsert per source row, refused when two values collide. */
module Taxonomy {
  import opened Wrappers
  import opened Slugs

  /** One row of `select distinct slug, label`; the same value may come back with several labels. */
  datatype Row = Row(value: string, title: string)

  datatype Source = Source(collection: string, slug: string, title: string)

  datatype Vocabulary = Vocabulary(slug: string, title: string, source: Option<Source>)

  datatype TermKey = TermKey(vocabulary: string, env: string, workspace: string, slug: string)

  type Terms = map<TermKey, string>

  datatype Failure = UnsafeIdentifier | EmptySlug | Clash

  /** `isDataset` says of each configured collection whether it is one; `slugify` is `Slugs.Slugify`. */
  datatype Setting = Setting(
    isDataset: map<string, bool>,
    rowsOf: Source -> seq<Row>,
    slugify: string -> string,
    env: string,
    workspace: string)

  /** `/^[a-z_][a-z0-9_]*$/i` */
  predicate Ident(s: string) {
    s != "" && !Digit(s[0]) && forall i :: 0 <= i < |s| ==> IdentChar(s[i])
  }

  predicate Digit(c: char) {
    '0' <= c <= '9'
  }

  predicate IdentChar(c: char) {
    'a' <= c <= 'z' || 'A' <= c <= 'Z' || c == '_' || Digit(c)
  }

  predicate SafeSource(s: Source) {
    Ident(s.collection) && Ident(s.slug) && Ident(s.title)
  }

  /** The vocabularies the sync looks at. */
  predicate Synced(c: Setting, v: Vocabulary) {
    v.source.Some? && v.source.value.collection in c.isDataset && c.isDataset[v.source.value.collection]
  }

  function SlugOf(c: Setting, r: Row): string {
    c.slugify(r.value)
  }

  function KeyOf(c: Setting, v: Vocabulary, slug: string): TermKey {
    TermKey(v.slug, c.env, c.workspace, slug)
  }

  /** Of the first `n` rows, every value has a slug, and distinct values have distinct ones. */
  ghost predicate Faithful(c: Setting, rows: seq<Row>, n: nat)
    requires n <= |rows|
  {
    && (forall i :: 0 <= i < n ==> SlugOf(c, rows[i]) != "")
    && (forall i, j :: 0 <= i < n && 0 <= j < n && SlugOf(c, rows[i]) == SlugOf(c, rows[j]) ==>
        rows[i].value == rows[j].value)
  }

  /** Row `n` is the first that cannot be stored faithfully. */
  ghost predicate FirstUnfaithful(c: Setting, rows: seq<Row>, n: nat) {
    n < |rows| && Faithful(c, rows, n) && !Faithful(c, rows, n + 1)
  }

  /** The values met so far, by slug. */
  function Seen(c: Setting, rows: seq<Row>, n: nat): map<string, string>
    requires n <= |rows|
  {
    if n == 0 then map[] else Seen(c, rows, n - 1)[SlugOf(c, rows[n - 1]) := rows[n - 1].value]
  }

  lemma {:induction false} SeenMeans(c: Setting, rows: seq<Row>, n: nat)
    requires n <= |rows| && Faithful(c, rows, n)
    ensures forall i :: 0 <= i < n ==>
      SlugOf(c, rows[i]) in Seen(c, rows, n) && Seen(c, rows, n)[SlugOf(c, rows[i])] == rows[i].value
    ensures forall s <- Seen(c, rows, n) :: exists i :: 0 <= i < n && SlugOf(c, rows[i]) == s
  {
    if n > 0 {
      SeenMeans(c, rows, n - 1);
    }
  }

  lemma FaithfulStep(c: Setting, rows: seq<Row>, n: nat)
    requires n < |rows| && Faithful(c, rows, n)
    ensures var slug, seen := SlugOf(c, rows[n]), Seen(c, rows, n);
      Faithful(c, rows, n + 1) <==> slug != "" && (slug in seen ==> seen[slug] == rows[n].value)
  {
    SeenMeans(c, rows, n);
  }

  lemma StaysUnfaithful(c: Setting, rows: seq<Row>)
    ensures forall n :: 0 <= n <= |rows| && !Faithful(c, rows, n) ==> !Faithful(c, rows, |rows|)
  {}

  /** The terms after the first `n` rows: each row's label under its slug, later rows over earlier ones. */
  function Upserted(c: Setting, v: Vocabulary, rows: seq<Row>, n: nat, terms: Terms): Terms
    requires n <= |rows|
  {
    if n == 0 then terms
    else Upserted(c, v, rows, n - 1, terms)[KeyOf(c, v, SlugOf(c, rows[n - 1])) := rows[n - 1].title]
  }

  class TermStore {
    var vocabularies: map<string, string>
    var terms: Terms

    constructor ()
      ensures terms == map[] && vocabularies == map[]
    {
      vocabularies := map[];
      terms := map[];
    }

    /**
     One vocabulary. It goes through exactly when its rows are faithful; when it stops short, the rows
     before the offending one have been written.
     */
    method SyncRows(c: Setting, v: Vocabulary, rows: seq<Row>) returns (failure: Option<Failure>, n: nat)
      modifies this`terms
      ensures failure.None? <==> Faithful(c, rows, |rows|)
      ensures if failure.None? then n == |rows|
              else FirstUnfaithful(c, rows, n) && failure.value == if SlugOf(c, rows[n]) == "" then EmptySlug else Clash
      ensures terms == Upserted(c, v, rows, n, old(terms))
    {
      var seen: map<string, string> := map[];
      n := 0;
      StaysUnfaithful(c, rows);
      while n < |rows|
        decreases |rows| - n
        invariant n <= |rows| && Faithful(c, rows, n) && terms == Upserted(c, v, rows, n, old(terms))
        invariant seen == Seen(c, rows, n)
      {
        var row := rows[n];
        var slug := SlugOf(c, row);
        FaithfulStep(c, rows, n);
        if slug == "" {
          return Some(EmptySlug), n;
        }
        if slug in seen && seen[slug] != row.value {
          return Some(Clash), n;
        }
        seen := seen[slug := row.value];
        terms := terms[KeyOf(c, v, slug) := row.title];
        n := n + 1;
      }
      failure := None;
    }

    /**
     All vocabularies, in configuration order. On a failure `n` is the first that cannot be synced: those before
     it are stored whole, and of it the `m` rows before the offending one.
     */
    method SyncDatasetTerms(c: Setting, vs: seq<Vocabulary>) returns (failure: Option<Failure>, n: nat, m: nat)
      modifies this
      ensures failure.None? <==> AllGood(c, vs)
      ensures failure.None? ==>
        terms == AllUpserted(c, vs, old(terms)) && vocabularies == Named(c, vs, old(vocabularies))
      ensures failure.Some? ==> StopsAt(c, vs, n, m, failure.value)
      ensures failure.Some? ==> terms == UpsertedUpTo(c, vs, n, m, old(terms))
      ensures failure.Some? ==> vocabularies == Named(c, vs[..n + 1], old(vocabularies))
    {
      n, m := 0, 0;
      while n < |vs|
        invariant n <= |vs| && m == 0
        invariant AllGood(c, vs[..n]) && terms == AllUpserted(c, vs[..n], old(terms))
        invariant vocabularies == Named(c, vs[..n], old(vocabularies))
      {
        assert vs[..n + 1][..n] == vs[..n] && vs[..n + 1][n] == vs[n];
        var v := vs[n];
        if v.source.None? {
          n := n + 1;
          continue;
        }
        var src := v.source.value;
        if src.collection !in c.isDataset || !c.isDataset[src.collection] {
          n := n + 1;
          continue;
        }
        vocabularies := vocabularies[v.slug := v.title];
        if !SafeSource(src) {
          assert !Good(c, vs[n]);
          return Some(UnsafeIdentifier), n, 0;
        }
        failure, m := SyncRows(c, v, c.rowsOf(src));
        if failure.Some? {
          StaysUnfaithful(c, c.rowsOf(src));
          assert !Good(c, vs[n]);
          return;
        }
        n, m := n + 1, 0;
      }
      assert vs[..|vs|] == vs;
      failure := None;
    }
  }

  /** The labels of the vocabularies looked at. */
  function Named(c: Setting, vs: seq<Vocabulary>, before: map<string, string>): map<string, string> {
    if vs == [] then before
    else
      var v := vs[|vs| - 1];
      var done := Named(c, vs[..|vs| - 1], before);
      if Synced(c, v) then done[v.slug := v.title] else done
  }

  /** Vocabulary `n` is the first that cannot be synced: its identifiers are unsafe, or row `m` is the offending one. */
  ghost predicate StopsAt(c: Setting, vs: seq<Vocabulary>, n: nat, m: nat, why: Failure) {
    && n < |vs| && AllGood(c, vs[..n]) && Synced(c, vs[n])
    && var src := vs[n].source.value; var rows := c.rowsOf(src);
       if SafeSource(src) then FirstUnfaithful(c, rows, m) && why == if SlugOf(c, rows[m]) == "" then EmptySlug
           else Clash
       else m == 0 && why == UnsafeIdentifier
  }

  /** The vocabularies before `n` whole, and of vocabulary `n` the first `m` rows. */
  ghost function UpsertedUpTo(c: Setting, vs: seq<Vocabulary>, n: nat, m: nat, terms: Terms): Terms
    requires n < |vs| && vs[n].source.Some? && m <= |c.rowsOf(vs[n].source.value)|
  {
    Upserted(c, vs[n], c.rowsOf(vs[n].source.value), m, AllUpserted(c, vs[..n], terms))
  }

  ghost predicate Good(c: Setting, v: Vocabulary) {
    Synced(c, v) ==> SafeSource(v.source.value) && Faithful(c, c.rowsOf(v.source.value), |c.rowsOf(v.source.value)|)
  }

  ghost predicate AllGood(c: Setting, vs: seq<Vocabulary>) {
    forall i :: 0 <= i < |vs| ==> Good(c, vs[i])
  }

  function AllUpserted(c: Setting, vs: seq<Vocabulary>, terms: Terms): Terms {
    if vs == [] then terms
    else
      var before, v := AllUpserted(c, vs[..|vs| - 1], terms), vs[|vs| - 1];
      if Synced(c, v) then
        var rows := c.rowsOf(v.source.value);
        Upserted(c, v, rows, |rows|, before)
      else before
  }

  // ----- every value has its term

  ghost predicate LastRowFor(c: Setting, rows: seq<Row>, n: nat, slug: string, i: nat)
    requires n <= |rows|
  {
    i < n && SlugOf(c, rows[i]) == slug && forall j :: i < j < n ==> SlugOf(c, rows[j]) != slug
  }

  /** What one vocabulary's upserts leave under a key: the label of the last row with that slug, or what was there. */
  lemma {:induction false} UpsertedAt(c: Setting, v: Vocabulary, rows: seq<Row>, n: nat, terms: Terms, k: TermKey)
    requires n <= |rows|
    ensures var after := Upserted(c, v, rows, n, terms);
      && (forall i: nat :: k == KeyOf(c, v, k.slug) && LastRowFor(c, rows, n, k.slug, i) ==>
          k in after && after[k] == rows[i].title)
      && ((forall i :: 0 <= i < n ==> k != KeyOf(c, v, SlugOf(c, rows[i]))) ==>
            (k in after <==> k in terms) && (k in terms ==> after[k] == terms[k]))
      && (k in terms ==> k in after)
  {
    if n > 0 {
      UpsertedAt(c, v, rows, n - 1, terms, k);
      forall i: nat | LastRowFor(c, rows, n, k.slug, i)
        ensures if SlugOf(c, rows[n - 1]) == k.slug then i == n - 1 else LastRowFor(c, rows, n - 1, k.slug, i)
      {
      }
    }
  }

  lemma {:induction false} SomeLastRow(c: Setting, rows: seq<Row>, n: nat, i: nat)
    requires i < n <= |rows|
    ensures exists j: nat :: LastRowFor(c, rows, n, SlugOf(c, rows[i]), j)
  {
    if SlugOf(c, rows[n - 1]) == SlugOf(c, rows[i]) {
      assert LastRowFor(c, rows, n, SlugOf(c, rows[i]), n - 1);
    } else {
      SomeLastRow(c, rows, n - 1, i);
      var j: nat :| LastRowFor(c, rows, n - 1, SlugOf(c, rows[i]), j);
      assert LastRowFor(c, rows, n, SlugOf(c, rows[i]), j);
    }
  }

  lemma TermStored(c: Setting, v: Vocabulary, rows: seq<Row>, terms: Terms, i: nat)
    requires i < |rows|
    ensures KeyOf(c, v, SlugOf(c, rows[i])) in Upserted(c, v, rows, |rows|, terms)
  {
    SomeLastRow(c, rows, |rows|, i);
    UpsertedAt(c, v, rows, |rows|, terms, KeyOf(c, v, SlugOf(c, rows[i])));
  }

  lemma {:induction false} AllKept(c: Setting, vs: seq<Vocabulary>, terms: Terms, k: TermKey)
    requires k in terms
    ensures k in AllUpserted(c, vs, terms)
  {
    if vs != [] {
      AllKept(c, vs[..|vs| - 1], terms, k);
      var v := vs[|vs| - 1];
      if Synced(c, v) {
        var rows := c.rowsOf(v.source.value);
        UpsertedAt(c, v, rows, |rows|, AllUpserted(c, vs[..|vs| - 1], terms), k);
      }
    }
  }

  lemma {:induction false} EveryTermStored(c: Setting, vs: seq<Vocabulary>, terms: Terms, n: nat, i: nat)
    requires n < |vs| && Synced(c, vs[n]) && i < |c.rowsOf(vs[n].source.value)|
    ensures KeyOf(c, vs[n], SlugOf(c, c.rowsOf(vs[n].source.value)[i])) in AllUpserted(c, vs, terms)
  {
    var m := |vs| - 1;
    var before := AllUpserted(c, vs[..m], terms);
    var k := KeyOf(c, vs[n], SlugOf(c, c.rowsOf(vs[n].source.value)[i]));
    if n == m {
      TermStored(c, vs[n], c.rowsOf(vs[n].source.value), before, i);
    } else {
      EveryTermStored(c, vs[..m], terms, n, i);
      assert vs[..m][n] == vs[n];
      if Synced(c, vs[m]) {
        var rows := c.rowsOf(vs[m].source.value);
        UpsertedAt(c, vs[m], rows, |rows|, before, k);
      }
    }
  }

  /**
   Main result: whenever the sync goes through, the values of each vocabulary map one to one onto non-empty
   slugs, and each of those slugs is stored as a term of that vocabulary; terms already there stay.
   */
  lemma TermsAreFaithful(
      c: Setting, lower: string -> string, vs: seq<Vocabulary>, terms: Terms, n: nat, i: nat, j: nat)
    requires forall s: string :: c.slugify(s) == Slugify(lower, s)
    requires AllGood(c, vs) && n < |vs| && Synced(c, vs[n])
    requires i < |c.rowsOf(vs[n].source.value)| && j < |c.rowsOf(vs[n].source.value)|
    ensures var rows := c.rowsOf(vs[n].source.value);
      && SlugOf(c, rows[i]) != "" && IsSlug(SlugOf(c, rows[i]))
      && (SlugOf(c, rows[i]) == SlugOf(c, rows[j]) <==> rows[i].value == rows[j].value)
      && KeyOf(c, vs[n], SlugOf(c, rows[i])) in AllUpserted(c, vs, terms)
    ensures terms.Keys <= AllUpserted(c, vs, terms).Keys
  {
    assert Good(c, vs[n]);
    TrimmedIsSlug(TrimWhite(lower(c.rowsOf(vs[n].source.value)[i].value)));
    EveryTermStored(c, vs, terms, n, i);
    forall k | k in terms ensures k in AllUpserted(c, vs, terms) {
      AllKept(c, vs, terms, k);
    }
  }
}
