/**
 Table names as text. The model keeps the suffix of a file collection's tables as a constructor; this says
 when that is faithful, and when the name a table is looked up under is the one its statements land on.
 */
module TableNames {
  import opened Config
  import opened Catalog
  import opened Ddl
  import opened Apply

  const FILES_SUFFIX := "__files"
  const DOCUMENTS_SUFFIX := "__documents"

  function Text(t: TableName): string {
    match t
    case Main(c) => c
    case Files(c) => c + FILES_SUFFIX
    case Documents(c) => c + DOCUMENTS_SUFFIX
  }

  predicate EndsWith(s: string, suffix: string) {
    |suffix| <= |s| && s[|s| - |suffix|..] == suffix
  }

  /** A collection name holds no double underscore: the config refuses one that does. */
  predicate Plain(name: string) {
    forall i :: 0 < i < |name| ==> name[i - 1] != '_' || name[i] != '_'
  }

  lemma SuffixesDiffer(a: string, b: string)
    ensures a + FILES_SUFFIX != b + DOCUMENTS_SUFFIX
  {
    var s, t := a + FILES_SUFFIX, b + DOCUMENTS_SUFFIX;
    assert s[|s| - 2] == 'e' && t[|t| - 2] == 't';
  }

  lemma SuffixIsNotPlain(name: string, suffix: string)
    requires EndsWith(name, suffix) && |suffix| >= 2 && suffix[0] == '_' == suffix[1]
    ensures !Plain(name)
  {
    var i := |name| - |suffix|;
    assert name[i] == name[i..][0] && name[i + 1] == name[i..][1];
  }

  lemma PlainHasNoSuffix(name: string)
    requires Plain(name)
    ensures !EndsWith(name, FILES_SUFFIX) && !EndsWith(name, DOCUMENTS_SUFFIX)
  {
    if EndsWith(name, FILES_SUFFIX) {
      SuffixIsNotPlain(name, FILES_SUFFIX);
    } else if EndsWith(name, DOCUMENTS_SUFFIX) {
      SuffixIsNotPlain(name, DOCUMENTS_SUFFIX);
    }
  }

  lemma SameSuffix(a: string, b: string, suffix: string)
    requires a + suffix == b + suffix
    ensures a == b
  {
    assert |a| == |b| && (a + suffix)[..|a|] == a && (b + suffix)[..|b|] == b;
  }

  /** Distinct tables of plainly named collections are looked up under distinct names. */
  lemma TextIsInjective(s: TableName, t: TableName)
    requires Plain(s.collection) && Plain(t.collection) && Text(s) == Text(t)
    ensures s == t
  {
    PlainHasNoSuffix(s.collection);
    PlainHasNoSuffix(t.collection);
    SuffixesDiffer(s.collection, t.collection);
    SuffixesDiffer(t.collection, s.collection);
    assert Text(Files(s.collection))[|s.collection|..] == FILES_SUFFIX;
    assert Text(Documents(s.collection))[|s.collection|..] == DOCUMENTS_SUFFIX;
    assert Text(Files(t.collection))[|t.collection|..] == FILES_SUFFIX;
    assert Text(Documents(t.collection))[|t.collection|..] == DOCUMENTS_SUFFIX;
    if s.Files? && t.Files? {
      SameSuffix(s.collection, t.collection, FILES_SUFFIX);
    } else if s.Documents? && t.Documents? {
      SameSuffix(s.collection, t.collection, DOCUMENTS_SUFFIX);
    }
  }

  // ----- where statements land

  predicate HasCapital(name: string) {
    exists i :: 0 <= i < |name| && 'A' <= name[i] <= 'Z'
  }

  lemma FoldKeeps(name: string)
    ensures Fold(name) == name <==> !HasCapital(name)
  {
    forall i | 0 <= i < |name| ensures FoldChar(name[i]) == name[i] <==> !('A' <= name[i] <= 'Z') {}
    if HasCapital(name) {
      var i :| 0 <= i < |name| && 'A' <= name[i] <= 'Z';
      assert Fold(name)[i] != name[i];
    }
  }

  lemma FoldIsPlain(name: string)
    requires Plain(name)
    ensures Plain(Fold(name))
  {
    forall i | 0 <= i < |name| && Fold(name)[i] == '_' ensures name[i] == '_' {}
  }

  /**
   Main result: a table's statements land on the name it is looked up under if and only if it is a file
   collection's or the collection's name holds no capital.
   */
  lemma LandsWhereLookedUp(env: Env, t: TableName)
    ensures Text(Landed(env, t).name) == Text(t) <==> !t.Main? || !HasCapital(t.collection)
    ensures Seen(t) <==> !t.Main? || !HasCapital(t.collection)
  {
    FoldKeeps(t.collection);
  }

  /** Main result: statements of two plainly named tables meet exactly if both are datasets' that differ in case. */
  lemma LandingsMeet(env: Env, s: TableName, t: TableName)
    requires Plain(s.collection) && Plain(t.collection)
    ensures Text(Landed(env, s).name) == Text(Landed(env, t).name) <==>
            s == t || (s.Main? && t.Main? && Fold(s.collection) == Fold(t.collection))
  {
    FoldIsPlain(s.collection);
    FoldIsPlain(t.collection);
    if Text(Landed(env, s).name) == Text(Landed(env, t).name) {
      TextIsInjective(Landed(env, s).name, Landed(env, t).name);
    }
  }

  /** A capital is enough: the folded name is another plain name, and a dataset called that has the same table. */
  lemma CapitalMeetsFolded(env: Env, name: string)
    requires Plain(name) && HasCapital(name)
    ensures Plain(Fold(name)) && Fold(name) != name && Landed(env, Main(Fold(name))) == Landed(env, Main(name))
  {
    FoldKeeps(name);
    FoldIsPlain(name);
    FoldTwice(name);
  }

  /** `tablesToDrop` as it is written, on names. */
  function TextsToDrop(table: string): seq<string> {
    if EndsWith(table, FILES_SUFFIX) then [table, table[..|table| - |FILES_SUFFIX|] + DOCUMENTS_SUFFIX] else [table]
  }

  function Texts(ts: seq<TableName>): seq<string> {
    seq(|ts|, i requires 0 <= i < |ts| => Text(ts[i]))
  }

  lemma DocumentsIsNotFiles(c: string)
    ensures !EndsWith(c + DOCUMENTS_SUFFIX, FILES_SUFFIX)
  {
    var s := c + DOCUMENTS_SUFFIX;
    assert s[|s| - 2] == 't';
    if |s| >= |FILES_SUFFIX| {
      assert s[|s| - |FILES_SUFFIX|..][5] == s[|s| - 2];
    }
  }

  /**
   Main result: dropping by name drops the tables the model drops, unless a collection's own table is named
   like another's `__files`; then that other collection's `__documents` would go too.
   */
  lemma DropsByNameExactly(t: TableName)
    ensures TextsToDrop(Text(t)) == Texts(TablesToDrop(t)) <==> !(t.Main? && EndsWith(t.collection, FILES_SUFFIX))
  {
    match t
    case Main(c) =>
      assert Texts([t]) == [c];
    case Files(c) =>
      assert (c + FILES_SUFFIX)[|c|..] == FILES_SUFFIX && (c + FILES_SUFFIX)[..|c|] == c;
    case Documents(c) =>
      DocumentsIsNotFiles(c);
  }
}
