/**
 Round trips for the ZIP reader. `LaidOut` says what an archive is, field by field, without fixing
 where its parts lie; `Pack` writes one; reading either gives back the names and bytes put in.
 */
module ZipLayout {
  import opened Wrappers
  import opened Zip

  /** One entry: its central header is at `at`, its local header at `local`. */
  datatype Placed = Placed(
    name: Bytes, method_: nat, raw: Bytes,
    at: nat, extraLen: nat, commentLen: nat,
    local: nat, localNameLen: nat, localExtraLen: nat)

  function DataStart(e: Placed): nat {
    e.local + 30 + e.localNameLen + e.localExtraLen
  }

  function HeaderEnd(e: Placed): nat {
    e.at + 46 + |e.name| + e.extraLen + e.commentLen
  }

  predicate CentralAt(b: Bytes, e: Placed) {
    && HeaderEnd(e) <= |b|
    && Word(b, e.at) == CENTRAL_SIGNATURE && Half(b, e.at + 10) == e.method_
    && Word(b, e.at + 20) == |e.raw| && Half(b, e.at + 28) == |e.name|
    && Half(b, e.at + 30) == e.extraLen && Half(b, e.at + 32) == e.commentLen
    && Word(b, e.at + 42) == e.local
    && b[e.at + 46..e.at + 46 + |e.name|] == e.name
  }

  predicate LocalAt(b: Bytes, e: Placed) {
    && DataStart(e) + |e.raw| <= |b|
    && Half(b, e.local + 26) == e.localNameLen && Half(b, e.local + 28) == e.localExtraLen
    && b[DataStart(e)..DataStart(e) + |e.raw|] == e.raw
  }

  /** Consecutive central headers from the offset the end record names, each with its local header. */
  ghost predicate LaidOut(b: Bytes, end: int, entries: seq<Placed>) {
    && LastEnd(b, end) && Half(b, end + 10) == |entries|
    && (entries != [] ==> Word(b, end + 16) == entries[0].at)
    && (forall i :: 0 <= i < |entries| ==> CentralAt(b, entries[i]) && LocalAt(b, entries[i]))
    && (forall i :: 0 < i < |entries| ==> entries[i].at == HeaderEnd(entries[i - 1]))
  }

  /** The bytes an entry stands for, if its method is one the reader knows. */
  function Content(e: Placed, inflate: Bytes -> Option<Bytes>): Option<Bytes> {
    if e.method_ == 0 then Some(e.raw) else if e.method_ == 8 then inflate(e.raw) else Option.None
  }

  ghost predicate Readable(entries: seq<Placed>, inflate: Bytes -> Option<Bytes>) {
    forall i :: 0 <= i < |entries| ==> Content(entries[i], inflate).Some?
  }

  function Listed(entries: seq<Placed>, decode: Bytes -> string, inflate: Bytes -> Option<Bytes>): Files
    requires Readable(entries, inflate)
  {
    if entries == [] then map[]
    else
      var e := entries[|entries| - 1];
      Listed(entries[..|entries| - 1], decode, inflate)[decode(e.name) := Content(e, inflate).value]
  }

  // ----- reading a laid-out archive

  function HeaderOf(e: Placed): Central {
    Central(e.method_, |e.raw|, |e.name|, e.extraLen, e.commentLen, e.local)
  }

  lemma CentralReads(b: Bytes, e: Placed)
    requires CentralAt(b, e)
    ensures ReadCentral(b, e.at) == Ok(HeaderOf(e))
    ensures Sub(b, e.at + 46, e.at + 46 + |e.name|) == e.name
  {}

  lemma LocalReads(b: Bytes, e: Placed)
    requires LocalAt(b, e)
    ensures RawData(b, HeaderOf(e)) == Ok(e.raw)
  {
    var c := HeaderOf(e);
    assert c.local + 30 + Half(b, c.local + 26) + Half(b, c.local + 28) == DataStart(e);
    assert Sub(b, DataStart(e), DataStart(e) + |e.raw|) == e.raw;
  }

  lemma EntryReads(b: Bytes, e: Placed, decode: Bytes -> string, inflate: Bytes -> Option<Bytes>)
    requires CentralAt(b, e) && LocalAt(b, e) && Content(e, inflate).Some?
    ensures ReadEntry(b, e.at, decode, inflate) == Ok(Read(decode(e.name), Content(e, inflate).value, HeaderEnd(e)))
  {
    hide CentralAt;
    hide LocalAt;
    CentralReads(b, e);
    LocalReads(b, e);
    var c := HeaderOf(e);
    assert Unpack(c, e.raw, inflate) == Ok(Content(e, inflate).value);
    assert NextHeader(e.at, c) == HeaderEnd(e);
  }

  lemma EntriesStep(b: Bytes, p: nat, n: nat, at: nat, decode: Bytes -> string, inflate: Bytes -> Option<Bytes>)
    requires n > 0 && ReadEntries(b, p, n - 1, decode, inflate).Ok?
    requires at == ReadEntries(b, p, n - 1, decode, inflate).value.next && ReadEntry(b, at, decode, inflate).Ok?
    ensures var r := ReadEntry(b, at, decode, inflate).value;
      ReadEntries(b, p, n, decode, inflate)
      == Ok(Directory(ReadEntries(b, p, n - 1, decode, inflate).value.files[r.name := r.data], r.next))
  {}

  lemma ListedStep(entries: seq<Placed>, n: nat, decode: Bytes -> string, inflate: Bytes -> Option<Bytes>)
    requires 0 < n <= |entries| && Readable(entries, inflate)
    ensures Readable(entries[..n], inflate) && Readable(entries[..n - 1], inflate)
    ensures Listed(entries[..n], decode, inflate)
         == Listed(entries[..n - 1], decode, inflate)
            [decode(entries[n - 1].name) := Content(entries[n - 1], inflate).value]
  {
    assert entries[..n][..n - 1] == entries[..n - 1];
  }

  lemma {:induction false} EntriesRead(
      b: Bytes, end: int, entries: seq<Placed>, n: nat, decode: Bytes -> string, inflate: Bytes -> Option<Bytes>)
    requires LaidOut(b, end, entries) && Readable(entries, inflate) && n <= |entries|
    ensures Readable(entries[..n], inflate)
    ensures ReadEntries(b, Word(b, end + 16), n, decode, inflate)
         == Ok(Directory(Listed(entries[..n], decode, inflate), if n == 0 then Word(b, end + 16)
             else HeaderEnd(entries[n - 1])))
  {
    if n > 0 {
      var e := entries[n - 1];
      EntriesRead(b, end, entries, n - 1, decode, inflate);
      assert CentralAt(b, e) && LocalAt(b, e) && Content(e, inflate).Some?;
      EntryReads(b, e, decode, inflate);
      ListedStep(entries, n, decode, inflate);
      EntriesStep(b, Word(b, end + 16), n, e.at, decode, inflate);
    }
  }

  /** Main result: an archive laid out anywhere in the bytes reads back as its entries. */
  lemma LaidOutReads(b: Bytes, end: int, entries: seq<Placed>, decode: Bytes -> string, inflate: Bytes -> Option<Bytes>)
    requires LaidOut(b, end, entries) && Readable(entries, inflate)
    ensures ReadFrom(b, end, decode, inflate) == Ok(Listed(entries, decode, inflate))
  {
    EntriesRead(b, end, entries, |entries|, decode, inflate);
    assert entries[..|entries|] == entries;
  }

  predicate DistinctNames(entries: seq<Placed>, decode: Bytes -> string) {
    forall i, j :: 0 <= i < j < |entries| ==> decode(entries[i].name) != decode(entries[j].name)
  }

  /** `m` holds each entry's content under its name, and nothing else. */
  ghost predicate Indexes(m: Files, entries: seq<Placed>, decode: Bytes -> string, inflate: Bytes -> Option<Bytes>)
    requires Readable(entries, inflate)
  {
    && (forall e :: e in entries ==> decode(e.name) in m && m[decode(e.name)] == Content(e, inflate).value)
    && (forall k :: k in m ==> exists e :: e in entries && decode(e.name) == k)
  }

  /** With distinct names the listing is exactly the name-to-bytes map. */
  lemma {:induction false} ListedExactly(entries: seq<Placed>, decode: Bytes -> string, inflate: Bytes -> Option<Bytes>)
    requires Readable(entries, inflate) && DistinctNames(entries, decode)
    ensures Indexes(Listed(entries, decode, inflate), entries, decode, inflate)
  {
    if entries != [] {
      var n := |entries| - 1;
      var front, last := entries[..n], entries[n];
      ListedExactly(front, decode, inflate);
      var m := Listed(front, decode, inflate);
      assert entries == front + [last];
      forall e | e in entries
        ensures e == last || (e in front && decode(e.name) != decode(last.name))
      {
        var i :| 0 <= i < |entries| && entries[i] == e;
        assert i < n ==> front[i] == e;
      }
    }
  }
}
