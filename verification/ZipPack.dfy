/**
 A writer for the archives the reader accepts, following PKWARE APPNOTE sections 4.3.7, 4.3.12 and
 4.3.16, and the round trip through it: `Pack` puts every local header and its data first, then the
 central headers, then the end record and the comment.
 */
module ZipPack {
  import opened Wrappers
  import opened Zip
  import opened ZipLayout

  // ----- little-endian numbers

  function Low(x: nat): byte {
    (x % 0x100) as byte
  }

  function Le16(x: nat): Bytes {
    [Low(x), Low(x / 0x100)]
  }

  function Le32(x: nat): Bytes {
    [Low(x), Low(x / 0x100), Low(x / 0x1_0000), Low(x / 0x100_0000)]
  }

  lemma HalfBack(b: Bytes, k: nat, x: nat)
    requires k + 2 <= |b| && b[k..k + 2] == Le16(x) && x < 0x1_0000
    ensures Half(b, k) == x
  {
    assert b[k] == b[k..k + 2][0] && b[k + 1] == b[k..k + 2][1];
  }

  lemma WordBack(b: Bytes, k: nat, x: nat)
    requires k + 4 <= |b| && b[k..k + 4] == Le32(x) && x < 0x1_0000_0000
    ensures Word(b, k) == x
  {
    var w := b[k..k + 4];
    assert b[k] == w[0] && b[k + 1] == w[1] && b[k + 2] == w[2] && b[k + 3] == w[3];
    assert x / 0x1_0000 == x / 0x100 / 0x100 && x / 0x100_0000 == x / 0x1_0000 / 0x100;
  }

  lemma HalfWithin(b: Bytes, p: nat, part: Bytes, k: nat)
    requires p + |part| <= |b| && b[p..p + |part|] == part && k + 2 <= |part|
    ensures Half(b, p + k) == Half(part, k)
  {
    assert b[p..p + |part|][k] == part[k] && b[p..p + |part|][k + 1] == part[k + 1];
  }

  lemma WordWithin(b: Bytes, p: nat, part: Bytes, k: nat)
    requires p + |part| <= |b| && b[p..p + |part|] == part && k + 4 <= |part|
    ensures Word(b, p + k) == Word(part, k)
  {
    var w := b[p..p + |part|];
    assert w[k] == part[k] && w[k + 1] == part[k + 1] && w[k + 2] == part[k + 2] && w[k + 3] == part[k + 3];
  }

  // ----- the archive

  /** A member to write: its data as stored, the method it was stored with, and what zip records of it. */
  datatype Item = Item(name: Bytes, method_: nat, raw: Bytes, size: nat, crc: nat)

  /** Signature, version, flags, method, time, date, crc, sizes, name length, no extra field. */
  function LocalHeader(m: Item): (r: Bytes)
    ensures |r| == 30
  {
    [0x50, 0x4b, 0x03, 0x04, 20, 0, 0, 0] + Le16(m.method_) + [0, 0, 0, 0] + Le32(m.crc)
    + Le32(|m.raw|) + Le32(m.size) + Le16(|m.name|) + Le16(0)
  }

  lemma LocalHeaderReads(m: Item)
    requires |m.name| < 0x1_0000
    ensures Half(LocalHeader(m), 26) == |m.name| && Half(LocalHeader(m), 28) == 0
  {
    HalfBack(LocalHeader(m), 26, |m.name|);
    HalfBack(LocalHeader(m), 28, 0);
  }

  function Local(m: Item): Bytes {
    LocalHeader(m) + m.name + m.raw
  }

  function Locals(items: seq<Item>): Bytes {
    if items == [] then [] else Locals(items[..|items| - 1]) + Local(items[|items| - 1])
  }

  function CentralHeader(m: Item, local: nat): (r: Bytes)
    ensures |r| == 46
  {
    [0x50, 0x4b, 0x01, 0x02, 20, 0, 20, 0, 0, 0] + Le16(m.method_) + [0, 0, 0, 0] + Le32(m.crc)
    + Le32(|m.raw|) + Le32(m.size) + Le16(|m.name|) + Le16(0) + Le16(0) + [0, 0, 0, 0, 0, 0, 0, 0] + Le32(local)
  }

  lemma CentralHeaderReads(m: Item, local: nat)
    requires m.method_ < 0x1_0000 && |m.name| < 0x1_0000 && |m.raw| < 0x1_0000_0000 && local < 0x1_0000_0000
    ensures var r := CentralHeader(m, local);
      && Word(r, 0) == CENTRAL_SIGNATURE && Half(r, 10) == m.method_ && Word(r, 20) == |m.raw|
      && Half(r, 28) == |m.name| && Half(r, 30) == 0 && Half(r, 32) == 0 && Word(r, 42) == local
  {
    var r := CentralHeader(m, local);
    assert r[10..12] == Le16(m.method_) && r[20..24] == Le32(|m.raw|) && r[28..30] == Le16(|m.name|);
    assert r[30..32] == Le16(0) && r[32..34] == Le16(0) && r[42..46] == Le32(local);
    HalfBack(r, 10, m.method_);
    WordBack(r, 20, |m.raw|);
    HalfBack(r, 28, |m.name|);
    HalfBack(r, 30, 0);
    HalfBack(r, 32, 0);
    WordBack(r, 42, local);
  }

  function Central1(m: Item, local: nat): Bytes {
    CentralHeader(m, local) + m.name
  }

  function Centrals(items: seq<Item>): Bytes {
    if items == [] then []
    else
      var before := items[..|items| - 1];
      Centrals(before) + Central1(items[|items| - 1], |Locals(before)|)
  }

  function EndRecord(count: nat, size: nat, offset: nat, comment: Bytes): (r: Bytes)
    ensures |r| == END_SIZE + |comment|
  {
    [0x50, 0x4b, 0x05, 0x06, 0, 0, 0, 0] + Le16(count) + Le16(count) + Le32(size) + Le32(offset)
    + Le16(|comment|) + comment
  }

  lemma EndRecordReads(count: nat, size: nat, offset: nat, comment: Bytes)
    requires count < 0x1_0000 && offset < 0x1_0000_0000
    ensures var r := EndRecord(count, size, offset, comment);
      Word(r, 0) == END_SIGNATURE && Half(r, 10) == count && Word(r, 16) == offset
  {
    var r := EndRecord(count, size, offset, comment);
    HalfBack(r, 10, count);
    WordBack(r, 16, offset);
  }

  function Body(items: seq<Item>): Bytes {
    Locals(items) + Centrals(items)
  }

  function Pack(items: seq<Item>, comment: Bytes): Bytes {
    Body(items) + EndRecord(|items|, |Centrals(items)|, |Locals(items)|, comment)
  }

  /** The format's limits: 16-bit counts and names, 32-bit sizes and offsets. */
  ghost predicate Writable(items: seq<Item>, comment: Bytes) {
    && |items| < 0x1_0000 && |Pack(items, comment)| < 0x1_0000_0000
    && forall m <- items :: |m.name| < 0x1_0000 && m.method_ < 0x1_0000
  }

  /** Where the end record of an archive of `items` starts. */
  function EndOf(items: seq<Item>): nat {
    |Body(items)|
  }

  ghost predicate NoLaterSignature(items: seq<Item>, comment: Bytes) {
    var b := Pack(items, comment);
    forall i :: Scanned(b, i) && i > EndOf(items) ==> !IsEnd(b, i)
  }

  /** The scan reaches the end record exactly when the comment is at most 65534 bytes: 65535 is one too many. */
  lemma ScanReaches(items: seq<Item>, comment: Bytes)
    ensures Scanned(Pack(items, comment), EndOf(items)) <==> |comment| <= 65534
  {
    assert |Pack(items, comment)| == EndOf(items) + END_SIZE + |comment|;
  }

  // ----- where the parts lie

  function PlacedAt(items: seq<Item>, i: nat): Placed
    requires i < |items|
  {
    var m := items[i];
    Placed(m.name, m.method_, m.raw, |Locals(items)| + |Centrals(items[..i])|, 0, 0, |Locals(items[..i])|, |m.name|, 0)
  }

  function PlacedAll(items: seq<Item>): (entries: seq<Placed>)
    ensures AllPlaced(items, entries)
  {
    seq(|items|, i requires 0 <= i < |items| => PlacedAt(items, i))
  }

  ghost predicate AllPlaced(items: seq<Item>, entries: seq<Placed>) {
    |entries| == |items| && forall i :: 0 <= i < |items| ==> entries[i] == PlacedAt(items, i)
  }

  lemma {:induction false} LocalsPart(items: seq<Item>, n: nat)
    requires n <= |items|
    ensures Locals(items[..n]) <= Locals(items)
    decreases |items|
  {
    if n == |items| {
      assert items[..n] == items;
    } else {
      var before := items[..|items| - 1];
      LocalsPart(before, n);
      assert before[..n] == items[..n];
    }
  }

  lemma {:induction false} CentralsPart(items: seq<Item>, n: nat)
    requires n <= |items|
    ensures Centrals(items[..n]) <= Centrals(items)
    decreases |items|
  {
    if n == |items| {
      assert items[..n] == items;
    } else {
      var before := items[..|items| - 1];
      CentralsPart(before, n);
      assert before[..n] == items[..n];
    }
  }

  lemma PartSlice(whole: Bytes, before: Bytes, part: Bytes)
    requires before + part <= whole
    ensures |before| + |part| <= |whole| && whole[|before|..|before| + |part|] == part
  {
    var n := |before| + |part|;
    assert whole[..n] == before + part;
    assert whole[|before|..n] == whole[..n][|before|..];
  }

  lemma LocalsStep(items: seq<Item>, i: nat)
    requires i < |items|
    ensures Locals(items[..i + 1]) == Locals(items[..i]) + Local(items[i])
  {
    var front := items[..i + 1];
    assert front[..i] == items[..i] && front[i] == items[i];
  }

  lemma LocalSlice(items: seq<Item>, i: nat)
    requires i < |items|
    ensures Locals(items[..i]) + Local(items[i]) <= Locals(items)
  {
    LocalsStep(items, i);
    LocalsPart(items, i + 1);
  }

  lemma CentralSlice(items: seq<Item>, i: nat)
    requires i < |items|
    ensures Centrals(items[..i]) + Central1(items[i], |Locals(items[..i])|) <= Centrals(items)
    ensures Centrals(items[..i + 1]) == Centrals(items[..i]) + Central1(items[i], |Locals(items[..i])|)
  {
    CentralsPart(items, i + 1);
    assert items[..i + 1][..i] == items[..i];
  }

  lemma PrefixUnder(front: Bytes, part: Bytes, whole: Bytes, rest: Bytes)
    requires part <= whole
    ensures front + part <= front + whole + rest
  {
    assert (front + whole + rest)[..|front| + |part|] == front + part;
  }

  lemma PackedLocal(items: seq<Item>, comment: Bytes, i: nat)
    requires Writable(items, comment) && i < |items|
    ensures LocalAt(Pack(items, comment), PlacedAt(items, i))
  {
    LocalInPack(items, comment, i, Locals(items[..i]), Local(items[i]));
    PartSlice(Pack(items, comment), Locals(items[..i]), Local(items[i]));
    LocalFields(Pack(items, comment), PlacedAt(items, i), items[i]);
  }

  lemma LocalInPack(items: seq<Item>, comment: Bytes, i: nat, before: Bytes, l: Bytes)
    requires i < |items| && before == Locals(items[..i]) && l == Local(items[i])
    ensures before + l <= Pack(items, comment)
  {
    LocalSlice(items, i);
    PrefixGrows(before + l, Locals(items), Centrals(items));
    PrefixGrows(before + l, Body(items), EndRecord(|items|, |Centrals(items)|, |Locals(items)|, comment));
  }

  lemma PrefixGrows(part: Bytes, whole: Bytes, rest: Bytes)
    requires part <= whole
    ensures part <= whole + rest
  {}

  lemma LocalFields(b: Bytes, e: Placed, m: Item)
    requires e.local + |Local(m)| <= |b| && b[e.local..e.local + |Local(m)|] == Local(m)
    requires e.raw == m.raw && e.localNameLen == |m.name| < 0x1_0000 && e.localExtraLen == 0
    ensures LocalAt(b, e)
  {
    var l := Local(m);
    LocalHeaderReads(m);
    assert l[..30] == LocalHeader(m) && b[e.local..e.local + 30] == b[e.local..e.local + |l|][..30];
    HalfWithin(b, e.local, LocalHeader(m), 26);
    HalfWithin(b, e.local, LocalHeader(m), 28);
    assert l[30 + |m.name|..] == m.raw;
    assert b[e.local..e.local + |l|][30 + |m.name|..] == b[e.local + 30 + |m.name|..e.local + |l|];
  }

  lemma PackedCentral(items: seq<Item>, comment: Bytes, i: nat)
    requires Writable(items, comment) && i < |items|
    ensures CentralAt(Pack(items, comment), PlacedAt(items, i))
  {
    var before, c := Centrals(items[..i]), Central1(items[i], |Locals(items[..i])|);
    CentralInPack(items, comment, i, before, c);
    PartSlice(Pack(items, comment), Locals(items) + before, c);
    LocalFits(items, comment, i);
    CentralFields(Pack(items, comment), PlacedAt(items, i), items[i]);
  }

  lemma CentralInPack(items: seq<Item>, comment: Bytes, i: nat, before: Bytes, c: Bytes)
    requires i < |items| && before == Centrals(items[..i]) && c == Central1(items[i], |Locals(items[..i])|)
    ensures Locals(items) + before + c <= Pack(items, comment)
  {
    CentralSlice(items, i);
    PrefixUnder(Locals(items), before + c, Centrals(items),
        EndRecord(|items|, |Centrals(items)|, |Locals(items)|, comment));
    Associative(Locals(items), before, c);
  }

  lemma Associative(a: Bytes, b: Bytes, c: Bytes)
    ensures a + (b + c) == a + b + c
  {}

  lemma LocalFits(items: seq<Item>, comment: Bytes, i: nat)
    requires i < |items|
    ensures |Locals(items[..i])| + 30 + |items[i].name| + |items[i].raw| <= |Pack(items, comment)|
  {
    LocalSlice(items, i);
  }

  lemma CentralFields(b: Bytes, e: Placed, m: Item)
    requires e.at + |Central1(m, e.local)| <= |b|
    requires b[e.at..e.at + |Central1(m, e.local)|] == Central1(m, e.local)
    requires e.name == m.name && e.raw == m.raw && e.method_ == m.method_ && e.extraLen == 0 == e.commentLen
    requires |m.name| < 0x1_0000 && m.method_ < 0x1_0000 && |m.raw| < 0x1_0000_0000 && e.local < 0x1_0000_0000
    ensures CentralAt(b, e)
  {
    var c, h := Central1(m, e.local), CentralHeader(m, e.local);
    CentralHeaderReads(m, e.local);
    assert c[..46] == h && b[e.at..e.at + 46] == b[e.at..e.at + |c|][..46];
    WordWithin(b, e.at, h, 0);
    HalfWithin(b, e.at, h, 10);
    WordWithin(b, e.at, h, 20);
    HalfWithin(b, e.at, h, 28);
    HalfWithin(b, e.at, h, 30);
    HalfWithin(b, e.at, h, 32);
    WordWithin(b, e.at, h, 42);
    assert c[46..] == m.name;
    assert b[e.at..e.at + |c|][46..] == b[e.at + 46..e.at + |c|];
  }

  lemma PackedEnd(items: seq<Item>, comment: Bytes)
    requires Writable(items, comment) && |comment| <= 65534 && NoLaterSignature(items, comment)
    ensures var b := Pack(items, comment); var end := EndOf(items);
      LastEnd(b, end) && Half(b, end + 10) == |items| && Word(b, end + 16) == |Locals(items)|
  {
    var b, end := Pack(items, comment), EndOf(items);
    var tail := EndRecord(|items|, |Centrals(items)|, |Locals(items)|, comment);
    ScanReaches(items, comment);
    EndRecordReads(|items|, |Centrals(items)|, |Locals(items)|, comment);
    EndFields(Body(items), tail, b);
  }

  lemma EndFields(body: Bytes, tail: Bytes, b: Bytes)
    requires b == body + tail && |tail| >= 22
    ensures Word(b, |body|) == Word(tail, 0) && Half(b, |body| + 10) == Half(tail, 10)
      && Word(b, |body| + 16) == Word(tail, 16)
  {
    assert b[|body|..|body| + |tail|] == tail;
    WordWithin(b, |body|, tail, 0);
    HalfWithin(b, |body|, tail, 10);
    WordWithin(b, |body|, tail, 16);
  }

  lemma PackLaidOut(items: seq<Item>, comment: Bytes, entries: seq<Placed>)
    requires Writable(items, comment) && |comment| <= 65534 && NoLaterSignature(items, comment)
    requires AllPlaced(items, entries)
    ensures LaidOut(Pack(items, comment), EndOf(items), entries)
  {
    PackedEnd(items, comment);
    forall i | 0 <= i < |entries|
      ensures CentralAt(Pack(items, comment), entries[i]) && LocalAt(Pack(items, comment), entries[i])
    {
      PackedCentral(items, comment, i);
      PackedLocal(items, comment, i);
    }
    forall i | 0 < i < |entries| ensures entries[i].at == HeaderEnd(entries[i - 1]) {
      PackedNext(items, i);
    }
    if items != [] {
      assert items[..0] == [];
    }
  }

  lemma PackedNext(items: seq<Item>, i: nat)
    requires 0 < i < |items|
    ensures PlacedAt(items, i).at == HeaderEnd(PlacedAt(items, i - 1))
  {
    CentralSlice(items, i - 1);
  }

  // ----- the round trip

  function Unpacked(m: Item, inflate: Bytes -> Option<Bytes>): Option<Bytes> {
    if m.method_ == 0 then Some(m.raw) else if m.method_ == 8 then inflate(m.raw) else Option.None
  }

  ghost predicate Distinctly(items: seq<Item>, decode: Bytes -> string) {
    forall i, j :: 0 <= i < j < |items| ==> decode(items[i].name) != decode(items[j].name)
  }

  /** `m` holds, under every item's name, the bytes the item was made from, and nothing else. */
  ghost predicate Holds(m: Files, items: seq<Item>, decode: Bytes -> string, inflate: Bytes -> Option<Bytes>) {
    && (forall i :: 0 <= i < |items| ==>
          decode(items[i].name) in m && Some(m[decode(items[i].name)]) == Unpacked(items[i], inflate))
    && (forall k :: k in m ==> exists i :: 0 <= i < |items| && decode(items[i].name) == k)
  }

  /** Main result: what the writer packs, the reader unpacks, name for name and byte for byte. */
  lemma RoundTrip(items: seq<Item>, comment: Bytes, decode: Bytes -> string, inflate: Bytes -> Option<Bytes>)
    requires Writable(items, comment) && |comment| <= 65534 && NoLaterSignature(items, comment)
    requires Distinctly(items, decode) && forall m <- items :: Unpacked(m, inflate).Some?
    ensures var b := Pack(items, comment); var end := EndOf(items);
      LastEnd(b, end) && ReadFrom(b, end, decode, inflate).Ok?
      && Holds(ReadFrom(b, end, decode, inflate).value, items, decode, inflate)
  {
    var entries := PlacedAll(items);
    PackLaidOut(items, comment, entries);
    PlacedContents(items, entries, decode, inflate);
    LaidOutReads(Pack(items, comment), EndOf(items), entries, decode, inflate);
    ListedExactly(entries, decode, inflate);
    HoldsFromIndex(Listed(entries, decode, inflate), items, entries, decode, inflate);
  }

  lemma PlacedContents(items: seq<Item>, entries: seq<Placed>, decode: Bytes -> string, inflate: Bytes -> Option<Bytes>)
    requires AllPlaced(items, entries)
    requires Distinctly(items, decode) && forall m <- items :: Unpacked(m, inflate).Some?
    ensures Readable(entries, inflate) && DistinctNames(entries, decode)
  {
    forall i | 0 <= i < |entries| ensures Content(entries[i], inflate).Some? {
      assert items[i] in items;
    }
  }

  predicate Stands(e: Placed, m: Item) {
    e.name == m.name && e.method_ == m.method_ && e.raw == m.raw
  }

  lemma HoldsFromIndex(
      m: Files, items: seq<Item>, entries: seq<Placed>, decode: Bytes -> string, inflate: Bytes -> Option<Bytes>)
    requires |entries| == |items| && forall i :: 0 <= i < |items| ==> Stands(entries[i], items[i])
    requires Readable(entries, inflate) && Indexes(m, entries, decode, inflate)
    ensures Holds(m, items, decode, inflate)
  {
    forall i | 0 <= i < |items|
      ensures decode(items[i].name) in m && Some(m[decode(items[i].name)]) == Unpacked(items[i], inflate)
    {
      var e := entries[i];
      assert Stands(e, items[i]) && e in entries && Content(e, inflate).Some?;
    }
    forall k | k in m ensures exists i :: 0 <= i < |items| && decode(items[i].name) == k {
      var e :| e in entries && decode(e.name) == k;
      var i :| 0 <= i < |entries| && entries[i] == e;
      assert Stands(e, items[i]) && decode(items[i].name) == k;
    }
  }

  /** The reader itself on a packed archive, end record found by its own scan. */
  method ReadPacked(items: seq<Item>, comment: Bytes, decode: Bytes -> string, inflate: Bytes -> Option<Bytes>)
    returns (r: Result<Files>)
    requires Writable(items, comment) && |comment| <= 65534 && NoLaterSignature(items, comment)
    requires Distinctly(items, decode) && forall m <- items :: Unpacked(m, inflate).Some?
    ensures r.Ok? && Holds(r.value, items, decode, inflate)
  {
    RoundTrip(items, comment, decode, inflate);
    r := ReadZip(Pack(items, comment), decode, inflate);
  }
}
