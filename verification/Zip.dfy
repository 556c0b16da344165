/**
 The ZIP directory reader of the XLSX importer, byte by byte: the end-of-central-directory record of
 PKWARE APPNOTE section 4.3.16, the central headers of 4.3.12, and the local headers of 4.3.7.

 Text decoding and inflation are parameters: `decode` turns a file name's bytes into a string, and
 `inflate` answers None where zlib throws.
 */
module Zip {
  import opened Wrappers

  newtype byte = x: int | 0 <= x < 0x100

  type Bytes = seq<byte>

  const END_SIGNATURE := 0x06054b50
  const CENTRAL_SIGNATURE := 0x02014b50
  const END_SIZE := 22
  const MAX_COMMENT := 0xffff

  datatype ZipError =
    | NoDirectory
    | CorruptDirectory
    | OutOfRange
    | UnsupportedMethod(method_: int)
    | BadDeflate

  datatype Result<+T> = Ok(value: T) | Err(error: ZipError)

  type Files = map<string, Bytes>

  // ----- DataView and subarray

  function Half(b: Bytes, i: int): int
    requires 0 <= i && i + 2 <= |b|
  {
    b[i] as int + 0x100 * b[i + 1] as int
  }

  function Word(b: Bytes, i: int): int
    requires 0 <= i && i + 4 <= |b|
  {
    b[i] as int + 0x100 * b[i + 1] as int + 0x1_0000 * b[i + 2] as int + 0x100_0000 * b[i + 3] as int
  }

  function Clamp(i: nat, n: nat): nat {
    if i < n then i else n
  }

  /** `subarray(from, to)` clamps both ends to the array. */
  function Sub(b: Bytes, lo: nat, hi: nat): Bytes
    requires lo <= hi
  {
    b[Clamp(lo, |b|)..Clamp(hi, |b|)]
  }

  // ----- the end-of-central-directory record

  /** The positions the backward scan looks at; the lower bound is strict. */
  predicate Scanned(b: Bytes, i: int) {
    0 <= i <= |b| - END_SIZE && i > |b| - END_SIZE - MAX_COMMENT
  }

  predicate IsEnd(b: Bytes, i: int)
    requires 0 <= i && i + 4 <= |b|
  {
    Word(b, i) == END_SIGNATURE
  }

  /** The last scanned position that carries the signature. */
  ghost predicate LastEnd(b: Bytes, end: int) {
    && Scanned(b, end) && IsEnd(b, end)
    && forall i :: Scanned(b, i) && i > end ==> !IsEnd(b, i)
  }

  lemma LastEndUnique(b: Bytes, d: int, e: int)
    requires LastEnd(b, d) && LastEnd(b, e)
    ensures d == e
  {}

  method FindEnd(b: Bytes) returns (end: int)
    ensures end == -1 <==> forall i :: Scanned(b, i) ==> !IsEnd(b, i)
    ensures end != -1 ==> LastEnd(b, end)
  {
    end := -1;
    var i := |b| - END_SIZE;
    while i >= 0 && i > |b| - END_SIZE - MAX_COMMENT
      invariant i <= |b| - END_SIZE
      invariant forall j :: Scanned(b, j) && j > i ==> !IsEnd(b, j)
    {
      if IsEnd(b, i) {
        end := i;
        return;
      }
      i := i - 1;
    }
  }

  // ----- one entry

  datatype Central = Central(method_: nat, size: nat, nameLen: nat, extraLen: nat, commentLen: nat, local: nat)

  /** The fields of a central header, read in the order the reader reads them. */
  function ReadCentral(b: Bytes, p: nat): Result<Central> {
    if p + 4 > |b| then Err(OutOfRange)
    else if Word(b, p) != CENTRAL_SIGNATURE then Err(CorruptDirectory)
    else if p + 46 > |b| then Err(OutOfRange)
    else Ok(Central(Half(b, p + 10), Word(b, p + 20), Half(b, p + 28), Half(b, p + 30), Half(b, p + 32),
        Word(b, p + 42)))
  }

  function NextHeader(p: nat, c: Central): nat {
    p + 46 + c.nameLen + c.extraLen + c.commentLen
  }

  /** The local header's own lengths say where the data starts. */
  function RawData(b: Bytes, c: Central): Result<Bytes> {
    if c.local + 30 > |b| then Err(OutOfRange)
    else
      var start := c.local + 30 + Half(b, c.local + 26) + Half(b, c.local + 28);
      Ok(Sub(b, start, start + c.size))
  }

  function Unpack(c: Central, raw: Bytes, inflate: Bytes -> Option<Bytes>): Result<Bytes> {
    if c.method_ == 0 then Ok(raw)
    else if c.method_ == 8 then
      match inflate(raw)
      case Some(data) => Ok(data)
      case None => Err(BadDeflate)
    else Err(UnsupportedMethod(c.method_))
  }

  datatype Read = Read(name: string, data: Bytes, next: nat)

  function ReadEntry(b: Bytes, p: nat, decode: Bytes -> string, inflate: Bytes -> Option<Bytes>): Result<Read> {
    match ReadCentral(b, p)
    case Err(e) => Err(e)
    case Ok(c) =>
      match RawData(b, c)
      case Err(e) => Err(e)
      case Ok(raw) =>
        match Unpack(c, raw, inflate)
        case Err(e) => Err(e)
        case Ok(data) => Ok(Read(decode(Sub(b, p + 46, p + 46 + c.nameLen)), data, NextHeader(p, c)))
  }

  datatype Directory = Directory(files: Files, next: nat)

  /** The first `count` entries from `p` on; a later entry replaces an earlier one of its name. */
  function ReadEntries(b: Bytes, p: nat, count: nat, decode: Bytes -> string, inflate: Bytes -> Option<Bytes>):
    Result<Directory>
  {
    if count == 0 then Ok(Directory(map[], p))
    else
      match ReadEntries(b, p, count - 1, decode, inflate)
      case Err(e) => Err(e)
      case Ok(d) =>
        match ReadEntry(b, d.next, decode, inflate)
        case Err(e) => Err(e)
        case Ok(r) => Ok(Directory(d.files[r.name := r.data], r.next))
  }

  function FilesOf(r: Result<Directory>): Result<Files> {
    match r
    case Ok(d) => Ok(d.files)
    case Err(e) => Err(e)
  }

  /** What `readZip` answers once the end record is found. */
  function ReadFrom(b: Bytes, end: int, decode: Bytes -> string, inflate: Bytes -> Option<Bytes>): Result<Files>
    requires Scanned(b, end)
  {
    FilesOf(ReadEntries(b, Word(b, end + 16), Half(b, end + 10), decode, inflate))
  }

  lemma EntryStops(b: Bytes, p: nat, count: nat, decode: Bytes -> string, inflate: Bytes -> Option<Bytes>)
    requires count > 0 && ReadEntries(b, p, count - 1, decode, inflate).Err?
    ensures ReadEntries(b, p, count, decode, inflate) == ReadEntries(b, p, count - 1, decode, inflate)
  {}

  lemma {:induction false} EntriesStop(
      b: Bytes, p: nat, n: nat, count: nat, decode: Bytes -> string, inflate: Bytes -> Option<Bytes>)
    requires n <= count && ReadEntries(b, p, n, decode, inflate).Err?
    ensures ReadEntries(b, p, count, decode, inflate) == ReadEntries(b, p, n, decode, inflate)
  {
    if n < count {
      EntriesStop(b, p, n, count - 1, decode, inflate);
      EntryStops(b, p, count, decode, inflate);
    }
  }

  method ReadDirectory(b: Bytes, start: nat, count: nat, decode: Bytes -> string, inflate: Bytes -> Option<Bytes>)
    returns (r: Result<Files>)
    ensures r == FilesOf(ReadEntries(b, start, count, decode, inflate))
  {
    var p := start;
    var out: Files := map[];
    for i := 0 to count
      invariant ReadEntries(b, start, i, decode, inflate) == Ok(Directory(out, p))
    {
      var read := ReadEntry(b, p, decode, inflate);
      if read.Err? {
        EntriesStop(b, start, i + 1, count, decode, inflate);
        return Err(read.error);
      }
      out := out[read.value.name := read.value.data];
      p := read.value.next;
    }
    r := Ok(out);
  }

  method ReadZip(b: Bytes, decode: Bytes -> string, inflate: Bytes -> Option<Bytes>) returns (r: Result<Files>)
    ensures (forall i :: Scanned(b, i) ==> !IsEnd(b, i)) ==> r == Err(NoDirectory)
    ensures forall end :: LastEnd(b, end) ==> r == ReadFrom(b, end, decode, inflate)
  {
    var end := FindEnd(b);
    if end < 0 {
      return Err(NoDirectory);
    }
    forall e | LastEnd(b, e) ensures e == end {
      LastEndUnique(b, e, end);
    }
    r := ReadDirectory(b, Word(b, end + 16), Half(b, end + 10), decode, inflate);
  }

  /** Where the `n`th header is that the reader comes to, if it does. */
  function HeaderAt(b: Bytes, p: nat, n: nat, decode: Bytes -> string, inflate: Bytes -> Option<Bytes>): Option<nat> {
    match ReadEntries(b, p, n, decode, inflate)
    case Ok(d) => Some(d.next)
    case Err(_) => None
  }

  /** The header at `q` names a compression method other than stored and deflated, of data that is there. */
  predicate OtherMethod(b: Bytes, q: nat) {
    && q + 46 <= |b| && Half(b, q + 10) != 0 && Half(b, q + 10) != 8
    && Word(b, q) == CENTRAL_SIGNATURE && Word(b, q + 42) + 30 <= |b|
  }

  lemma EntryMethod(b: Bytes, q: nat, decode: Bytes -> string, inflate: Bytes -> Option<Bytes>)
    ensures OtherMethod(b, q) ==> ReadEntry(b, q, decode, inflate) == Err(UnsupportedMethod(Half(b, q + 10)))
    ensures ReadEntry(b, q, decode, inflate).Ok? ==> q + 46 <= |b| && Half(b, q + 10) in {0, 8}
  {
    hide Half, Word, Sub;
  }

  /** Stored and deflated entries are read, and at the first entry of another method the reader gives up. */
  lemma OnlyTwoMethods(
      b: Bytes, p: nat, count: nat, decode: Bytes -> string, inflate: Bytes -> Option<Bytes>, n: nat)
    requires n < count && HeaderAt(b, p, n, decode, inflate).Some?
    ensures var q, r := HeaderAt(b, p, n, decode, inflate).value, ReadEntries(b, p, count, decode, inflate);
      && (OtherMethod(b, q) ==> r == Err(UnsupportedMethod(Half(b, q + 10))))
      && (r.Ok? ==> q + 46 <= |b| && Half(b, q + 10) in {0, 8})
  {
    hide Half, Word, ReadEntry;
    EntryMethod(b, HeaderAt(b, p, n, decode, inflate).value, decode, inflate);
    if ReadEntries(b, p, n + 1, decode, inflate).Err? {
      EntriesStop(b, p, n + 1, count, decode, inflate);
    }
  }
}
