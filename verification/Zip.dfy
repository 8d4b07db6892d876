// Reading one entry out of an untrusted zip archive (packages/db/src/zip.ts). Every index below is proved to be
// inside the buffer; the checksum, the inflater and the text decoder are parameters.
module Zip {
  import opened Basics

  newtype Byte = x: int | 0 <= x < 256

  type Bytes = seq<Byte>

  datatype ZipError =
    | NoEndRecord | Truncated | BadCentral | BadLocal | Encrypted | Zip64 | BadMethod | BadData | CheckFailed | NoEntry

  /** `inflate(data, n)` is None when the data is corrupt or would not fit in `n` bytes. */
  datatype Codec = Codec(crc: Bytes -> nat, inflate: (Bytes, nat) -> Option<Bytes>, text: Bytes -> string)

  const EOCD_SIGNATURE: nat := 0x06054b50
  const CENTRAL_SIGNATURE: nat := 0x02014b50
  const LOCAL_SIGNATURE: nat := 0x04034b50
  const EOCD_SEARCH: nat := 22 + 0xffff
  const NO_SIZE: nat := 0xffffffff

  function U16(b: Bytes, at: nat): nat
    requires at + 2 <= |b|
  {
    b[at] as nat + 256 * b[at + 1] as nat
  }

  function U32(b: Bytes, at: nat): nat
    requires at + 4 <= |b|
  {
    U16(b, at) + 65536 * U16(b, at + 2)
  }

  predicate Within(b: Bytes, offset: nat, length: nat) { offset + length <= |b| }

  // ---------- What the archive says ----------

  /** A central directory entry. */
  datatype Central = Central(
    flags: nat, method_: nat, crc: nat, compressedSize: nat, size: nat, localOffset: nat, name: string, end: nat)

  function CentralAt(codec: Codec, zip: Bytes, at: nat): Result<Central, ZipError> {
    if !Within(zip, at, 46) then Err(Truncated)
    else if U32(zip, at) != CENTRAL_SIGNATURE then Err(BadCentral)
    else
      var nameLength := U16(zip, at + 28);
      if !Within(zip, at + 46, nameLength) then Err(Truncated)
      else
        Ok(Central(U16(zip, at + 8), U16(zip, at + 10), U32(zip, at + 16), U32(zip, at + 20), U32(zip, at + 24),
                   U32(zip, at + 42), codec.text(zip[at + 46..at + 46 + nameLength]),
                   at + 46 + nameLength + U16(zip, at + 30) + U16(zip, at + 32)))
  }

  /** The first of the next `n` entries with that name; an unreadable entry before it ends the search. */
  function Find(codec: Codec, zip: Bytes, at: nat, n: nat, name: string): Result<Central, ZipError>
    decreases n
  {
    if n == 0 then Err(NoEntry)
    else
      match CentralAt(codec, zip, at)
      case Err(e) => Err(e)
      case Ok(c) => if c.name == name then Ok(c) else Find(codec, zip, c.end, n - 1, name)
  }

  function Content(codec: Codec, zip: Bytes, c: Central): Result<Bytes, ZipError> {
    if c.flags % 2 == 1 then Err(Encrypted)
    else if c.compressedSize == NO_SIZE || c.size == NO_SIZE then Err(Zip64)
    else if !Within(zip, c.localOffset, 30) then Err(Truncated)
    else if U32(zip, c.localOffset) != LOCAL_SIGNATURE then Err(BadLocal)
    else
      var start := c.localOffset + 30 + U16(zip, c.localOffset + 26) + U16(zip, c.localOffset + 28);
      if !Within(zip, start, c.compressedSize) then Err(Truncated)
      else
        var data := zip[start..start + c.compressedSize];
        if c.method_ == 0 then Checked(codec, c, data)
        else if c.method_ == 8 then
          match codec.inflate(data, c.size) case None => Err(BadData) case Some(out) => Checked(codec, c, out)
        else Err(BadMethod)
  }

  function Checked(codec: Codec, c: Central, out: Bytes): Result<Bytes, ZipError> {
    if |out| != c.size || codec.crc(out) != c.crc then Err(CheckFailed) else Ok(out)
  }

  predicate EndAt(zip: Bytes, i: nat) { Within(zip, i, 22) && U32(zip, i) == EOCD_SIGNATURE }

  /** An end record stands at `i`, no later one does, and `i` is in the part of the archive that is searched. */
  ghost predicate IsEnd(zip: Bytes, i: nat) {
    EndAt(zip, i) && |zip| <= i + EOCD_SEARCH && forall j: nat :: EndAt(zip, j) ==> j <= i
  }

  function Entry(codec: Codec, zip: Bytes, end: nat, name: string): Result<Bytes, ZipError>
    requires Within(zip, end, 22)
  {
    match Find(codec, zip, U32(zip, end + 16), U16(zip, end + 10), name)
    case Err(e) => Err(e)
    case Ok(c) => Content(codec, zip, c)
  }

  // ---------- The reader ----------

  method FindEocd(zip: Bytes) returns (end: Option<nat>)
    ensures end.Some? ==> IsEnd(zip, end.value)
    ensures end.None? ==> forall i: nat :: !IsEnd(zip, i)
  {
    if |zip| < 22 { return None; }
    var stop := if |zip| > EOCD_SEARCH then |zip| - EOCD_SEARCH else 0;
    var i := |zip| - 22;
    while i >= stop
      invariant i + 22 <= |zip|
      invariant forall j: nat :: EndAt(zip, j) ==> j <= i
      decreases i
    {
      if U32(zip, i) == EOCD_SIGNATURE { return Some(i); }
      assert !EndAt(zip, i);
      i := i - 1;
    }
    return None;
  }

  method ReadCentral(codec: Codec, zip: Bytes, at: nat) returns (r: Result<Central, ZipError>)
    ensures r == CentralAt(codec, zip, at)
  {
    if !Within(zip, at, 46) { return Err(Truncated); }
    if U32(zip, at) != CENTRAL_SIGNATURE { return Err(BadCentral); }
    var flags, kind, crc := U16(zip, at + 8), U16(zip, at + 10), U32(zip, at + 16);
    var compressedSize, size := U32(zip, at + 20), U32(zip, at + 24);
    var nameLength, extraLength, commentLength := U16(zip, at + 28), U16(zip, at + 30), U16(zip, at + 32);
    var localOffset := U32(zip, at + 42);
    if !Within(zip, at + 46, nameLength) { return Err(Truncated); }
    var name := codec.text(zip[at + 46..at + 46 + nameLength]);
    var next := at + 46 + nameLength + extraLength + commentLength;
    return Ok(Central(flags, kind, crc, compressedSize, size, localOffset, name, next));
  }

  lemma FindHere(codec: Codec, zip: Bytes, at: nat, n: nat, name: string, r: Result<Central, ZipError>)
    requires n > 0 && r == CentralAt(codec, zip, at) && (r.Ok? ==> r.value.name == name)
    ensures Find(codec, zip, at, n, name) == r
  {
  }

  lemma FindOn(codec: Codec, zip: Bytes, at: nat, n: nat, name: string, c: Central)
    requires n > 0 && CentralAt(codec, zip, at) == Ok(c) && c.name != name
    ensures Find(codec, zip, at, n, name) == Find(codec, zip, c.end, n - 1, name)
  {
  }

  method FindEntry(codec: Codec, zip: Bytes, start: nat, entries: nat, name: string) returns (r: Result<Central, ZipError>)
    ensures r == Find(codec, zip, start, entries, name)
  {
    var at, left := start, entries;
    ghost var whole := Find(codec, zip, start, entries, name);
    while left > 0
      invariant Find(codec, zip, at, left, name) == whole
    {
      r := ReadCentral(codec, zip, at);
      if r.Err? || r.value.name == name {
        FindHere(codec, zip, at, left, name, r);
        return;
      }
      FindOn(codec, zip, at, left, name, r.value);
      at, left := r.value.end, left - 1;
    }
    r := Err(NoEntry);
  }

  /** What the archive gives for a name: what its last end record leads to, or that it has none. */
  method ReadZipEntry(codec: Codec, zip: Bytes, name: string) returns (r: Result<Bytes, ZipError>)
    ensures forall end: nat :: IsEnd(zip, end) ==> r == Entry(codec, zip, end, name)
    ensures (forall end: nat :: !IsEnd(zip, end)) ==> r == Err(NoEndRecord)
  {
    var found := FindEocd(zip);
    if found.None? { return Err(NoEndRecord); }
    OnlyEnd(zip, found.value);
    r := ReadEntryAt(codec, zip, found.value, name);
  }

  method ReadEntryAt(codec: Codec, zip: Bytes, end: nat, name: string) returns (r: Result<Bytes, ZipError>)
    requires Within(zip, end, 22)
    ensures r == Entry(codec, zip, end, name)
  {
    var c := FindEntry(codec, zip, U32(zip, end + 16), U16(zip, end + 10), name);
    r := match c case Err(e) => Err(e) case Ok(entry) => Content(codec, zip, entry);
  }

  lemma OnlyEnd(zip: Bytes, end: nat)
    requires IsEnd(zip, end)
    ensures forall e: nat :: IsEnd(zip, e) ==> e == end
  {
  }

  /** Whatever the bytes, what is returned has the size and the checksum that the first entry of that name records. */
  lemma {:induction false} ReturnedIsChecked(codec: Codec, zip: Bytes, end: nat, name: string)
    requires Within(zip, end, 22) && Entry(codec, zip, end, name).Ok?
    ensures var found := Find(codec, zip, U32(zip, end + 16), U16(zip, end + 10), name);
      var out := Entry(codec, zip, end, name).value;
      found.Ok? && found.value.name == name && |out| == found.value.size && codec.crc(out) == found.value.crc
  {
    FoundHasName(codec, zip, U32(zip, end + 16), U16(zip, end + 10), name);
  }

  lemma {:induction false} FoundHasName(codec: Codec, zip: Bytes, at: nat, n: nat, name: string)
    ensures var found := Find(codec, zip, at, n, name); found.Ok? ==> found.value.name == name
    decreases n
  {
    if n > 0 && CentralAt(codec, zip, at).Ok? {
      FoundHasName(codec, zip, CentralAt(codec, zip, at).value.end, n - 1, name);
    }
  }
}
