// A writer of plain archives after PKWARE's APPNOTE (sections 4.3.7, 4.3.12 and 4.3.16): stored entries, no extra
// fields, no comments. What it writes, the reader of packages/db/src/zip.ts reads back.
module ZipWriter {
  import opened Basics
  import opened Zip

  datatype Stored = Stored(name: Bytes, data: Bytes)

  /** A field of a record: two or four bytes, low byte first, or bytes left zero. */
  datatype Field = Two(x: nat) | Four(x: nat) | Blank(n: nat)

  /** A record: its fields one after the other. */
  datatype Record = Done | Put(first: Field, rest: Record)

  function Le16(x: nat): Bytes { [(x % 256) as Byte, (x / 256 % 256) as Byte] }

  function FieldBytes(f: Field): Bytes {
    match f
    case Two(x) => Le16(x)
    case Four(x) => Le16(x % 65536) + Le16(x / 65536 % 65536)
    case Blank(n) => seq(n, _ => 0)
  }

  function Encode(r: Record): Bytes {
    match r case Done => [] case Put(first, rest) => FieldBytes(first) + Encode(rest)
  }

  /** Signature; version; flags, method, time and date; checksum; both sizes; name and extra lengths. */
  function LocalHeader(codec: Codec, e: Stored): Record {
    Put(Four(LOCAL_SIGNATURE), Put(Two(20), Put(Blank(8), Put(Four(codec.crc(e.data)),
    Put(Four(|e.data|), Put(Four(|e.data|), Put(Two(|e.name|), Put(Blank(2), Done))))))))
  }

  function LocalPart(codec: Codec, e: Stored): Bytes { Encode(LocalHeader(codec, e)) + (e.name + e.data) }

  /** Signature; versions; flags, method, time and date; checksum; both sizes; name length; the other lengths, disk and
      attributes; offset of the local part. */
  function CentralHeader(codec: Codec, e: Stored, offset: nat): Record {
    Put(Four(CENTRAL_SIGNATURE), Put(Four(20), Put(Blank(8), Put(Four(codec.crc(e.data)),
    Put(Four(|e.data|), Put(Four(|e.data|), Put(Two(|e.name|), Put(Blank(12), Put(Four(offset), Done)))))))))
  }

  function CentralPart(codec: Codec, e: Stored, offset: nat): Bytes {
    Encode(CentralHeader(codec, e, offset)) + e.name
  }

  /** Signature; disks; the two entry counts; the directory's size and offset; no comment. */
  function EndHeader(n: nat, size: nat, offset: nat): Record {
    Put(Four(EOCD_SIGNATURE), Put(Blank(4), Put(Two(n), Put(Two(n), Put(Four(size), Put(Four(offset), Put(Blank(2), Done)))))))
  }

  function Locals(codec: Codec, es: seq<Stored>): Bytes {
    if es == [] then [] else LocalPart(codec, es[0]) + Locals(codec, es[1..])
  }

  function Centrals(codec: Codec, es: seq<Stored>, offset: nat): Bytes {
    if es == [] then []
    else CentralPart(codec, es[0], offset) + Centrals(codec, es[1..], offset + |LocalPart(codec, es[0])|)
  }

  function Archive(codec: Codec, es: seq<Stored>): Bytes {
    var locals, centrals := Locals(codec, es), Centrals(codec, es, 0);
    locals + (centrals + Encode(EndHeader(|es|, |centrals|, |locals|)))
  }

  // ---------- Where the parts stand ----------

  /** `part` stands in the archive at `at`. */
  predicate Holds(zip: Bytes, at: nat, part: Bytes) {
    at + |part| <= |zip| && zip[at..at + |part|] == part
  }

  lemma HoldsParts(zip: Bytes, at: nat, a: Bytes, b: Bytes)
    requires Holds(zip, at, a + b)
    ensures Holds(zip, at, a) && Holds(zip, at + |a|, b)
  {
    var whole := zip[at..at + |a + b|];
    assert whole[..|a|] == a && whole[|a|..] == b;
    assert zip[at..at + |a|] == whole[..|a|];
    assert zip[at + |a|..at + |a| + |b|] == whole[|a|..];
  }

  function Width(f: Field): nat { match f case Two(_) => 2 case Four(_) => 4 case Blank(n) => n }

  predicate Room(f: Field) { match f case Two(x) => x < 65536 case Four(x) => x <= NO_SIZE case Blank(_) => true }

  /** What a reader finds where a field stands. */
  predicate Reads(zip: Bytes, at: nat, f: Field) {
    && at + Width(f) <= |zip|
    && match f
      case Two(x) => U16(zip, at) == x
      case Four(x) => U32(zip, at) == x
      case Blank(n) => forall i :: at <= i < at + n ==> zip[i] == 0
  }

  lemma Le16Reads(zip: Bytes, at: nat, x: nat)
    requires Holds(zip, at, Le16(x)) && x < 65536
    ensures at + 2 <= |zip| && U16(zip, at) == x
  {
    assert zip[at..at + 2][0] == zip[at] && zip[at..at + 2][1] == zip[at + 1];
  }

  lemma FieldReads(zip: Bytes, at: nat, f: Field)
    requires Holds(zip, at, FieldBytes(f)) && Room(f)
    ensures Reads(zip, at, f) && |FieldBytes(f)| == Width(f)
  {
    match f
    case Two(x) => Le16Reads(zip, at, x);
    case Four(x) =>
      HoldsParts(zip, at, Le16(x % 65536), Le16(x / 65536 % 65536));
      Le16Reads(zip, at, x % 65536);
      Le16Reads(zip, at + 2, x / 65536 % 65536);
      assert x / 65536 < 65536;
    case Blank(n) =>
      forall i | at <= i < at + n ensures zip[i] == 0 { assert zip[at..at + n][i - at] == zip[i]; }
  }

  function Span(r: Record): nat { match r case Done => 0 case Put(first, rest) => Width(first) + Span(rest) }

  predicate AllRoom(r: Record) { match r case Done => true case Put(first, rest) => Room(first) && AllRoom(rest) }

  lemma RoomAhead(r: Record)
    requires r.Put? && r.rest.Put? && Room(r.first) && Room(r.rest.first) && AllRoom(r.rest.rest)
    ensures AllRoom(r)
  {
  }

  /** Every field of a record reads back at its own place. */
  predicate AllRead(zip: Bytes, at: nat, r: Record)
    decreases r
  {
    match r
    case Done => true
    case Put(first, rest) => Reads(zip, at, first) && AllRead(zip, at + Width(first), rest)
  }

  lemma {:induction false} RecordReads(zip: Bytes, at: nat, r: Record)
    requires Holds(zip, at, Encode(r)) && AllRoom(r)
    ensures AllRead(zip, at, r) && |Encode(r)| == Span(r)
    decreases r
  {
    if r.Put? {
      HoldsParts(zip, at, FieldBytes(r.first), Encode(r.rest));
      FieldReads(zip, at, r.first);
      RecordReads(zip, at + Width(r.first), r.rest);
    }
  }

  /** An entry the format has room for. */
  predicate Fits(codec: Codec, e: Stored) {
    |e.name| < 65536 && |e.data| < NO_SIZE && codec.crc(e.data) <= NO_SIZE
  }

  /** The directory entry the reader makes of a written one. */
  function CentralOf(codec: Codec, e: Stored, offset: nat, at: nat): Central {
    Central(0, 0, codec.crc(e.data), |e.data|, |e.data|, offset, codec.text(e.name), at + 46 + |e.name|)
  }

  lemma CentralFields(codec: Codec, zip: Bytes, at: nat, e: Stored, offset: nat)
    requires AllRead(zip, at, CentralHeader(codec, e, offset))
    ensures Span(CentralHeader(codec, e, offset)) == 46 && at + 46 <= |zip|
    ensures U32(zip, at) == CENTRAL_SIGNATURE && U16(zip, at + 8) == 0 && U16(zip, at + 10) == 0
    ensures U32(zip, at + 16) == codec.crc(e.data) && U32(zip, at + 20) == U32(zip, at + 24) == |e.data|
    ensures U16(zip, at + 28) == |e.name| && U16(zip, at + 30) == U16(zip, at + 32) == 0
    ensures U32(zip, at + 42) == offset
  {
    var f := CentralHeader(codec, e, offset);
    Unfold(zip, at, f);
    var f1 := f.rest;
    Unfold(zip, at + 4, f1);
    var f2 := f1.rest;
    Unfold(zip, at + 8, f2);
    var f3 := f2.rest;
    Unfold(zip, at + 16, f3);
    var f4 := f3.rest;
    Unfold(zip, at + 20, f4);
    var f5 := f4.rest;
    Unfold(zip, at + 24, f5);
    var f6 := f5.rest;
    Unfold(zip, at + 28, f6);
    var f7 := f6.rest;
    Unfold(zip, at + 30, f7);
    var f8 := f7.rest;
    Unfold(zip, at + 42, f8);
    var f9 := f8.rest;
    assert f9 == Done;
  }

  lemma Unfold(zip: Bytes, at: nat, r: Record)
    requires r.Put? && AllRead(zip, at, r)
    ensures Reads(zip, at, r.first) && AllRead(zip, at + Width(r.first), r.rest)
    ensures Span(r) == Width(r.first) + Span(r.rest)
  {
  }

  lemma CentralReads(codec: Codec, zip: Bytes, at: nat, e: Stored, offset: nat)
    requires Holds(zip, at, CentralPart(codec, e, offset)) && Fits(codec, e) && offset <= NO_SIZE
    ensures CentralAt(codec, zip, at) == Ok(CentralOf(codec, e, offset, at))
    ensures |CentralPart(codec, e, offset)| == 46 + |e.name|
  {
    var f := CentralHeader(codec, e, offset);
    HoldsParts(zip, at, Encode(f), e.name);
    RoomAhead(f.rest.rest.rest.rest.rest.rest);
    RoomAhead(f.rest.rest.rest.rest);
    RoomAhead(f.rest.rest);
    RoomAhead(f);
    RecordReads(zip, at, f);
    CentralFields(codec, zip, at, e, offset);
  }

  lemma LocalFields(codec: Codec, zip: Bytes, at: nat, e: Stored)
    requires AllRead(zip, at, LocalHeader(codec, e))
    ensures Span(LocalHeader(codec, e)) == 30 && at + 30 <= |zip|
    ensures U32(zip, at) == LOCAL_SIGNATURE && U16(zip, at + 26) == |e.name| && U16(zip, at + 28) == 0
  {
    var f := LocalHeader(codec, e);
    Unfold(zip, at, f);
    var f1 := f.rest;
    Unfold(zip, at + 4, f1);
    var f2 := f1.rest;
    Unfold(zip, at + 6, f2);
    var f3 := f2.rest;
    Unfold(zip, at + 14, f3);
    var f4 := f3.rest;
    Unfold(zip, at + 18, f4);
    var f5 := f4.rest;
    Unfold(zip, at + 22, f5);
    var f6 := f5.rest;
    Unfold(zip, at + 26, f6);
    var f7 := f6.rest;
    Unfold(zip, at + 28, f7);
    var f8 := f7.rest;
    assert f8 == Done;
  }

  lemma LocalPlaces(codec: Codec, zip: Bytes, at: nat, e: Stored)
    requires Holds(zip, at, LocalPart(codec, e)) && Fits(codec, e)
    ensures at + 30 <= |zip| && U32(zip, at) == LOCAL_SIGNATURE && U16(zip, at + 26) == |e.name| && U16(zip, at + 28) == 0
    ensures Holds(zip, at + 30 + |e.name|, e.data)
  {
    var f := LocalHeader(codec, e);
    HoldsParts(zip, at, Encode(f), e.name + e.data);
    RoomAhead(f.rest.rest.rest.rest.rest.rest);
    RoomAhead(f.rest.rest.rest.rest);
    RoomAhead(f.rest.rest);
    RoomAhead(f);
    RecordReads(zip, at, f);
    LocalFields(codec, zip, at, e);
    HoldsParts(zip, at + 30, e.name, e.data);
  }

  lemma LocalReads(codec: Codec, zip: Bytes, at: nat, e: Stored, c: Central)
    requires Holds(zip, at, LocalPart(codec, e)) && Fits(codec, e)
    requires c.localOffset == at && c.flags == 0 && c.method_ == 0
    requires c.crc == codec.crc(e.data) && c.size == c.compressedSize == |e.data|
    ensures Content(codec, zip, c) == Ok(e.data)
  {
    LocalPlaces(codec, zip, at, e);
  }

  // ---------- The whole archive ----------

  /** Where an entry's local part starts. */
  function OffsetOf(codec: Codec, es: seq<Stored>, k: nat): nat
    requires k <= |es|
  {
    if k == 0 then 0 else |LocalPart(codec, es[0])| + OffsetOf(codec, es[1..], k - 1)
  }

  lemma {:induction false} LocalStands(codec: Codec, zip: Bytes, at: nat, es: seq<Stored>, k: nat)
    requires Holds(zip, at, Locals(codec, es)) && k < |es|
    ensures Holds(zip, at + OffsetOf(codec, es, k), LocalPart(codec, es[k]))
    ensures OffsetOf(codec, es, k) <= |Locals(codec, es)|
    decreases k
  {
    HoldsParts(zip, at, LocalPart(codec, es[0]), Locals(codec, es[1..]));
    if k > 0 { LocalStands(codec, zip, at + |LocalPart(codec, es[0])|, es[1..], k - 1); }
  }

  /** The first entry whose name reads as `name`. */
  function FirstNamed(codec: Codec, es: seq<Stored>, name: string): (k: nat)
    ensures k <= |es|
  {
    if es == [] || codec.text(es[0].name) == name then 0 else 1 + FirstNamed(codec, es[1..], name)
  }

  predicate AllFit(codec: Codec, es: seq<Stored>) {
    forall k :: 0 <= k < |es| ==> Fits(codec, es[k])
  }

  /** The directory entry the reader should find: the first of the name. */
  predicate Found(codec: Codec, es: seq<Stored>, offset: nat, name: string, r: Result<Central, ZipError>) {
    var k := FirstNamed(codec, es, name);
    if k == |es| then r == Err(NoEntry)
    else
      && r.Ok? && r.value.localOffset == offset + OffsetOf(codec, es, k)
      && r.value.flags == 0 && r.value.method_ == 0 && r.value.crc == codec.crc(es[k].data)
      && r.value.size == r.value.compressedSize == |es[k].data|
  }

  lemma WalkStep(codec: Codec, zip: Bytes, at: nat, n: nat, e: Stored, offset: nat, name: string)
    requires Holds(zip, at, CentralPart(codec, e, offset)) && Fits(codec, e) && offset <= NO_SIZE && n > 0
    ensures Find(codec, zip, at, n, name) ==
      if codec.text(e.name) == name then Ok(CentralOf(codec, e, offset, at))
      else Find(codec, zip, at + 46 + |e.name|, n - 1, name)
  {
    CentralReads(codec, zip, at, e, offset);
    if codec.text(e.name) == name {
      FindHere(codec, zip, at, n, name, CentralAt(codec, zip, at));
    } else {
      FindOn(codec, zip, at, n, name, CentralOf(codec, e, offset, at));
    }
  }

  lemma RestFits(codec: Codec, es: seq<Stored>)
    requires es != [] && AllFit(codec, es)
    ensures Fits(codec, es[0]) && AllFit(codec, es[1..])
  {
  }

  lemma FoundLater(codec: Codec, es: seq<Stored>, offset: nat, name: string, r: Result<Central, ZipError>)
    requires es != [] && codec.text(es[0].name) != name
    requires Found(codec, es[1..], offset + |LocalPart(codec, es[0])|, name, r)
    ensures Found(codec, es, offset, name, r)
  {
    var k := FirstNamed(codec, es[1..], name);
    assert FirstNamed(codec, es, name) == k + 1;
    if k < |es[1..]| { assert es[1..][k] == es[k + 1]; }
  }

  /** Walking the directory the writer wrote finds the first entry of the name, with the offset of its local part. */
  lemma {:induction false} WalkFinds(codec: Codec, zip: Bytes, at: nat, es: seq<Stored>, offset: nat, name: string)
    requires Holds(zip, at, Centrals(codec, es, offset)) && AllFit(codec, es)
    requires offset + |Locals(codec, es)| <= NO_SIZE
    ensures Found(codec, es, offset, name, Find(codec, zip, at, |es|, name))
    decreases |es|
  {
    if es != [] {
      var e, next := es[0], offset + |LocalPart(codec, es[0])|;
      RestFits(codec, es);
      HoldsParts(zip, at, CentralPart(codec, e, offset), Centrals(codec, es[1..], next));
      CentralReads(codec, zip, at, e, offset);
      WalkStep(codec, zip, at, |es|, e, offset, name);
      if codec.text(e.name) != name {
        WalkFinds(codec, zip, at + 46 + |e.name|, es[1..], next, name);
        FoundLater(codec, es, offset, name, Find(codec, zip, at, |es|, name));
      }
    }
  }

  lemma EndFields(zip: Bytes, at: nat, n: nat, size: nat, offset: nat)
    requires Holds(zip, at, Encode(EndHeader(n, size, offset))) && n < 65536 && size <= NO_SIZE && offset <= NO_SIZE
    ensures EndAt(zip, at) && U16(zip, at + 10) == n && U32(zip, at + 16) == offset
    ensures |Encode(EndHeader(n, size, offset))| == 22
  {
    var f := EndHeader(n, size, offset);
    RoomAhead(f.rest.rest.rest.rest);
    RoomAhead(f.rest.rest);
    RoomAhead(f);
    RecordReads(zip, at, f);
    Unfold(zip, at, f);
    var f1 := f.rest;
    Unfold(zip, at + 4, f1);
    var f2 := f1.rest;
    Unfold(zip, at + 8, f2);
    var f3 := f2.rest;
    Unfold(zip, at + 10, f3);
    var f4 := f3.rest;
    Unfold(zip, at + 12, f4);
    var f5 := f4.rest;
    Unfold(zip, at + 16, f5);
    var f6 := f5.rest;
    Unfold(zip, at + 20, f6);
    var f7 := f6.rest;
    assert f7 == Done;
  }

  /** An archive the format has room for. */
  predicate Writable(codec: Codec, es: seq<Stored>) {
    && |es| < 65536 && AllFit(codec, es)
    && |Locals(codec, es)| <= NO_SIZE && |Centrals(codec, es, 0)| <= NO_SIZE
  }

  lemma HoldsAll(zip: Bytes)
    ensures Holds(zip, 0, zip)
  {
  }

  lemma ThreeParts(zip: Bytes, a: Bytes, b: Bytes, c: Bytes)
    requires zip == a + (b + c)
    ensures Holds(zip, 0, a) && Holds(zip, |a|, b) && Holds(zip, |a| + |b|, c)
    ensures |zip| == |a| + |b| + |c|
  {
    HoldsAll(zip);
    HoldsParts(zip, 0, a, b + c);
    HoldsParts(zip, |a|, b, c);
  }

  lemma ArchiveStands(zip: Bytes, locals: Bytes, centrals: Bytes, n: nat)
    requires zip == locals + (centrals + Encode(EndHeader(n, |centrals|, |locals|)))
    requires n < 65536 && |locals| <= NO_SIZE && |centrals| <= NO_SIZE
    ensures Holds(zip, 0, locals) && Holds(zip, |locals|, centrals)
    ensures |zip| == |locals| + |centrals| + 22
    ensures EndAt(zip, |zip| - 22) && U16(zip, |zip| - 12) == n && U32(zip, |zip| - 6) == |locals|
  {
    ThreeParts(zip, locals, centrals, Encode(EndHeader(n, |centrals|, |locals|)));
    EndFields(zip, |locals| + |centrals|, n, |centrals|, |locals|);
  }

  lemma LastEnd(zip: Bytes)
    requires |zip| >= 22 && EndAt(zip, |zip| - 22)
    ensures IsEnd(zip, |zip| - 22)
  {
  }

  /** What the reader should give: the first entry of the name, if there is one. */
  function Wanted(codec: Codec, es: seq<Stored>, name: string): Result<Bytes, ZipError> {
    var k := FirstNamed(codec, es, name);
    if k < |es| then Ok(es[k].data) else Err(NoEntry)
  }

  lemma ArchiveReads(codec: Codec, es: seq<Stored>, name: string, zip: Bytes, locals: Bytes, centrals: Bytes)
    requires Writable(codec, es) && locals == Locals(codec, es) && centrals == Centrals(codec, es, 0)
    requires zip == locals + (centrals + Encode(EndHeader(|es|, |centrals|, |locals|)))
    ensures |zip| >= 22 && EndAt(zip, |zip| - 22) && Entry(codec, zip, |zip| - 22, name) == Wanted(codec, es, name)
  {
    ArchiveStands(zip, locals, centrals, |es|);
    WalkFinds(codec, zip, |locals|, es, 0, name);
    EntryReads(codec, zip, es, name, |locals|);
  }

  /** Reading back: the first entry of a name gives its bytes, and a name that is not there gives none. */
  lemma RoundTrip(codec: Codec, es: seq<Stored>, name: string)
    requires Writable(codec, es)
    ensures var zip := Archive(codec, es);
      |zip| >= 22 && IsEnd(zip, |zip| - 22) && Entry(codec, zip, |zip| - 22, name) == Wanted(codec, es, name)
  {
    ArchiveReads(codec, es, name, Archive(codec, es), Locals(codec, es), Centrals(codec, es, 0));
    LastEnd(Archive(codec, es));
  }

  lemma EntryFrom(codec: Codec, zip: Bytes, end: nat, name: string, at: nat, n: nat)
    requires Within(zip, end, 22) && U32(zip, end + 16) == at && U16(zip, end + 10) == n
    ensures Entry(codec, zip, end, name) ==
      match Find(codec, zip, at, n, name) case Err(e) => Err(e) case Ok(c) => Content(codec, zip, c)
  {
  }

  lemma FoundReads(codec: Codec, zip: Bytes, es: seq<Stored>, name: string, r: Result<Central, ZipError>)
    requires AllFit(codec, es) && Holds(zip, 0, Locals(codec, es)) && Found(codec, es, 0, name, r)
    ensures (match r case Err(e) => Err(e) case Ok(c) => Content(codec, zip, c)) == Wanted(codec, es, name)
  {
    var k := FirstNamed(codec, es, name);
    if k < |es| {
      LocalStands(codec, zip, 0, es, k);
      LocalReads(codec, zip, OffsetOf(codec, es, k), es[k], r.value);
    }
  }

  lemma EntryReads(codec: Codec, zip: Bytes, es: seq<Stored>, name: string, at: nat)
    requires AllFit(codec, es) && Holds(zip, 0, Locals(codec, es)) && |zip| >= 22
    requires U32(zip, |zip| - 6) == at && U16(zip, |zip| - 12) == |es|
    requires Found(codec, es, 0, name, Find(codec, zip, at, |es|, name))
    ensures Entry(codec, zip, |zip| - 22, name) == Wanted(codec, es, name)
  {
    EntryFrom(codec, zip, |zip| - 22, name, at, |es|);
    FoundReads(codec, zip, es, name, Find(codec, zip, at, |es|, name));
  }

  /** What the reader returns for an archive so written. */
  method ReadBack(codec: Codec, es: seq<Stored>, name: string) returns (r: Result<Bytes, ZipError>)
    requires Writable(codec, es)
    ensures r == Wanted(codec, es, name)
  {
    RoundTrip(codec, es, name);
    r := ReadZipEntry(codec, Archive(codec, es), name);
  }
}
