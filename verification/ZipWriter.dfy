/**
  A straightforward writer of stored-only archives (PKWARE APPNOTE.TXT, sections
  4.3.7, 4.3.12 and 4.3.16), and the proof that the preflight accepts all it writes
  within the limits.
 */
module ZipWriter {
  import opened Wrappers
  import opened Bytes
  import opened DirectoryWalk
  import opened Layout
  import opened ZipPreflight

  datatype StoredFile = StoredFile(name: seq<Byte>, data: seq<Byte>, crc: nat)

  function LocalHeader(f: StoredFile): (r: seq<Byte>)
    ensures |r| == 30
  {
    Le32(LOCAL_SIGNATURE) + [20, 0, 0, 0, 0, 0, 0, 0, 0, 0] + Le32(f.crc) + Le32(|f.data|) + Le32(|f.data|) + Le16(|f.name|) + [0, 0]
  }

  function CentralHeader(f: StoredFile, offset: nat): (r: seq<Byte>)
    ensures |r| == 46
  {
    Le32(CENTRAL_SIGNATURE) + [20, 0, 20, 0, 0, 0, 0, 0, 0, 0, 0, 0] + Le32(f.crc) + Le32(|f.data|) + Le32(|f.data|) + Le16(|f.name|)
    + [0, 0, 0, 0, 0, 0, 0, 0, 0, 0, 0, 0] + Le32(offset)
  }

  function EndRecord(count: nat, size: nat, offset: nat): (r: seq<Byte>)
    ensures |r| == 22
  {
    Le32(END_SIGNATURE) + [0, 0, 0, 0] + Le16(count) + Le16(count) + Le32(size) + Le32(offset) + [0, 0]
  }

  function LocalRecord(f: StoredFile): seq<Byte> {
    LocalHeader(f) + f.name + f.data
  }

  function CentralRecord(f: StoredFile, offset: nat): seq<Byte> {
    CentralHeader(f, offset) + f.name
  }

  function LocalPart(files: seq<StoredFile>): nat -> seq<Byte> {
    (i: nat) => if i < |files| then LocalRecord(files[i]) else []
  }

  function CentralPart(files: seq<StoredFile>): nat -> seq<Byte> {
    (i: nat) => if i < |files| then CentralRecord(files[i], |Concat(LocalPart(files), i)|) else []
  }

  function Locals(files: seq<StoredFile>): seq<Byte> {
    Concat(LocalPart(files), |files|)
  }

  function Centrals(files: seq<StoredFile>): seq<Byte> {
    Concat(CentralPart(files), |files|)
  }

  function Archive(files: seq<StoredFile>): seq<Byte> {
    Locals(files) + Centrals(files) + EndRecord(|files|, |Centrals(files)|, |Locals(files)|)
  }

  function DataSum(files: seq<StoredFile>, n: nat): nat
    requires n <= |files|
  {
    if n == 0 then 0 else DataSum(files, n - 1) + |files[n - 1].data|
  }

  /** Safe and distinct names, and sizes that the format and the importer allow. */
  predicate Permitted(files: seq<StoredFile>, codecs: Codecs) {
    && |files| <= MAX_ENTRIES
    && (forall i | 0 <= i < |files| :: |files[i].name| < 0x1_0000 && !UnsafeName(codecs.decode(files[i].name)) && !HasActiveContent(codecs.decode(files[i].name)))
    && (forall i, j | 0 <= i < j < |files| :: codecs.decode(files[i].name) != codecs.decode(files[j].name))
    && |Locals(files)| < 0xffff_ffff && |Centrals(files)| < 0xffff_ffff
    && DataSum(files, |files|) <= MAX_EXPANDED
  }

  // ---- Reading fields back -------------------------------------------------------------

  lemma ReadAt16(b: seq<Byte>, i: nat, n: nat)
    requires i + 2 <= |b| && b[i..i + 2] == Le16(n) && n < 0x1_0000
    ensures U16(b, i) == n
  {
    ReadLe16(n);
    assert b[i] == b[i..i + 2][0] && b[i + 1] == b[i..i + 2][1];
  }

  lemma ReadAt32(b: seq<Byte>, i: nat, n: nat)
    requires i + 4 <= |b| && b[i..i + 4] == Le32(n) && n < 0x1_0000_0000
    ensures U32(b, i) == n
  {
    ReadLe32(n);
    assert b[i] == b[i..i + 4][0] && b[i + 1] == b[i..i + 4][1] && b[i + 2] == b[i..i + 4][2] && b[i + 3] == b[i..i + 4][3];
  }

  /** Numbers read inside a slice of the buffer are those of the slice. */
  lemma ReadInSlice(b: seq<Byte>, p: nat, slice: seq<Byte>, k: nat)
    requires p + |slice| <= |b| && b[p..p + |slice|] == slice
    ensures k + 2 <= |slice| ==> U16(b, p + k) == U16(slice, k)
    ensures k + 4 <= |slice| ==> U32(b, p + k) == U32(slice, k)
  {
    assert forall i | 0 <= i < |slice| :: b[p + i] == slice[i];
  }

  lemma LocalFields(f: StoredFile)
    requires |f.name| < 0x1_0000 && |f.data| < 0x1_0000_0000
    ensures var h := LocalHeader(f);
            U32(h, 0) == LOCAL_SIGNATURE && U16(h, 8) == 0 && U16(h, 26) == |f.name| && U16(h, 28) == 0
  {
    var h := LocalHeader(f);
    assert h[0..4] == Le32(LOCAL_SIGNATURE);
    ReadAt32(h, 0, LOCAL_SIGNATURE);
    assert h[26..28] == Le16(|f.name|);
    ReadAt16(h, 26, |f.name|);
    assert h[8] == 0 && h[9] == 0 && h[28] == 0 && h[29] == 0;
  }

  lemma CentralFields(f: StoredFile, offset: nat)
    requires |f.name| < 0x1_0000 && |f.data| < 0x1_0000_0000 && offset < 0x1_0000_0000
    ensures var h := CentralHeader(f, offset);
            && U32(h, 0) == CENTRAL_SIGNATURE
            && EntryAt(h, 0) == Central(0, 0, |f.data|, |f.data|, |f.name|, 0, 0, offset)
  {
    var h := CentralHeader(f, offset);
    assert h[0..4] == Le32(CENTRAL_SIGNATURE);
    ReadAt32(h, 0, CENTRAL_SIGNATURE);
    assert h[20..24] == Le32(|f.data|);
    ReadAt32(h, 20, |f.data|);
    assert h[24..28] == Le32(|f.data|);
    ReadAt32(h, 24, |f.data|);
    assert h[28..30] == Le16(|f.name|);
    ReadAt16(h, 28, |f.name|);
    assert h[42..46] == Le32(offset);
    ReadAt32(h, 42, offset);
    assert h[8] == 0 && h[9] == 0 && h[10] == 0 && h[11] == 0;
    assert h[30] == 0 && h[31] == 0 && h[32] == 0 && h[33] == 0;
  }

  /** An end record without a comment. */
  predicate IsEnd(r: seq<Byte>, count: nat, size: nat, offset: nat) {
    && |r| == END_BYTES
    && U32(r, 0) == END_SIGNATURE && U16(r, 4) == 0 && U16(r, 6) == 0 && U16(r, 8) == count && U16(r, 10) == count
    && U32(r, 12) == size && U32(r, 16) == offset && U16(r, 20) == 0
  }

  lemma EndFields(count: nat, size: nat, offset: nat)
    requires count < 0x1_0000 && size < 0x1_0000_0000 && offset < 0x1_0000_0000
    ensures IsEnd(EndRecord(count, size, offset), count, size, offset)
  {
    var h := EndRecord(count, size, offset);
    assert h[0..4] == Le32(END_SIGNATURE);
    ReadAt32(h, 0, END_SIGNATURE);
    assert h[8..10] == Le16(count) && h[10..12] == Le16(count);
    ReadAt16(h, 8, count);
    ReadAt16(h, 10, count);
    assert h[12..16] == Le32(size);
    ReadAt32(h, 12, size);
    assert h[16..20] == Le32(offset);
    ReadAt32(h, 16, offset);
    assert h[4] == 0 && h[5] == 0 && h[6] == 0 && h[7] == 0 && h[20] == 0 && h[21] == 0;
  }

  // ---- The end record ---------------------------------------------------------------

  /** The buffer ends in such a record. */
  ghost predicate EndAt(b: seq<Byte>, end: nat, count: nat, size: nat, offset: nat) {
    && |b| == end + END_BYTES && LastEndRecord(b, end)
    && U16(b, end + 4) == 0 && U16(b, end + 6) == 0 && U16(b, end + 8) == count && U16(b, end + 10) == count
    && U32(b, end + 12) == size && U32(b, end + 16) == offset
  }

  lemma EndRead(b: seq<Byte>, end: nat, r: seq<Byte>, count: nat, size: nat, offset: nat)
    requires IsEnd(r, count, size, offset) && |b| == end + END_BYTES && b[end..] == r
    ensures EndAt(b, end, count, size, offset)
  {
    assert b[end..end + |r|] == r;
    ReadInSlice(b, end, r, 0);
    ReadInSlice(b, end, r, 4);
    ReadInSlice(b, end, r, 6);
    ReadInSlice(b, end, r, 8);
    ReadInSlice(b, end, r, 10);
    ReadInSlice(b, end, r, 12);
    ReadInSlice(b, end, r, 16);
    ReadInSlice(b, end, r, 20);
  }

  // ---- Every record is sound ------------------------------------------------------------------

  lemma {:induction false} DataWithin(files: seq<StoredFile>, i: nat, n: nat)
    requires i < n <= |files|
    ensures |files[i].data| <= DataSum(files, n)
  {
    if i < n - 1 {
      DataWithin(files, i, n - 1);
    }
  }

  /** A local record of the file, whatever its other fields hold. */
  predicate IsLocal(r: seq<Byte>, f: StoredFile) {
    && |r| == 30 + |f.name| + |f.data|
    && U32(r, 0) == LOCAL_SIGNATURE && U16(r, 8) == 0 && U16(r, 26) == |f.name| && U16(r, 28) == 0
  }

  /** A central record of the file, whose local record is at `offset`. */
  predicate IsCentral(r: seq<Byte>, f: StoredFile, offset: nat) {
    && |r| == 46 + |f.name| && U32(r, 0) == CENTRAL_SIGNATURE
    && EntryAt(r, 0) == Central(0, 0, |f.data|, |f.data|, |f.name|, 0, 0, offset)
    && r[46..] == f.name
  }

  lemma WritesLocal(f: StoredFile)
    requires |f.name| < 0x1_0000 && |f.data| < 0x1_0000_0000
    ensures IsLocal(LocalRecord(f), f)
  {
    LocalFields(f);
    LocalInFront(LocalHeader(f), f.name + f.data);
    assert LocalRecord(f) == LocalHeader(f) + (f.name + f.data);
  }

  lemma LocalInFront(h: seq<Byte>, rest: seq<Byte>)
    requires |h| == 30
    ensures U32(h + rest, 0) == U32(h, 0) && U16(h + rest, 8) == U16(h, 8)
    ensures U16(h + rest, 26) == U16(h, 26) && U16(h + rest, 28) == U16(h, 28)
  {
  }

  lemma WritesCentral(f: StoredFile, offset: nat)
    requires |f.name| < 0x1_0000 && |f.data| < 0x1_0000_0000 && offset < 0x1_0000_0000
    ensures IsCentral(CentralRecord(f, offset), f, offset)
  {
    CentralFields(f, offset);
    CentralInFront(CentralHeader(f, offset), f.name);
  }

  lemma CentralInFront(h: seq<Byte>, name: seq<Byte>)
    requires |h| == 46
    ensures U32(h + name, 0) == U32(h, 0) && EntryAt(h + name, 0) == EntryAt(h, 0) && (h + name)[46..] == name
  {
  }

  /** Headers read in place. */
  lemma CentralRead(b: seq<Byte>, cursor: nat, r: seq<Byte>)
    requires |r| >= 46 && cursor + |r| <= |b| && b[cursor..cursor + |r|] == r
    ensures U32(b, cursor) == U32(r, 0) && EntryAt(b, cursor) == EntryAt(r, 0)
  {
    ReadInSlice(b, cursor, r, 0);
    ReadInSlice(b, cursor, r, 8);
    ReadInSlice(b, cursor, r, 10);
    ReadInSlice(b, cursor, r, 20);
    ReadInSlice(b, cursor, r, 24);
    ReadInSlice(b, cursor, r, 28);
    ReadInSlice(b, cursor, r, 30);
    ReadInSlice(b, cursor, r, 32);
    ReadInSlice(b, cursor, r, 42);
  }

  lemma LocalRead(b: seq<Byte>, p: nat, r: seq<Byte>)
    requires |r| >= 30 && p + |r| <= |b| && b[p..p + |r|] == r
    ensures U32(b, p) == U32(r, 0) && U16(b, p + 8) == U16(r, 8)
    ensures U16(b, p + 26) == U16(r, 26) && U16(b, p + 28) == U16(r, 28)
  {
    ReadInSlice(b, p, r, 0);
    ReadInSlice(b, p, r, 8);
    ReadInSlice(b, p, r, 26);
    ReadInSlice(b, p, r, 28);
  }

  lemma FieldsSound(b: seq<Byte>, codecs: Codecs, directory: nat, end: nat, cursor: nat, name: seq<Byte>, size: nat, p: nat)
    requires directory <= end <= |b| && size < 0xffff_ffff && p < 0xffff_ffff
    requires !UnsafeName(codecs.decode(name)) && !HasActiveContent(codecs.decode(name))
    requires cursor + 46 + |name| <= end && p + 30 + |name| + size <= directory
    requires U32(b, cursor) == CENTRAL_SIGNATURE && EntryAt(b, cursor) == Central(0, 0, size, size, |name|, 0, 0, p)
    requires b[cursor + 46..cursor + 46 + |name|] == name
    requires U32(b, p) == LOCAL_SIGNATURE && U16(b, p + 8) == 0 && U16(b, p + 26) == |name| && U16(b, p + 28) == 0
    ensures SoundEntries(b, codecs, directory, end)(cursor) == Some(Entry(cursor + 46 + |name|, codecs.decode(name), size))
  {
    assert EntryAtLength(b, cursor) == EntryAt(b, cursor).nameLength;
    assert EntryName(b, codecs, cursor) == codecs.decode(name);
    assert RecordFits(b, cursor, end);
    assert DataBefore(b, EntryAt(b, cursor), directory);
    assert ExpandsTo(b, codecs, EntryAt(b, cursor), directory);
  }

  /** A central record and the local record it points to make a sound entry. */
  lemma RecordsSound(b: seq<Byte>, codecs: Codecs, directory: nat, end: nat, f: StoredFile, cursor: nat, next: nat, p: nat, q: nat)
    requires directory <= end <= |b| && FileFits(f, codecs, p)
    requires cursor <= next <= end && IsCentral(b[cursor..next], f, p)
    requires p <= q <= directory && IsLocal(b[p..q], f)
    ensures SoundEntries(b, codecs, directory, end)(cursor) == Some(Entry(next, codecs.decode(f.name), |f.data|))
  {
    CentralRead(b, cursor, b[cursor..next]);
    LocalRead(b, p, b[p..q]);
    SliceOfSlice(b, cursor, b[cursor..next], 46, next - cursor);
    FieldsSound(b, codecs, directory, end, cursor, f.name, |f.data|, p);
  }

  // ---- The whole archive ------------------------------------------------------------

  /** Parts that are the local and central records of the files. */
  ghost predicate Records(files: seq<StoredFile>, local: nat -> seq<Byte>, central: nat -> seq<Byte>) {
    forall i | 0 <= i < |files| :: IsLocal(local(i), files[i]) && IsCentral(central(i), files[i], |Concat(local, i)|)
  }

  /** Safe and distinct names, and sizes within the limits, of files laid out as `local` and `central` say. */
  ghost predicate Fits(files: seq<StoredFile>, codecs: Codecs, local: nat -> seq<Byte>) {
    && (forall i | 0 <= i < |files| :: FileFits(files[i], codecs, |Concat(local, i)|))
    && (forall i, j | 0 <= i < j < |files| :: codecs.decode(files[i].name) != codecs.decode(files[j].name))
    && DataSum(files, |files|) <= MAX_EXPANDED
  }

  predicate FileFits(f: StoredFile, codecs: Codecs, offset: nat) {
    && |f.data| < 0xffff_ffff && offset < 0xffff_ffff
    && !UnsafeName(codecs.decode(f.name)) && !HasActiveContent(codecs.decode(f.name))
  }

  /** The records of file `i` are in their places: local ones at `offsets`, central ones at `cursors`. */
  ghost predicate PlacedAt(files: seq<StoredFile>, codecs: Codecs, b: seq<Byte>, directory: nat, end: nat, offsets: seq<nat>, cursors: seq<nat>, i: nat)
    requires i < |files| && |offsets| == |files| + 1 && |cursors| == |files| + 1
  {
    && FileFits(files[i], codecs, offsets[i])
    && offsets[i] <= offsets[i + 1] <= directory <= |b| && IsLocal(b[offsets[i]..offsets[i + 1]], files[i])
    && cursors[i] <= cursors[i + 1] <= end <= |b| && IsCentral(b[cursors[i]..cursors[i + 1]], files[i], offsets[i])
  }

  lemma Places(files: seq<StoredFile>, codecs: Codecs, local: nat -> seq<Byte>, central: nat -> seq<Byte>, rest: seq<Byte>, b: seq<Byte>, offsets: seq<nat>, cursors: seq<nat>, i: nat)
    requires i < |files| && b == Concat(local, |files|) + Concat(central, |files|) + rest
    requires FileFits(files[i], codecs, |Concat(local, i)|)
    requires IsLocal(local(i), files[i]) && IsCentral(central(i), files[i], |Concat(local, i)|)
    requires offsets == Starts(0, local, |files|) && cursors == Starts(|Concat(local, |files|)|, central, |files|)
    ensures PlacedAt(files, codecs, b, |Concat(local, |files|)|, |b| - |rest|, offsets, cursors, i)
  {
    var n := |files|;
    Regroup(Concat(local, n), Concat(central, n), rest);
    PartIn(local, i, n, [], Concat(central, n) + rest, b, offsets);
    PartIn(central, i, n, Concat(local, n), rest, b, cursors);
  }

  lemma {:induction false} WrittenSum(files: seq<StoredFile>, d: Directory, cursors: seq<nat>, n: nat)
    requires n <= |files| && n <= |cursors|
    requires forall i | 0 <= i < n :: d(cursors[i]).Some? && d(cursors[i]).value.size == |files[i].data|
    ensures Sum(d, cursors, n) == DataSum(files, n)
  {
    if n > 0 {
      WrittenSum(files, d, cursors, n - 1);
    }
  }

  /** The entry at a cursor is that of the file, and ends at the next cursor. */
  ghost predicate Lists(d: Directory, cursors: seq<nat>, files: seq<StoredFile>, codecs: Codecs, i: nat)
    requires i < |files| && |cursors| == |files| + 1
  {
    d(cursors[i]) == Some(Entry(cursors[i + 1], codecs.decode(files[i].name), |files[i].data|))
  }

  /** A directory that lists the files in order, one after another. */
  lemma WrittenLaid(files: seq<StoredFile>, codecs: Codecs, d: Directory, cursors: seq<nat>)
    requires |cursors| == |files| + 1 && forall i: nat | i < |files| :: Lists(d, cursors, files, codecs, i)
    requires forall i, j | 0 <= i < j < |files| :: codecs.decode(files[i].name) != codecs.decode(files[j].name)
    requires DataSum(files, |files|) <= MAX_EXPANDED
    ensures Laid(d, cursors[0], cursors, MAX_EXPANDED)
  {
    forall i | 0 <= i < |files|
      ensures d(cursors[i]).Some? && d(cursors[i]).value.next == cursors[i + 1]
      ensures d(cursors[i]).value.name == codecs.decode(files[i].name) && d(cursors[i]).value.size == |files[i].data|
    {
      assert Lists(d, cursors, files, codecs, i);
    }
    WrittenSum(files, d, cursors, |files|);
  }

  lemma WrittenDirectory(files: seq<StoredFile>, codecs: Codecs, b: seq<Byte>, directory: nat, end: nat, offsets: seq<nat>, cursors: seq<nat>)
    requires directory <= end <= |b| && |offsets| == |files| + 1 && |cursors| == |files| + 1
    requires forall i: nat | i < |files| :: PlacedAt(files, codecs, b, directory, end, offsets, cursors, i)
    requires forall i, j | 0 <= i < j < |files| :: codecs.decode(files[i].name) != codecs.decode(files[j].name)
    requires DataSum(files, |files|) <= MAX_EXPANDED
    ensures Laid(SoundEntries(b, codecs, directory, end), cursors[0], cursors, MAX_EXPANDED)
  {
    var d := SoundEntries(b, codecs, directory, end);
    forall i: nat | i < |files|
      ensures Lists(d, cursors, files, codecs, i)
    {
      assert PlacedAt(files, codecs, b, directory, end, offsets, cursors, i);
      RecordsSound(b, codecs, directory, end, files[i], cursors[i], cursors[i + 1], offsets[i], offsets[i + 1]);
    }
    WrittenLaid(files, codecs, d, cursors);
  }

  lemma LaidAccepted(b: seq<Byte>, codecs: Codecs, end: nat, directory: nat, size: nat, cursors: seq<nat>)
    requires |cursors| > 0 && EndAt(b, end, |cursors| - 1, size, directory) && |cursors| - 1 <= MAX_ENTRIES
    requires end == directory + size && directory < 0xffff_ffff && size < 0xffff_ffff
    requires cursors[|cursors| - 1] == end
    requires Laid(SoundEntries(b, codecs, directory, end), directory, cursors, MAX_EXPANDED)
    ensures Verdict(b, codecs, end).None?
  {
    AcceptsIffSound(b, codecs, end);
  }

  /** Any archive made of such records and a matching end record is accepted. */
  lemma AcceptsRecords(files: seq<StoredFile>, codecs: Codecs, local: nat -> seq<Byte>, central: nat -> seq<Byte>, rest: seq<Byte>, b: seq<Byte>)
    requires Records(files, local, central) && Fits(files, codecs, local) && |files| <= MAX_ENTRIES
    requires |Concat(local, |files|)| < 0xffff_ffff && |Concat(central, |files|)| < 0xffff_ffff
    requires IsEnd(rest, |files|, |Concat(central, |files|)|, |Concat(local, |files|)|)
    requires b == Concat(local, |files|) + Concat(central, |files|) + rest
    ensures |b| >= END_BYTES && LastEndRecord(b, |b| - END_BYTES) && Verdict(b, codecs, |b| - END_BYTES).None?
  {
    var directory, size := |Concat(local, |files|)|, |Concat(central, |files|)|;
    var end := directory + size;
    var offsets, cursors := Starts(0, local, |files|), Starts(directory, central, |files|);
    EndRead(b, end, rest, |files|, size, directory);
    forall i: nat | i < |files|
      ensures PlacedAt(files, codecs, b, directory, end, offsets, cursors, i)
    {
      Places(files, codecs, local, central, rest, b, offsets, cursors, i);
    }
    WrittenDirectory(files, codecs, b, directory, end, offsets, cursors);
    StartAt(directory, central, |files|, 0);
    LaidAccepted(b, codecs, end, directory, size, cursors);
  }

  lemma FileWritten(f: StoredFile, codecs: Codecs, offset: nat)
    requires |f.name| < 0x1_0000 && FileFits(f, codecs, offset)
    ensures IsLocal(LocalRecord(f), f) && IsCentral(CentralRecord(f, offset), f, offset)
  {
    WritesLocal(f);
    WritesCentral(f, offset);
  }

  lemma FilesFit(files: seq<StoredFile>, codecs: Codecs)
    requires Permitted(files, codecs)
    ensures Fits(files, codecs, LocalPart(files))
  {
    forall i | 0 <= i < |files|
      ensures FileFits(files[i], codecs, |Concat(LocalPart(files), i)|)
    {
      DataWithin(files, i, |files|);
      ConcatPrefix(LocalPart(files), i, |files|);
    }
  }

  /** The preflight accepts every permitted stored-only archive. */
  lemma AcceptsWritten(files: seq<StoredFile>, codecs: Codecs)
    requires Permitted(files, codecs)
    ensures var b := Archive(files);
            |b| >= END_BYTES && LastEndRecord(b, |b| - END_BYTES) && Verdict(b, codecs, |b| - END_BYTES).None?
  {
    FilesFit(files, codecs);
    forall i | 0 <= i < |files|
      ensures IsLocal(LocalPart(files)(i), files[i]) && IsCentral(CentralPart(files)(i), files[i], |Concat(LocalPart(files), i)|)
    {
      FileWritten(files[i], codecs, |Concat(LocalPart(files), i)|);
    }
    EndFields(|files|, |Centrals(files)|, |Locals(files)|);
    AcceptsRecords(files, codecs, LocalPart(files), CentralPart(files), EndRecord(|files|, |Centrals(files)|, |Locals(files)|), Archive(files));
  }
}
