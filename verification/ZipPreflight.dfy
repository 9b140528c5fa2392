/**
  The structural check of an XLSX archive before it is unpacked: the walk over the
  ZIP central directory (PKWARE APPNOTE.TXT, sections 4.3.7, 4.3.12 and 4.3.16).
 */
module ZipPreflight {
  import opened Wrappers
  import opened Text
  import opened Bytes
  import opened DirectoryWalk

  const END_SIGNATURE: nat := 0x06054b50
  const CENTRAL_SIGNATURE: nat := 0x02014b50
  const LOCAL_SIGNATURE: nat := 0x04034b50
  const END_BYTES: nat := 22
  const MAX_COMMENT: nat := 65_535
  const MAX_ENTRIES: nat := 10_000
  const MAX_EXPANDED: nat := 1024 * 1024 * 1024

  datatype ArchiveError =
    | InvalidArchive
    | UnsupportedArchive
    | EntryLimitExceeded
    | UnsafeEntry
    | ActiveContent
    | ExpansionLimitExceeded

  /** UTF-8 decoding, and inflating with an output limit (the length, or none when it fails). */
  datatype Codecs = Codecs(decode: seq<Byte> -> string, inflate: (seq<Byte>, nat) -> Option<nat>)

  // ---- Entry names ---------------------------------------------------------------

  function LowerAscii(s: string): string {
    seq(|s|, i requires 0 <= i < |s| => if 'A' <= s[i] <= 'Z' then ((s[i] as int) + 32) as char else s[i])
  }

  predicate UnsafeName(name: string) {
    || name == ""
    || name[0] == '/'
    || ".." in Split(name, {'/', '\\'})
    || '\0' in name
  }

  predicate HasActiveContent(name: string) {
    exists part | part in Split(name, {'/'}) :: LowerAscii(part) in {"vbaproject.bin", "externallinks"}
  }

  // ---- The end record --------------------------------------------------------------

  predicate IsEndRecord(b: seq<Byte>, offset: nat) {
    && offset + END_BYTES <= |b|
    && U32(b, offset) == END_SIGNATURE
    && offset + END_BYTES + U16(b, offset + 20) == |b|
  }

  /** The last place where a complete end record with its comment closes the buffer. */
  method FindEndRecord(b: seq<Byte>) returns (found: Option<nat>)
    ensures found.Some? ==> IsEndRecord(b, found.value) && forall o: nat | o > found.value :: !IsEndRecord(b, o)
    ensures found.None? ==> forall o: nat :: !IsEndRecord(b, o)
  {
    var earliest := if |b| - END_BYTES - MAX_COMMENT > 0 then |b| - END_BYTES - MAX_COMMENT else 0;
    var offset := |b| - END_BYTES;
    while offset >= earliest
      invariant offset <= |b| - END_BYTES
      invariant forall o: nat | o > offset :: !IsEndRecord(b, o)
      decreases offset
    {
      if U32(b, offset) == END_SIGNATURE {
        var commentLength := U16(b, offset + 20);
        if offset + END_BYTES + commentLength == |b| {
          return Some(offset);
        }
      }
      offset := offset - 1;
    }
    found := None;
  }

  // ---- One central record -----------------------------------------------------------

  datatype Central = Central(
    flags: nat,
    compression: nat,
    compressedSize: nat,
    uncompressedSize: nat,
    nameLength: nat,
    extraLength: nat,
    commentLength: nat,
    localOffset: nat)

  function EntryAt(b: seq<Byte>, cursor: nat): Central
    requires cursor + 46 <= |b|
  {
    Central(U16(b, cursor + 8), U16(b, cursor + 10), U32(b, cursor + 20), U32(b, cursor + 24),
          U16(b, cursor + 28), U16(b, cursor + 30), U16(b, cursor + 32), U32(b, cursor + 42))
  }

  function NextCursor(cursor: nat, e: Central): nat {
    cursor + 46 + e.nameLength + e.extraLength + e.commentLength
  }

  function EntryName(b: seq<Byte>, codecs: Codecs, cursor: nat): string
    requires cursor + 46 + EntryAtLength(b, cursor) <= |b|
  {
    codecs.decode(b[cursor + 46..cursor + 46 + EntryAtLength(b, cursor)])
  }

  function EntryAtLength(b: seq<Byte>, cursor: nat): nat {
    if cursor + 46 <= |b| then U16(b, cursor + 28) else 0
  }

  /** Where the data of an entry starts, by its local header. */
  function DataOffset(b: seq<Byte>, localOffset: nat): nat
    requires localOffset + 30 <= |b|
  {
    localOffset + 30 + U16(b, localOffset + 26) + U16(b, localOffset + 28)
  }

  /** The record at `cursor` is complete before `end` and uses no ZIP64 marker. */
  predicate RecordFits(b: seq<Byte>, cursor: nat, end: nat)
    requires end <= |b|
  {
    && cursor + 46 <= end && U32(b, cursor) == CENTRAL_SIGNATURE
    && var e := EntryAt(b, cursor);
    && NextCursor(cursor, e) <= end
    && e.compressedSize != 0xffff_ffff && e.uncompressedSize != 0xffff_ffff && e.localOffset != 0xffff_ffff
  }

  /** The local header and the data of the entry lie before the directory. */
  predicate DataBefore(b: seq<Byte>, e: Central, directory: nat)
    requires directory <= |b|
  {
    && e.localOffset + 30 <= directory && U32(b, e.localOffset) == LOCAL_SIGNATURE
    && U16(b, e.localOffset + 8) == e.compression
    && DataOffset(b, e.localOffset) + e.compressedSize <= directory
  }

  /** The declared size is what the data expands to. */
  predicate ExpandsTo(b: seq<Byte>, codecs: Codecs, e: Central, directory: nat)
    requires directory <= |b| && DataBefore(b, e, directory)
  {
    var data := b[DataOffset(b, e.localOffset)..DataOffset(b, e.localOffset) + e.compressedSize];
    if e.compression == 0 then e.compressedSize == e.uncompressedSize
    else codecs.inflate(data, if e.uncompressedSize + 1 > 1 then e.uncompressedSize + 1 else 1) == Some(e.uncompressedSize)
  }

  predicate SupportedEntry(e: Central) {
    e.flags % 2 == 0 && e.compression in {0, 8}
  }

  /** One record of the directory, with its checks in the order in which they are made. */
  function CheckEntry(b: seq<Byte>, codecs: Codecs, directory: nat, end: nat, w: Walk): Result<Walk, ArchiveError>
    requires directory <= end <= |b|
  {
    if w.cursor + 46 > end || U32(b, w.cursor) != CENTRAL_SIGNATURE then Err(InvalidArchive)
    else
      var e := EntryAt(b, w.cursor);
      if !RecordFits(b, w.cursor, end) then Err(UnsupportedArchive)
      else
        var name := EntryName(b, codecs, w.cursor);
        if UnsafeName(name) || name in w.names then Err(UnsafeEntry)
        else if HasActiveContent(name) then Err(ActiveContent)
        else if !SupportedEntry(e) then Err(UnsupportedArchive)
        else if w.total + e.uncompressedSize > MAX_EXPANDED then Err(ExpansionLimitExceeded)
        else if !DataBefore(b, e, directory) then Err(InvalidArchive)
        else if !ExpandsTo(b, codecs, e, directory) then
          if e.compression != 0
             && codecs.inflate(b[DataOffset(b, e.localOffset)..DataOffset(b, e.localOffset) + e.compressedSize], e.uncompressedSize + 1).None?
          then Err(ExpansionLimitExceeded) else Err(InvalidArchive)
        else Ok(Walk(NextCursor(w.cursor, e), w.names + {name}, w.total + e.uncompressedSize))
  }

  function EntryCheck(b: seq<Byte>, codecs: Codecs, directory: nat, end: nat): Walk -> Result<Walk, ArchiveError>
    requires directory <= end <= |b|
  {
    w => CheckEntry(b, codecs, directory, end, w)
  }

  function WalkDirectory(b: seq<Byte>, codecs: Codecs, directory: nat, end: nat, n: nat): Result<Walk, ArchiveError>
    requires directory <= end <= |b|
  {
    WalkChecked(EntryCheck(b, codecs, directory, end), directory, n)
  }

  // ---- The whole check ----------------------------------------------------------------

  function HeaderError(b: seq<Byte>, end: nat): Option<ArchiveError>
    requires end + END_BYTES <= |b|
  {
    if U16(b, end + 4) != 0 || U16(b, end + 6) != 0 || U16(b, end + 8) != U16(b, end + 10) || U16(b, end + 10) == 0xffff
       || U32(b, end + 12) == 0xffff_ffff || U32(b, end + 16) == 0xffff_ffff
    then Some(UnsupportedArchive)
    else if U16(b, end + 10) > MAX_ENTRIES then Some(EntryLimitExceeded)
    else if U32(b, end + 16) + U32(b, end + 12) > end then Some(InvalidArchive)
    else None
  }

  /** What the check reports for an archive whose end record is at `end`. */
  function Verdict(b: seq<Byte>, codecs: Codecs, end: nat): Option<ArchiveError>
    requires end + END_BYTES <= |b|
  {
    var header := HeaderError(b, end);
    if header.Some? then header
    else
      match WalkDirectory(b, codecs, U32(b, end + 16), end, U16(b, end + 10))
      case Err(e) => Some(e)
      case Ok(w) => if w.cursor != U32(b, end + 16) + U32(b, end + 12) then Some(InvalidArchive) else None
  }

  ghost predicate LastEndRecord(b: seq<Byte>, end: nat) {
    IsEndRecord(b, end) && forall o: nat | o > end :: !IsEndRecord(b, o)
  }

  lemma LastIsUnique(b: seq<Byte>, end: nat)
    requires LastEndRecord(b, end)
    ensures forall other: nat | LastEndRecord(b, other) :: other == end
  {
  }

  /** The verdict on a buffer: the first problem found, or none when the archive is accepted. */
  method Preflight(b: seq<Byte>, codecs: Codecs) returns (error: Option<ArchiveError>)
    ensures (forall o: nat :: !IsEndRecord(b, o)) ==> error == Some(InvalidArchive)
    ensures forall end: nat | LastEndRecord(b, end) :: error == Verdict(b, codecs, end)
  {
    var found := FindEndRecord(b);
    if found.None? {
      return Some(InvalidArchive);
    }
    LastIsUnique(b, found.value);
    error := CheckArchive(b, codecs, found.value);
  }

  /** The checks that follow once the end record is found. */
  method CheckArchive(b: seq<Byte>, codecs: Codecs, end: nat) returns (error: Option<ArchiveError>)
    requires end + END_BYTES <= |b|
    ensures error == Verdict(b, codecs, end)
  {
    error := HeaderError(b, end);
    if error.Some? {
      return;
    }
    var directory, size, count := U32(b, end + 16), U32(b, end + 12), U16(b, end + 10);
    var walked := CheckEntries(b, codecs, directory, end, count);
    if walked.Err? {
      return Some(walked.error);
    }
    if walked.value.cursor != directory + size {
      return Some(InvalidArchive);
    }
    error := None;
  }

  /** Walk over `count` records, moving the cursor and collecting names and sizes. */
  method CheckEntries(b: seq<Byte>, codecs: Codecs, directory: nat, end: nat, count: nat) returns (outcome: Result<Walk, ArchiveError>)
    requires directory <= end <= |b|
    ensures outcome == WalkDirectory(b, codecs, directory, end, count)
  {
    var w := Walk(directory, {}, 0);
    var index := 0;
    while index < count
      invariant index <= count
      invariant WalkDirectory(b, codecs, directory, end, index) == Ok(w)
    {
      var step := CheckEntry(b, codecs, directory, end, w);
      if step.Err? {
        WalkStopsAt(EntryCheck(b, codecs, directory, end), directory, index + 1, count);
        return Err(step.error);
      }
      w := step.value;
      index := index + 1;
    }
    outcome := Ok(w);
  }

  // ---- What acceptance means --------------------------------------------------------------

  /** A record whose name is safe, and whose data lies before the directory and expands as declared. */
  predicate RecordSound(b: seq<Byte>, codecs: Codecs, directory: nat, end: nat, cursor: nat)
    requires directory <= end <= |b|
  {
    && RecordFits(b, cursor, end)
    && !UnsafeName(EntryName(b, codecs, cursor)) && !HasActiveContent(EntryName(b, codecs, cursor))
    && SupportedEntry(EntryAt(b, cursor))
    && DataBefore(b, EntryAt(b, cursor), directory)
    && ExpandsTo(b, codecs, EntryAt(b, cursor), directory)
  }

  function SoundEntry(b: seq<Byte>, codecs: Codecs, directory: nat, end: nat, cursor: nat): Option<Entry>
    requires directory <= end <= |b|
  {
    if RecordSound(b, codecs, directory, end, cursor)
    then Some(Entry(NextCursor(cursor, EntryAt(b, cursor)), EntryName(b, codecs, cursor), EntryAt(b, cursor).uncompressedSize))
    else None
  }

  /** The sound records of the buffer, by offset. */
  function SoundEntries(b: seq<Byte>, codecs: Codecs, directory: nat, end: nat): Directory
    requires directory <= end <= |b|
  {
    (cursor: nat) => SoundEntry(b, codecs, directory, end, cursor)
  }

  /**
    The archive that the format describes: as many sound records as declared, with
    distinct names, tile the directory exactly and expand within the limit.
   */
  ghost predicate SoundArchive(b: seq<Byte>, codecs: Codecs, end: nat)
    requires end + END_BYTES <= |b|
  {
    var directory := U32(b, end + 16);
    && HeaderError(b, end).None?
    && exists cursors: seq<nat> ::
         && |cursors| == U16(b, end + 10) + 1
         && Laid(SoundEntries(b, codecs, directory, end), directory, cursors, MAX_EXPANDED)
         && cursors[|cursors| - 1] == directory + U32(b, end + 12)
  }

  /** The checks on one record pass exactly when it is sound and extends the walk. */
  lemma CheckPasses(b: seq<Byte>, codecs: Codecs, directory: nat, end: nat, w: Walk)
    requires directory <= end <= |b|
    ensures var e := SoundEntries(b, codecs, directory, end)(w.cursor);
            && (CheckEntry(b, codecs, directory, end, w).Ok? <==> Extends(e, w, MAX_EXPANDED))
            && (Extends(e, w, MAX_EXPANDED) ==> CheckEntry(b, codecs, directory, end, w).value == Advance(e.value, w))
  {
  }

  /** The check accepts exactly the sound archives. */
  lemma AcceptsIffSound(b: seq<Byte>, codecs: Codecs, end: nat)
    requires IsEndRecord(b, end)
    ensures Verdict(b, codecs, end).None? <==> SoundArchive(b, codecs, end)
  {
    if HeaderError(b, end).None? {
      var directory, count := U32(b, end + 16), U16(b, end + 10);
      var d := SoundEntries(b, codecs, directory, end);
      forall w: Walk
        ensures EntryCheck(b, codecs, directory, end)(w).Ok? <==> Extends(d(w.cursor), w, MAX_EXPANDED)
        ensures Extends(d(w.cursor), w, MAX_EXPANDED) ==> EntryCheck(b, codecs, directory, end)(w).value == Advance(d(w.cursor).value, w)
      {
        CheckPasses(b, codecs, directory, end, w);
      }
      WalksAgree(EntryCheck(b, codecs, directory, end), d, directory, count, MAX_EXPANDED);
      if Verdict(b, codecs, end).None? {
        var cursors := WalkFinds(d, directory, count, MAX_EXPANDED);
      }
      if cursors: seq<nat> :| |cursors| == count + 1 && Laid(d, directory, cursors, MAX_EXPANDED)
                              && cursors[|cursors| - 1] == directory + U32(b, end + 12) {
        WalkFollows(d, directory, cursors, count, MAX_EXPANDED);
      }
    }
  }
}
