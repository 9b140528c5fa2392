/**
  Uploads in chunks that survive retries and crashes. The archive file and its
  metadata are written one after the other, so a crash can fall between them.
 */
module ChunkedUpload {
  import opened Wrappers
  import opened Bytes

  type Digest = string

  /** A database upload is checked once more before it is processed; a media upload is not. */
  datatype Kind = Database | Media

  datatype Setup = Setup(kind: Kind, expectedBytes: nat, chunkLimit: nat, checksum: Option<Digest>, hash: seq<Byte> -> Digest)

  datatype UploadStatus = Uploading | Processing | Failed | Completed

  /** The archive file, the metadata beside it, and the progress that the manifest shows. */
  datatype Stored = Stored(archive: seq<Byte>, receivedBytes: nat, status: UploadStatus, shownBytes: nat, available: bool)

  const MAX_SAFE_INTEGER: int := 9_007_199_254_740_991

  /** Where a call dies: with some bytes of the chunk in the file, or with only the manifest left to write. */
  datatype Crash = InAppend(kept: nat) | BeforeManifest

  datatype Call =
    | Chunk(offset: int, content: seq<Byte>, declared: Option<Digest>, crash: Option<Crash>)
    | Complete(crashed: bool)
    | Fail
    | Finish
    | Reopen
    | SetAvailable(available: bool)

  datatype Rejection =
    | BadChunk
    | BadChecksum
    | Unavailable
    | NotResumable
    | OutOfPlace
    | DifferentReplay
    | TooLong
    | Incomplete

  datatype Outcome = Accepted(receivedBytes: nat) | Rejected(reason: Rejection) | Crashed

  const EMPTY: Stored := Stored([], 0, Uploading, 0, true)

  // ---- One call ---------------------------------------------------------------------------

  predicate WellFormedChunk(x: Setup, offset: int, content: seq<Byte>) {
    0 <= offset <= MAX_SAFE_INTEGER && 1 <= |content| <= x.chunkLimit
  }

  /** What is wrong with a chunk, if it is neither a replay nor the next one. */
  function ChunkProblem(x: Setup, s: Stored, offset: int, content: seq<Byte>, declared: Option<Digest>): Option<Rejection> {
    if !WellFormedChunk(x, offset, content) then Some(BadChunk)
    else if declared.Some? && x.hash(content) != declared.value then Some(BadChecksum)
    else if !s.available || s.status != Uploading then Some(Unavailable)
    else if |s.archive| != s.receivedBytes then Some(NotResumable)
    else if offset < s.receivedBytes then
      if offset + |content| > s.receivedBytes then Some(OutOfPlace)
      else if s.archive[offset..offset + |content|] != content then Some(DifferentReplay)
      else None
    else if s.receivedBytes != offset then Some(OutOfPlace)
    else if s.receivedBytes + |content| > x.expectedBytes then Some(TooLong)
    else None
  }

  function Appended(s: Stored, content: seq<Byte>, crash: Option<Crash>): Stored {
    match crash
    case Some(InAppend(kept)) => s.(archive := s.archive + content[..if kept < |content| then kept else |content|])
    case Some(BeforeManifest) => s.(archive := s.archive + content, receivedBytes := s.receivedBytes + |content|)
    case None =>
      s.(archive := s.archive + content, receivedBytes := s.receivedBytes + |content|, shownBytes := s.receivedBytes + |content|)
  }

  function AddChunk(x: Setup, s: Stored, offset: int, content: seq<Byte>, declared: Option<Digest>, crash: Option<Crash>): (Stored, Outcome) {
    var problem := ChunkProblem(x, s, offset, content, declared);
    if problem.Some? then (s, Rejected(problem.value))
    else if offset < s.receivedBytes then (s, Accepted(s.receivedBytes))
    else
      var next := Appended(s, content, crash);
      (next, if crash.Some? then Crashed else Accepted(next.receivedBytes))
  }

  function CompletionProblem(x: Setup, s: Stored): Option<Rejection> {
    if !s.available then Some(Unavailable)
    else if x.kind == Database && |s.archive| != s.receivedBytes then Some(NotResumable)
    else if s.receivedBytes != x.expectedBytes then Some(Incomplete)
    else if x.kind == Database && x.checksum.Some? && x.checksum.value != x.hash(s.archive) then Some(BadChecksum)
    else None
  }

  function CompleteUpload(x: Setup, s: Stored, crashed: bool): (Stored, Outcome) {
    var problem := CompletionProblem(x, s);
    if problem.Some? then (s, Rejected(problem.value))
    else if x.kind == Media && (s.status == Processing || s.status == Completed) then (s, Accepted(s.receivedBytes))
    else (s.(status := Processing, shownBytes := if crashed then s.shownBytes else s.receivedBytes), if crashed then Crashed else Accepted(s.receivedBytes))
  }

  function Perform(x: Setup, s: Stored, call: Call): (Stored, Outcome) {
    match call
    case Chunk(offset, content, declared, crash) => AddChunk(x, s, offset, content, declared, crash)
    case Complete(crashed) => CompleteUpload(x, s, crashed)
    case Fail => (if s.status == Processing then s.(status := Failed) else s, Accepted(s.receivedBytes))
    case Finish => (if s.status == Processing then s.(status := Completed, available := false) else s, Accepted(s.receivedBytes))
    case Reopen => (if s.status == Failed then s.(status := Uploading) else s, Accepted(s.receivedBytes))
    case SetAvailable(available) => (s.(available := available), Accepted(s.receivedBytes))
  }

  /** The store after a run of calls, each with its own crash or without. */
  function After(x: Setup, calls: seq<Call>): Stored {
    if calls == [] then EMPTY else Perform(x, After(x, calls[..|calls| - 1]), calls[|calls| - 1]).0
  }

  // ---- The upload as an object --------------------------------------------------------------

  class Upload {
    const setup: Setup
    var archive: seq<Byte>
    var receivedBytes: nat
    var status: UploadStatus
    var shownBytes: nat
    var available: bool

    constructor (setup: Setup)
      ensures Value() == EMPTY && this.setup == setup
    {
      this.setup := setup;
      archive, receivedBytes, status, shownBytes, available := [], 0, Uploading, 0, true;
    }

    function Value(): Stored
      reads this
    {
      Stored(archive, receivedBytes, status, shownBytes, available)
    }

    /** Take one chunk; a crash leaves whatever was already written. */
    method Take(offset: int, content: seq<Byte>, declared: Option<Digest>, crash: Option<Crash>) returns (outcome: Outcome)
      modifies this`archive, this`receivedBytes, this`shownBytes
      ensures (Value(), outcome) == AddChunk(setup, old(Value()), offset, content, declared, crash)
    {
      if offset > MAX_SAFE_INTEGER || offset < 0 || |content| < 1 || |content| > setup.chunkLimit {
        return Rejected(BadChunk);
      }
      if declared.Some? && setup.hash(content) != declared.value {
        return Rejected(BadChecksum);
      }
      if !available || status != Uploading {
        return Rejected(Unavailable);
      }
      if |archive| != receivedBytes {
        return Rejected(NotResumable);
      }
      if offset < receivedBytes {
        var replayEnd := offset + |content|;
        if replayEnd > receivedBytes {
          return Rejected(OutOfPlace);
        }
        if archive[offset..replayEnd] != content {
          return Rejected(DifferentReplay);
        }
        return Accepted(receivedBytes);
      }
      if receivedBytes != offset {
        return Rejected(OutOfPlace);
      }
      if receivedBytes + |content| > setup.expectedBytes {
        return Rejected(TooLong);
      }
      if crash.Some? && crash.value.InAppend? {
        archive := archive + content[..if crash.value.kept < |content| then crash.value.kept else |content|];
        return Crashed;
      }
      archive := archive + content;
      receivedBytes := receivedBytes + |content|;
      if crash.Some? {
        return Crashed;
      }
      shownBytes := receivedBytes;
      outcome := Accepted(receivedBytes);
    }

    /** Hand the upload over for processing. */
    method Close(crashed: bool) returns (outcome: Outcome)
      modifies this`status, this`shownBytes
      ensures (Value(), outcome) == CompleteUpload(setup, old(Value()), crashed)
    {
      if !available {
        return Rejected(Unavailable);
      }
      if setup.kind == Database && |archive| != receivedBytes {
        return Rejected(NotResumable);
      }
      if receivedBytes != setup.expectedBytes {
        return Rejected(Incomplete);
      }
      if setup.kind == Database && setup.checksum.Some? && setup.checksum.value != setup.hash(archive) {
        return Rejected(BadChecksum);
      }
      if setup.kind == Media && (status == Processing || status == Completed) {
        return Accepted(receivedBytes);
      }
      status := Processing;
      if crashed {
        return Crashed;
      }
      shownBytes := receivedBytes;
      outcome := Accepted(receivedBytes);
    }
  }

  // ---- What holds after any run ----------------------------------------------------------------

  predicate Bounded(x: Setup, s: Stored) {
    s.shownBytes <= s.receivedBytes <= |s.archive| <= x.expectedBytes
  }

  lemma StepBounded(x: Setup, s: Stored, call: Call)
    requires Bounded(x, s)
    ensures Bounded(x, Perform(x, s, call).0)
  {
  }

  /** Never more bytes than declared, whatever is sent and wherever calls die. */
  lemma {:induction false} RunBounded(x: Setup, calls: seq<Call>)
    ensures Bounded(x, After(x, calls))
  {
    if calls != [] {
      RunBounded(x, calls[..|calls| - 1]);
      StepBounded(x, After(x, calls[..|calls| - 1]), calls[|calls| - 1]);
    }
  }

  /** Bytes that were received stay as they are. */
  lemma StepGrows(x: Setup, s: Stored, call: Call)
    ensures s.archive <= Perform(x, s, call).0.archive && s.receivedBytes <= Perform(x, s, call).0.receivedBytes
  {
  }

  /** So over any run: what was stored at any moment is a beginning of what is stored later, and the count never falls. */
  lemma {:induction false} ArchiveGrows(x: Setup, calls: seq<Call>, n: nat)
    requires n <= |calls|
    ensures After(x, calls[..n]).archive <= After(x, calls).archive
    ensures After(x, calls[..n]).receivedBytes <= After(x, calls).receivedBytes
  {
    if n == |calls| {
      assert calls[..n] == calls;
    } else {
      var front := calls[..|calls| - 1];
      assert front[..n] == calls[..n];
      ArchiveGrows(x, front, n);
      StepGrows(x, After(x, front), calls[|calls| - 1]);
    }
  }

  /** A replay that is accepted changes nothing, and only repeats bytes that are already there. */
  lemma ReplayChangesNothing(x: Setup, s: Stored, call: Call)
    requires call.Chunk? && 0 <= call.offset < s.receivedBytes && Perform(x, s, call).1.Accepted?
    ensures Perform(x, s, call).0 == s
    ensures call.offset + |call.content| <= |s.archive| && s.archive[call.offset..call.offset + |call.content|] == call.content
  {
  }

  /** The call sends a slice of the source from where it says. */
  predicate SliceOf(source: seq<Byte>, call: Call) {
    call.Chunk? && 0 <= call.offset && call.offset + |call.content| <= |source|
    ==> source[call.offset..call.offset + |call.content|] == call.content
  }

  predicate Sends(source: seq<Byte>, calls: seq<Call>) {
    forall call | call in calls :: SliceOf(source, call)
  }

  lemma StepKeepsPrefix(x: Setup, s: Stored, call: Call, source: seq<Byte>)
    requires |source| == x.expectedBytes && s.archive <= source && SliceOf(source, call)
    ensures Perform(x, s, call).0.archive <= source
  {
    if call.Chunk? && ChunkProblem(x, s, call.offset, call.content, call.declared).None? && call.offset >= s.receivedBytes {
      var next := Appended(s, call.content, call.crash).archive;
      forall k | 0 <= k < |next|
        ensures next[k] == source[k]
      {
        if k >= |s.archive| {
          assert call.content[k - |s.archive|] == source[call.offset..call.offset + |call.content|][k - |s.archive|];
        }
      }
    }
  }

  /** When only slices of one source are sent, the archive is always a beginning of that source. */
  lemma {:induction false} ArchiveIsPrefix(x: Setup, calls: seq<Call>, source: seq<Byte>)
    requires |source| == x.expectedBytes && Sends(source, calls)
    ensures After(x, calls).archive <= source
  {
    if calls != [] {
      ArchiveIsPrefix(x, calls[..|calls| - 1], source);
      StepKeepsPrefix(x, After(x, calls[..|calls| - 1]), calls[|calls| - 1], source);
    }
  }

  /** Completion succeeds only on exactly the declared bytes; also a media upload, whose file is not measured then. */
  lemma CompletedIsWhole(x: Setup, calls: seq<Call>, crashed: bool)
    requires CompletionProblem(x, After(x, calls)).None?
    ensures var s := After(x, calls); |s.archive| == s.receivedBytes == x.expectedBytes
    ensures x.kind == Database && x.checksum.Some? ==> x.hash(After(x, calls).archive) == x.checksum.value
  {
    RunBounded(x, calls);
  }

  /** If all chunks come from one source, what is completed is that source. */
  lemma CompletedIsSource(x: Setup, calls: seq<Call>, source: seq<Byte>)
    requires |source| == x.expectedBytes && Sends(source, calls)
    requires CompletionProblem(x, After(x, calls)).None?
    ensures After(x, calls).archive == source
  {
    ArchiveIsPrefix(x, calls, source);
    CompletedIsWhole(x, calls, false);
  }

  // ---- Retrying and resuming ------------------------------------------------------------------------

  predicate Receiving(x: Setup, s: Stored) {
    s.available && s.status == Uploading && |s.archive| == s.receivedBytes
  }

  /** A retry of any part that was received is accepted. */
  lemma RetryAccepted(x: Setup, s: Stored, offset: nat, content: seq<Byte>, crash: Option<Crash>)
    requires Receiving(x, s) && WellFormedChunk(x, offset, content)
    requires offset < s.receivedBytes && offset + |content| <= s.receivedBytes
    ensures AddChunk(x, s, offset, content, None, crash).1.Accepted? <==> s.archive[offset..offset + |content|] == content
  {
  }

  /** Source bytes sent in order complete the upload, whatever the size of the chunks. */
  lemma {:induction false} InOrderCompletes(x: Setup, s: Stored, source: seq<Byte>, sizes: seq<nat>) returns (end: Stored)
    requires Receiving(x, s) && |source| == x.expectedBytes <= MAX_SAFE_INTEGER && s.archive <= source
    requires forall n | n in sizes :: 1 <= n <= x.chunkLimit
    requires s.receivedBytes + Total(sizes) == |source|
    ensures end == SendAll(x, s, source, sizes) && Receiving(x, end) && end.archive == source
    ensures x.checksum.None? || x.checksum == Some(x.hash(source)) ==> CompletionProblem(x, end).None?
    decreases |sizes|
  {
    if sizes == [] {
      end := s;
    } else {
      TotalSplits(sizes);
      assert sizes[0] in sizes && forall n | n in sizes[1..] :: n in sizes;
      var from := s.receivedBytes;
      var content := source[from..from + sizes[0]];
      var (next, outcome) := AddChunk(x, s, from, content, None, None);
      assert next.archive == source[..from] + content;
      end := InOrderCompletes(x, next, source, sizes[1..]);
    }
  }

  function Total(sizes: seq<nat>): nat {
    if sizes == [] then 0 else sizes[0] + Total(sizes[1..])
  }

  lemma TotalSplits(sizes: seq<nat>)
    requires sizes != []
    ensures Total(sizes) == sizes[0] + Total(sizes[1..])
  {
  }

  function SendAll(x: Setup, s: Stored, source: seq<Byte>, sizes: seq<nat>): Stored
    requires s.receivedBytes + Total(sizes) <= |source|
    decreases |sizes|
  {
    if sizes == [] then s
    else
      var next := AddChunk(x, s, s.receivedBytes, source[s.receivedBytes..s.receivedBytes + sizes[0]], None, None).0;
      if next.receivedBytes != s.receivedBytes + sizes[0] then s else SendAll(x, next, source, sizes[1..])
  }

  /** The file is ahead of its metadata: a call died between the two writes. */
  predicate Torn(s: Stored) {
    |s.archive| > s.receivedBytes
  }

  /** An upload is torn exactly by a crash that had already written part of the next chunk. */
  lemma TornByCrash(x: Setup, s: Stored, call: Call)
    requires Bounded(x, s) && !Torn(s)
    ensures Torn(Perform(x, s, call).0)
       <==> call.Chunk? && call.offset >= s.receivedBytes
            && ChunkProblem(x, s, call.offset, call.content, call.declared).None?
            && call.crash.Some? && call.crash.value.InAppend? && call.crash.value.kept > 0
  {
  }

  lemma TornStep(x: Setup, s: Stored, call: Call)
    requires Bounded(x, s) && Torn(s)
    ensures var (next, outcome) := Perform(x, s, call);
            && next.archive == s.archive && next.receivedBytes == s.receivedBytes
            && (call.Chunk? || call.Complete? ==> outcome.Rejected?)
  {
  }

  /**
    For ever after an upload was torn, whatever is called and wherever calls die: its bytes
    and its count stay, and every chunk and every completion is rejected. It can only be
    started anew.
   */
  lemma {:induction false} TornIsStuck(x: Setup, calls: seq<Call>, more: seq<Call>, last: Call)
    requires Torn(After(x, calls))
    ensures var (torn, later) := (After(x, calls), After(x, calls + more));
            && later.archive == torn.archive && later.receivedBytes == torn.receivedBytes
            && (last.Chunk? || last.Complete? ==> Perform(x, later, last).1.Rejected?)
  {
    RunBounded(x, calls + more);
    if more == [] {
      assert calls + more == calls;
    } else {
      var front := more[..|more| - 1];
      assert (calls + more)[..|calls + more| - 1] == calls + front;
      TornIsStuck(x, calls, front, last);
      RunBounded(x, calls + front);
      TornStep(x, After(x, calls + front), more[|more| - 1]);
    }
    TornStep(x, After(x, calls + more), last);
  }
}
