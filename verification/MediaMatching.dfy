/** Matching the files of a media archive to the messages that refer to them. */
module MediaMatching {
  import opened Wrappers

  /** A message without its media: where its file was, and perhaps the hash of its content. */
  datatype Candidate = Candidate(id: string, path: string, name: string, hash: Option<string>)

  /** A file of the archive, by its canonical path, base name, size and the hash of its content. */
  datatype File = File(path: string, name: string, size: nat, hash: string)

  datatype Limits = Limits(fileBytes: nat, jobs: nat)

  predicate DistinctIds(candidates: seq<Candidate>) {
    forall i, j | 0 <= i < j < |candidates| :: candidates[i].id != candidates[j].id
  }

  function Filter(candidates: seq<Candidate>, p: Candidate -> bool): seq<Candidate> {
    if candidates == [] then []
    else Filter(candidates[..|candidates| - 1], p) + if p(candidates[|candidates| - 1]) then [candidates[|candidates| - 1]] else []
  }

  lemma {:induction false} FilterHas(candidates: seq<Candidate>, p: Candidate -> bool, c: Candidate)
    ensures c in Filter(candidates, p) <==> c in candidates && p(c)
  {
    if candidates != [] {
      var earlier, last := candidates[..|candidates| - 1], candidates[|candidates| - 1];
      FilterHas(earlier, p, c);
      assert candidates == earlier + [last];
    }
  }

  lemma {:induction false} FilterDistinct(candidates: seq<Candidate>, p: Candidate -> bool)
    requires DistinctIds(candidates)
    ensures DistinctIds(Filter(candidates, p))
  {
    if candidates != [] {
      var earlier, last := candidates[..|candidates| - 1], candidates[|candidates| - 1];
      FilterDistinct(earlier, p);
      forall c | c in Filter(earlier, p)
        ensures c.id != last.id
      {
        FilterHas(earlier, p, c);
      }
    }
  }

  // ---- One file -------------------------------------------------------------------------

  /** The file may be that of the message: not taken, and not of other content. */
  predicate Fits(c: Candidate, hash: string, reserved: set<string>) {
    c.id !in reserved && (c.hash.None? || c.hash.value == hash)
  }

  function ByPath(f: File, reserved: set<string>): Candidate -> bool {
    (c: Candidate) => c.path == f.path && Fits(c, f.hash, reserved)
  }

  function ByHash(f: File, reserved: set<string>): Candidate -> bool {
    (c: Candidate) => c.hash == Some(f.hash) && c.id !in reserved
  }

  function ByName(f: File, reserved: set<string>): Candidate -> bool {
    (c: Candidate) => c.name == f.name && Fits(c, f.hash, reserved)
  }

  /** Those of the second list whose id is not in the first. */
  function Others(first: seq<Candidate>, second: seq<Candidate>): seq<Candidate> {
    Filter(second, NotIn(first))
  }

  function NotIn(first: seq<Candidate>): Candidate -> bool {
    c => c !in first
  }

  datatype Matched = Matched(candidates: seq<Candidate>, ambiguous: bool)

  function MatchCandidates(candidates: seq<Candidate>, f: File, reserved: set<string>): Matched {
    var exact := Filter(candidates, ByPath(f, reserved));
    var identified := exact + Others(exact, Filter(candidates, ByHash(f, reserved)));
    if identified != [] then Matched(identified, false)
    else
      var fallback := Filter(candidates, ByName(f, reserved));
      Matched(if |fallback| == 1 then fallback else [], |fallback| > 1)
  }

  // ---- The scan over the archive -----------------------------------------------------------

  datatype Job = Job(candidates: seq<Candidate>, size: nat, hash: string)

  /** Who is taken, who can only be found by content, and the work handed over and waiting. */
  datatype Scan = Scan(
    reserved: set<string>,
    byContent: set<string>,
    done: seq<seq<Job>>,
    batch: seq<Job>,
    batchBytes: nat,
    ambiguous: nat,
    skipped: nat)

  function IdsOf(candidates: seq<Candidate>): set<string> {
    set c | c in candidates :: c.id
  }

  predicate Eligible(f: File, limits: Limits) {
    1 <= f.size <= limits.fileBytes
  }

  predicate PathLeft(candidates: seq<Candidate>, reserved: set<string>, f: File) {
    exists c | c in candidates :: c.path == f.path && c.id !in reserved
  }

  predicate NameLeft(candidates: seq<Candidate>, reserved: set<string>, f: File) {
    exists c | c in candidates :: c.name == f.name && c.id !in reserved
  }

  /** A file is opened when a free candidate has its path or name, or when some can only be found by content. */
  predicate Opened(candidates: seq<Candidate>, s: Scan, f: File, limits: Limits) {
    && Eligible(f, limits)
    && (PathLeft(candidates, s.reserved, f) || NameLeft(candidates, s.reserved, f) || s.byContent != {})
  }

  function Flush(s: Scan): Scan {
    if s.batch == [] then s else s.(done := s.done + [s.batch], batch := [], batchBytes := 0)
  }

  function Take(s: Scan, matched: seq<Candidate>, f: File, limits: Limits): Scan {
    var reserving := s.(reserved := s.reserved + IdsOf(matched), byContent := s.byContent - IdsOf(matched));
    var room :=
      if |s.batch| > 0 && (|s.batch| >= limits.jobs || s.batchBytes + f.size > limits.fileBytes) then Flush(reserving) else reserving;
    room.(batch := room.batch + [Job(matched, f.size, f.hash)], batchBytes := room.batchBytes + f.size)
  }

  function Visit(candidates: seq<Candidate>, s: Scan, f: File, limits: Limits): Scan {
    if !Eligible(f, limits) then s.(skipped := s.skipped + 1)
    else if !Opened(candidates, s, f, limits) then s
    else
      var m := MatchCandidates(candidates, f, s.reserved);
      var counted := s.(ambiguous := s.ambiguous + if m.ambiguous then 1 else 0);
      if m.candidates == [] then counted else Take(counted, m.candidates, f, limits)
  }

  /** Candidates that can only be found by content: neither their path nor their name is in the archive. */
  function OnlyByContent(candidates: seq<Candidate>, files: seq<File>): set<string> {
    set c | c in candidates && c.hash.Some? && !Mentioned(c, files) :: c.id
  }

  predicate Mentioned(c: Candidate, files: seq<File>) {
    exists f | f in files :: f.path == c.path || f.name == c.name
  }

  function Start(candidates: seq<Candidate>, files: seq<File>): Scan {
    Scan({}, OnlyByContent(candidates, files), [], [], 0, 0, 0)
  }

  function ScanOf(candidates: seq<Candidate>, files: seq<File>, n: nat, limits: Limits): Scan
    requires n <= |files|
  {
    if n == 0 then Start(candidates, files) else Visit(candidates, ScanOf(candidates, files, n - 1, limits), files[n - 1], limits)
  }

  /** Everything that is handed over for storing. */
  function Batches(candidates: seq<Candidate>, files: seq<File>, limits: Limits): seq<seq<Job>> {
    Flush(ScanOf(candidates, files, |files|, limits)).done
  }

  method AttachArchive(candidates: seq<Candidate>, files: seq<File>, limits: Limits)
    returns (batches: seq<seq<Job>>, ambiguous: nat, skippedOversize: nat)
    ensures batches == Batches(candidates, files, limits)
    ensures var s := ScanOf(candidates, files, |files|, limits); ambiguous == s.ambiguous && skippedOversize == s.skipped
  {
    var archivePaths, archiveNames := Listing(files);
    var byContent := set c | c in candidates && c.hash.Some? && c.path !in archivePaths && c.name !in archiveNames :: c.id;
    assert byContent == OnlyByContent(candidates, files);
    var reserved: set<string> := {};
    batches := [];
    var batch: seq<Job> := [];
    var batchBytes: nat := 0;
    ambiguous, skippedOversize := 0, 0;
    for n := 0 to |files|
      invariant ScanOf(candidates, files, n, limits) == Scan(reserved, byContent, batches, batch, batchBytes, ambiguous, skippedOversize)
    {
      var f := files[n];
      ghost var before := Scan(reserved, byContent, batches, batch, batchBytes, ambiguous, skippedOversize);
      if f.size < 1 || f.size > limits.fileBytes {
        skippedOversize := skippedOversize + 1;
      } else {
        var hasPathCandidate := exists c | c in candidates :: c.path == f.path && c.id !in reserved;
        var hasNameCandidate := exists c | c in candidates :: c.name == f.name && c.id !in reserved;
        if hasPathCandidate || hasNameCandidate || |byContent| > 0 {
          assert Opened(candidates, before, f, limits);
          var matched := MatchCandidates(candidates, f, reserved);
          if matched.ambiguous {
            ambiguous := ambiguous + 1;
          }
          if |matched.candidates| > 0 {
            reserved := reserved + IdsOf(matched.candidates);
            byContent := byContent - IdsOf(matched.candidates);
            if |batch| > 0 && (|batch| >= limits.jobs || batchBytes + f.size > limits.fileBytes) {
              batches := batches + [batch];
              batch := [];
              batchBytes := 0;
            }
            batch := batch + [Job(matched.candidates, f.size, f.hash)];
            batchBytes := batchBytes + f.size;
          }
        } else {
          assert !Opened(candidates, before, f, limits);
        }
      }
    }
    if |batch| > 0 {
      batches := batches + [batch];
    }
  }

  method Listing(files: seq<File>) returns (paths: set<string>, names: set<string>)
    ensures paths == (set f | f in files :: f.path) && names == (set f | f in files :: f.name)
  {
    paths, names := {}, {};
    for n := 0 to |files|
      invariant paths == (set f | f in files[..n] :: f.path) && names == (set f | f in files[..n] :: f.name)
    {
      assert files[..n + 1] == files[..n] + [files[n]];
      paths := paths + {files[n].path};
      names := names + {files[n].name};
    }
    assert files[..|files|] == files;
  }

  // ---- What a match is -----------------------------------------------------------------------

  /** A match takes only free candidates, each once, and none of other content. */
  predicate Sound(m: seq<Candidate>, f: File, reserved: set<string>) {
    DistinctIds(m) && forall c | c in m :: Fits(c, f.hash, reserved)
  }

  lemma IdentifiedDistinct(candidates: seq<Candidate>, a: seq<Candidate>, b: seq<Candidate>)
    requires DistinctIds(candidates) && DistinctIds(a) && DistinctIds(b)
    requires forall c | c in a || c in b :: c in candidates
    ensures DistinctIds(a + Others(a, b))
  {
    FilterDistinct(b, NotIn(a));
    forall c, d | c in a && d in Others(a, b)
      ensures c.id != d.id
    {
      FilterHas(b, NotIn(a), d);
      assert c != d && c in candidates && d in candidates;
    }
  }

  lemma MatchSound(candidates: seq<Candidate>, f: File, reserved: set<string>)
    requires DistinctIds(candidates)
    ensures Sound(MatchCandidates(candidates, f, reserved).candidates, f, reserved)
    ensures forall c | c in MatchCandidates(candidates, f, reserved).candidates :: c in candidates
  {
    var exact, hashes, fallback := Filter(candidates, ByPath(f, reserved)), Filter(candidates, ByHash(f, reserved)), Filter(candidates, ByName(f, reserved));
    forall c: Candidate
      ensures c in exact ==> c in candidates && Fits(c, f.hash, reserved)
      ensures c in hashes ==> c in candidates && Fits(c, f.hash, reserved)
      ensures c in fallback ==> c in candidates && Fits(c, f.hash, reserved)
      ensures c in Others(exact, hashes) ==> c in hashes
    {
      FilterHas(candidates, ByPath(f, reserved), c);
      FilterHas(candidates, ByHash(f, reserved), c);
      FilterHas(candidates, ByName(f, reserved), c);
      FilterHas(hashes, NotIn(exact), c);
    }
    FilterDistinct(candidates, ByPath(f, reserved));
    FilterDistinct(candidates, ByHash(f, reserved));
    FilterDistinct(candidates, ByName(f, reserved));
    IdentifiedDistinct(candidates, exact, hashes);
  }

  /** A free candidate with the hash of the file is always part of the match. */
  lemma HashMatches(candidates: seq<Candidate>, f: File, reserved: set<string>, c: Candidate)
    requires c in candidates && c.hash == Some(f.hash) && c.id !in reserved
    ensures c in MatchCandidates(candidates, f, reserved).candidates
  {
    var exact, hashes := Filter(candidates, ByPath(f, reserved)), Filter(candidates, ByHash(f, reserved));
    FilterHas(candidates, ByHash(f, reserved), c);
    FilterHas(hashes, NotIn(exact), c);
  }
}
