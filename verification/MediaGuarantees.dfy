/** What the scan over a media archive guarantees, and what its shortcut costs. */
module MediaGuarantees {
  import opened Wrappers
  import opened Layout
  import opened MediaMatching

  function AllJobs(s: Scan): seq<Job> {
    Flatten(s.done) + s.batch
  }

  /** The candidates of the jobs, one after the other. */
  function Taken(jobs: seq<Job>): seq<Candidate> {
    if jobs == [] then [] else Taken(jobs[..|jobs| - 1]) + jobs[|jobs| - 1].candidates
  }

  lemma FlushKeepsJobs(s: Scan)
    ensures AllJobs(Flush(s)) == AllJobs(s)
  {
    if s.batch != [] {
      assert (s.done + [s.batch])[..|s.done|] == s.done;
    }
  }

  lemma TakeAddsJob(s: Scan, matched: seq<Candidate>, f: File, limits: Limits)
    ensures var t := Take(s, matched, f, limits);
            && AllJobs(t) == AllJobs(s) + [Job(matched, f.size, f.hash)]
            && t.reserved == s.reserved + IdsOf(matched) && t.byContent == s.byContent - IdsOf(matched)
            && Taken(AllJobs(t)) == Taken(AllJobs(s)) + matched
  {
    var job := Job(matched, f.size, f.hash);
    FlushKeepsJobs(s.(reserved := s.reserved + IdsOf(matched), byContent := s.byContent - IdsOf(matched)));
    assert AllJobs(Take(s, matched, f, limits)) == AllJobs(s) + [job];
    assert (AllJobs(s) + [job])[..|AllJobs(s)|] == AllJobs(s);
  }

  // ---- Each candidate once, and only with its own content ----------------------------------

  /** The job is for an eligible file of the archive, and each of its candidates may have that content. */
  predicate FromFile(job: Job, candidates: seq<Candidate>, files: seq<File>, limits: Limits) {
    && (exists f | f in files :: Eligible(f, limits) && job.hash == f.hash && job.size == f.size)
    && forall c | c in job.candidates :: c in candidates && (c.hash.None? || c.hash.value == job.hash)
  }

  ghost predicate SoundScan(s: Scan, candidates: seq<Candidate>, files: seq<File>, limits: Limits) {
    && DistinctIds(Taken(AllJobs(s))) && IdsOf(Taken(AllJobs(s))) == s.reserved
    && forall job | job in AllJobs(s) :: FromFile(job, candidates, files, limits)
  }

  lemma DistinctConcat(a: seq<Candidate>, b: seq<Candidate>)
    requires DistinctIds(a) && DistinctIds(b) && forall c | c in b :: c.id !in IdsOf(a)
    ensures DistinctIds(a + b) && IdsOf(a + b) == IdsOf(a) + IdsOf(b)
  {
    forall i, j | 0 <= i < j < |a + b|
      ensures (a + b)[i].id != (a + b)[j].id
    {
      if i < |a| <= j {
        assert a[i].id in IdsOf(a) && b[j - |a|] in b;
      }
    }
  }

  lemma TakeSound(s: Scan, candidates: seq<Candidate>, files: seq<File>, f: File, limits: Limits, matched: seq<Candidate>)
    requires f in files && SoundScan(s, candidates, files, limits) && Eligible(f, limits)
    requires Sound(matched, f, s.reserved) && forall c | c in matched :: c in candidates
    ensures SoundScan(Take(s, matched, f, limits), candidates, files, limits)
  {
    TakeAddsJob(s, matched, f, limits);
    DistinctConcat(Taken(AllJobs(s)), matched);
    assert FromFile(Job(matched, f.size, f.hash), candidates, files, limits);
  }

  lemma VisitSound(s: Scan, candidates: seq<Candidate>, files: seq<File>, f: File, limits: Limits)
    requires f in files && DistinctIds(candidates) && SoundScan(s, candidates, files, limits)
    ensures SoundScan(Visit(candidates, s, f, limits), candidates, files, limits)
  {
    if Opened(candidates, s, f, limits) {
      var m := MatchCandidates(candidates, f, s.reserved);
      MatchSound(candidates, f, s.reserved);
      var counted := s.(ambiguous := s.ambiguous + if m.ambiguous then 1 else 0);
      assert AllJobs(counted) == AllJobs(s);
      TakeSound(counted, candidates, files, f, limits, m.candidates);
    }
  }

  lemma {:induction false} ScanSound(candidates: seq<Candidate>, files: seq<File>, n: nat, limits: Limits)
    requires n <= |files| && DistinctIds(candidates)
    ensures SoundScan(ScanOf(candidates, files, n, limits), candidates, files, limits)
  {
    if n > 0 {
      ScanSound(candidates, files, n - 1, limits);
      VisitSound(ScanOf(candidates, files, n - 1, limits), candidates, files, files[n - 1], limits);
    } else {
      assert AllJobs(Start(candidates, files)) == [];
    }
  }

  /** Every candidate is taken at most once, and one with a recorded hash only for bytes with that hash. */
  lemma AttachedOnce(candidates: seq<Candidate>, files: seq<File>, limits: Limits)
    requires DistinctIds(candidates)
    ensures var jobs := Flatten(Batches(candidates, files, limits));
            && DistinctIds(Taken(jobs))
            && forall job | job in jobs :: FromFile(job, candidates, files, limits)
  {
    ScanSound(candidates, files, |files|, limits);
    BatchesAreAll(candidates, files, limits);
  }

  lemma BatchesAreAll(candidates: seq<Candidate>, files: seq<File>, limits: Limits)
    ensures Flatten(Batches(candidates, files, limits)) == AllJobs(ScanOf(candidates, files, |files|, limits))
  {
    var s := ScanOf(candidates, files, |files|, limits);
    FlushKeepsJobs(s);
    assert AllJobs(Flush(s)) == Flatten(Flush(s).done) + [];
  }

  // ---- The size of the batches -----------------------------------------------------------------

  function Bytes(jobs: seq<Job>): nat {
    if jobs == [] then 0 else Bytes(jobs[..|jobs| - 1]) + jobs[|jobs| - 1].size
  }

  predicate Within(batch: seq<Job>, limits: Limits) {
    0 < |batch| <= limits.jobs && Bytes(batch) <= limits.fileBytes
  }

  ghost predicate BatchesWithin(s: Scan, limits: Limits) {
    && (forall batch | batch in s.done :: Within(batch, limits))
    && s.batchBytes == Bytes(s.batch) && (s.batch != [] ==> Within(s.batch, limits))
  }

  lemma TakeWithin(s: Scan, matched: seq<Candidate>, f: File, limits: Limits)
    requires BatchesWithin(s, limits) && Eligible(f, limits) && limits.jobs > 0
    ensures BatchesWithin(Take(s, matched, f, limits), limits)
  {
    var t := Take(s, matched, f, limits);
    assert t.batch[..|t.batch| - 1] == [] || t.batch[..|t.batch| - 1] == s.batch;
  }

  /** No batch has more jobs than are run at a time, or more bytes than one file may have. */
  lemma {:induction false} ScanWithin(candidates: seq<Candidate>, files: seq<File>, n: nat, limits: Limits)
    requires n <= |files| && limits.jobs > 0
    ensures BatchesWithin(ScanOf(candidates, files, n, limits), limits)
  {
    if n > 0 {
      ScanWithin(candidates, files, n - 1, limits);
      var s, f := ScanOf(candidates, files, n - 1, limits), files[n - 1];
      var m := MatchCandidates(candidates, f, s.reserved);
      if Opened(candidates, s, f, limits) && m.candidates != [] {
        TakeWithin(s.(ambiguous := s.ambiguous + if m.ambiguous then 1 else 0), m.candidates, f, limits);
      }
    }
  }

  lemma BatchesAreSmall(candidates: seq<Candidate>, files: seq<File>, limits: Limits)
    requires limits.jobs > 0
    ensures forall batch | batch in Batches(candidates, files, limits) :: Within(batch, limits)
  {
    ScanWithin(candidates, files, |files|, limits);
  }

  // ---- Found by content --------------------------------------------------------------------------

  predicate HasContent(files: seq<File>, n: nat, hash: string, limits: Limits)
    requires n <= |files|
  {
    exists j | 0 <= j < n :: Eligible(files[j], limits) && files[j].hash == hash
  }

  lemma SameCandidate(candidates: seq<Candidate>, c: Candidate, d: Candidate)
    requires DistinctIds(candidates) && c in candidates && d in candidates && c.id == d.id
    ensures c == d
  {
  }

  // ---- Found at all --------------------------------------------------------------------------------

  /** Some file of allowed size has the content and is opened for this candidate: by path, by name, or because neither occurs at all. */
  predicate Findable(c: Candidate, files: seq<File>, n: nat, limits: Limits)
    requires n <= |files| && c.hash.Some?
  {
    exists j | 0 <= j < n :: FindableAt(c, files, files[j], limits)
  }

  predicate FindableAt(c: Candidate, files: seq<File>, f: File, limits: Limits)
    requires c.hash.Some?
  {
    Eligible(f, limits) && f.hash == c.hash.value && (f.path == c.path || f.name == c.name || !Mentioned(c, files))
  }

  /** Some file of allowed size has the content and was opened when its turn came. */
  ghost predicate OpenedFor(c: Candidate, candidates: seq<Candidate>, files: seq<File>, n: nat, limits: Limits)
    requires n <= |files| && c.hash.Some?
  {
    exists j | 0 <= j < n :: files[j].hash == c.hash.value && Opened(candidates, ScanOf(candidates, files, j, limits), files[j], limits)
  }

  lemma VisitKeeps(s: Scan, candidates: seq<Candidate>, f: File, limits: Limits, id: string)
    ensures var t := Visit(candidates, s, f, limits);
            && (id in s.reserved ==> id in t.reserved)
            && (id in s.byContent ==> id in t.reserved || id in t.byContent)
  {
  }

  lemma OpenedVisit(s: Scan, candidates: seq<Candidate>, f: File, limits: Limits, c: Candidate)
    requires c in candidates && c.hash == Some(f.hash) && Opened(candidates, s, f, limits)
    ensures c.id in Visit(candidates, s, f, limits).reserved
  {
    VisitKeeps(s, candidates, f, limits, c.id);
    if c.id !in s.reserved {
      HashMatches(candidates, f, s.reserved, c);
    }
  }

  lemma {:induction false} OpenedSeen(candidates: seq<Candidate>, files: seq<File>, n: nat, limits: Limits, c: Candidate)
    requires n <= |files| && c in candidates && c.hash.Some? && OpenedFor(c, candidates, files, n, limits)
    ensures c.id in ScanOf(candidates, files, n, limits).reserved
  {
    var s := ScanOf(candidates, files, n - 1, limits);
    if OpenedFor(c, candidates, files, n - 1, limits) {
      OpenedSeen(candidates, files, n - 1, limits, c);
      VisitKeeps(s, candidates, files[n - 1], limits, c.id);
    } else {
      OpenedVisit(s, candidates, files[n - 1], limits, c);
    }
  }

  /** A file is opened for a candidate that is still free, whenever it could be found there. */
  lemma {:induction false} FindSeen(candidates: seq<Candidate>, files: seq<File>, n: nat, limits: Limits, c: Candidate)
    requires n <= |files| && c in candidates && c.hash.Some?
    ensures var s := ScanOf(candidates, files, n, limits);
            && (!Mentioned(c, files) ==> c.id in s.reserved || c.id in s.byContent)
            && (Findable(c, files, n, limits) ==> c.id in s.reserved)
  {
    if n > 0 {
      FindSeen(candidates, files, n - 1, limits, c);
      var s, f := ScanOf(candidates, files, n - 1, limits), files[n - 1];
      VisitKeeps(s, candidates, f, limits, c.id);
      if FindableAt(c, files, f, limits) && c.id !in s.reserved {
        OpenedVisit(s, candidates, f, limits, c);
      }
    }
  }

  /** Who is newly taken by a file was taken when the file was opened, for its content. */
  lemma NewlyTaken(s: Scan, candidates: seq<Candidate>, f: File, limits: Limits, c: Candidate)
    requires DistinctIds(candidates) && c in candidates && c.hash.Some? && c.id !in s.reserved
    requires c.id in Visit(candidates, s, f, limits).reserved
    ensures Opened(candidates, s, f, limits) && f.hash == c.hash.value
  {
    var m := MatchCandidates(candidates, f, s.reserved);
    MatchSound(candidates, f, s.reserved);
    var d :| d in m.candidates && d.id == c.id;
    SameCandidate(candidates, c, d);
  }

  lemma {:induction false} TakenWasOpened(candidates: seq<Candidate>, files: seq<File>, n: nat, limits: Limits, c: Candidate)
    requires n <= |files| && DistinctIds(candidates) && c in candidates && c.hash.Some?
    requires c.id in ScanOf(candidates, files, n, limits).reserved
    ensures OpenedFor(c, candidates, files, n, limits)
  {
    var s := ScanOf(candidates, files, n - 1, limits);
    if c.id in s.reserved {
      TakenWasOpened(candidates, files, n - 1, limits, c);
    } else {
      NewlyTaken(s, candidates, files[n - 1], limits, c);
    }
  }

  predicate Attached(c: Candidate, candidates: seq<Candidate>, files: seq<File>, limits: Limits) {
    c.id in IdsOf(Taken(Flatten(Batches(candidates, files, limits))))
  }

  /** In any list, a candidate with a recorded hash is attached exactly when a file with its content was opened in its turn. */
  lemma AttachedIffOpened(candidates: seq<Candidate>, files: seq<File>, limits: Limits, c: Candidate)
    requires DistinctIds(candidates) && c in candidates && c.hash.Some?
    ensures Attached(c, candidates, files, limits) <==> OpenedFor(c, candidates, files, |files|, limits)
  {
    ScanSound(candidates, files, |files|, limits);
    BatchesAreAll(candidates, files, limits);
    if OpenedFor(c, candidates, files, |files|, limits) {
      OpenedSeen(candidates, files, |files|, limits, c);
    }
    if Attached(c, candidates, files, limits) {
      TakenWasOpened(candidates, files, |files|, limits, c);
    }
  }

  /** Whatever other candidates there are, one that can be found is attached. */
  lemma FindableIsAttached(candidates: seq<Candidate>, files: seq<File>, limits: Limits, c: Candidate)
    requires DistinctIds(candidates) && c in candidates && c.hash.Some? && Findable(c, files, |files|, limits)
    ensures Attached(c, candidates, files, limits)
  {
    ScanSound(candidates, files, |files|, limits);
    BatchesAreAll(candidates, files, limits);
    FindSeen(candidates, files, |files|, limits, c);
  }

  lemma {:induction false} ByContentShrinks(candidates: seq<Candidate>, files: seq<File>, n: nat, limits: Limits)
    requires n <= |files|
    ensures ScanOf(candidates, files, n, limits).byContent <= OnlyByContent(candidates, files)
  {
    if n > 0 {
      ByContentShrinks(candidates, files, n - 1, limits);
    }
  }

  /** Alone in the list, a candidate is opened for nothing but itself. */
  lemma {:induction false} AloneIsFindable(files: seq<File>, n: nat, limits: Limits, c: Candidate)
    requires n <= |files| && c.hash.Some? && c.id in ScanOf([c], files, n, limits).reserved
    ensures Findable(c, files, n, limits)
  {
    var s := ScanOf([c], files, n - 1, limits);
    if c.id in s.reserved {
      AloneIsFindable(files, n - 1, limits, c);
    } else {
      NewlyTaken(s, [c], files[n - 1], limits, c);
      ByContentShrinks([c], files, n - 1, limits);
      assert FindableAt(c, files, files[n - 1], limits);
    }
  }

  lemma AloneIff(files: seq<File>, limits: Limits, c: Candidate)
    requires c.hash.Some?
    ensures Attached(c, [c], files, limits) <==> Findable(c, files, |files|, limits)
  {
    ScanSound([c], files, |files|, limits);
    BatchesAreAll([c], files, limits);
    FindSeen([c], files, |files|, limits, c);
    if Attached(c, [c], files, limits) {
      AloneIsFindable(files, |files|, limits, c);
    }
  }

  /**
    A candidate with a recorded hash is attached, whatever else is looked for, exactly
    when a file of allowed size with its content has its path or its name, or when
    neither its path nor its name is in the archive at all.
   */
  lemma AlwaysAttachedIff(files: seq<File>, limits: Limits, c: Candidate)
    requires c.hash.Some?
    ensures (forall candidates | DistinctIds(candidates) && c in candidates :: Attached(c, candidates, files, limits))
       <==> Findable(c, files, |files|, limits)
  {
    if Findable(c, files, |files|, limits) {
      forall candidates | DistinctIds(candidates) && c in candidates
        ensures Attached(c, candidates, files, limits)
      {
        FindableIsAttached(candidates, files, limits, c);
      }
    } else {
      AloneIff(files, limits, c);
      assert DistinctIds([c]) && c in [c];
    }
  }

  /**
    A candidate whose path and name are both absent from the archive is attached exactly
    when some file of allowed size has its content.
   */
  lemma FoundByContentIff(candidates: seq<Candidate>, files: seq<File>, limits: Limits, c: Candidate)
    requires DistinctIds(candidates) && c in candidates && c.hash.Some? && !Mentioned(c, files)
    ensures Attached(c, candidates, files, limits) <==> HasContent(files, |files|, c.hash.value, limits)
  {
    AttachedIffOpened(candidates, files, limits, c);
    if HasContent(files, |files|, c.hash.value, limits) {
      var j :| 0 <= j < |files| && Eligible(files[j], limits) && files[j].hash == c.hash.value;
      assert FindableAt(c, files, files[j], limits);
      FindableIsAttached(candidates, files, limits, c);
    }
  }

  /**
    The shortcut is not the same as opening every file: a candidate whose name does
    occur, on a file with other content, misses its own content under another name.
   */
  lemma ShortcutMisses(c: Candidate, namesake: File, renamed: File, limits: Limits)
    requires c.hash.Some? && Eligible(renamed, limits) && renamed.hash == c.hash.value
    requires namesake.name == c.name && namesake.hash != c.hash.value
    requires renamed.path != c.path && renamed.name != c.name
    ensures var files := [namesake, renamed];
            && HasContent(files, 2, c.hash.value, limits) && c in MatchCandidates([c], renamed, {}).candidates
            && !Findable(c, files, 2, limits) && !Attached(c, [c], files, limits)
  {
    var files := [namesake, renamed];
    assert files[1] == renamed && files[0] in files && Mentioned(c, files);
    HashMatches([c], renamed, {}, c);
    AloneIff(files, limits, c);
  }

  // ---- Without a recorded hash ---------------------------------------------------------------------

  /** Some file of allowed size has the path. */
  predicate PathFound(c: Candidate, files: seq<File>, n: nat, limits: Limits)
    requires n <= |files|
  {
    exists j | 0 <= j < n :: Eligible(files[j], limits) && files[j].path == c.path
  }

  /** Some file of allowed size has the path or the name. */
  predicate PathOrNameFound(c: Candidate, files: seq<File>, n: nat, limits: Limits)
    requires n <= |files|
  {
    exists j | 0 <= j < n :: Eligible(files[j], limits) && (files[j].path == c.path || files[j].name == c.name)
  }

  /** A file is opened and matched to the candidate. */
  predicate MatchedBy(c: Candidate, s: Scan, candidates: seq<Candidate>, f: File, limits: Limits) {
    Opened(candidates, s, f, limits) && c in MatchCandidates(candidates, f, s.reserved).candidates
  }

  /** Some file is, in its turn. */
  predicate MatchedAt(c: Candidate, candidates: seq<Candidate>, files: seq<File>, n: nat, limits: Limits)
    requires n <= |files|
  {
    exists j | 0 <= j < n :: MatchedBy(c, ScanOf(candidates, files, j, limits), candidates, files[j], limits)
  }

  lemma MatchedMore(c: Candidate, candidates: seq<Candidate>, files: seq<File>, n: nat, limits: Limits)
    requires 0 < n <= |files|
    ensures MatchedAt(c, candidates, files, n, limits)
       <==> MatchedAt(c, candidates, files, n - 1, limits)
            || MatchedBy(c, ScanOf(candidates, files, n - 1, limits), candidates, files[n - 1], limits)
  {
  }

  lemma MatchedVisit(s: Scan, candidates: seq<Candidate>, f: File, limits: Limits, c: Candidate)
    requires DistinctIds(candidates) && c in candidates && c.id !in s.reserved
    ensures c.id in Visit(candidates, s, f, limits).reserved <==> MatchedBy(c, s, candidates, f, limits)
  {
    var m := MatchCandidates(candidates, f, s.reserved).candidates;
    MatchSound(candidates, f, s.reserved);
    if c.id in IdsOf(m) {
      var d :| d in m && d.id == c.id;
      SameCandidate(candidates, c, d);
    }
  }

  lemma TakenOnVisit(s: Scan, candidates: seq<Candidate>, f: File, limits: Limits, c: Candidate)
    requires DistinctIds(candidates) && c in candidates
    ensures c.id in Visit(candidates, s, f, limits).reserved <==> c.id in s.reserved || MatchedBy(c, s, candidates, f, limits)
  {
    if c.id in s.reserved {
      VisitKeeps(s, candidates, f, limits, c.id);
    } else {
      MatchedVisit(s, candidates, f, limits, c);
    }
  }

  lemma {:induction false} TakenWasMatched(candidates: seq<Candidate>, files: seq<File>, n: nat, limits: Limits, c: Candidate)
    requires n <= |files| && DistinctIds(candidates) && c in candidates
    ensures c.id in ScanOf(candidates, files, n, limits).reserved <==> MatchedAt(c, candidates, files, n, limits)
  {
    if n > 0 {
      var s, f := ScanOf(candidates, files, n - 1, limits), files[n - 1];
      TakenWasMatched(candidates, files, n - 1, limits, c);
      MatchedMore(c, candidates, files, n, limits);
      TakenOnVisit(s, candidates, f, limits, c);
    }
  }

  /** In any list, any candidate is attached exactly when a file that is opened in its turn matches it. */
  lemma AttachedIffMatched(candidates: seq<Candidate>, files: seq<File>, limits: Limits, c: Candidate)
    requires DistinctIds(candidates) && c in candidates
    ensures Attached(c, candidates, files, limits) <==> MatchedAt(c, candidates, files, |files|, limits)
  {
    ScanSound(candidates, files, |files|, limits);
    BatchesAreAll(candidates, files, limits);
    TakenWasMatched(candidates, files, |files|, limits, c);
  }

  /** A file with the path matches every free candidate without a hash. */
  lemma PathMatches(candidates: seq<Candidate>, f: File, reserved: set<string>, c: Candidate)
    requires c in candidates && c.hash.None? && c.path == f.path && c.id !in reserved
    ensures c in MatchCandidates(candidates, f, reserved).candidates
  {
    FilterHas(candidates, ByPath(f, reserved), c);
  }

  lemma {:induction false} PathSeen(candidates: seq<Candidate>, files: seq<File>, n: nat, limits: Limits, c: Candidate)
    requires n <= |files| && DistinctIds(candidates) && c in candidates && c.hash.None? && PathFound(c, files, n, limits)
    ensures c.id in ScanOf(candidates, files, n, limits).reserved
  {
    var s, f := ScanOf(candidates, files, n - 1, limits), files[n - 1];
    if PathFound(c, files, n - 1, limits) {
      PathSeen(candidates, files, n - 1, limits, c);
    } else if c.id !in s.reserved {
      PathMatches(candidates, f, s.reserved, c);
      MatchedVisit(s, candidates, f, limits, c);
    }
    VisitKeeps(s, candidates, f, limits, c.id);
  }

  lemma FilterOne(c: Candidate, p: Candidate -> bool)
    ensures Filter([c], p) == if p(c) then [c] else []
  {
    assert [c][..0] == [];
  }

  lemma FilterTwo(c: Candidate, d: Candidate, p: Candidate -> bool)
    ensures Filter([c, d], p) == (if p(c) then [c] else []) + (if p(d) then [d] else [])
  {
    assert [c, d][..1] == [c];
    FilterOne(c, p);
  }

  /** Two free candidates without a hash that differ in their id only: without a file at their path, neither is matched. */
  lemma TwinsNotMatched(c: Candidate, twin: Candidate, f: File)
    requires c.hash.None? && twin == c.(id := twin.id) && f.path != c.path
    ensures MatchCandidates([c, twin], f, {}).candidates == []
  {
    FilterTwo(c, twin, ByPath(f, {}));
    FilterTwo(c, twin, ByHash(f, {}));
    FilterTwo(c, twin, ByName(f, {}));
  }

  lemma {:induction false} TwinsNeverTaken(c: Candidate, twin: Candidate, files: seq<File>, n: nat, limits: Limits)
    requires n <= |files| && c.hash.None? && twin == c.(id := twin.id) && !PathFound(c, files, n, limits)
    ensures ScanOf([c, twin], files, n, limits).reserved == {}
  {
    if n > 0 {
      TwinsNeverTaken(c, twin, files, n - 1, limits);
      if Eligible(files[n - 1], limits) {
        TwinsNotMatched(c, twin, files[n - 1]);
      }
    }
  }

  /** A candidate without a hash is attached, whatever else is looked for, exactly when a file of allowed size has its path. */
  lemma UnhashedAlwaysAttachedIff(files: seq<File>, limits: Limits, c: Candidate)
    requires c.hash.None?
    ensures (forall candidates | DistinctIds(candidates) && c in candidates :: Attached(c, candidates, files, limits))
       <==> PathFound(c, files, |files|, limits)
  {
    if PathFound(c, files, |files|, limits) {
      forall candidates | DistinctIds(candidates) && c in candidates
        ensures Attached(c, candidates, files, limits)
      {
        ScanSound(candidates, files, |files|, limits);
        BatchesAreAll(candidates, files, limits);
        PathSeen(candidates, files, |files|, limits, c);
      }
    } else {
      var twin := c.(id := c.id + "'");
      var both := [c, twin];
      TwinsNeverTaken(c, twin, files, |files|, limits);
      ScanSound(both, files, |files|, limits);
      BatchesAreAll(both, files, limits);
      assert DistinctIds(both) && c in both;
    }
  }

  /** Alone in the list it is matched by its name as well. */
  lemma AloneMatches(c: Candidate, f: File)
    requires c.hash.None?
    ensures c in MatchCandidates([c], f, {}).candidates <==> f.path == c.path || f.name == c.name
  {
    FilterOne(c, ByPath(f, {}));
    FilterOne(c, ByHash(f, {}));
    FilterOne(c, ByName(f, {}));
  }

  lemma {:induction false} AloneSeen(files: seq<File>, n: nat, limits: Limits, c: Candidate)
    requires n <= |files| && c.hash.None?
    ensures c.id in ScanOf([c], files, n, limits).reserved <==> PathOrNameFound(c, files, n, limits)
    ensures ScanOf([c], files, n, limits).reserved <= {c.id}
  {
    if n > 0 {
      var s, f := ScanOf([c], files, n - 1, limits), files[n - 1];
      AloneSeen(files, n - 1, limits, c);
      VisitKeeps(s, [c], f, limits, c.id);
      OnlyItsOwn(s, f, limits, c);
      if c.id !in s.reserved {
        assert s.reserved == {};
        AloneMatches(c, f);
        MatchedVisit(s, [c], f, limits, c);
        assert c in [c];
      }
    }
  }

  lemma OnlyItsOwn(s: Scan, f: File, limits: Limits, c: Candidate)
    requires s.reserved <= {c.id}
    ensures Visit([c], s, f, limits).reserved <= {c.id}
  {
    MatchSound([c], f, s.reserved);
  }

  lemma UnhashedAloneIff(files: seq<File>, limits: Limits, c: Candidate)
    requires c.hash.None?
    ensures Attached(c, [c], files, limits) <==> PathOrNameFound(c, files, |files|, limits)
  {
    ScanSound([c], files, |files|, limits);
    BatchesAreAll([c], files, limits);
    AloneSeen(files, |files|, limits, c);
  }
}
