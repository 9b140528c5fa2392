/** Counting in advance which media references an archive would satisfy. */
module MediaPreview {

  datatype Reference = Reference(path: string, name: string, stored: bool)

  /** A file of the archive, by canonical path and base name. */
  datatype Name = Name(path: string, name: string)

  /** The distinct references, by message id. */
  type References = map<string, Reference>

  /** The last reference given for an id counts. */
  function Unique(references: seq<(string, Reference)>): References {
    if references == [] then map[]
    else Unique(references[..|references| - 1])[references[|references| - 1].0 := references[|references| - 1].1]
  }

  function PendingIds(refs: References): set<string> {
    set id | id in refs && !refs[id].stored
  }

  function StoredIds(refs: References): set<string> {
    set id | id in refs && refs[id].stored
  }

  function ExactIds(refs: References, matched: set<string>, f: Name): set<string> {
    set id | id in PendingIds(refs) && refs[id].path == f.path && id !in matched
  }

  function NameIds(refs: References, matched: set<string>, f: Name): set<string> {
    set id | id in PendingIds(refs) && refs[id].name == f.name && id !in matched
  }

  function MatchOne(refs: References, matched: set<string>, f: Name): set<string> {
    var exact := ExactIds(refs, matched, f);
    var fallback := NameIds(refs, matched, f);
    if |exact| > 0 then matched + exact
    else if |fallback| == 1 then matched + fallback
    else matched
  }

  function MatchFiles(refs: References, files: seq<Name>): set<string> {
    if files == [] then {} else MatchOne(refs, MatchFiles(refs, files[..|files| - 1]), files[|files| - 1])
  }

  method PreviewArchive(references: seq<(string, Reference)>, files: seq<Name>) returns (mediaStored: nat, mediaNew: nat, mediaMissing: nat)
    ensures mediaStored + mediaNew + mediaMissing == |Unique(references)|
    ensures mediaStored == |StoredIds(Unique(references))| && mediaNew == |MatchFiles(Unique(references), files)|
  {
    var refs := Distinct(references);
    var matched := MatchAll(refs, files);
    MatchesPending(refs, files);
    CountsAddUp(refs, matched);
    mediaStored := |StoredIds(refs)|;
    mediaNew := |matched|;
    var left := |refs| - mediaStored - mediaNew;
    mediaMissing := if left > 0 then left else 0;
  }

  method Distinct(references: seq<(string, Reference)>) returns (refs: References)
    ensures refs == Unique(references)
  {
    refs := map[];
    for n := 0 to |references|
      invariant refs == Unique(references[..n])
    {
      assert references[..n + 1][..n] == references[..n];
      refs := refs[references[n].0 := references[n].1];
    }
    assert references[..|references|] == references;
  }

  method MatchAll(refs: References, files: seq<Name>) returns (matched: set<string>)
    ensures matched == MatchFiles(refs, files)
  {
    matched := {};
    for n := 0 to |files|
      invariant matched == MatchFiles(refs, files[..n])
    {
      assert files[..n + 1][..n] == files[..n];
      var exact := ExactIds(refs, matched, files[n]);
      if |exact| > 0 {
        matched := matched + exact;
      } else {
        var fallback := NameIds(refs, matched, files[n]);
        if |fallback| == 1 {
          matched := matched + fallback;
        }
      }
    }
    assert files[..|files|] == files;
  }

  /** Only references without stored media are matched. */
  lemma {:induction false} MatchesPending(refs: References, files: seq<Name>)
    ensures MatchFiles(refs, files) <= PendingIds(refs)
  {
    if files != [] {
      MatchesPending(refs, files[..|files| - 1]);
    }
  }

  lemma Subset<T>(a: set<T>, b: set<T>)
    requires a <= b
    ensures |a| <= |b|
  {
    assert b == a + (b - a);
  }

  lemma CountsAddUp(refs: References, matched: set<string>)
    requires matched <= PendingIds(refs)
    ensures |StoredIds(refs)| + |matched| <= |refs|
  {
    Subset(matched, PendingIds(refs));
    assert StoredIds(refs) !! PendingIds(refs);
    assert StoredIds(refs) + PendingIds(refs) == refs.Keys;
    assert |refs.Keys| == |refs|;
  }

  predicate PathIn(files: seq<Name>, path: string) {
    exists f | f in files :: f.path == path
  }

  predicate NameIn(files: seq<Name>, name: string) {
    exists f | f in files :: f.name == name
  }

  lemma {:induction false} MatchesGrow(refs: References, files: seq<Name>, n: nat)
    requires n <= |files|
    ensures MatchFiles(refs, files[..n]) <= MatchFiles(refs, files)
  {
    if n < |files| {
      assert files[..|files| - 1][..n] == files[..n];
      MatchesGrow(refs, files[..|files| - 1], n);
    } else {
      assert files[..n] == files;
    }
  }

  /** The references that are neither stored nor matched. */
  function MissingIds(refs: References, files: seq<Name>): set<string> {
    PendingIds(refs) - MatchFiles(refs, files)
  }

  /** Files added at the end of an archive never turn a new reference into a missing one; the missing ones are those that the preview counts. */
  lemma MoreFilesMissLess(refs: References, files: seq<Name>, more: seq<Name>)
    ensures MatchFiles(refs, files) <= MatchFiles(refs, files + more)
    ensures MissingIds(refs, files + more) <= MissingIds(refs, files)
    ensures |MissingIds(refs, files)| == |refs| - |StoredIds(refs)| - |MatchFiles(refs, files)|
  {
    assert (files + more)[..|files|] == files;
    MatchesGrow(refs, files + more, |files|);
    MatchesPending(refs, files);
    assert StoredIds(refs) !! PendingIds(refs) && StoredIds(refs) + PendingIds(refs) == refs.Keys;
    assert |refs.Keys| == |refs|;
    assert PendingIds(refs) == MissingIds(refs, files) + MatchFiles(refs, files);
  }

  /** A reference whose path is in the archive counts as new; one whose path and name are both absent does not. */
  lemma {:induction false} NewByPath(refs: References, files: seq<Name>, id: string)
    requires id in PendingIds(refs)
    ensures PathIn(files, refs[id].path) ==> id in MatchFiles(refs, files)
    ensures id in MatchFiles(refs, files) ==> PathIn(files, refs[id].path) || NameIn(files, refs[id].name)
  {
    if files != [] {
      var earlier, last := files[..|files| - 1], files[|files| - 1];
      NewByPath(refs, earlier, id);
      assert files == earlier + [last];
      assert last in files && forall f | f in earlier :: f in files;
      var matched := MatchFiles(refs, earlier);
      var exact := ExactIds(refs, matched, last);
      if last.path == refs[id].path && id !in matched {
        assert id in exact;
      }
    }
  }
}
