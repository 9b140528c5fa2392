/**
  Walking a table of variable-length records: each record names where the next one
  starts. A walk succeeds exactly when records can be laid end to end.
 */
module DirectoryWalk {
  import opened Wrappers

  datatype Entry = Entry(next: nat, name: string, size: nat)

  /** What is found at an offset: a usable entry, or nothing. */
  type Directory = nat -> Option<Entry>

  /** Where a walk is, the names it has seen and the sizes it has added up. */
  datatype Walk = Walk(cursor: nat, names: set<string>, total: nat)

  predicate Extends(e: Option<Entry>, w: Walk, limit: nat) {
    e.Some? && e.value.name !in w.names && w.total + e.value.size <= limit
  }

  function Advance(e: Entry, w: Walk): Walk {
    Walk(e.next, w.names + {e.name}, w.total + e.size)
  }

  function WalkWith(d: Directory, start: nat, n: nat, limit: nat): Option<Walk> {
    if n == 0 then Some(Walk(start, {}, 0))
    else
      var w := WalkWith(d, start, n - 1, limit);
      if w.Some? && Extends(d(w.value.cursor), w.value, limit) then Some(Advance(d(w.value.cursor).value, w.value)) else None
  }

  /** `cursors` are the starts of entries laid end to end from `start`, and where the last one ends. */
  ghost predicate Tiles(d: Directory, start: nat, cursors: seq<nat>) {
    && |cursors| > 0 && cursors[0] == start
    && forall i | 0 <= i < |cursors| - 1 :: d(cursors[i]).Some? && d(cursors[i]).value.next == cursors[i + 1]
  }

  ghost predicate DistinctNames(d: Directory, cursors: seq<nat>, n: nat)
    requires n <= |cursors| && forall i | 0 <= i < n :: d(cursors[i]).Some?
  {
    forall i, j | 0 <= i < j < n :: d(cursors[i]).value.name != d(cursors[j]).value.name
  }

  function Sum(d: Directory, cursors: seq<nat>, n: nat): nat
    requires n <= |cursors| && forall i | 0 <= i < n :: d(cursors[i]).Some?
  {
    if n == 0 then 0 else Sum(d, cursors, n - 1) + d(cursors[n - 1]).value.size
  }

  /** Entries laid end to end, with distinct names and sizes within the limit. */
  ghost predicate Laid(d: Directory, start: nat, cursors: seq<nat>, limit: nat) {
    && Tiles(d, start, cursors)
    && DistinctNames(d, cursors, |cursors| - 1)
    && Sum(d, cursors, |cursors| - 1) <= limit
  }

  function Names(d: Directory, cursors: seq<nat>, n: nat): set<string>
    requires n <= |cursors| && forall i | 0 <= i < n :: d(cursors[i]).Some?
  {
    set i | 0 <= i < n :: d(cursors[i]).value.name
  }

  lemma {:induction false} SumOfPrefix(d: Directory, a: seq<nat>, b: seq<nat>, n: nat)
    requires n <= |a| && n <= |b| && forall i | 0 <= i < n :: a[i] == b[i] && d(a[i]).Some?
    ensures Sum(d, a, n) == Sum(d, b, n)
  {
    if n > 0 {
      SumOfPrefix(d, a, b, n - 1);
    }
  }

  lemma {:induction false} SumGrows(d: Directory, cursors: seq<nat>, n: nat, m: nat)
    requires n <= m <= |cursors| && forall i | 0 <= i < m :: d(cursors[i]).Some?
    ensures Sum(d, cursors, n) <= Sum(d, cursors, m)
  {
    if n < m {
      SumGrows(d, cursors, n, m - 1);
    }
  }

  /** A walk that succeeds has found entries laid end to end. */
  lemma {:induction false} WalkFinds(d: Directory, start: nat, n: nat, limit: nat) returns (cursors: seq<nat>)
    requires WalkWith(d, start, n, limit).Some?
    ensures |cursors| == n + 1 && Laid(d, start, cursors, limit)
    ensures WalkWith(d, start, n, limit).value == Walk(cursors[n], Names(d, cursors, n), Sum(d, cursors, n))
  {
    if n == 0 {
      cursors := [start];
    } else {
      var earlier := WalkFinds(d, start, n - 1, limit);
      var w := WalkWith(d, start, n - 1, limit).value;
      var e := d(w.cursor).value;
      cursors := earlier + [e.next];
      assert forall i | 0 <= i < n :: cursors[i] == earlier[i];
      SumOfPrefix(d, earlier, cursors, n - 1);
      assert Names(d, cursors, n) == Names(d, earlier, n - 1) + {e.name};
    }
  }

  /** Entries laid end to end make the walk succeed. */
  lemma {:induction false} WalkFollows(d: Directory, start: nat, cursors: seq<nat>, n: nat, limit: nat)
    requires n < |cursors| && Laid(d, start, cursors, limit)
    ensures WalkWith(d, start, n, limit) == Some(Walk(cursors[n], Names(d, cursors, n), Sum(d, cursors, n)))
  {
    if n == 0 {
      assert Names(d, cursors, 0) == {};
    } else {
      WalkFollows(d, start, cursors, n - 1, limit);
      SumGrows(d, cursors, n, |cursors| - 1);
      var e := d(cursors[n - 1]).value;
      assert e.next == cursors[n];
      assert Names(d, cursors, n) == Names(d, cursors, n - 1) + {e.name};
    }
  }

  // ---- A walk that reports its first error -----------------------------------------

  function WalkChecked<E>(check: Walk -> Result<Walk, E>, start: nat, n: nat): Result<Walk, E> {
    if n == 0 then Ok(Walk(start, {}, 0))
    else
      var w :- WalkChecked(check, start, n - 1);
      check(w)
  }

  lemma {:induction false} WalkStopsAt<E>(check: Walk -> Result<Walk, E>, start: nat, n: nat, m: nat)
    requires n <= m && WalkChecked(check, start, n).Err?
    ensures WalkChecked(check, start, m) == WalkChecked(check, start, n)
  {
    if n < m {
      WalkStopsAt(check, start, n, m - 1);
    }
  }

  /** When one check passes exactly on usable entries, so does the whole walk. */
  lemma {:induction false} WalksAgree<E>(check: Walk -> Result<Walk, E>, d: Directory, start: nat, n: nat, limit: nat)
    requires forall w: Walk :: check(w).Ok? <==> Extends(d(w.cursor), w, limit)
    requires forall w: Walk | Extends(d(w.cursor), w, limit) :: check(w).value == Advance(d(w.cursor).value, w)
    ensures WalkChecked(check, start, n).Ok? <==> WalkWith(d, start, n, limit).Some?
    ensures WalkChecked(check, start, n).Ok? ==> WalkChecked(check, start, n).value == WalkWith(d, start, n, limit).value
  {
    if n > 0 {
      WalksAgree(check, d, start, n - 1, limit);
    }
  }
}
