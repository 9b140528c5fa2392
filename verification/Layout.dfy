/** Parts laid end to end, and where each of them is found. */
module Layout {

  /** The first `n` parts, one after another. */
  function Concat<T>(part: nat -> seq<T>, n: nat): seq<T> {
    if n == 0 then [] else Concat(part, n - 1) + part(n - 1)
  }

  lemma {:induction false} ConcatPrefix<T>(part: nat -> seq<T>, i: nat, n: nat)
    requires i <= n
    ensures |Concat(part, i)| <= |Concat(part, n)|
    ensures Concat(part, n)[..|Concat(part, i)|] == Concat(part, i)
  {
    if i < n {
      ConcatPrefix(part, i, n - 1);
      assert Concat(part, n)[..|Concat(part, i)|] == Concat(part, n - 1)[..|Concat(part, i)|];
    }
  }

  /** Where each part starts when the first one does at `start`, and where the last one ends. */
  function Starts<T>(start: nat, part: nat -> seq<T>, n: nat): (r: seq<nat>)
    ensures |r| == n + 1 && r[n] == start + |Concat(part, n)|
  {
    (if n == 0 then [] else Starts(start, part, n - 1)) + [start + |Concat(part, n)|]
  }

  lemma {:induction false} StartAt<T>(start: nat, part: nat -> seq<T>, n: nat, i: nat)
    requires i <= n
    ensures Starts(start, part, n)[i] == start + |Concat(part, i)|
  {
    if i < n {
      StartAt(start, part, n - 1, i);
    }
  }

  /** Part `i` starts where the parts before it end, also inside a larger sequence. */
  lemma PartAt<T>(part: nat -> seq<T>, i: nat, n: nat, before: seq<T>, rest: seq<T>, whole: seq<T>)
    requires i < n && whole == before + Concat(part, n) + rest
    ensures var p := |before| + |Concat(part, i)|;
            && p + |part(i)| == |before| + |Concat(part, i + 1)| <= |whole| - |rest|
            && whole[p..p + |part(i)|] == part(i)
  {
    ConcatPrefix(part, i + 1, n);
    Within(before, Concat(part, n), rest, Concat(part, i), part(i));
  }

  /** The same, by the list of starts. */
  lemma PartIn<T>(part: nat -> seq<T>, i: nat, n: nat, before: seq<T>, rest: seq<T>, whole: seq<T>, starts: seq<nat>)
    requires i < n && whole == before + Concat(part, n) + rest && starts == Starts(|before|, part, n)
    ensures starts[i] == |before| + |Concat(part, i)|
    ensures starts[i + 1] == starts[i] + |part(i)| <= |before| + |Concat(part, n)| <= |whole|
    ensures whole[starts[i]..starts[i + 1]] == part(i)
  {
    PartAt(part, i, n, before, rest, whole);
    StartAt(|before|, part, n, i);
    StartAt(|before|, part, n, i + 1);
  }

  lemma Regroup<T>(a: seq<T>, b: seq<T>, c: seq<T>)
    ensures a + b + c == [] + a + (b + c)
  {
  }

  lemma Within<T>(before: seq<T>, middle: seq<T>, rest: seq<T>, front: seq<T>, slice: seq<T>)
    requires |front + slice| <= |middle| && middle[..|front + slice|] == front + slice
    ensures (before + middle + rest)[|before| + |front|..|before| + |front| + |slice|] == slice
  {
    var whole, p := before + middle + rest, |before| + |front|;
    forall k | 0 <= k < |slice|
      ensures whole[p..p + |slice|][k] == slice[k]
    {
      assert whole[p + k] == middle[..|front + slice|][|front| + k];
    }
  }

  /** A slice of a slice. */
  lemma SliceOfSlice<T>(b: seq<T>, p: nat, slice: seq<T>, i: nat, j: nat)
    requires p + |slice| <= |b| && b[p..p + |slice|] == slice && i <= j <= |slice|
    ensures b[p + i..p + j] == slice[i..j]
  {
    forall k | 0 <= k < j - i
      ensures b[p + i..p + j][k] == slice[i..j][k]
    {
      assert b[p..p + |slice|][i + k] == b[p + i + k];
    }
  }

  // ---- Splitting into slices -------------------------------------------------------

  function Flatten<T>(parts: seq<seq<T>>): seq<T> {
    if parts == [] then [] else Flatten(parts[..|parts| - 1]) + parts[|parts| - 1]
  }

  /** Consecutive slices of at most `size` rows; together they are all the rows, in order. */
  method Chunks<T>(rows: seq<T>, size: nat) returns (result: seq<seq<T>>)
    requires size > 0
    ensures Flatten(result) == rows
    ensures forall i | 0 <= i < |result| :: 0 < |result[i]| <= size && (i < |result| - 1 ==> |result[i]| == size)
  {
    result := [];
    var offset := 0;
    while offset < |rows|
      invariant Flatten(result) == rows[..if offset < |rows| then offset else |rows|]
      invariant forall i | 0 <= i < |result| :: 0 < |result[i]| <= size && (i < |result| - 1 || offset < |rows| ==> |result[i]| == size)
    {
      var end := if offset + size < |rows| then offset + size else |rows|;
      var part := rows[offset..end];
      assert (result + [part])[..|result|] == result;
      assert rows[..offset] + part == rows[..end];
      result := result + [part];
      offset := offset + size;
    }
    assert rows[..|rows|] == rows;
  }
}
