/** Mapping rows with a bounded number of workers that take the next row until one fails. */
module ConcurrentMap {
  import opened Wrappers

  /** A worker between two rows, at a row, or done. */
  datatype Worker = Ready | Handling(index: nat) | Stopped

  /** The shared variables of the workers; `failed` are the rows whose handler failed. */
  datatype State<R, E> = State(nextIndex: nat, firstError: Option<E>, results: map<nat, R>, failed: set<nat>, workers: seq<Worker>)

  datatype Event<E> = TakeRow(worker: nat) | Succeed(worker: nat) | Fail(worker: nat, error: E)

  function WorkerCount(rows: nat, concurrency: nat): nat {
    var most := if rows > 1 then rows else 1;
    if concurrency < most then concurrency else most
  }

  function Start<R, E>(rows: nat, concurrency: nat): State<R, E> {
    var n := WorkerCount(rows, concurrency);
    State(0, None, map[], {}, seq(n, i requires 0 <= i < n => Ready))
  }

  function Step<R, E>(rows: nat, handler: nat -> R, s: State<R, E>, e: Event<E>): State<R, E> {
    if e.worker >= |s.workers| then s
    else
      var w := s.workers[e.worker];
      match e
      case TakeRow(k) =>
        if !w.Ready? then s
        else if s.firstError.Some? then s.(workers := s.workers[k := Stopped])
        else s.(nextIndex := s.nextIndex + 1, workers := s.workers[k := if s.nextIndex >= rows then Stopped else Handling(s.nextIndex)])
      case Succeed(k) =>
        if !w.Handling? then s else s.(results := s.results[w.index := handler(w.index)], workers := s.workers[k := Ready])
      case Fail(k, error) =>
        if !w.Handling? then s
        else s.(firstError := s.firstError.Or(Some(error)), failed := s.failed + {w.index}, workers := s.workers[k := Ready])
  }

  function Run<R, E>(rows: nat, concurrency: nat, handler: nat -> R, events: seq<Event<E>>): State<R, E> {
    if events == [] then Start(rows, concurrency)
    else Step(rows, handler, Run(rows, concurrency, handler, events[..|events| - 1]), events[|events| - 1])
  }

  // ---- What holds in every run -------------------------------------------------------

  predicate At(workers: seq<Worker>, index: nat) {
    Handling(index) in workers
  }

  predicate Apart(workers: seq<Worker>) {
    forall j, k | 0 <= j < k < |workers| && workers[j].Handling? :: workers[j] != workers[k]
  }

  /** Rows are taken in order, each by one worker, and end in the results or among the failed. */
  ghost predicate Sound<R, E>(rows: nat, concurrency: nat, handler: nat -> R, s: State<R, E>) {
    && |s.workers| == WorkerCount(rows, concurrency)
    && Apart(s.workers)
    && (forall i: nat | At(s.workers, i) :: i < s.nextIndex && i < rows && i !in s.results && i !in s.failed)
    && (forall i | i in s.results :: i < s.nextIndex && i < rows && i !in s.failed && s.results[i] == handler(i))
    && (forall i | i in s.failed :: i < s.nextIndex && i < rows)
    && (forall i: nat | i < s.nextIndex && i < rows :: At(s.workers, i) || i in s.results || i in s.failed)
    && (s.firstError.None? ==> s.failed == {})
    && (s.firstError.None? && Stopped in s.workers ==> s.nextIndex >= rows)
  }

  /** Moving one worker changes which rows are being handled by that worker's row only. */
  lemma AtMoved(workers: seq<Worker>, k: nat, w: Worker)
    requires k < |workers| && Apart(workers)
    requires w.Handling? ==> !At(workers, w.index)
    ensures Apart(workers[k := w])
    ensures forall i: nat :: At(workers[k := w], i) <==> w == Handling(i) || (At(workers, i) && workers[k] != Handling(i))
    ensures Stopped in workers[k := w] ==> w == Stopped || Stopped in workers
  {
    var moved := workers[k := w];
    forall i: nat
      ensures At(moved, i) <==> w == Handling(i) || (At(workers, i) && workers[k] != Handling(i))
    {
      if At(workers, i) && workers[k] != Handling(i) {
        var j :| 0 <= j < |workers| && workers[j] == Handling(i);
        assert moved[j] == Handling(i);
      }
      if w == Handling(i) {
        assert moved[k] == Handling(i);
      }
    }
    forall a, b | 0 <= a < b < |moved| && moved[a].Handling?
      ensures moved[a] != moved[b]
    {
      if a == k {
        assert workers[b] in workers;
      } else {
        assert workers[a] in workers;
      }
    }
  }

  lemma StepSound<R, E>(rows: nat, concurrency: nat, handler: nat -> R, s: State<R, E>, e: Event<E>)
    requires Sound(rows, concurrency, handler, s)
    ensures Sound(rows, concurrency, handler, Step(rows, handler, s, e))
  {
    var t := Step(rows, handler, s, e);
    if e.worker < |s.workers| && t != s {
      var w := t.workers[e.worker];
      assert s.workers[e.worker] in s.workers;
      assert t.workers == s.workers[e.worker := w];
      AtMoved(s.workers, e.worker, w);
    }
  }

  lemma {:induction false} RunSound<R, E>(rows: nat, concurrency: nat, handler: nat -> R, events: seq<Event<E>>)
    ensures Sound(rows, concurrency, handler, Run(rows, concurrency, handler, events))
  {
    if events != [] {
      RunSound(rows, concurrency, handler, events[..|events| - 1]);
      StepSound(rows, concurrency, handler, Run(rows, concurrency, handler, events[..|events| - 1]), events[|events| - 1]);
    }
  }

  /** When all workers have stopped without an error, every row has its own result, whatever the interleaving. */
  lemma AllResults<R, E>(rows: nat, concurrency: nat, handler: nat -> R, events: seq<Event<E>>)
    requires concurrency > 0
    requires var s := Run(rows, concurrency, handler, events); forall w | w in s.workers :: w == Stopped
    requires Run(rows, concurrency, handler, events).firstError.None?
    ensures Run(rows, concurrency, handler, events).results == map i: nat | i < rows :: handler(i)
  {
    RunSound(rows, concurrency, handler, events);
    var s := Run(rows, concurrency, handler, events);
    assert s.workers[0] in s.workers;
  }

  /** No row is handled twice: a worker that takes a row takes one that nobody has taken. */
  lemma TakenOnce<R, E>(rows: nat, concurrency: nat, handler: nat -> R, events: seq<Event<E>>, k: nat)
    ensures var s := Run(rows, concurrency, handler, events); var t := Step(rows, handler, s, TakeRow(k));
            forall i: nat | At(t.workers, i) && !At(s.workers, i) :: i !in s.results && i !in s.failed && s.firstError.None?
  {
    RunSound(rows, concurrency, handler, events);
    var s := Run(rows, concurrency, handler, events);
    var t := Step(rows, handler, s, TakeRow(k));
    forall i: nat | At(t.workers, i) && !At(s.workers, i)
      ensures i !in s.results && i !in s.failed && s.firstError.None?
    {
      var j :| 0 <= j < |t.workers| && t.workers[j] == Handling(i);
      assert j < |s.workers| && s.workers[j] != Handling(i);
    }
  }
}
