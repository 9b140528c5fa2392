/** The buffer of usage metrics: filled by requests, emptied in batches, one at a time. */
module UsageRecorder {

  const MAX_BUFFER: nat := 5_000
  const MAX_BATCH: nat := 1_000
  const FLUSH_AT: nat := 100

  /** A batch on its way; once its outcome is handled, only the end of the flush is left. */
  datatype Flushing<M> = Idle | Sending(batch: seq<M>) | Settled

  /** What is stored, on its way and waiting, what was given to the recorder, and what it has dropped. */
  datatype Recorder<M> = Recorder(stored: seq<M>, flushing: Flushing<M>, buffer: seq<M>, given: seq<M>, dropped: seq<M>)

  datatype Event<M> = Record(metric: M) | Flush | Settle(success: bool) | Finish

  function Started<M>(r: Recorder<M>): Recorder<M> {
    if !r.flushing.Idle? || r.buffer == [] then r
    else
      var n := if |r.buffer| < MAX_BATCH then |r.buffer| else MAX_BATCH;
      r.(flushing := Sending(r.buffer[..n]), buffer := r.buffer[n..])
  }

  function StartedIfMany<M>(r: Recorder<M>): Recorder<M> {
    if |r.buffer| >= FLUSH_AT then Started(r) else r
  }

  function Recorded<M>(r: Recorder<M>, metric: M): Recorder<M> {
    var given := r.(given := r.given + [metric]);
    if |r.buffer| >= MAX_BUFFER then given.(dropped := r.dropped + [metric])
    else StartedIfMany(given.(buffer := r.buffer + [metric]))
  }

  /** How much of a failed batch fits in front of the buffer. */
  function Room<M>(r: Recorder<M>, batch: seq<M>): (n: nat)
    ensures n <= |batch|
  {
    if |r.buffer| >= MAX_BUFFER then 0 else if |batch| < MAX_BUFFER - |r.buffer| then |batch| else MAX_BUFFER - |r.buffer|
  }

  function Handled<M>(r: Recorder<M>, success: bool): Recorder<M> {
    match r.flushing
    case Sending(batch) =>
      if success then r.(stored := r.stored + batch, flushing := Settled)
      else r.(flushing := Settled, buffer := batch[..Room(r, batch)] + r.buffer, dropped := r.dropped + batch[Room(r, batch)..])
    case _ => r
  }

  function Finished<M>(r: Recorder<M>): Recorder<M> {
    if r.flushing.Settled? then StartedIfMany(r.(flushing := Idle)) else r
  }

  function Step<M>(r: Recorder<M>, e: Event<M>): Recorder<M> {
    match e
    case Record(metric) => Recorded(r, metric)
    case Flush => Started(r)
    case Settle(success) => Handled(r, success)
    case Finish => Finished(r)
  }

  function After<M>(events: seq<Event<M>>): Recorder<M> {
    if events == [] then Recorder([], Idle, [], [], []) else Step(After(events[..|events| - 1]), events[|events| - 1])
  }

  function OnItsWay<M>(f: Flushing<M>): seq<M> {
    if f.Sending? then f.batch else []
  }

  // ---- The recorder as an object ----------------------------------------------------------

  class Service<M> {
    var buffer: seq<M>
    var flushing: Flushing<M>
    ghost var stored: seq<M>
    ghost var given: seq<M>
    ghost var dropped: seq<M>

    constructor ()
      ensures Value() == Recorder([], Idle, [], [], [])
    {
      buffer, flushing, stored, given, dropped := [], Idle, [], [], [];
    }

    ghost function Value(): Recorder<M>
      reads this
    {
      Recorder(stored, flushing, buffer, given, dropped)
    }

    method Record(metric: M)
      modifies this
      ensures Value() == Recorded(old(Value()), metric)
    {
      given := given + [metric];
      if |buffer| >= MAX_BUFFER {
        dropped := dropped + [metric];
        return;
      }
      buffer := buffer + [metric];
      if |buffer| >= FLUSH_AT {
        StartFlush();
      }
    }

    method StartFlush()
      modifies this`buffer, this`flushing
      ensures Value() == Started(old(Value()))
    {
      if !flushing.Idle? {
        return;
      }
      if |buffer| == 0 {
        return;
      }
      var n := if |buffer| < MAX_BATCH then |buffer| else MAX_BATCH;
      flushing := Sending(buffer[..n]);
      buffer := buffer[n..];
    }

    /** The batch was written, or it was not and goes back in front. */
    method SettleFlush(success: bool)
      modifies this
      ensures Value() == Handled(old(Value()), success)
    {
      match flushing
      case Sending(batch) =>
        if success {
          stored := stored + batch;
        } else {
          var room := if MAX_BUFFER > |buffer| then MAX_BUFFER - |buffer| else 0;
          var n := if room < |batch| then room else |batch|;
          buffer := batch[..n] + buffer;
          dropped := dropped + batch[n..];
        }
        flushing := Settled;
      case Idle =>
      case Settled =>
    }

    method FinishFlush()
      modifies this`buffer, this`flushing
      ensures Value() == Finished(old(Value()))
    {
      if flushing.Settled? {
        flushing := Idle;
        if |buffer| >= FLUSH_AT {
          StartFlush();
        }
      }
    }
  }

  // ---- Subsequences ---------------------------------------------------------------------------

  /** `places` says where the elements of `a` are found in `b`, in order. */
  ghost predicate Picks<M>(places: seq<nat>, a: seq<M>, b: seq<M>) {
    && |places| == |a|
    && (forall i, j | 0 <= i < j < |places| :: places[i] < places[j])
    && forall i | 0 <= i < |a| :: places[i] < |b| && b[places[i]] == a[i]
  }

  ghost predicate Subsequence<M>(a: seq<M>, b: seq<M>) {
    exists places :: Picks(places, a, b)
  }

  lemma AppendKeeps<M>(a: seq<M>, b: seq<M>, x: M)
    requires Subsequence(a, b)
    ensures Subsequence(a, b + [x]) && Subsequence(a + [x], b + [x])
  {
    var places: seq<nat> :| Picks(places, a, b);
    assert Picks(places, a, b + [x]);
    assert Picks(places + [|b|], a + [x], b + [x]);
  }

  lemma DropKeeps<M>(front: seq<M>, middle: seq<M>, back: seq<M>, b: seq<M>)
    requires Subsequence(front + middle + back, b)
    ensures Subsequence(front + back, b)
  {
    var a := front + middle + back;
    var places: seq<nat> :| Picks(places, a, b);
    var kept := places[..|front|] + places[|front| + |middle|..];
    forall i | 0 <= i < |front + back|
      ensures kept[i] < |b| && b[kept[i]] == (front + back)[i]
    {
      if i >= |front| {
        assert kept[i] == places[i + |middle|] && a[i + |middle|] == back[i - |front|];
      }
    }
    assert Picks(kept, front + back, b);
  }

  // ---- What holds after every run ------------------------------------------------------------------

  /** Everything that is not dropped, in the order of stored, on its way, waiting. */
  function Held<M>(r: Recorder<M>): seq<M> {
    r.stored + OnItsWay(r.flushing) + r.buffer
  }

  ghost predicate Sound<M>(r: Recorder<M>) {
    && |r.buffer| <= MAX_BUFFER
    && Subsequence(Held(r), r.given)
    && multiset(r.given) == multiset(Held(r)) + multiset(r.dropped)
  }

  lemma StartKeeps<M>(r: Recorder<M>)
    ensures Held(Started(r)) == Held(r) && Started(r).given == r.given && Started(r).dropped == r.dropped
    ensures |Started(r).buffer| <= |r.buffer|
  {
    if r.flushing.Idle? && r.buffer != [] {
      var n := if |r.buffer| < MAX_BATCH then |r.buffer| else MAX_BATCH;
      assert r.buffer == r.buffer[..n] + r.buffer[n..];
    }
  }

  lemma SameHeld<M>(r: Recorder<M>, s: Recorder<M>)
    requires Sound(r) && Held(s) == Held(r) && s.given == r.given && s.dropped == r.dropped && |s.buffer| <= MAX_BUFFER
    ensures Sound(s)
  {
  }

  lemma PushSound<M>(r: Recorder<M>, s: Recorder<M>, metric: M)
    requires Sound(r) && Held(s) == Held(r) + [metric] && s.given == r.given + [metric] && s.dropped == r.dropped && |s.buffer| <= MAX_BUFFER
    ensures Sound(s)
  {
    AppendKeeps(Held(r), r.given, metric);
  }

  lemma RefuseSound<M>(r: Recorder<M>, s: Recorder<M>, metric: M)
    requires Sound(r) && Held(s) == Held(r) && s.given == r.given + [metric] && s.dropped == r.dropped + [metric] && |s.buffer| <= MAX_BUFFER
    ensures Sound(s)
  {
    AppendKeeps(Held(r), r.given, metric);
  }

  lemma RecordSound<M>(r: Recorder<M>, metric: M)
    requires Sound(r)
    ensures Sound(Recorded(r, metric))
  {
    if |r.buffer| < MAX_BUFFER {
      var pushed := r.(given := r.given + [metric], buffer := r.buffer + [metric]);
      assert Held(pushed) == Held(r) + [metric];
      PushSound(r, pushed, metric);
      StartKeeps(pushed);
      SameHeld(pushed, Recorded(r, metric));
    } else {
      RefuseSound(r, Recorded(r, metric), metric);
    }
  }

  /** A failed batch of which only the front goes back. */
  lemma CutSound<M>(r: Recorder<M>, s: Recorder<M>, front: seq<M>, cut: seq<M>, back: seq<M>)
    requires Sound(r) && Held(r) == front + cut + back && Held(s) == front + back
    requires s.given == r.given && s.dropped == r.dropped + cut && |s.buffer| <= MAX_BUFFER
    ensures Sound(s)
  {
    DropKeeps(front, cut, back, r.given);
  }

  lemma SettleSound<M>(r: Recorder<M>, success: bool)
    requires Sound(r)
    ensures Sound(Handled(r, success))
  {
    if r.flushing.Sending? {
      var batch := r.flushing.batch;
      var n := Room(r, batch);
      var s := Handled(r, success);
      if success {
        assert Held(s) == Held(r);
        SameHeld(r, s);
      } else {
        assert batch == batch[..n] + batch[n..];
        assert Held(r) == (r.stored + batch[..n]) + batch[n..] + r.buffer;
        assert Held(s) == (r.stored + batch[..n]) + r.buffer;
        CutSound(r, s, r.stored + batch[..n], batch[n..], r.buffer);
      }
    }
  }

  lemma StepSound<M>(r: Recorder<M>, e: Event<M>)
    requires Sound(r)
    ensures Sound(Step(r, e))
  {
    match e
    case Record(metric) => RecordSound(r, metric);
    case Flush => StartKeeps(r);
    case Settle(success) => SettleSound(r, success);
    case Finish =>
      if r.flushing.Settled? {
        StartKeeps(r.(flushing := Idle));
        assert Held(r.(flushing := Idle)) == Held(r);
      }
  }

  /**
    After any interleaving: the buffer is within its limit, and what is stored, on its
    way and waiting is, in this order, what was recorded without what was dropped.
   */
  lemma {:induction false} RunSound<M>(events: seq<Event<M>>)
    ensures Sound(After(events))
  {
    if events == [] {
      assert Picks([], Held(After(events)), []);
    } else {
      RunSound(events[..|events| - 1]);
      StepSound(After(events[..|events| - 1]), events[|events| - 1]);
    }
  }

  /** Something is dropped only by a step that leaves the buffer full. */
  lemma DroppedOnlyWhenFull<M>(r: Recorder<M>, e: Event<M>)
    requires |r.buffer| <= MAX_BUFFER
    ensures Step(r, e).dropped != r.dropped ==> |Step(r, e).buffer| == MAX_BUFFER
  {
    if e.Record? {
      StartKeeps(r.(given := r.given + [e.metric], buffer := r.buffer + [e.metric]));
    } else if e.Finish? {
      StartKeeps(r.(flushing := Idle));
    } else if e.Settle? && r.flushing.Sending? {
      var batch := r.flushing.batch;
      assert Room(r, batch) == |batch| ==> batch[Room(r, batch)..] == [];
    }
  }

  /** A batch on its way is changed only by its own outcome; none is started beside it. */
  lemma OneBatchAtATime<M>(r: Recorder<M>, e: Event<M>)
    requires r.flushing.Sending? && !e.Settle?
    ensures Step(r, e).flushing == r.flushing && Step(r, e).stored == r.stored
  {
  }
}
