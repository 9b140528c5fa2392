/** What every plan guarantees: who is taken, and that passengers and points belong together. */
module RouteConservation {
  import opened Wrappers
  import opened Multisets
  import opened RouteTimes
  import opened RouteOrder
  import opened RoutePlan

  // ---- Who is taken ---------------------------------------------------------------------

  function ReadyCount(route: Route, candidates: seq<Candidate>, n: nat): nat
    requires n <= |candidates|
  {
    if n == 0 then 0 else ReadyCount(route, candidates, n - 1) + if Ready(route, candidates[n - 1]) then 1 else 0
  }

  function Min(a: nat, b: nat): nat {
    if a < b then a else b
  }

  /** The first ready candidates are taken, as many as the vehicle holds. */
  function StatusOf(route: Route, candidates: seq<Candidate>, i: nat): Status
    requires i < |candidates|
  {
    if !Eligible(candidates[i]) then PendingData
    else if MissingFor(route, candidates[i]) != [] then PendingDocuments
    else if ReadyCount(route, candidates, i) >= route.capacity then Overflow
    else Assigned
  }

  // ---- Where they board -----------------------------------------------------------------

  /** Boarding at `point` is what the passenger, its company or the walking limit allows. */
  predicate Boards(lib: Library, route: Route, p: Candidate, point: Point, walking: Option<int>) {
    if p.companyPoint.Some? then
      && PointKey(lib, point.address) == PointKey(lib, p.companyPoint.value)
      && walking == CompanyChoice(lib, route, p, p.companyPoint.value).walking
    else if walking.Some? then
      && !p.accessibilityRequired && route.maxWalking > 0 && p.residence.coordinates.Some?
      && WithinReach(lib, route, p.residence.coordinates.value, point)
      && walking.value == Round(lib.distance(p.residence.coordinates.value, Where(point).value)) <= route.maxWalking
    else PointKey(lib, point.address) == PointKey(lib, p.residence)
  }

  /** The passenger walks exactly when it may and some point opened before is within reach. */
  predicate WalksWhenPossible(lib: Library, route: Route, p: Candidate, earlier: seq<Point>, walking: Option<int>) {
    p.companyPoint.None? ==>
      (walking.Some? <==>
         && !p.accessibilityRequired && route.maxWalking > 0 && p.residence.coordinates.Some?
         && exists k | 0 <= k < |earlier| :: WithinReach(lib, route, p.residence.coordinates.value, earlier[k]))
  }

  lemma {:induction false} SharedIsFirst(lib: Library, route: Route, from: Coordinate, points: seq<Point>)
    ensures var shared := FindShared(lib, route, from, points);
            && (shared.Some? <==> exists k | 0 <= k < |points| :: WithinReach(lib, route, from, points[k]))
            && (shared.Some? ==> shared.value in points && WithinReach(lib, route, from, shared.value))
  {
    if points != [] && !WithinReach(lib, route, from, points[0]) {
      SharedIsFirst(lib, route, from, points[1..]);
      if k: nat :| k < |points| && WithinReach(lib, route, from, points[k]) {
        assert points[1..][k - 1] == points[k];
      }
    }
  }

  predicate DistinctKeys(lib: Library, points: seq<Point>) {
    forall j, k | 0 <= j < k < |points| :: PointKey(lib, points[j].address) != PointKey(lib, points[k].address)
  }

  lemma {:induction false} KeyFound(lib: Library, points: seq<Point>, key: string)
    ensures var found := FindKey(lib, points, key);
            && (found.None? <==> forall k | 0 <= k < |points| :: PointKey(lib, points[k].address) != key)
            && (found.Some? ==> found.value in points && PointKey(lib, found.value.address) == key)
  {
    if points != [] && PointKey(lib, points[0].address) != key {
      KeyFound(lib, points[1..], key);
      if k: nat :| k < |points| && PointKey(lib, points[k].address) == key {
        assert points[1..][k - 1] == points[k];
      }
    }
  }

  /** A shared point is found again by its key. */
  lemma SharedKeepsPoint(lib: Library, points: seq<Point>, shared: Point)
    requires DistinctKeys(lib, points) && shared in points
    ensures FindKey(lib, points, PointKey(lib, shared.address)) == Some(shared)
  {
    KeyFound(lib, points, PointKey(lib, shared.address));
  }

  lemma RoundWithin(d: real, limit: nat)
    requires d <= limit as real
    ensures Round(d) <= limit
  {
  }

  lemma ChoiceBoards(lib: Library, route: Route, d: Draft, p: Candidate, newId: string)
    requires DistinctKeys(lib, d.points)
    ensures var next := Take(lib, route, d, p, newId); var a := next.assignments[|d.assignments|];
            && (exists point | point in next.points :: a.pointId == Some(point.id) && Boards(lib, route, p, point, a.walking))
            && WalksWhenPossible(lib, route, p, d.points, a.walking)
  {
    var choice := Choose(lib, route, d.points, p);
    var next := Take(lib, route, d, p, newId);
    var key := PointKey(lib, choice.address);
    KeyFound(lib, d.points, key);
    var point := FindKey(lib, d.points, key).GetOr(Point(newId, choice.fixedPointId, |d.points| + 1, choice.address, choice.origin, None));
    assert point in next.points && PointKey(lib, point.address) == key;
    if p.companyPoint.None? && !p.accessibilityRequired && route.maxWalking > 0 && p.residence.coordinates.Some? {
      var home := p.residence.coordinates.value;
      SharedIsFirst(lib, route, home, d.points);
      var shared := FindShared(lib, route, home, d.points);
      if shared.Some? {
        SharedKeepsPoint(lib, d.points, shared.value);
        RoundWithin(lib.distance(home, Where(shared.value).value), route.maxWalking);
      }
    }
    assert Boards(lib, route, p, point, choice.walking);
  }

  // ---- Drafts ----------------------------------------------------------------------------

  ghost predicate Injective(ids: nat -> string) {
    forall j: nat, k: nat | ids(j) == ids(k) :: j == k
  }

  /** Candidates are dealt with one by one, and as many are taken as fit. */
  lemma {:induction false} DraftCounts(lib: Library, route: Route, candidates: seq<Candidate>, n: nat, ids: nat -> string)
    requires n <= |candidates|
    ensures var d := DraftOf(lib, route, candidates, n, ids);
            |d.assignments| == n && d.assignedCount == Min(route.capacity, ReadyCount(route, candidates, n))
  {
    if n > 0 {
      DraftCounts(lib, route, candidates, n - 1, ids);
    }
  }

  /** What one step does to the points: nothing, or one more with a new key. */
  lemma NextPoints(lib: Library, route: Route, d: Draft, p: Candidate, newId: string)
    ensures var e := Next(lib, route, d, p, newId);
            && |e.assignments| == |d.assignments| + 1 && e.assignments[..|d.assignments|] == d.assignments
            && (e.points == d.points || (|e.points| == |d.points| + 1 && e.points[..|d.points|] == d.points && e.points[|d.points|].id == newId))
  {
  }

  lemma NextKeys(lib: Library, route: Route, d: Draft, p: Candidate, newId: string)
    requires DistinctKeys(lib, d.points)
    ensures DistinctKeys(lib, Next(lib, route, d, p, newId).points)
  {
    KeyFound(lib, d.points, PointKey(lib, Choose(lib, route, d.points, p).address));
  }

  /** Nothing in a draft is changed later. */
  lemma {:induction false} DraftGrows(lib: Library, route: Route, candidates: seq<Candidate>, m: nat, n: nat, ids: nat -> string)
    requires m <= n <= |candidates|
    ensures var d, e := DraftOf(lib, route, candidates, m, ids), DraftOf(lib, route, candidates, n, ids);
            d.points <= e.points && d.assignments <= e.assignments
  {
    if m < n {
      DraftGrows(lib, route, candidates, m, n - 1, ids);
      var d := DraftOf(lib, route, candidates, n - 1, ids);
      NextPoints(lib, route, d, candidates[n - 1], ids(|d.points|));
    }
  }

  lemma {:induction false} PointsHaveIds(lib: Library, route: Route, candidates: seq<Candidate>, n: nat, ids: nat -> string)
    requires n <= |candidates|
    ensures var d := DraftOf(lib, route, candidates, n, ids); forall k | 0 <= k < |d.points| :: d.points[k].id == ids(k)
  {
    if n > 0 {
      PointsHaveIds(lib, route, candidates, n - 1, ids);
      var d := DraftOf(lib, route, candidates, n - 1, ids);
      var e := DraftOf(lib, route, candidates, n, ids);
      NextPoints(lib, route, d, candidates[n - 1], ids(|d.points|));
      forall k | 0 <= k < |d.points|
        ensures e.points[k].id == ids(k)
      {
        assert e.points[k] == d.points[k];
      }
    }
  }

  lemma {:induction false} PointsHaveKeys(lib: Library, route: Route, candidates: seq<Candidate>, n: nat, ids: nat -> string)
    requires n <= |candidates|
    ensures DistinctKeys(lib, DraftOf(lib, route, candidates, n, ids).points)
  {
    if n > 0 {
      var d := DraftOf(lib, route, candidates, n - 1, ids);
      PointsHaveKeys(lib, route, candidates, n - 1, ids);
      NextKeys(lib, route, d, candidates[n - 1], ids(|d.points|));
    }
  }

  predicate BoardsOneOf(lib: Library, route: Route, p: Candidate, points: seq<Point>, a: Assignment) {
    exists point | point in points :: a.pointId == Some(point.id) && Boards(lib, route, p, point, a.walking)
  }

  lemma MorePointsBoard(lib: Library, route: Route, p: Candidate, points: seq<Point>, more: seq<Point>, a: Assignment)
    requires points <= more && BoardsOneOf(lib, route, p, points, a)
    ensures BoardsOneOf(lib, route, p, more, a)
  {
    var point :| point in points && a.pointId == Some(point.id) && Boards(lib, route, p, point, a.walking);
    assert point in more;
  }

  /** The assignment of candidate `i`, whatever came before and after it. */
  predicate Placed(lib: Library, route: Route, p: Candidate, status: Status, points: seq<Point>, a: Assignment) {
    && a.passengerId == p.id && a.status == status
    && if status == Assigned then BoardsOneOf(lib, route, p, points, a) else a.pointId.None? && a.walking.None?
  }

  /** What one step adds for a candidate, by what the draft has already taken. */
  lemma StepPlaces(lib: Library, route: Route, d: Draft, p: Candidate, newId: string, status: Status)
    requires DistinctKeys(lib, d.points)
    requires status == if !Eligible(p) then PendingData else if MissingFor(route, p) != [] then PendingDocuments
                       else if d.assignedCount >= route.capacity then Overflow else Assigned
    ensures var e := Next(lib, route, d, p, newId);
            && |e.assignments| == |d.assignments| + 1
            && Placed(lib, route, p, status, e.points, e.assignments[|d.assignments|])
            && (status == Assigned ==> WalksWhenPossible(lib, route, p, d.points, e.assignments[|d.assignments|].walking))
  {
    if status == Assigned {
      ChoiceBoards(lib, route, d, p, newId);
    }
  }

  lemma PlacedStays(lib: Library, route: Route, p: Candidate, status: Status, points: seq<Point>, more: seq<Point>, a: Assignment)
    requires points <= more && Placed(lib, route, p, status, points, a)
    ensures Placed(lib, route, p, status, more, a)
  {
    if status == Assigned {
      MorePointsBoard(lib, route, p, points, more, a);
    }
  }

  lemma AssignmentPlaced(lib: Library, route: Route, candidates: seq<Candidate>, i: nat, n: nat, ids: nat -> string)
    requires i < n <= |candidates|
    ensures var before, d := DraftOf(lib, route, candidates, i, ids), DraftOf(lib, route, candidates, n, ids);
            && |d.assignments| == n
            && Placed(lib, route, candidates[i], StatusOf(route, candidates, i), d.points, d.assignments[i])
            && (d.assignments[i].status == Assigned ==> WalksWhenPossible(lib, route, candidates[i], before.points, d.assignments[i].walking))
  {
    var before := DraftOf(lib, route, candidates, i, ids);
    var after := DraftOf(lib, route, candidates, i + 1, ids);
    var d := DraftOf(lib, route, candidates, n, ids);
    DraftCounts(lib, route, candidates, i, ids);
    DraftCounts(lib, route, candidates, n, ids);
    DraftGrows(lib, route, candidates, i + 1, n, ids);
    PointsHaveKeys(lib, route, candidates, i, ids);
    StepPlaces(lib, route, before, candidates[i], ids(|before.points|), StatusOf(route, candidates, i));
    assert d.assignments[i] == after.assignments[i];
    PlacedStays(lib, route, candidates[i], StatusOf(route, candidates, i), after.points, d.points, d.assignments[i]);
  }

  predicate HasPassenger(assignments: seq<Assignment>, id: string) {
    exists i | 0 <= i < |assignments| :: assignments[i].status == Assigned && assignments[i].pointId == Some(id)
  }

  lemma PassengerStays(assignments: seq<Assignment>, more: seq<Assignment>, id: string)
    requires assignments <= more && HasPassenger(assignments, id)
    ensures HasPassenger(more, id)
  {
    var i :| 0 <= i < |assignments| && assignments[i].status == Assigned && assignments[i].pointId == Some(id);
    assert more[i] == assignments[i];
  }

  /** No point without a passenger. */
  lemma {:induction false} PointsHavePassengers(lib: Library, route: Route, candidates: seq<Candidate>, n: nat, ids: nat -> string)
    requires n <= |candidates|
    ensures var d := DraftOf(lib, route, candidates, n, ids); forall point | point in d.points :: HasPassenger(d.assignments, point.id)
  {
    if n > 0 {
      var before := DraftOf(lib, route, candidates, n - 1, ids);
      var d := DraftOf(lib, route, candidates, n, ids);
      PointsHavePassengers(lib, route, candidates, n - 1, ids);
      forall point | point in d.points
        ensures HasPassenger(d.assignments, point.id)
      {
        if point in before.points {
          PassengerStays(before.assignments, d.assignments, point.id);
        } else {
          assert d.assignments[|before.assignments|].pointId == Some(point.id);
        }
      }
    }
  }

  // ---- Plans -------------------------------------------------------------------------------

  /** Points that all have different ids. */
  predicate DistinctIds(points: seq<Point>) {
    forall j, k | 0 <= j < k < |points| :: points[j].id != points[k].id
  }

  lemma DraftIds(lib: Library, route: Route, candidates: seq<Candidate>, ids: nat -> string)
    requires Injective(ids)
    ensures DistinctIds(DraftOf(lib, route, candidates, |candidates|, ids).points)
  {
    PointsHaveIds(lib, route, candidates, |candidates|, ids);
  }

  /** Points in another order still have different ids. */
  lemma SameIds(points: seq<Point>, other: seq<Point>)
    requires DistinctIds(points) && multiset(points) == multiset(other)
    ensures DistinctIds(other)
  {
    forall j, k | 0 <= j < k < |other|
      ensures other[j].id != other[k].id
    {
      assert other[j] in multiset(points) && other[k] in multiset(points);
      if other[j].id == other[k].id {
        assert other[j] == other[k];
        var i :| 0 <= i < |points| && points[i] == other[j];
        CountTwice(other, j, k);
        CountOnce(points, i);
      }
    }
  }

  lemma {:induction false} SequenceFound(points: seq<Point>, k: nat)
    requires k < |points| && DistinctIds(points)
    ensures SequenceOf(points, points[k].id) == Some(points[k].sequence)
  {
    if k > 0 {
      assert DistinctIds(points[1..]);
      SequenceFound(points[1..], k - 1);
    }
  }

  /** The points of the plan, in their final order and without their times. */
  function FinalOrder(lib: Library, route: Route, candidates: seq<Candidate>, ids: nat -> string): seq<Point> {
    Ordered(lib.distance, route.origin, DraftOf(lib, route, candidates, |candidates|, ids).points)
  }

  /** Each point of the draft is a stop, numbered by its place; the numbers are all that is changed. */
  lemma StopOf(lib: Library, route: Route, candidates: seq<Candidate>, ids: nat -> string, point: Point) returns (k: nat)
    requires point in DraftOf(lib, route, candidates, |candidates|, ids).points
    ensures var ordered := FinalOrder(lib, route, candidates, ids); k < |ordered| && ordered[k] == point.(sequence := k + 1)
  {
    var points := DraftOf(lib, route, candidates, |candidates|, ids).points;
    var greedy := Greedy(lib.distance, route.origin.coordinates, points);
    GreedyIsPermutation(lib.distance, route.origin.coordinates, points);
    assert point in multiset(greedy);
    k :| 0 <= k < |greedy| && greedy[k] == point;
  }

  lemma StopsComeFromPoints(lib: Library, route: Route, candidates: seq<Candidate>, ids: nat -> string, k: nat)
    requires k < |FinalOrder(lib, route, candidates, ids)|
    ensures var ordered := FinalOrder(lib, route, candidates, ids);
            && ordered[k].sequence == k + 1
            && exists point | point in DraftOf(lib, route, candidates, |candidates|, ids).points :: ordered[k] == point.(sequence := k + 1)
  {
    var points := DraftOf(lib, route, candidates, |candidates|, ids).points;
    var greedy := Greedy(lib.distance, route.origin.coordinates, points);
    GreedyIsPermutation(lib.distance, route.origin.coordinates, points);
    assert greedy[k] in multiset(points);
  }

  lemma FinalIds(lib: Library, route: Route, candidates: seq<Candidate>, ids: nat -> string)
    requires Injective(ids)
    ensures DistinctIds(FinalOrder(lib, route, candidates, ids))
  {
    var points := DraftOf(lib, route, candidates, |candidates|, ids).points;
    DraftIds(lib, route, candidates, ids);
    GreedyIsPermutation(lib.distance, route.origin.coordinates, points);
    SameIds(points, Greedy(lib.distance, route.origin.coordinates, points));
  }

  /** Stop `k` is where the passenger of this assignment boards. */
  predicate BoardsAt(lib: Library, route: Route, p: Candidate, points: seq<Point>, a: Assignment, k: nat) {
    && k < |points| && a.pointId == Some(points[k].id) && Boards(lib, route, p, points[k], a.walking)
    && a.boardingOrder == Some(points[k].sequence)
  }

  /**
    Every candidate has one assignment, with the status it must have. Those who are taken
    board at a stop of the plan where they may, and their boarding order is that of the stop.
   */
  lemma AssignedBoard(lib: Library, route: Route, candidates: seq<Candidate>, ids: nat -> string, i: nat)
    requires ValidTime(route.arrival) && Injective(ids) && i < |candidates|
    ensures var plan := PlanOf(lib, route, candidates, ids);
            && |plan.assignments| == |candidates|
            && var a := plan.assignments[i];
               && a.passengerId == candidates[i].id && a.status == StatusOf(route, candidates, i)
               && if a.status == Assigned then exists k: nat :: BoardsAt(lib, route, candidates[i], plan.points, a, k)
                  else a.pointId.None? && a.boardingOrder.None? && a.walking.None?
  {
    var n := |candidates|;
    var d := DraftOf(lib, route, candidates, n, ids);
    var plan := PlanOf(lib, route, candidates, ids);
    AssignmentPlaced(lib, route, candidates, i, n, ids);
    var a := d.assignments[i];
    assert plan.assignments[i] == Boarded(FinalOrder(lib, route, candidates, ids), a);
    if a.status == Assigned {
      var point :| point in d.points && a.pointId == Some(point.id) && Boards(lib, route, candidates[i], point, a.walking);
      var k := StopOf(lib, route, candidates, ids, point);
      FinalIds(lib, route, candidates, ids);
      SequenceFound(FinalOrder(lib, route, candidates, ids), k);
      assert BoardsAt(lib, route, candidates[i], plan.points, plan.assignments[i], k);
    }
  }

  /** Every stop has its number and a passenger who boards there. */
  lemma StopsServed(lib: Library, route: Route, candidates: seq<Candidate>, ids: nat -> string, k: nat)
    requires ValidTime(route.arrival) && k < |PlanOf(lib, route, candidates, ids).points|
    ensures var plan := PlanOf(lib, route, candidates, ids);
            plan.points[k].sequence == k + 1 && HasPassenger(plan.assignments, plan.points[k].id)
  {
    var n := |candidates|;
    var d := DraftOf(lib, route, candidates, n, ids);
    var plan := PlanOf(lib, route, candidates, ids);
    StopsComeFromPoints(lib, route, candidates, ids, k);
    PointsHavePassengers(lib, route, candidates, n, ids);
    var point :| point in d.points && FinalOrder(lib, route, candidates, ids)[k] == point.(sequence := k + 1);
    assert HasPassenger(d.assignments, point.id);
    var i :| 0 <= i < |d.assignments| && d.assignments[i].status == Assigned && d.assignments[i].pointId == Some(point.id);
    assert plan.assignments[i].status == Assigned && plan.assignments[i].pointId == Some(plan.points[k].id);
  }

  // ---- Counting --------------------------------------------------------------------------------

  function AssignedAmong(route: Route, candidates: seq<Candidate>, n: nat): nat
    requires n <= |candidates|
  {
    if n == 0 then 0
    else AssignedAmong(route, candidates, n - 1) + if StatusOf(route, candidates, n - 1) == Assigned then 1 else 0
  }

  /** As many are taken as are ready, up to the capacity. */
  lemma {:induction false} TakenCount(route: Route, candidates: seq<Candidate>, n: nat)
    requires n <= |candidates|
    ensures AssignedAmong(route, candidates, n) == Min(route.capacity, ReadyCount(route, candidates, n))
  {
    if n > 0 {
      TakenCount(route, candidates, n - 1);
    }
  }

  lemma {:induction false} ReadyGrows(route: Route, candidates: seq<Candidate>, m: nat, n: nat)
    requires m <= n <= |candidates|
    ensures ReadyCount(route, candidates, m) <= ReadyCount(route, candidates, n)
  {
    if m < n {
      ReadyGrows(route, candidates, m, n - 1);
    }
  }

  /** Someone is left out for lack of room exactly when more are ready than the vehicle holds; then it is full. */
  lemma OverflowOnlyWhenFull(route: Route, candidates: seq<Candidate>)
    ensures var n := |candidates|;
            && ((exists i: nat | i < n :: StatusOf(route, candidates, i) == Overflow) <==> ReadyCount(route, candidates, n) > route.capacity)
            && ((exists i: nat | i < n :: StatusOf(route, candidates, i) == Overflow) ==> AssignedAmong(route, candidates, n) == route.capacity)
  {
    var n := |candidates|;
    TakenCount(route, candidates, n);
    if i: nat :| i < n && StatusOf(route, candidates, i) == Overflow {
      assert ReadyCount(route, candidates, i + 1) == ReadyCount(route, candidates, i) + 1;
      ReadyGrows(route, candidates, i + 1, n);
    }
    if ReadyCount(route, candidates, n) > route.capacity {
      var i := FirstOver(route, candidates, n);
      assert StatusOf(route, candidates, i) == Overflow;
    }
  }

  lemma {:induction false} FirstOver(route: Route, candidates: seq<Candidate>, n: nat) returns (i: nat)
    requires n <= |candidates| && ReadyCount(route, candidates, n) > route.capacity
    ensures i < n && Ready(route, candidates[i]) && ReadyCount(route, candidates, i) == route.capacity
  {
    if ReadyCount(route, candidates, n - 1) > route.capacity {
      i := FirstOver(route, candidates, n - 1);
    } else {
      i := n - 1;
    }
  }

  lemma {:induction false} CountMatches(route: Route, candidates: seq<Candidate>, assignments: seq<Assignment>, n: nat)
    requires n <= |candidates| && |assignments| == n && forall i | 0 <= i < n :: assignments[i].status == StatusOf(route, candidates, i)
    ensures CountOf(assignments, Assigned) == AssignedAmong(route, candidates, n)
  {
    if n > 0 {
      CountMatches(route, candidates, assignments[..n - 1], n - 1);
    }
  }

  /** The number of passengers taken in a plan. */
  lemma PlanTakes(lib: Library, route: Route, candidates: seq<Candidate>, ids: nat -> string)
    requires ValidTime(route.arrival) && Injective(ids)
    ensures CountOf(PlanOf(lib, route, candidates, ids).assignments, Assigned) == Min(route.capacity, ReadyCount(route, candidates, |candidates|))
  {
    var plan := PlanOf(lib, route, candidates, ids);
    DraftCounts(lib, route, candidates, |candidates|, ids);
    forall i | 0 <= i < |candidates|
      ensures plan.assignments[i].status == StatusOf(route, candidates, i)
    {
      AssignedBoard(lib, route, candidates, ids, i);
    }
    CountMatches(route, candidates, plan.assignments, |candidates|);
    TakenCount(route, candidates, |candidates|);
  }

  function OverflowAmong(route: Route, candidates: seq<Candidate>, n: nat): nat
    requires n <= |candidates|
  {
    if n == 0 then 0
    else OverflowAmong(route, candidates, n - 1) + if StatusOf(route, candidates, n - 1) == Overflow then 1 else 0
  }

  /** Who is ready is either taken or left over. */
  lemma {:induction false} ReadySplits(route: Route, candidates: seq<Candidate>, n: nat)
    requires n <= |candidates|
    ensures ReadyCount(route, candidates, n) == AssignedAmong(route, candidates, n) + OverflowAmong(route, candidates, n)
  {
    if n > 0 {
      ReadySplits(route, candidates, n - 1);
    }
  }

  lemma {:induction false} OverflowMatches(route: Route, candidates: seq<Candidate>, assignments: seq<Assignment>, n: nat)
    requires n <= |candidates| && |assignments| == n && forall i | 0 <= i < n :: assignments[i].status == StatusOf(route, candidates, i)
    ensures CountOf(assignments, Overflow) == OverflowAmong(route, candidates, n)
  {
    if n > 0 {
      OverflowMatches(route, candidates, assignments[..n - 1], n - 1);
    }
  }

  /** Who is active, registered and documented is taken or left over for lack of room; everybody else is pending. */
  lemma TakenOrLeftOverIff(route: Route, candidates: seq<Candidate>, i: nat)
    requires i < |candidates|
    ensures StatusOf(route, candidates, i) in {Assigned, Overflow}
       <==> candidates[i].active && candidates[i].registered
            && (route.requiresDocumentation ==> forall code | code in route.requiredDocuments :: code in candidates[i].documents)
  {
    ReadyIff(route, candidates[i]);
  }

  /** The overflow that a plan reports is what is ready beyond the passengers taken, and so beyond the capacity. */
  lemma PlanOverflows(lib: Library, route: Route, candidates: seq<Candidate>, ids: nat -> string)
    requires ValidTime(route.arrival)
    ensures var ready := ReadyCount(route, candidates, |candidates|);
            && PlanOf(lib, route, candidates, ids).overflow == ready - Min(route.capacity, ready)
            && (PlanOf(lib, route, candidates, ids).overflow > 0 <==> ready > route.capacity)
  {
    var d := DraftOf(lib, route, candidates, |candidates|, ids);
    DraftCounts(lib, route, candidates, |candidates|, ids);
    forall i | 0 <= i < |candidates|
      ensures d.assignments[i].status == StatusOf(route, candidates, i)
    {
      AssignmentPlaced(lib, route, candidates, i, |candidates|, ids);
    }
    OverflowMatches(route, candidates, d.assignments, |candidates|);
    TakenCount(route, candidates, |candidates|);
    ReadySplits(route, candidates, |candidates|);
  }

  // ---- The timetable of a plan --------------------------------------------------------------------

  lemma {:induction false} MetresPositive(lib: Library, locations: seq<Option<Coordinate>>)
    requires forall a, b :: lib.distance(a, b) >= 0.0
    ensures Metres(lib, locations) >= 0.0
  {
    if |locations| >= 2 {
      MetresPositive(lib, locations[..|locations| - 1]);
    }
  }

  lemma RoundPositive(x: real)
    requires x >= 0.0
    ensures Round(x) >= 0
  {
  }

  /** Stops have times in their order, between the departure and three minutes before the arrival. */
  lemma StopsOnTime(lib: Library, route: Route, candidates: seq<Candidate>, ids: nat -> string, k: nat)
    requires ValidTime(route.arrival) && (forall a, b :: lib.distance(a, b) >= 0.0)
    requires k < |PlanOf(lib, route, candidates, ids).points|
    ensures var plan := PlanOf(lib, route, candidates, ids); var n := |plan.points|;
            var departure := Minutes(route.arrival) - plan.durationMinutes; var at := StopMinutes(departure, plan.durationMinutes, k, n);
            && plan.points[k].scheduledTime == Some(Time(at))
            && departure <= Round(at) <= Minutes(route.arrival) - 3
            && (k + 1 < n ==> Round(at) <= Round(StopMinutes(departure, plan.durationMinutes, k + 1, n)))
  {
    var ordered := FinalOrder(lib, route, candidates, ids);
    MetresPositive(lib, Locations(route, ordered));
    RoundPositive(Metres(lib, Locations(route, ordered)) / 1000.0 * 1000.0);
    StopsInTime(route.arrival, Kilometres(lib, Locations(route, ordered)), k, |ordered|);
  }
}
