/** The route planner: who boards where, in which order and when. */
module RoutePlan {
  import opened Wrappers
  import opened RouteTimes
  import opened RouteOrder

  datatype Candidate = Candidate(
    id: string,
    active: bool,
    registered: bool,
    openIssues: seq<string>,
    documents: set<string>, // the types of documents that carry data
    accessibilityRequired: bool,
    residence: Address,
    companyPoint: Option<Address>,
    fixedPointId: Option<string>)

  datatype Route = Route(
    origin: Address,
    destination: Address,
    capacity: nat,
    maxWalking: nat,
    requiresDocumentation: bool,
    requiredDocuments: seq<string>,
    arrival: string)

  /** Distances between positions, coordinates cut to six decimals, and lower case. */
  datatype Library = Library(distance: Distance, fixed: real -> string, lower: string -> string)

  datatype Status = PendingData | PendingDocuments | Overflow | Assigned

  datatype Warning =
    | OpenIssue(reason: string)
    | MissingDocuments(codes: seq<string>)
    | CapacityExceeded
    | FarCompanyPoint(walk: int)
    | NoCoordinates
    | AccessibilityPriority

  datatype Assignment = Assignment(
    passengerId: string,
    pointId: Option<string>,
    status: Status,
    walking: Option<int>,
    boardingOrder: Option<nat>,
    origin: PointOrigin,
    warnings: seq<Warning>)

  datatype Plan = Plan(points: seq<Point>, assignments: seq<Assignment>, durationMinutes: int, overflow: nat)

  function PointKey(lib: Library, a: Address): string {
    match a.coordinates
    case Some(c) => lib.fixed(c.latitude) + ":" + lib.fixed(c.longitude)
    case None => lib.lower(a.street + "|" + a.number + "|" + a.district + "|" + a.postalCode)
  }

  // ---- Who can be taken -------------------------------------------------------------------

  predicate Eligible(p: Candidate) {
    p.active && p.registered
  }

  function Missing(required: seq<string>, available: set<string>): seq<string> {
    if required == [] then []
    else (if required[0] in available then [] else [required[0]]) + Missing(required[1..], available)
  }

  function MissingFor(route: Route, p: Candidate): seq<string> {
    if route.requiresDocumentation then Missing(route.requiredDocuments, p.documents) else []
  }

  predicate Ready(route: Route, p: Candidate) {
    Eligible(p) && MissingFor(route, p) == []
  }

  lemma {:induction false} NothingMissing(required: seq<string>, available: set<string>)
    ensures Missing(required, available) == [] <==> forall code | code in required :: code in available
  {
    if required != [] {
      NothingMissing(required[1..], available);
      assert required == [required[0]] + required[1..];
    }
  }

  /** Ready is who is active and registered and, where documents are required, has every one of them. */
  lemma ReadyIff(route: Route, p: Candidate)
    ensures Ready(route, p)
       <==> p.active && p.registered && (route.requiresDocumentation ==> forall code | code in route.requiredDocuments :: code in p.documents)
  {
    NothingMissing(route.requiredDocuments, p.documents);
  }

  // ---- Where one passenger boards ------------------------------------------------------------

  datatype Choice = Choice(address: Address, fixedPointId: Option<string>, origin: PointOrigin, walking: Option<int>, warnings: seq<Warning>)

  predicate WithinReach(lib: Library, route: Route, from: Coordinate, point: Point) {
    point.origin == Agent && Where(point).Some? && lib.distance(from, Where(point).value) <= route.maxWalking as real
  }

  function FindShared(lib: Library, route: Route, from: Coordinate, points: seq<Point>): Option<Point> {
    if points == [] then None
    else if WithinReach(lib, route, from, points[0]) then Some(points[0])
    else FindShared(lib, route, from, points[1..])
  }

  function FindKey(lib: Library, points: seq<Point>, key: string): Option<Point> {
    if points == [] then None
    else if PointKey(lib, points[0].address) == key then Some(points[0])
    else FindKey(lib, points[1..], key)
  }

  function CompanyChoice(lib: Library, route: Route, p: Candidate, place: Address): Choice {
    if p.residence.coordinates.Some? && place.coordinates.Some? then
      var walk := Round(lib.distance(p.residence.coordinates.value, place.coordinates.value));
      Choice(place, p.fixedPointId, Company, Some(walk), if walk > route.maxWalking then [FarCompanyPoint(walk)] else [])
    else Choice(place, p.fixedPointId, Company, None, [])
  }

  /** Passengers with a company point keep it; others may walk to a point that an earlier one opened. */
  function Choose(lib: Library, route: Route, points: seq<Point>, p: Candidate): Choice {
    match p.companyPoint
    case Some(place) => CompanyChoice(lib, route, p, place)
    case None =>
      if !p.accessibilityRequired && route.maxWalking > 0 then
        match p.residence.coordinates
        case None => Choice(p.residence, None, Agent, None, [NoCoordinates])
        case Some(home) =>
          match FindShared(lib, route, home, points)
          case None => Choice(p.residence, None, Agent, None, [])
          case Some(shared) =>
            Choice(shared.address, shared.fixedPointId, Agent, if Where(shared).Some? then Some(Round(lib.distance(home, Where(shared).value))) else None, [])
      else Choice(p.residence, None, Agent, None, if p.accessibilityRequired then [AccessibilityPriority] else [])
  }

  // ---- The draft ------------------------------------------------------------------------------

  /** Points in the order in which they were opened, and the assignments so far. */
  datatype Draft = Draft(points: seq<Point>, assignments: seq<Assignment>, assignedCount: nat)

  function Leave(d: Draft, p: Candidate, status: Status, warnings: seq<Warning>): Draft {
    d.(assignments := d.assignments + [Assignment(p.id, None, status, None, None, Agent, warnings)])
  }

  function Take(lib: Library, route: Route, d: Draft, p: Candidate, newId: string): Draft {
    var choice := Choose(lib, route, d.points, p);
    var existing := FindKey(lib, d.points, PointKey(lib, choice.address));
    var point := existing.GetOr(Point(newId, choice.fixedPointId, |d.points| + 1, choice.address, choice.origin, None));
    Draft(
      if existing.Some? then d.points else d.points + [point],
      d.assignments + [Assignment(p.id, Some(point.id), Assigned, choice.walking, Some(d.assignedCount + 1), point.origin, choice.warnings)],
      d.assignedCount + 1)
  }

  function Reasons(issues: seq<string>): seq<Warning> {
    seq(|issues|, i requires 0 <= i < |issues| => OpenIssue(issues[i]))
  }

  function Next(lib: Library, route: Route, d: Draft, p: Candidate, newId: string): Draft {
    if !Eligible(p) then Leave(d, p, PendingData, Reasons(p.openIssues))
    else if MissingFor(route, p) != [] then Leave(d, p, PendingDocuments, [MissingDocuments(MissingFor(route, p))])
    else if d.assignedCount >= route.capacity then Leave(d, p, Overflow, [CapacityExceeded])
    else Take(lib, route, d, p, newId)
  }

  /** The draft after the first `n` candidates; `ids` gives a new point its id. */
  function DraftOf(lib: Library, route: Route, candidates: seq<Candidate>, n: nat, ids: nat -> string): Draft
    requires n <= |candidates|
  {
    if n == 0 then Draft([], [], 0)
    else
      var d := DraftOf(lib, route, candidates, n - 1, ids);
      Next(lib, route, d, candidates[n - 1], ids(|d.points|))
  }

  // ---- The plan ----------------------------------------------------------------------------------

  function SequenceOf(points: seq<Point>, id: string): Option<nat> {
    if points == [] then None
    else if points[0].id == id then Some(points[0].sequence)
    else SequenceOf(points[1..], id)
  }

  function Boarded(ordered: seq<Point>, a: Assignment): Assignment {
    a.(boardingOrder := if a.pointId.Some? then SequenceOf(ordered, a.pointId.value) else None)
  }

  function AllBoarded(ordered: seq<Point>, assignments: seq<Assignment>): (r: seq<Assignment>)
    ensures |r| == |assignments|
  {
    seq(|assignments|, i requires 0 <= i < |assignments| => Boarded(ordered, assignments[i]))
  }

  function Scheduled(points: seq<Point>, departure: int, duration: int): (r: seq<Point>)
    ensures |r| == |points|
  {
    seq(|points|, i requires 0 <= i < |points| => points[i].(scheduledTime := Some(Time(StopMinutes(departure, duration, i, |points|)))))
  }

  function CountOf(assignments: seq<Assignment>, status: Status): nat {
    if assignments == [] then 0
    else CountOf(assignments[..|assignments| - 1], status) + if assignments[|assignments| - 1].status == status then 1 else 0
  }

  function PlanFrom(lib: Library, route: Route, d: Draft, kilometres: real): Plan
    requires ValidTime(route.arrival)
  {
    var ordered := Ordered(lib.distance, route.origin, d.points);
    var duration := Duration(kilometres, |ordered|);
    Plan(
      Scheduled(ordered, Departure(route.arrival, duration), duration),
      AllBoarded(ordered, d.assignments),
      duration,
      CountOf(d.assignments, Overflow))
  }

  /** The length of the way out, summed over the known positions and rounded to metres. */
  function Kilometres(lib: Library, locations: seq<Option<Coordinate>>): real {
    Round(Metres(lib, locations) / 1000.0 * 1000.0) as real / 1000.0
  }

  function Metres(lib: Library, locations: seq<Option<Coordinate>>): real {
    if |locations| < 2 then 0.0
    else
      var n := |locations|;
      Metres(lib, locations[..n - 1])
      + if locations[n - 2].Some? && locations[n - 1].Some? then lib.distance(locations[n - 2].value, locations[n - 1].value) else 0.0
  }

  function Locations(route: Route, points: seq<Point>): seq<Option<Coordinate>> {
    [route.origin.coordinates] + seq(|points|, i requires 0 <= i < |points| => Where(points[i])) + [route.destination.coordinates]
  }

  function PlanOf(lib: Library, route: Route, candidates: seq<Candidate>, ids: nat -> string): Plan
    requires ValidTime(route.arrival)
  {
    var d := DraftOf(lib, route, candidates, |candidates|, ids);
    PlanFrom(lib, route, d, Kilometres(lib, Locations(route, Ordered(lib.distance, route.origin, d.points))))
  }

  method Calculate(lib: Library, route: Route, candidates: seq<Candidate>, ids: nat -> string) returns (plan: Plan)
    requires ValidTime(route.arrival)
    ensures plan == PlanOf(lib, route, candidates, ids)
  {
    var draft := Draft([], [], 0);
    for index := 0 to |candidates|
      invariant draft == DraftOf(lib, route, candidates, index, ids)
    {
      draft := Next(lib, route, draft, candidates[index], ids(|draft.points|));
    }
    var ordered := OrderPoints(lib.distance, route.origin, draft.points);
    var assignments := SetBoardingOrders(ordered, draft.assignments);
    var kilometres := RouteDistance(lib, Locations(route, ordered));
    var duration := Duration(kilometres, |ordered|);
    var points := Schedule(ordered, Departure(route.arrival, duration), duration);
    plan := Plan(points, assignments, duration, CountOf(draft.assignments, Overflow));
  }

  method SetBoardingOrders(ordered: seq<Point>, assignments: seq<Assignment>) returns (result: seq<Assignment>)
    ensures result == AllBoarded(ordered, assignments)
  {
    result := assignments;
    for index := 0 to |assignments|
      invariant result == AllBoarded(ordered, assignments)[..index] + assignments[index..]
    {
      result := result[index := Boarded(ordered, result[index])];
    }
  }

  method RouteDistance(lib: Library, locations: seq<Option<Coordinate>>) returns (kilometres: real)
    requires |locations| > 0
    ensures kilometres == Kilometres(lib, locations)
  {
    var metres := 0.0;
    for index := 1 to |locations|
      invariant metres == Metres(lib, locations[..index])
    {
      var previous, current := locations[index - 1], locations[index];
      assert locations[..index + 1][..index] == locations[..index];
      if previous.Some? && current.Some? {
        metres := metres + lib.distance(previous.value, current.value);
      }
    }
    assert locations[..|locations|] == locations;
    kilometres := Round(metres / 1000.0 * 1000.0) as real / 1000.0;
  }

  method Schedule(points: seq<Point>, departure: int, duration: int) returns (result: seq<Point>)
    ensures result == Scheduled(points, departure, duration)
  {
    result := points;
    for index := 0 to |points|
      invariant result == Scheduled(points, departure, duration)[..index] + points[index..]
    {
      result := result[index := result[index].(scheduledTime := Some(Time(StopMinutes(departure, duration, index, |points|))))];
    }
  }
}
