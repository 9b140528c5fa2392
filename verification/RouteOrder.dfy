/** The order in which the points of a route are served: always the nearest point next. */
module RouteOrder {
  import opened Wrappers

  datatype Coordinate = Coordinate(latitude: real, longitude: real)

  datatype Address = Address(
    title: string,
    street: string,
    number: string,
    district: string,
    postalCode: string,
    coordinates: Option<Coordinate>)

  datatype PointOrigin = Agent | Company

  datatype Point = Point(
    id: string,
    fixedPointId: Option<string>,
    sequence: nat,
    address: Address,
    origin: PointOrigin,
    scheduledTime: Option<string>)

  type Distance = (Coordinate, Coordinate) -> real

  function Where(p: Point): Option<Coordinate> {
    p.address.coordinates
  }

  function Without(points: seq<Point>, i: nat): seq<Point>
    requires i < |points|
  {
    points[..i] + points[i + 1..]
  }

  // ---- One choice ----------------------------------------------------------------------

  /** Among the first `n` points, the first one that is nearest, with its distance. */
  function Best(distance: Distance, from: Coordinate, points: seq<Point>, n: nat): Option<(nat, real)>
    requires n <= |points|
  {
    if n == 0 then None
    else
      var best := Best(distance, from, points, n - 1);
      if Where(points[n - 1]).None? then best
      else
        var d := distance(from, Where(points[n - 1]).value);
        if best.None? || d < best.value.1 then Some((n - 1, d)) else best
  }

  function Pick(distance: Distance, cursor: Option<Coordinate>, points: seq<Point>): (i: nat)
    requires |points| > 0
    ensures i < |points|
  {
    if cursor.None? then 0
    else
      BestBounds(distance, cursor.value, points, |points|);
      match Best(distance, cursor.value, points, |points|)
      case None => 0
      case Some(best) => best.0
  }

  lemma {:induction false} BestBounds(distance: Distance, from: Coordinate, points: seq<Point>, n: nat)
    requires n <= |points|
    ensures var best := Best(distance, from, points, n);
            && (best.None? <==> forall i | 0 <= i < n :: Where(points[i]).None?)
            && (best.Some? ==> best.value.0 < n && Where(points[best.value.0]).Some?
                               && best.value.1 == distance(from, Where(points[best.value.0]).value))
  {
    if n > 0 {
      BestBounds(distance, from, points, n - 1);
    }
  }

  lemma {:induction false} BestIsNearest(distance: Distance, from: Coordinate, points: seq<Point>, n: nat, j: nat)
    requires j < n <= |points| && Where(points[j]).Some?
    ensures var best := Best(distance, from, points, n);
            best.Some? && best.value.1 <= distance(from, Where(points[j]).value)
            && (best.value.1 == distance(from, Where(points[j]).value) ==> best.value.0 <= j)
  {
    BestBounds(distance, from, points, n);
    BestBounds(distance, from, points, n - 1);
    if j < n - 1 {
      BestIsNearest(distance, from, points, n - 1, j);
    }
  }

  /** The chosen point is the nearest with a position; without a known position, the first is chosen. */
  ghost predicate Nearest(distance: Distance, cursor: Option<Coordinate>, points: seq<Point>, i: nat)
    requires i < |points|
  {
    if cursor.None? || forall j | 0 <= j < |points| :: Where(points[j]).None? then i == 0
    else
      && Where(points[i]).Some?
      && forall j | 0 <= j < |points| && Where(points[j]).Some? ::
           NoFarther(distance, cursor.value, Where(points[i]).value, Where(points[j]).value, i <= j)
  }

  /** `near` is at most as far as `other`, and nearer unless it comes first. */
  predicate NoFarther(distance: Distance, from: Coordinate, near: Coordinate, other: Coordinate, first: bool) {
    distance(from, near) < distance(from, other) || (distance(from, near) == distance(from, other) && first)
  }

  lemma PickIsNearest(distance: Distance, cursor: Option<Coordinate>, points: seq<Point>)
    requires |points| > 0
    ensures Nearest(distance, cursor, points, Pick(distance, cursor, points))
  {
    if cursor.Some? {
      BestBounds(distance, cursor.value, points, |points|);
      forall j | 0 <= j < |points| && Where(points[j]).Some?
        ensures var best := Best(distance, cursor.value, points, |points|);
                best.Some? && NoFarther(distance, cursor.value, Where(points[best.value.0]).value, Where(points[j]).value, best.value.0 <= j)
      {
        BestIsNearest(distance, cursor.value, points, |points|, j);
      }
    }
  }

  // ---- The whole order -------------------------------------------------------------------

  function Greedy(distance: Distance, cursor: Option<Coordinate>, points: seq<Point>): (r: seq<Point>)
    ensures |r| == |points|
    decreases |points|
  {
    if points == [] then []
    else
      var i := Pick(distance, cursor, points);
      [points[i]] + Greedy(distance, Where(points[i]).Or(cursor), Without(points, i))
  }

  function Numbered(points: seq<Point>): (r: seq<Point>)
    ensures |r| == |points|
  {
    seq(|points|, i requires 0 <= i < |points| => points[i].(sequence := i + 1))
  }

  function Ordered(distance: Distance, origin: Address, points: seq<Point>): seq<Point> {
    Numbered(Greedy(distance, origin.coordinates, points))
  }

  lemma GreedyStep(distance: Distance, cursor: Option<Coordinate>, remaining: seq<Point>, ordered: seq<Point>)
    requires |remaining| > 0
    ensures var i := Pick(distance, cursor, remaining);
            ordered + Greedy(distance, cursor, remaining)
            == ordered + [remaining[i]] + Greedy(distance, Where(remaining[i]).Or(cursor), Without(remaining, i))
  {
  }

  method OrderPoints(distance: Distance, origin: Address, points: seq<Point>) returns (ordered: seq<Point>)
    ensures ordered == Ordered(distance, origin, points)
  {
    var remaining := points;
    ordered := [];
    var cursor := origin.coordinates;
    while |remaining| > 0
      invariant ordered + Greedy(distance, cursor, remaining) == Greedy(distance, origin.coordinates, points)
      decreases |remaining|
    {
      var selectedIndex := SelectIndex(distance, cursor, remaining);
      var selected := remaining[selectedIndex];
      GreedyStep(distance, cursor, remaining, ordered);
      remaining := Without(remaining, selectedIndex);
      ordered := ordered + [selected];
      cursor := Where(selected).Or(cursor);
    }
    ordered := Renumber(ordered);
  }

  method Renumber(points: seq<Point>) returns (ordered: seq<Point>)
    ensures ordered == Numbered(points)
  {
    ordered := points;
    for index := 0 to |points|
      invariant ordered == Numbered(points)[..index] + points[index..]
    {
      ordered := ordered[index := ordered[index].(sequence := index + 1)];
    }
  }

  method SelectIndex(distance: Distance, cursor: Option<Coordinate>, remaining: seq<Point>) returns (selectedIndex: nat)
    requires |remaining| > 0
    ensures selectedIndex == Pick(distance, cursor, remaining)
  {
    selectedIndex := 0;
    if cursor.Some? {
      var selectedDistance: Option<real> := None;
      for index := 0 to |remaining|
        invariant Best(distance, cursor.value, remaining, index)
               == if selectedDistance.None? then None else Some((selectedIndex, selectedDistance.value))
        invariant selectedDistance.None? ==> selectedIndex == 0
      {
        if Where(remaining[index]).Some? {
          var d := distance(cursor.value, Where(remaining[index]).value);
          if selectedDistance.None? || d < selectedDistance.value {
            selectedDistance := Some(d);
            selectedIndex := index;
          }
        }
      }
    }
  }

  // ---- What the order is -------------------------------------------------------------------

  lemma WithoutKeepsOthers(points: seq<Point>, i: nat)
    requires i < |points|
    ensures multiset(points) == multiset(Without(points, i)) + multiset{points[i]}
  {
    assert points == points[..i] + [points[i]] + points[i + 1..];
  }

  /** Every point is served exactly once. */
  lemma {:induction false} GreedyIsPermutation(distance: Distance, cursor: Option<Coordinate>, points: seq<Point>)
    ensures multiset(Greedy(distance, cursor, points)) == multiset(points)
    decreases |points|
  {
    if points != [] {
      var i := Pick(distance, cursor, points);
      WithoutKeepsOthers(points, i);
      GreedyIsPermutation(distance, Where(points[i]).Or(cursor), Without(points, i));
    }
  }

  /** The last known position before stop `k`. */
  function LastKnown(start: Option<Coordinate>, ordered: seq<Point>, k: nat): Option<Coordinate>
    requires k <= |ordered|
  {
    if k == 0 then start else Where(ordered[k - 1]).Or(LastKnown(start, ordered, k - 1))
  }

  lemma {:induction false} LastKnownTail(start: Option<Coordinate>, first: Point, others: seq<Point>, k: nat)
    requires k <= |others|
    ensures LastKnown(start, [first] + others, k + 1) == LastKnown(Where(first).Or(start), others, k)
  {
    if k == 0 {
      assert LastKnown(start, [first] + others, 0) == start;
    } else {
      LastKnownTail(start, first, others, k - 1);
    }
  }

  /** `near` is served now: no `later` stop with a position is nearer, and one without a position only comes when none has one. */
  predicate ServedFirst(distance: Distance, from: Coordinate, near: Point, later: Point) {
    Where(later).Some? ==> Where(near).Some? && distance(from, Where(near).value) <= distance(from, Where(later).value)
  }

  lemma NearestIsServed(distance: Distance, from: Coordinate, points: seq<Point>, i: nat, m: nat)
    requires i < |points| && m < |points| && Nearest(distance, Some(from), points, i)
    ensures ServedFirst(distance, from, points[i], points[m])
  {
    if Where(points[m]).Some? {
      assert NoFarther(distance, from, Where(points[i]).value, Where(points[m]).value, i <= m);
    }
  }

  lemma LaterComesFromOthers(distance: Distance, cursor: Option<Coordinate>, points: seq<Point>, j: nat) returns (m: nat)
    requires 0 < j < |points|
    ensures m < |points| && Greedy(distance, cursor, points)[j] == points[m]
  {
    GreedyIsPermutation(distance, cursor, points);
    var later := Greedy(distance, cursor, points)[j];
    assert later in multiset(Greedy(distance, cursor, points));
    assert later in points;
    m :| 0 <= m < |points| && points[m] == later;
  }

  lemma FirstIsNearest(distance: Distance, cursor: Option<Coordinate>, points: seq<Point>, j: nat)
    requires 0 < j < |points|
    ensures var r := Greedy(distance, cursor, points);
            cursor.Some? ==> ServedFirst(distance, cursor.value, r[0], r[j])
  {
    if cursor.Some? {
      var m := LaterComesFromOthers(distance, cursor, points, j);
      PickIsNearest(distance, cursor, points);
      NearestIsServed(distance, cursor.value, points, Pick(distance, cursor, points), m);
    }
  }

  /** In this order, stop `k` is served before stop `j` for a reason. */
  ghost predicate InOrder(distance: Distance, start: Option<Coordinate>, ordered: seq<Point>, k: nat, j: nat)
    requires k < j < |ordered|
  {
    var from := LastKnown(start, ordered, k);
    from.Some? ==> ServedFirst(distance, from.value, ordered[k], ordered[j])
  }

  lemma TailInOrder(distance: Distance, start: Option<Coordinate>, first: Point, others: seq<Point>, k: nat, j: nat)
    requires k < j < |others| && InOrder(distance, Where(first).Or(start), others, k, j)
    ensures InOrder(distance, start, [first] + others, k + 1, j + 1)
  {
    LastKnownTail(start, first, others, k);
  }

  /** Every stop is nearest to the last known position, among it and the stops after it. */
  lemma {:induction false} EachIsNearest(distance: Distance, cursor: Option<Coordinate>, points: seq<Point>, k: nat, j: nat)
    requires k < j < |points|
    ensures InOrder(distance, cursor, Greedy(distance, cursor, points), k, j)
    decreases |points|
  {
    if k == 0 {
      FirstIsNearest(distance, cursor, points, j);
    } else {
      var i := Pick(distance, cursor, points);
      var next, others := Where(points[i]).Or(cursor), Without(points, i);
      EachIsNearest(distance, next, others, k - 1, j - 1);
      TailInOrder(distance, cursor, points[i], Greedy(distance, next, others), k - 1, j - 1);
    }
  }
}
