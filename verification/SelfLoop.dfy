/** The orthogonal self-loop: its waypoints, its rounded path and its label anchor, over exact numbers. */
module SelfLoop {
  import opened Sequences
  import opened StateMachine
  import opened StateMachineFlow

  // ---------------------------------------------------------------- waypoints

  const SELF_LOOP_SPAN_X: real := 120.0
  const SELF_LOOP_SPAN_Y: real := 60.0

  /** The outward unit normal of a side; y grows downward. */
  function Normal(s: Side): Point {
    match s
    case Top => Point(0.0, -1.0)
    case Right => Point(1.0, 0.0)
    case Bottom => Point(0.0, 1.0)
    case Left => Point(-1.0, 0.0)
  }

  /** `d` along the normal of a side. */
  function Step(p: Point, s: Side, d: real): Point {
    match s
    case Top => Point(p.x, p.y - d)
    case Right => Point(p.x + d, p.y)
    case Bottom => Point(p.x, p.y + d)
    case Left => Point(p.x - d, p.y)
  }

  /** How far a point lies along the normal of a side. */
  function Along(p: Point, s: Side): real {
    match s
    case Top => -p.y
    case Right => p.x
    case Bottom => p.y
    case Left => -p.x
  }

  predicate IsVertical(s: Side) { s == Top || s == Bottom }

  predicate Adjacent(s: Side, t: Side) { IsVertical(s) != IsVertical(t) }

  predicate Opposite(s: Side, t: Side) { s != t && !Adjacent(s, t) }

  function Dot(p: Point, q: Point): real { p.x * q.x + p.y * q.y }

  /** A step and a projection are those of the unit normal. */
  lemma SidesAreNormals(p: Point, s: Side, d: real)
    ensures Step(p, s, d) == Point(p.x + Normal(s).x * d, p.y + Normal(s).y * d)
    ensures Along(p, s) == Dot(p, Normal(s))
  {
    match s {
      case Top =>
      case Right =>
      case Bottom =>
      case Left =>
    }
  }

  /** The lateral side is the side of the normal turned by a quarter. */
  lemma LateralIsTurned(s: Side)
    ensures Normal(Lateral(s)) == Point(Normal(s).y, -Normal(s).x)
  {}

  lemma AlongNormals(s: Side, t: Side)
    ensures Along(Normal(t), s) == if Adjacent(s, t) then 0.0 else if s == t then 1.0 else -1.0
  {}

  /** The product of two normals tells the three kinds of pairs apart. */
  lemma PairsByNormals(s: Side, t: Side)
    ensures Dot(Normal(t), Normal(s)) == if Adjacent(s, t) then 0.0 else if s == t then 1.0 else -1.0
  {
    hide *;
    AlongNormals(s, t);
    SidesAreNormals(Normal(t), s, 0.0);
  }

  /** The normal rotated a quarter turn. */
  function Lateral(s: Side): Side {
    match s
    case Top => Left
    case Right => Top
    case Bottom => Right
    case Left => Bottom
  }

  function MaxReal(a: real, b: real): real { if a < b then b else a }

  function MinReal(a: real, b: real): real { if a < b then a else b }

  /** How far past the handle a crossing run lies: half the measured card and the offset, or a fixed fallback. */
  function Span(lateral: Side, offset: real, width: Option<real>, height: Option<real>): real {
    var crossed := if IsVertical(lateral) then height else width;
    if crossed.Some? && crossed.value > 0.0 then crossed.value / 2.0 + offset
    else if IsVertical(lateral) then SELF_LOOP_SPAN_Y
    else SELF_LOOP_SPAN_X
  }

  function Push(p: Point, lateral: Side, line: real): Point { Step(p, lateral, line - Along(p, lateral)) }

  /** The outer corner of an adjacent pair: the source stub on its own axis, the target stub on the other. */
  function OuterCorner(a: Point, b: Point, s: Side): Point {
    if IsVertical(s) then Point(b.x, a.y) else Point(a.x, b.y)
  }

  /** An unknown side counts as right for the source and left for the target. */
  function SelfLoopPoints(source: Point, sourceSide: Option<Side>, target: Point, targetSide: Option<Side>,
    offset: real, width: Option<real>, height: Option<real>): seq<Point>
  {
    var s, t := sourceSide.Or(Right), targetSide.Or(Left);
    var a, b := Step(source, s, offset), Step(target, t, offset);
    if Adjacent(s, t) then [source, a, OuterCorner(a, b, s), b, target]
    else
      var lateral := Lateral(s);
      var line := MaxReal(Along(a, lateral), Along(b, lateral)) + Span(lateral, offset, width, height);
      if s != t then [source, a, Push(a, lateral, line), Push(b, lateral, line), b, target]
      else
        var lane := Step(b, s, offset);
        [source, a, Push(a, lateral, line), Push(lane, lateral, line), lane, target]
  }

  // ---------------------------------------------------------------- cards

  datatype Card = Card(left: real, top: real, width: real, height: real)

  predicate IsCard(c: Card) { c.width > 0.0 && c.height > 0.0 }

  /** A handle is the midpoint of its side. */
  function Handle(c: Card, s: Side): Point {
    match s
    case Top => Point(c.left + c.width / 2.0, c.top)
    case Right => Point(c.left + c.width, c.top + c.height / 2.0)
    case Bottom => Point(c.left + c.width / 2.0, c.top + c.height)
    case Left => Point(c.left, c.top + c.height / 2.0)
  }

  predicate Inside(c: Card, p: Point) {
    c.left < p.x < c.left + c.width && c.top < p.y < c.top + c.height
  }

  /** Not nearer than `d` to the card, on at least one axis. */
  predicate Clear(c: Card, p: Point, d: real) {
    || p.x <= c.left - d || p.x >= c.left + c.width + d
    || p.y <= c.top - d || p.y >= c.top + c.height + d
  }

  predicate AxisAligned(points: seq<Point>) {
    forall i :: 0 < i < |points| ==> IsLeg(points[i - 1], points[i])
  }

  predicate IsLeg(a: Point, b: Point) { a.x == b.x || a.y == b.y }

  predicate Between(u: real, v: real, t: real) { MinReal(u, v) <= t <= MaxReal(u, v) }

  /** `p` lies on the leg from `a` to `b`. */
  predicate OnLeg(a: Point, b: Point, p: Point) {
    IsLeg(a, b) && Between(a.x, b.x, p.x) && Between(a.y, b.y, p.y)
  }

  /** A leg whose ends lie beyond one face, at distance `d` or more. */
  predicate BeyondOneFace(c: Card, a: Point, b: Point, d: real) {
    || (a.x <= c.left - d && b.x <= c.left - d)
    || (a.x >= c.left + c.width + d && b.x >= c.left + c.width + d)
    || (a.y <= c.top - d && b.y <= c.top - d)
    || (a.y >= c.top + c.height + d && b.y >= c.top + c.height + d)
  }

  lemma BeyondStaysClear(c: Card, a: Point, b: Point, d: real, p: Point)
    requires BeyondOneFace(c, a, b, d) && OnLeg(a, b, p)
    ensures Clear(c, p, d)
  {}

  function LoopOf(c: Card, s: Side, t: Side, offset: real): seq<Point> {
    SelfLoopPoints(Handle(c, s), Some(s), Handle(c, t), Some(t), offset, Some(c.width), Some(c.height))
  }

  ghost predicate LegOk(c: Card, a: Point, b: Point, d: real) { IsLeg(a, b) && BeyondOneFace(c, a, b, d) }

  /** The stubs follow an axis outside their face; every other leg follows an axis, `offset` clear of the card. */
  ghost predicate LegsOk(c: Card, offset: real, points: seq<Point>) {
    && |points| >= 5
    && LegOk(c, points[0], points[1], 0.0)
    && LegOk(c, points[|points| - 2], points[|points| - 1], 0.0)
    && forall i :: 1 < i < |points| - 1 ==> LegOk(c, points[i - 1], points[i], offset)
  }

  lemma FiveLegs(c: Card, offset: real, p: Point, a: Point, k: Point, b: Point, q: Point)
    requires LegOk(c, p, a, 0.0) && LegOk(c, a, k, offset) && LegOk(c, k, b, offset) && LegOk(c, b, q, 0.0)
    ensures LegsOk(c, offset, [p, a, k, b, q])
  {
    hide LegOk;
  }

  lemma SixLegs(c: Card, offset: real, p: Point, a: Point, k: Point, l: Point, b: Point, q: Point)
    requires LegOk(c, p, a, 0.0) && LegOk(c, a, k, offset) && LegOk(c, k, l, offset) && LegOk(c, l, b, offset)
    requires LegOk(c, b, q, 0.0)
    ensures LegsOk(c, offset, [p, a, k, l, b, q])
  {
    hide LegOk;
  }

  lemma AdjacentLegs(c: Card, s: Side, t: Side, offset: real)
    requires IsCard(c) && offset > 0.0 && Adjacent(s, t)
    ensures
      var p, q := Handle(c, s), Handle(c, t);
      var a, b := Step(p, s, offset), Step(q, t, offset);
      var k := OuterCorner(a, b, s);
      LegOk(c, p, a, 0.0) && LegOk(c, a, k, offset) && LegOk(c, k, b, offset) && LegOk(c, b, q, 0.0)
  {}

  /** The line of the crossing run of a measured card: `offset` beyond the face on the lateral side. */
  lemma CrossingLine(c: Card, s: Side, t: Side, offset: real)
    requires IsCard(c) && offset > 0.0 && !Adjacent(s, t)
    ensures
      var a, b := Step(Handle(c, s), s, offset), Step(Handle(c, t), t, offset);
      MaxReal(Along(a, Lateral(s)), Along(b, Lateral(s))) + Span(Lateral(s), offset, Some(c.width), Some(c.height))
        == Along(Handle(c, Lateral(s)), Lateral(s)) + offset
  {}

  lemma ParallelLegs(c: Card, s: Side, t: Side, offset: real)
    requires IsCard(c) && offset > 0.0 && !Adjacent(s, t)
    ensures
      var p, q := Handle(c, s), Handle(c, t);
      var a, b := Step(p, s, offset), Step(q, t, if s == t then 2.0 * offset else offset);
      var line := Along(Handle(c, Lateral(s)), Lateral(s)) + offset;
      var k, l := Push(a, Lateral(s), line), Push(b, Lateral(s), line);
      && LegOk(c, p, a, 0.0) && LegOk(c, a, k, offset) && LegOk(c, k, l, offset) && LegOk(c, l, b, offset)
      && LegOk(c, b, q, 0.0)
  {}

  /** The loop of a measured card in terms of its handles. */
  function Shape(c: Card, s: Side, t: Side, offset: real): seq<Point> {
    var p, q := Handle(c, s), Handle(c, t);
    var a := Step(p, s, offset);
    if Adjacent(s, t) then
      var b := Step(q, t, offset);
      [p, a, OuterCorner(a, b, s), b, q]
    else
      var b := Step(q, t, if s == t then 2.0 * offset else offset);
      var line := Along(Handle(c, Lateral(s)), Lateral(s)) + offset;
      [p, a, Push(a, Lateral(s), line), Push(b, Lateral(s), line), b, q]
  }

  lemma StepTwice(p: Point, s: Side, d: real)
    ensures Step(Step(p, s, d), s, d) == Step(p, s, 2.0 * d)
  {}

  lemma LoopShape(c: Card, s: Side, t: Side, offset: real)
    requires IsCard(c) && offset > 0.0
    ensures LoopOf(c, s, t, offset) == Shape(c, s, t, offset)
  {
    if !Adjacent(s, t) {
      CrossingLine(c, s, t, offset);
    }
    StepTwice(Handle(c, t), s, offset);
    hide Step, Handle, Along, Span, Lateral, MaxReal, Push, OuterCorner, Adjacent;
  }

  /** For every pair of sides of any measured card the legs of the loop are in order. */
  lemma EveryLoopIsGood(c: Card, s: Side, t: Side, offset: real)
    requires IsCard(c) && offset > 0.0
    ensures LegsOk(c, offset, LoopOf(c, s, t, offset))
  {
    hide LoopOf, Step, Handle, Along, Lateral, Push, OuterCorner, Adjacent, LegOk, LegsOk, IsCard;
    LoopShape(c, s, t, offset);
    var p, q := Handle(c, s), Handle(c, t);
    var a := Step(p, s, offset);
    if Adjacent(s, t) {
      AdjacentLegs(c, s, t, offset);
      var b := Step(q, t, offset);
      FiveLegs(c, offset, p, a, OuterCorner(a, b, s), b, q);
    } else {
      ParallelLegs(c, s, t, offset);
      var b := Step(q, t, if s == t then 2.0 * offset else offset);
      var line := Along(Handle(c, Lateral(s)), Lateral(s)) + offset;
      SixLegs(c, offset, p, a, Push(a, Lateral(s), line), Push(b, Lateral(s), line), b, q);
    }
  }

  /**
   * The loop leaves its source handle along the normal of the source side and comes into its target handle against
   * the normal of the target side, by `offset`, or twice that for the doubled stroke of a same-side loop.
   */
  lemma StubsArePerpendicular(c: Card, s: Side, t: Side, offset: real)
    requires IsCard(c) && offset > 0.0
    ensures
      var points := LoopOf(c, s, t, offset);
      && |points| >= 5
      && points[0] == Handle(c, s) && points[1] == Step(points[0], s, offset)
      && points[|points| - 1] == Handle(c, t)
      && points[|points| - 2] == Step(Handle(c, t), t, if s == t then 2.0 * offset else offset)
  {
    LoopShape(c, s, t, offset);
    hide LoopOf, Step, Handle, Along, Lateral, Push, OuterCorner;
  }

  /** A self-loop never enters the card, and off its two stubs it stays `offset` clear of it. */
  lemma LoopsAvoidTheCard(c: Card, s: Side, t: Side, offset: real, i: nat, p: Point)
    requires IsCard(c) && offset > 0.0
    requires 0 < i < |LoopOf(c, s, t, offset)|
    requires OnLeg(LoopOf(c, s, t, offset)[i - 1], LoopOf(c, s, t, offset)[i], p)
    ensures !Inside(c, p)
    ensures 1 < i < |LoopOf(c, s, t, offset)| - 1 ==> Clear(c, p, offset)
  {
    var points := LoopOf(c, s, t, offset);
    EveryLoopIsGood(c, s, t, offset);
    hide LoopOf;
    var d := if 1 < i < |points| - 1 then offset else 0.0;
    assert LegOk(c, points[i - 1], points[i], d);
    BeyondStaysClear(c, points[i - 1], points[i], d, p);
  }

  /** Between adjacent sides the loop does not depend on the measured size. */
  lemma AdjacentNeedsNoSize(c: Card, s: Side, t: Side, offset: real, width: Option<real>, height: Option<real>)
    requires Adjacent(s, t)
    ensures SelfLoopPoints(Handle(c, s), Some(s), Handle(c, t), Some(t), offset, width, height)
         == LoopOf(c, s, t, offset)
  {}

  /** Between opposite sides the crossing run lies exactly `offset` beyond the face the loop swings around. */
  lemma OppositeCrossesAtOffset(c: Card, s: Side, t: Side, offset: real)
    requires IsCard(c) && offset > 0.0 && Opposite(s, t)
    ensures
      var points := LoopOf(c, s, t, offset);
      var beyond := Along(Handle(c, Lateral(s)), Lateral(s)) + offset;
      |points| == 6 && Along(points[2], Lateral(s)) == beyond && Along(points[3], Lateral(s)) == beyond
  {
    LoopShape(c, s, t, offset);
    PushReaches(Step(Handle(c, s), s, offset), Lateral(s), Along(Handle(c, Lateral(s)), Lateral(s)) + offset);
    PushReaches(Step(Handle(c, t), t, offset), Lateral(s), Along(Handle(c, Lateral(s)), Lateral(s)) + offset);
    hide LoopOf, Step, Handle, Along, Lateral, Push, OuterCorner, Adjacent;
  }

  lemma PushReaches(p: Point, lateral: Side, line: real)
    ensures Along(Push(p, lateral, line), lateral) == line
  {}

  /** Every self-loop that is drawn by hand or by default joins adjacent sides. */
  lemma MadeLoopsAreAdjacent(o: ConnectEnd, edges: seq<FlowEdge>, from: Name)
    ensures
      var h := DefaultHandlesFor(from, from);
      h.source == Right && h.target == Lateral(h.source) && Adjacent(h.source, h.target)
    ensures
      var d := DecideConnectEnd(o, edges);
      d.SelfLoop? ==>
        && d.handles.source == o.fromHandle.Or(Right) && d.handles.target == Lateral(d.handles.source)
        && Adjacent(d.handles.source, d.handles.target)
  {
    hide RejectionMessage, IsDuplicateTransition, IsTerminalNodeId;
  }

  // ---------------------------------------------------------------- lengths

  function Abs(r: real): real { if r < 0.0 then -r else r }

  /** The length of a leg: one of the two differences is zero. */
  function Len(a: Point, b: Point): (d: real)
    ensures d >= 0.0
  {
    Abs(b.x - a.x) + Abs(b.y - a.y)
  }

  /** On a leg this is the Euclidean distance. */
  lemma LenIsDistance(a: Point, b: Point)
    requires IsLeg(a, b)
    ensures Len(a, b) * Len(a, b) == (b.x - a.x) * (b.x - a.x) + (b.y - a.y) * (b.y - a.y)
  {}

  function PathLength(points: seq<Point>): (d: real)
    ensures d >= 0.0
  {
    if |points| <= 1 then 0.0
    else PathLength(points[..|points| - 1]) + Len(points[|points| - 2], points[|points| - 1])
  }

  function Lerp(a: Point, b: Point, k: real): Point { Point(a.x + (b.x - a.x) * k, a.y + (b.y - a.y) * k) }

  /** `p` lies on leg `i`, and the path up to it is half of the whole. */
  ghost predicate HalfAt(points: seq<Point>, i: nat, p: Point) {
    && 0 < i < |points| && OnLeg(points[i - 1], points[i], p)
    && PathLength(points[..i]) + Len(points[i - 1], p) == PathLength(points) / 2.0
  }

  ghost predicate HalfWay(points: seq<Point>, p: Point) { exists i :: HalfAt(points, i, p) }

  lemma ScaledBetween(d: real, k: real)
    requires 0.0 <= k <= 1.0
    ensures Between(0.0, d, d * k) && Abs(d * k) == Abs(d) * k
  {
    if d >= 0.0 {
      ProductPositive(d, k);
      ProductPositive(d, 1.0 - k);
    } else {
      ProductPositive(-d, k);
      ProductPositive(-d, 1.0 - k);
    }
  }

  lemma ProductPositive(a: real, b: real)
    requires a >= 0.0 && b >= 0.0
    ensures a * b >= 0.0
  {}

  /** Along one axis: `k` of the way from `u` to `v`. */
  lemma LerpBetween(u: real, v: real, k: real)
    requires 0.0 <= k <= 1.0
    ensures Between(u, v, u + (v - u) * k) && Abs((v - u) * k) == Abs(v - u) * k
  {
    ScaledBetween(v - u, k);
    ShiftBetween(u, v - u, (v - u) * k);
  }

  lemma ShiftBetween(u: real, d: real, e: real)
    requires Between(0.0, d, e)
    ensures Between(u, u + d, u + e)
  {}

  lemma StandStill(u: real, v: real, k: real)
    requires u == v
    ensures (v - u) * k == 0.0 && Abs(v - u) == 0.0
  {}

  lemma LerpOnLeg(a: Point, b: Point, k: real)
    requires IsLeg(a, b) && 0.0 <= k <= 1.0
    ensures OnLeg(a, b, Lerp(a, b, k)) && Len(a, Lerp(a, b, k)) == Len(a, b) * k
  {
    var p := Lerp(a, b, k);
    LerpParts(a, b, k);
    if a.x == b.x {
      StandStill(a.x, b.x, k);
      LerpBetween(a.y, b.y, k);
      hide *;
      VerticalPart(a, b, p, k);
    } else {
      StandStill(a.y, b.y, k);
      LerpBetween(a.x, b.x, k);
      hide *;
      HorizontalPart(a, b, p, k);
    }
  }

  lemma VerticalPart(a: Point, b: Point, p: Point, k: real)
    requires a.x == b.x == p.x && Between(a.y, b.y, p.y) && Abs(p.y - a.y) == Abs(b.y - a.y) * k
    ensures OnLeg(a, b, p) && Len(a, p) == Len(a, b) * k
  {
    assert Len(a, b) == Abs(b.y - a.y) && Len(a, p) == Abs(p.y - a.y);
    hide Abs;
  }

  lemma HorizontalPart(a: Point, b: Point, p: Point, k: real)
    requires a.y == b.y == p.y && Between(a.x, b.x, p.x) && Abs(p.x - a.x) == Abs(b.x - a.x) * k
    ensures OnLeg(a, b, p) && Len(a, p) == Len(a, b) * k
  {
    assert Len(a, b) == Abs(b.x - a.x) && Len(a, p) == Abs(p.x - a.x);
    hide Abs;
  }

  lemma LerpParts(a: Point, b: Point, k: real)
    ensures Lerp(a, b, k).x == a.x + (b.x - a.x) * k && Lerp(a, b, k).y == a.y + (b.y - a.y) * k
  {}

  lemma PathGrows(points: seq<Point>, i: nat)
    requires 0 < i < |points|
    ensures PathLength(points[..i + 1]) == PathLength(points[..i]) + Len(points[i - 1], points[i])
  {
    assert points[..i + 1][..i] == points[..i];
  }

  ghost predicate LegLengths(points: seq<Point>, lengths: seq<real>) {
    |lengths| + 1 == |points| && forall i :: 0 < i < |points| ==> lengths[i - 1] == Len(points[i - 1], points[i])
  }

  method MeasureLegs(points: seq<Point>) returns (lengths: seq<real>, total: real)
    requires points != []
    ensures LegLengths(points, lengths) && total == PathLength(points)
  {
    lengths, total := [], 0.0;
    for i := 1 to |points|
      invariant |lengths| == i - 1 && total == PathLength(points[..i])
      invariant forall j :: 0 < j < i ==> lengths[j - 1] == Len(points[j - 1], points[j])
    {
      PathGrows(points, i);
      lengths := lengths + [Len(points[i - 1], points[i])];
      total := total + lengths[i - 1];
    }
    assert points[..|points|] == points;
  }

  function Fraction(walked: real, len: real, half: real): (k: real)
    requires len > 0.0 && walked < half <= walked + len
    ensures 0.0 <= k <= 1.0
  {
    (half - walked) / len
  }

  lemma FractionTimes(walked: real, len: real, half: real)
    requires len > 0.0 && walked < half <= walked + len
    ensures len * Fraction(walked, len, half) == half - walked
  {}

  lemma HalfOnLeg(points: seq<Point>, i: nat, half: real)
    requires AxisAligned(points) && 0 < i < |points| && half == PathLength(points) / 2.0
    requires
      var walked, len := PathLength(points[..i]), Len(points[i - 1], points[i]);
      len > 0.0 && walked < half <= walked + len
    ensures
      var k := Fraction(PathLength(points[..i]), Len(points[i - 1], points[i]), half);
      HalfWay(points, Lerp(points[i - 1], points[i], k))
  {
    assert IsLeg(points[i - 1], points[i]);
    var walked, len := PathLength(points[..i]), Len(points[i - 1], points[i]);
    hide *;
    LerpReaches(points[i - 1], points[i], walked, half);
    HalfAtFrom(points, i, Lerp(points[i - 1], points[i], Fraction(walked, len, half)), half);
  }

  lemma LerpReaches(a: Point, b: Point, walked: real, half: real)
    requires IsLeg(a, b) && Len(a, b) > 0.0 && walked < half <= walked + Len(a, b)
    ensures
      var p := Lerp(a, b, Fraction(walked, Len(a, b), half));
      OnLeg(a, b, p) && walked + Len(a, p) == half
  {
    hide *;
    LerpOnLeg(a, b, Fraction(walked, Len(a, b), half));
    FractionTimes(walked, Len(a, b), half);
  }

  lemma HalfAtFrom(points: seq<Point>, i: nat, p: Point, half: real)
    requires 0 < i < |points| && OnLeg(points[i - 1], points[i], p)
    requires PathLength(points[..i]) + Len(points[i - 1], p) == half && half == PathLength(points) / 2.0
    ensures HalfWay(points, p)
  {
    hide PathLength, Len, OnLeg;
    assert HalfAt(points, i, p);
  }

  /** The label anchor: the point at exactly half the length, or the first point of a path without length. */
  method PolylineMidpoint(points: seq<Point>) returns (p: Point)
    requires points != [] && AxisAligned(points)
    ensures PathLength(points) == 0.0 ==> p == points[0]
    ensures PathLength(points) > 0.0 ==> HalfWay(points, p)
  {
    hide *;
    var lengths, total := MeasureLegs(points);
    if total == 0.0 { return points[0]; }
    p := points[|points| - 1];
    PathStarts(points);
    var half := total / 2.0;
    var walked := 0.0;
    for i := 1 to |points|
      invariant walked == PathLength(points[..i]) && walked < half
    {
      LegMeasured(points, lengths, i);
      var len := lengths[i - 1];
      PathGrows(points, i);
      if len > 0.0 && walked + len >= half {
        HalfOnLeg(points, i, half);
        var k := Fraction(walked, len, half);
        return Lerp(points[i - 1], points[i], k);
      }
      walked := walked + len;
    }
    assert false;
  }

  lemma LegMeasured(points: seq<Point>, lengths: seq<real>, i: nat)
    requires LegLengths(points, lengths) && 0 < i < |points|
    ensures |lengths| + 1 == |points| && lengths[i - 1] == Len(points[i - 1], points[i])
  {}

  lemma PathStarts(points: seq<Point>)
    requires points != []
    ensures PathLength(points[..1]) == 0.0 && points[..|points|] == points
  {}

  // ---------------------------------------------------------------- the label anchor of a loop

  ghost predicate StubsShort(points: seq<Point>) {
    && |points| >= 5
    && 2.0 * Len(points[0], points[1]) < PathLength(points)
    && 2.0 * Len(points[|points| - 2], points[|points| - 1]) < PathLength(points)
  }

  lemma PathAppend(points: seq<Point>, q: Point)
    requires points != []
    ensures PathLength(points + [q]) == PathLength(points) + Len(points[|points| - 1], q)
  {
    assert (points + [q])[..|points|] == points;
  }

  lemma PathOfFive(p: Point, a: Point, k: Point, b: Point, q: Point)
    ensures PathLength([p, a, k, b, q]) == Len(p, a) + Len(a, k) + Len(k, b) + Len(b, q)
  {
    assert PathLength([p]) == 0.0;
    hide Len, PathLength;
    PathAppend([p], a);
    PathAppend([p, a], k);
    PathAppend([p, a, k], b);
    PathAppend([p, a, k, b], q);
    assert [p] + [a] == [p, a] && [p, a] + [k] == [p, a, k] && [p, a, k] + [b] == [p, a, k, b];
    assert [p, a, k, b] + [q] == [p, a, k, b, q];
  }

  lemma PathOfSix(p: Point, a: Point, k: Point, l: Point, b: Point, q: Point)
    ensures PathLength([p, a, k, l, b, q]) == Len(p, a) + Len(a, k) + Len(k, l) + Len(l, b) + Len(b, q)
  {
    hide Len, PathLength;
    PathOfFive(p, a, k, l, b);
    PathAppend([p, a, k, l, b], q);
    assert [p, a, k, l, b] + [q] == [p, a, k, l, b, q];
  }

  lemma StubsOfFive(p: Point, a: Point, k: Point, b: Point, q: Point, offset: real)
    requires Len(p, a) == offset && Len(b, q) == offset && Len(a, k) > offset && Len(k, b) > offset
    ensures StubsShort([p, a, k, b, q])
  {
    hide Len, PathLength;
    PathOfFive(p, a, k, b, q);
  }

  lemma StubsOfSix(p: Point, a: Point, k: Point, l: Point, b: Point, q: Point, offset: real)
    requires Len(p, a) == offset && offset <= Len(b, q) <= 2.0 * offset
    requires Len(a, k) > offset && Len(k, l) >= offset && Len(l, b) > offset && offset > 0.0
    ensures StubsShort([p, a, k, l, b, q])
  {
    hide Len, PathLength;
    PathOfSix(p, a, k, l, b, q);
  }

  lemma AdjacentLengths(c: Card, s: Side, t: Side, offset: real)
    requires IsCard(c) && offset > 0.0 && Adjacent(s, t)
    ensures
      var p, q := Handle(c, s), Handle(c, t);
      var a, b := Step(p, s, offset), Step(q, t, offset);
      var k := OuterCorner(a, b, s);
      Len(p, a) == offset && Len(b, q) == offset && Len(a, k) > offset && Len(k, b) > offset
  {}

  /** The lengths of a loop between parallel sides whose target stub is `stub` long. */
  ghost predicate ParallelFits(c: Card, s: Side, t: Side, offset: real, stub: real) {
    var p, q := Handle(c, s), Handle(c, t);
    var a, b := Step(p, s, offset), Step(q, t, stub);
    var line := Along(Handle(c, Lateral(s)), Lateral(s)) + offset;
    var k, l := Push(a, Lateral(s), line), Push(b, Lateral(s), line);
    Len(p, a) == offset && Len(b, q) == stub && Len(a, k) > offset && Len(l, b) > offset && Len(k, l) >= offset
  }

  lemma UprightFits(c: Card, offset: real)
    requires IsCard(c) && offset > 0.0
    ensures ParallelFits(c, Top, Bottom, offset, offset) && ParallelFits(c, Bottom, Top, offset, offset)
  {}

  lemma LevelFits(c: Card, offset: real)
    requires IsCard(c) && offset > 0.0
    ensures ParallelFits(c, Left, Right, offset, offset) && ParallelFits(c, Right, Left, offset, offset)
  {}

  lemma SameUprightFits(c: Card, offset: real)
    requires IsCard(c) && offset > 0.0
    ensures ParallelFits(c, Top, Top, offset, 2.0 * offset) && ParallelFits(c, Bottom, Bottom, offset, 2.0 * offset)
  {}

  lemma SameLevelFits(c: Card, offset: real)
    requires IsCard(c) && offset > 0.0
    ensures ParallelFits(c, Left, Left, offset, 2.0 * offset) && ParallelFits(c, Right, Right, offset, 2.0 * offset)
  {}

  lemma SameSideFits(c: Card, s: Side, offset: real)
    requires IsCard(c) && offset > 0.0
    ensures ParallelFits(c, s, s, offset, 2.0 * offset)
  {
    hide ParallelFits, IsCard;
    SameUprightFits(c, offset);
    SameLevelFits(c, offset);
  }

  lemma OppositeFits(c: Card, s: Side, t: Side, offset: real)
    requires IsCard(c) && offset > 0.0 && Opposite(s, t)
    ensures ParallelFits(c, s, t, offset, offset)
  {
    hide ParallelFits, IsCard;
    UprightFits(c, offset);
    LevelFits(c, offset);
  }

  lemma ParallelLengths(c: Card, s: Side, t: Side, offset: real)
    requires IsCard(c) && offset > 0.0 && !Adjacent(s, t)
    ensures ParallelFits(c, s, t, offset, if s == t then 2.0 * offset else offset)
  {
    hide ParallelFits, Adjacent, IsCard;
    if s == t {
      SameSideFits(c, s, offset);
    } else {
      OppositeFits(c, s, t, offset);
    }
  }

  lemma AdjacentStubs(c: Card, s: Side, t: Side, offset: real)
    requires IsCard(c) && offset > 0.0 && Adjacent(s, t)
    ensures StubsShort(Shape(c, s, t, offset))
  {
    AdjacentLengths(c, s, t, offset);
    hide Step, Handle, OuterCorner, Len, PathLength, StubsShort, IsCard, Adjacent;
    var p, q := Handle(c, s), Handle(c, t);
    var a, b := Step(p, s, offset), Step(q, t, offset);
    StubsOfFive(p, a, OuterCorner(a, b, s), b, q, offset);
  }

  lemma ParallelShape(c: Card, s: Side, t: Side, offset: real, a: Point, b: Point, line: real)
    requires !Adjacent(s, t) && a == Step(Handle(c, s), s, offset)
    requires b == Step(Handle(c, t), t, if s == t then 2.0 * offset else offset)
    requires line == Along(Handle(c, Lateral(s)), Lateral(s)) + offset
    ensures Shape(c, s, t, offset) ==
      [Handle(c, s), a, Push(a, Lateral(s), line), Push(b, Lateral(s), line), b, Handle(c, t)]
  {
    hide Step, Handle, Along, Lateral, Push, OuterCorner, Adjacent;
  }

  lemma ParallelStubs(c: Card, s: Side, t: Side, offset: real)
    requires IsCard(c) && offset > 0.0 && !Adjacent(s, t)
    ensures StubsShort(Shape(c, s, t, offset))
  {
    ParallelLengths(c, s, t, offset);
    hide Step, Handle, Along, Lateral, Push, Len, PathLength, StubsShort, IsCard, Adjacent, Shape;
    var p, q := Handle(c, s), Handle(c, t);
    var stub := if s == t then 2.0 * offset else offset;
    var a, b := Step(p, s, offset), Step(q, t, stub);
    var line := Along(Handle(c, Lateral(s)), Lateral(s)) + offset;
    ParallelShape(c, s, t, offset, a, b, line);
    StubsOfSix(p, a, Push(a, Lateral(s), line), Push(b, Lateral(s), line), b, q, offset);
  }

  lemma LoopStubsShort(c: Card, s: Side, t: Side, offset: real)
    requires IsCard(c) && offset > 0.0
    ensures StubsShort(LoopOf(c, s, t, offset))
  {
    hide *;
    LoopShape(c, s, t, offset);
    if Adjacent(s, t) {
      AdjacentStubs(c, s, t, offset);
    } else {
      ParallelStubs(c, s, t, offset);
    }
  }

  lemma PartOfLeg(a: Point, b: Point, p: Point)
    requires OnLeg(a, b, p)
    ensures Len(a, p) <= Len(a, b)
  {}

  /** When both stubs are shorter than half the path, the middle of the path is on neither. */
  lemma MiddleIsOffStubs(points: seq<Point>, i: nat, p: Point)
    requires StubsShort(points) && HalfAt(points, i, p)
    ensures 1 < i < |points| - 1
  {
    PartOfLeg(points[i - 1], points[i], p);
    PathGrows(points, i);
    assert PathLength(points[..1]) == 0.0;
    assert points[..|points|] == points;
    hide PathLength, Len, OnLeg;
  }

  /** The label of a measured self-loop is at least `offset` away from the card. */
  lemma LabelIsClear(c: Card, s: Side, t: Side, offset: real, p: Point)
    requires IsCard(c) && offset > 0.0 && HalfWay(LoopOf(c, s, t, offset), p)
    ensures Clear(c, p, offset)
  {
    var points := LoopOf(c, s, t, offset);
    hide LoopOf, Clear, Inside;
    var i: nat :| HalfAt(points, i, p);
    LoopStubsShort(c, s, t, offset);
    MiddleIsOffStubs(points, i, p);
    LoopsAvoidTheCard(c, s, t, offset, i, p);
  }

  /** Every loop has a length, so its label is the middle of the path and not its first point. */
  lemma LoopsHaveLength(c: Card, s: Side, t: Side, offset: real)
    requires IsCard(c) && offset > 0.0
    ensures PathLength(LoopOf(c, s, t, offset)) > 0.0 && AxisAligned(LoopOf(c, s, t, offset))
  {
    LoopStubsShort(c, s, t, offset);
    EveryLoopIsGood(c, s, t, offset);
    hide LoopOf, PathLength, IsLeg, BeyondOneFace;
    LegsAligned(c, offset, LoopOf(c, s, t, offset));
  }

  lemma LegsAligned(c: Card, offset: real, points: seq<Point>)
    requires LegsOk(c, offset, points)
    ensures AxisAligned(points)
  {
    hide IsLeg, BeyondOneFace;
    forall i | 0 < i < |points| ensures IsLeg(points[i - 1], points[i]) {
      assert LegOk(c, points[i - 1], points[i], if 1 < i < |points| - 1 then offset else 0.0);
    }
  }

  // ---------------------------------------------------------------- rounded corners

  datatype PathCommand = MoveTo(at: Point) | LineTo(at: Point) | CurveTo(control: Point, at: Point)

  function Sign(r: real): real { if r > 0.0 then 1.0 else if r < 0.0 then -1.0 else 0.0 }

  /** The point at distance `r` from `b` towards `a`. */
  function Towards(b: Point, a: Point, r: real): Point {
    Point(b.x + Sign(a.x - b.x) * r, b.y + Sign(a.y - b.y) * r)
  }

  predicate Collinear(a: Point, b: Point, c: Point) { (a.x == b.x && b.x == c.x) || (a.y == b.y && b.y == c.y) }

  function CornerRadius(a: Point, b: Point, c: Point, radius: real): real {
    MinReal(MinReal(Len(a, b) / 2.0, Len(b, c) / 2.0), radius)
  }

  /** The radius of a corner is the greatest that `radius` and half of either leg allow. */
  lemma RadiusIsGreatest(a: Point, b: Point, c: Point, radius: real, r: real)
    ensures CornerRadius(a, b, c, radius) <= radius
    ensures 2.0 * CornerRadius(a, b, c, radius) <= Len(a, b) && 2.0 * CornerRadius(a, b, c, radius) <= Len(b, c)
    ensures r <= radius && 2.0 * r <= Len(a, b) && 2.0 * r <= Len(b, c) ==> r <= CornerRadius(a, b, c, radius)
  {
    hide Len;
  }

  predicate IsRounded(a: Point, b: Point, c: Point, radius: real) {
    !Collinear(a, b, c) && CornerRadius(a, b, c, radius) > 0.0
  }

  /** A corner is rounded exactly where two legs of some length meet at a right angle. */
  lemma RoundedExactly(a: Point, b: Point, c: Point, radius: real)
    requires IsLeg(a, b) && IsLeg(b, c) && radius > 0.0
    ensures IsRounded(a, b, c, radius) <==> a != b && b != c && (a.x == b.x <==> b.y == c.y)
  {}

  /** Where the straight part into corner `b` ends, and where the one out of it begins. */
  function EntryPoint(a: Point, b: Point, c: Point, radius: real): Point {
    if IsRounded(a, b, c, radius) then Towards(b, a, CornerRadius(a, b, c, radius)) else b
  }

  function ExitPoint(a: Point, b: Point, c: Point, radius: real): Point {
    if IsRounded(a, b, c, radius) then Towards(b, c, CornerRadius(a, b, c, radius)) else b
  }

  function CornerCommands(a: Point, b: Point, c: Point, radius: real): seq<PathCommand> {
    if IsRounded(a, b, c, radius)
    then [LineTo(EntryPoint(a, b, c, radius)), CurveTo(b, ExitPoint(a, b, c, radius))]
    else [LineTo(b)]
  }

  /** The commands of the inner points `1 .. n - 1`. */
  function Corners(points: seq<Point>, radius: real, n: nat): seq<PathCommand>
    requires n < |points|
  {
    if n <= 1 then [] else
      Corners(points, radius, n - 1) + CornerCommands(points[n - 2], points[n - 1], points[n], radius)
  }

  lemma TowardsOnLeg(b: Point, a: Point, r: real)
    requires IsLeg(a, b) && 0.0 < r <= Len(a, b)
    ensures OnLeg(a, b, Towards(b, a, r)) && OnLeg(b, a, Towards(b, a, r)) && Len(b, Towards(b, a, r)) == r
  {}

  /** The fillet of a rounded corner begins and ends on the two legs, at the same distance from the corner. */
  lemma FilletOnLegs(a: Point, b: Point, c: Point, radius: real)
    requires IsLeg(a, b) && IsLeg(b, c) && IsRounded(a, b, c, radius)
    ensures
      var entry, exit, r := EntryPoint(a, b, c, radius), ExitPoint(a, b, c, radius), CornerRadius(a, b, c, radius);
      && OnLeg(a, b, entry) && OnLeg(b, c, exit) && Len(b, entry) == r && Len(b, exit) == r
      && 0.0 < r <= radius && r <= Len(a, b) / 2.0 && r <= Len(b, c) / 2.0
  {
    LenIsSymmetric(a, b);
    LenIsSymmetric(b, c);
    hide Len, Towards, OnLeg, Collinear;
    TowardsOnLeg(b, a, CornerRadius(a, b, c, radius));
    TowardsOnLeg(b, c, CornerRadius(a, b, c, radius));
  }

  lemma LenIsSymmetric(a: Point, b: Point)
    ensures Len(a, b) == Len(b, a) && (IsLeg(a, b) <==> IsLeg(b, a))
  {}

  /** A corner takes at most half of either leg, rounded or not. */
  lemma CornerTakesHalf(a: Point, b: Point, c: Point, radius: real)
    requires IsLeg(a, b) && IsLeg(b, c)
    ensures OnLeg(a, b, EntryPoint(a, b, c, radius)) && OnLeg(b, c, ExitPoint(a, b, c, radius))
    ensures Len(b, EntryPoint(a, b, c, radius)) <= Len(a, b) / 2.0
    ensures Len(b, ExitPoint(a, b, c, radius)) <= Len(b, c) / 2.0
  {
    if IsRounded(a, b, c, radius) {
      FilletOnLegs(a, b, c, radius);
    }
    hide IsRounded, Towards, CornerRadius;
  }

  lemma HalvesDoNotCross(b: Point, c: Point, out: Point, into: Point)
    requires OnLeg(b, c, out) && OnLeg(b, c, into)
    requires Len(b, out) <= Len(b, c) / 2.0 && Len(c, into) <= Len(b, c) / 2.0
    ensures OnLeg(out, c, into) && OnLeg(b, into, out) && Len(b, out) + Len(out, into) + Len(into, c) == Len(b, c)
  {}

  /**
   * On the leg between two neighbouring corners the drawn parts follow each other without overlap: out of the first
   * corner, straight on, into the second.
   */
  lemma FilletsDoNotOverlap(a: Point, b: Point, c: Point, d: Point, radius: real)
    requires IsLeg(a, b) && IsLeg(b, c) && IsLeg(c, d)
    ensures
      var out, into := ExitPoint(a, b, c, radius), EntryPoint(b, c, d, radius);
      && OnLeg(b, c, out) && OnLeg(b, c, into) && OnLeg(b, into, out)
      && Len(b, out) + Len(out, into) + Len(into, c) == Len(b, c)
  {
    CornerTakesHalf(a, b, c, radius);
    CornerTakesHalf(b, c, d, radius);
    hide EntryPoint, ExitPoint, Len, OnLeg;
    HalvesDoNotCross(b, c, ExitPoint(a, b, c, radius), EntryPoint(b, c, d, radius));
  }

  // ---------------------------------------------------------------- the drawn path

  /**
   * With the pen on the leg into point `i`, the commands follow the rest of the polyline in order: a line goes forward
   * on that leg and may pass the point it ends in; a curve is controlled by the point the leg ends in, begins and ends
   * at the same distance from it, at most `radius`, and leaves the pen on the next leg; the last line ends in the last
   * point.
   */
  ghost predicate Follows(points: seq<Point>, radius: real, i: nat, pen: Point, d: seq<PathCommand>)
    requires 0 < i < |points|
    decreases |d|
  {
    if d == [] then i == |points| - 1 && pen == points[i] else
      match d[0]
      case MoveTo(_) => false
      case LineTo(p) =>
        && OnLeg(pen, points[i], p)
        && (Follows(points, radius, i, p, d[1..])
            || (p == points[i] && i + 1 < |points| && Follows(points, radius, i + 1, p, d[1..])))
      case CurveTo(control, p) =>
        && i + 1 < |points| && control == points[i] && OnLeg(points[i], points[i + 1], p)
        && 0.0 < Len(pen, control) == Len(control, p) <= radius
        && Follows(points, radius, i + 1, p, d[1..])
  }

  /** The commands from point `i` on. */
  ghost function Rest(points: seq<Point>, radius: real, i: nat): seq<PathCommand>
    requires 0 < i < |points|
    decreases |points| - i
  {
    if i == |points| - 1 then [LineTo(points[i])]
    else CornerCommands(points[i - 1], points[i], points[i + 1], radius) + Rest(points, radius, i + 1)
  }

  lemma {:induction false} CornersThenRest(points: seq<Point>, radius: real, n: nat)
    requires 0 < n < |points|
    ensures Corners(points, radius, n) + Rest(points, radius, n) == Rest(points, radius, 1)
  {
    hide CornerCommands;
    if n == 1 {
      assert Corners(points, radius, 1) == [];
      assert [] + Rest(points, radius, 1) == Rest(points, radius, 1);
    } else {
      var corner := CornerCommands(points[n - 2], points[n - 1], points[n], radius);
      CornersThenRest(points, radius, n - 1);
      assert Corners(points, radius, n) == Corners(points, radius, n - 1) + corner;
      assert Rest(points, radius, n - 1) == corner + Rest(points, radius, n);
    }
  }

  /** The pen stands in the first half of the leg from `a` to `b`. */
  ghost predicate FirstHalf(a: Point, b: Point, pen: Point) { OnLeg(a, b, pen) && Len(a, pen) <= Len(a, b) / 2.0 }

  lemma LegStart(a: Point, b: Point)
    requires IsLeg(a, b)
    ensures FirstHalf(a, b, a) && OnLeg(a, b, b)
  {}

  lemma OnToTheEnd(a: Point, b: Point, pen: Point)
    requires FirstHalf(a, b, pen)
    ensures OnLeg(pen, b, b)
  {}

  /** The entry into a corner lies ahead of the pen, its exit in the first half of the next leg. */
  lemma CornerAhead(a: Point, b: Point, c: Point, radius: real, pen: Point)
    requires IsLeg(b, c) && FirstHalf(a, b, pen)
    ensures OnLeg(pen, b, EntryPoint(a, b, c, radius))
    ensures OnLeg(b, c, ExitPoint(a, b, c, radius)) && FirstHalf(b, c, ExitPoint(a, b, c, radius))
    ensures IsRounded(a, b, c, radius) ==>
      0.0 < Len(EntryPoint(a, b, c, radius), b) == Len(b, ExitPoint(a, b, c, radius)) <= radius
  {
    var entry := EntryPoint(a, b, c, radius);
    CornerTakesHalf(a, b, c, radius);
    if IsRounded(a, b, c, radius) {
      FilletOnLegs(a, b, c, radius);
    }
    LenIsSymmetric(b, entry);
    hide EntryPoint, ExitPoint, Len, OnLeg, IsRounded;
    HalvesDoNotCross(a, b, pen, entry);
  }

  lemma {:induction false} RestFollows(points: seq<Point>, radius: real, i: nat, pen: Point)
    requires AxisAligned(points) && 0 < i < |points| && FirstHalf(points[i - 1], points[i], pen)
    ensures Follows(points, radius, i, pen, Rest(points, radius, i))
    decreases |points| - i
  {
    hide OnLeg, FirstHalf, Len, EntryPoint, ExitPoint, IsRounded;
    var a, b := points[i - 1], points[i];
    OnToTheEnd(a, b, pen);
    if i == |points| - 1 {
      assert Rest(points, radius, i)[1..] == [];
    } else {
      var c := points[i + 1];
      var exit := ExitPoint(a, b, c, radius);
      assert IsLeg(b, c);
      CornerAhead(a, b, c, radius, pen);
      var rest := Rest(points, radius, i + 1);
      RestFollows(points, radius, i + 1, exit);
      hide Rest, IsLeg, AxisAligned;
      if IsRounded(a, b, c, radius) {
        CurvedCorner(points, radius, i, pen, EntryPoint(a, b, c, radius), exit, rest);
      } else {
        SharpIsPlain(a, b, c, radius);
        SharpCorner(points, radius, i, pen, rest);
      }
    }
  }

  lemma SharpIsPlain(a: Point, b: Point, c: Point, radius: real)
    requires !IsRounded(a, b, c, radius)
    ensures EntryPoint(a, b, c, radius) == b == ExitPoint(a, b, c, radius)
  {}

  lemma CurvedCorner(points: seq<Point>, radius: real, i: nat, pen: Point, entry: Point, exit: Point,
    rest: seq<PathCommand>)
    requires 0 < i < |points| - 1 && OnLeg(pen, points[i], entry) && OnLeg(points[i], points[i + 1], exit)
    requires 0.0 < Len(entry, points[i]) == Len(points[i], exit) <= radius
    requires Follows(points, radius, i + 1, exit, rest)
    ensures Follows(points, radius, i, pen, [LineTo(entry), CurveTo(points[i], exit)] + rest)
  {
    hide OnLeg, Len;
    var curve := [CurveTo(points[i], exit)] + rest;
    assert curve[1..] == rest;
    assert Follows(points, radius, i, entry, curve);
    var d := [LineTo(entry), CurveTo(points[i], exit)] + rest;
    assert d[0] == LineTo(entry) && d[1..] == curve;
  }

  lemma SharpCorner(points: seq<Point>, radius: real, i: nat, pen: Point, rest: seq<PathCommand>)
    requires 0 < i < |points| - 1 && OnLeg(pen, points[i], points[i])
    requires Follows(points, radius, i + 1, points[i], rest)
    ensures Follows(points, radius, i, pen, [LineTo(points[i])] + rest)
  {
    hide OnLeg, Len;
    assert ([LineTo(points[i])] + rest)[1..] == rest;
  }

  /** The commands of the rounded path follow the polyline from its first point to its last. */
  lemma PathFollows(points: seq<Point>, radius: real)
    requires AxisAligned(points) && |points| > 1
    ensures Follows(points, radius, 1, points[0],
      Corners(points, radius, |points| - 1) + [LineTo(points[|points| - 1])])
  {
    CornersThenRest(points, radius, |points| - 1);
    assert IsLeg(points[0], points[1]);
    hide IsLeg, OnLeg, Len, Corners, CornerCommands, FirstHalf, AxisAligned;
    LegStart(points[0], points[1]);
    RestFollows(points, radius, 1, points[0]);
  }

  /** The rounded path: its commands, and that they follow the polyline when its legs follow the axes. */
  method RoundedOrthogonalPath(points: seq<Point>, radius: real) returns (d: seq<PathCommand>)
    ensures points == [] ==> d == []
    ensures |points| == 1 ==> d == [MoveTo(points[0])]
    ensures |points| > 1 ==>
      d == [MoveTo(points[0])] + Corners(points, radius, |points| - 1) + [LineTo(points[|points| - 1])]
    ensures |points| > 1 && AxisAligned(points) ==> Follows(points, radius, 1, points[0], d[1..])
  {
    if |points| == 0 { return []; }
    d := [MoveTo(points[0])];
    if |points| == 1 { return; }
    hide Len, Collinear, Sign, Follows, AxisAligned;
    for i := 1 to |points| - 1
      invariant d == [MoveTo(points[0])] + Corners(points, radius, i)
    {
      var a, b, c := points[i - 1], points[i], points[i + 1];
      var r := CornerRadius(a, b, c, radius);
      if Collinear(a, b, c) || r <= 0.0 {
        d := d + [LineTo(b)];
        continue;
      }
      d := d + [LineTo(Towards(b, a, r)), CurveTo(b, Towards(b, c, r))];
    }
    d := d + [LineTo(points[|points| - 1])];
    ghost var drawn := Corners(points, radius, |points| - 1) + [LineTo(points[|points| - 1])];
    assert d == [MoveTo(points[0])] + drawn && d[1..] == drawn;
    if AxisAligned(points) {
      PathFollows(points, radius);
    }
  }

  /** A command that follows a polyline ends on one of its legs, and a curve is controlled by one of its points. */
  ghost predicate OnPath(points: seq<Point>, c: PathCommand) {
    && (exists j :: 0 < j < |points| && OnLeg(points[j - 1], points[j], c.at))
    && (c.CurveTo? ==> c.control in points)
  }

  lemma Nested(a: Point, b: Point, pen: Point, p: Point)
    requires OnLeg(a, b, pen) && OnLeg(pen, b, p)
    ensures OnLeg(a, b, p)
  {}

  lemma {:induction false} FollowersStay(points: seq<Point>, radius: real, i: nat, pen: Point, d: seq<PathCommand>)
    requires AxisAligned(points) && 0 < i < |points| && OnLeg(points[i - 1], points[i], pen)
    requires Follows(points, radius, i, pen, d)
    ensures forall c :: c in d ==> OnPath(points, c)
    decreases |d|
  {
    hide OnLeg, Len, IsLeg;
    if d != [] {
      var p := d[0].at;
      assert d == [d[0]] + d[1..];
      if d[0].LineTo? {
        Nested(points[i - 1], points[i], pen, p);
        if Follows(points, radius, i, p, d[1..]) {
          FollowersStay(points, radius, i, p, d[1..]);
        } else {
          NextLeg(points, i);
          FollowersStay(points, radius, i + 1, p, d[1..]);
        }
      } else {
        FollowersStay(points, radius, i + 1, p, d[1..]);
        assert OnLeg(points[(i + 1) - 1], points[i + 1], p);
      }
      assert OnPath(points, d[0]);
    }
  }

  lemma NextLeg(points: seq<Point>, i: nat)
    requires AxisAligned(points) && 0 < i < |points| - 1
    ensures OnLeg(points[i], points[i + 1], points[i])
  {
    assert IsLeg(points[i], points[i + 1]);
  }

  /** No line or curve of the rounded self-loop begins, bends or ends inside the card. */
  lemma RoundedLoopAvoidsTheCard(c: Card, s: Side, t: Side, offset: real, radius: real, k: PathCommand)
    requires IsCard(c) && offset > 0.0
    requires
      var points := LoopOf(c, s, t, offset);
      |points| > 1 && k in Corners(points, radius, |points| - 1) + [LineTo(points[|points| - 1])]
    ensures !Inside(c, k.at) && (k.CurveTo? ==> !Inside(c, k.control))
  {
    var points := LoopOf(c, s, t, offset);
    LoopsHaveLength(c, s, t, offset);
    hide LoopOf, Inside, Corners, PathLength, Len, IsLeg, IsCard;
    PathFollows(points, radius);
    assert IsLeg(points[0], points[1]);
    LegStart(points[0], points[1]);
    FollowersStay(points, radius, 1, points[0], Corners(points, radius, |points| - 1) + [LineTo(points[|points| - 1])]);
    assert OnPath(points, k);
    hide Follows, OnLeg, AxisAligned;
    var j :| 0 < j < |points| && OnLeg(points[j - 1], points[j], k.at);
    LoopsAvoidTheCard(c, s, t, offset, j, k.at);
    if k.CurveTo? {
      var m :| 0 <= m < |points| && points[m] == k.control;
      PointIsOnLeg(points, m);
      LoopsAvoidTheCard(c, s, t, offset, if m == 0 then 1 else m, points[m]);
    }
  }

  lemma PointIsOnLeg(points: seq<Point>, m: nat)
    requires AxisAligned(points) && m < |points| && |points| > 1
    ensures var j := if m == 0 then 1 else m; OnLeg(points[j - 1], points[j], points[m])
  {
    assert IsLeg(points[0], points[1]);
    assert m > 0 ==> IsLeg(points[m - 1], points[m]);
  }
}
