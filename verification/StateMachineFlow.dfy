/** The mapping between the form and the canvas: nodes, edges and the Start and End markers. */
module StateMachineFlow {
  import opened Decimal
  import opened Sequences
  import opened StateMachine
  import opened AutoLayout

  const START_NODE_ID: Name := "__start"
  const END_NODE_ID: Name := "__end"
  const TERMINAL_SPACING: real := 240.0

  predicate IsTerminalNodeId(id: Name) { id == START_NODE_ID || id == END_NODE_ID }

  datatype NodeKind = StateNode | StartMarker | EndMarker
  datatype EdgeKind = TransitionEdge | TerminalEdge

  datatype FlowNode = FlowNode(id: Name, kind: NodeKind, position: Point, name: Name, pinned: bool)

  datatype FlowEdge = FlowEdge(
    id: string, source: Name, target: Name, kind: EdgeKind, actionLabel: string, requeuePolicy: Policy,
    sourceHandle: Option<Side>, targetHandle: Option<Side>)

  datatype Canvas = Canvas(nodes: seq<FlowNode>, edges: seq<FlowEdge>)

  // ---------------------------------------------------------------- handles

  /** The side a self-loop comes back into: the next one counter-clockwise, as the loop is drawn. */
  function SelfLoopTarget(s: Side): Side {
    match s
    case Right => Top
    case Top => Left
    case Left => Bottom
    case Bottom => Right
  }

  datatype Handles = Handles(source: Side, target: Side)

  /** The routing of an edge nobody routed. */
  function DefaultHandlesFor(from: Name, to: Name): Handles {
    Handles(DEFAULT_SOURCE_SIDE, if from == to then SelfLoopTarget(DEFAULT_SOURCE_SIDE) else DEFAULT_TARGET_SIDE)
  }

  function HandlesAfterReroute(e: FlowEdge, from: Name, to: Name): Handles {
    var current := DefaultHandlesFor(e.source, e.target);
    var kept := Handles(e.sourceHandle.Or(current.source), e.targetHandle.Or(current.target));
    if kept == current then DefaultHandlesFor(from, to) else kept
  }

  /** A transition as the canvas draws it: a side nobody chose becomes the default of its shape. */
  function Drawn(t: Transition): Transition {
    var d := DefaultHandlesFor(t.from, t.to);
    t.(sourceSide := Some(t.sourceSide.Or(d.source)), targetSide := Some(t.targetSide.Or(d.target)))
  }

  // ---------------------------------------------------------------- form to canvas

  function PositionOf(f: Form, fallback: map<Name, Point>, auto: map<Name, Point>, name: Name): Point {
    if name in f.positions then f.positions[name]
    else if name in fallback then fallback[name]
    else if name in auto then auto[name]
    else Point(0.0, 0.0)
  }

  function EdgeId(t: Transition, i: nat): string { t.from + "->" + t.to + "#" + Dec(i) }

  function ToNode(f: Form, fallback: map<Name, Point>, auto: map<Name, Point>, name: Name): FlowNode {
    FlowNode(name, StateNode, PositionOf(f, fallback, auto, name), name, false)
  }

  function ToEdge(t: Transition, i: nat): FlowEdge {
    var d := Drawn(t);
    FlowEdge(EdgeId(t, i), t.from, t.to, TransitionEdge, t.actionLabel, t.requeuePolicy, d.sourceSide, d.targetSide)
  }

  /** State nodes and transition edges. `auto` is the layout of this very form. */
  function FormToFlow(f: Form, fallback: map<Name, Point>, auto: map<Name, Point>): (c: Canvas)
    ensures |c.nodes| == |f.states| && |c.edges| == |f.transitions|
    ensures forall i :: 0 <= i < |f.states| ==> c.nodes[i] == ToNode(f, fallback, auto, f.states[i])
    ensures forall i :: 0 <= i < |f.transitions| ==> c.edges[i] == ToEdge(f.transitions[i], i)
  {
    Canvas(seq(|f.states|, i requires 0 <= i < |f.states| => ToNode(f, fallback, auto, f.states[i])),
      seq(|f.transitions|, i requires 0 <= i < |f.transitions| => ToEdge(f.transitions[i], i)))
  }

  // ---------------------------------------------------------------- markers

  function MinOf(xs: seq<real>): (m: real)
    requires xs != []
    ensures m in xs && forall i :: 0 <= i < |xs| ==> m <= xs[i]
  {
    var x := xs[|xs| - 1];
    if |xs| == 1 then x else
      var m := MinOf(xs[..|xs| - 1]);
      if x < m then x else m
  }

  function MaxOf(xs: seq<real>): (m: real)
    requires xs != []
    ensures m in xs && forall i :: 0 <= i < |xs| ==> xs[i] <= m
  {
    var x := xs[|xs| - 1];
    if |xs| == 1 then x else
      var m := MaxOf(xs[..|xs| - 1]);
      if m < x then x else m
  }

  function Xs(names: seq<Name>, at: map<Name, Point>): (r: seq<real>)
    requires forall n :: n in names ==> n in at
    ensures |r| == |names| && forall i :: 0 <= i < |names| ==> r[i] == at[names[i]].x
  {
    seq(|names|, i requires 0 <= i < |names| => at[names[i]].x)
  }

  function Ys(names: seq<Name>, at: map<Name, Point>): (r: seq<real>)
    requires forall n :: n in names ==> n in at
    ensures |r| == |names| && forall i :: 0 <= i < |names| ==> r[i] == at[names[i]].y
  {
    seq(|names|, i requires 0 <= i < |names| => at[names[i]].y)
  }

  /** The linked states that have a place on the canvas, each once. */
  function Links(sources: seq<Name>, states: seq<Name>): seq<Name> {
    ReconcileList(sources, ToSet(states), None)
  }

  function StartEdge(s: Name): FlowEdge {
    FlowEdge(START_NODE_ID + "->" + s, START_NODE_ID, s, TerminalEdge, "", DEFAULT_POLICY, Some(Right), Some(Left))
  }

  function EndEdge(s: Name): FlowEdge {
    FlowEdge(s + "->" + END_NODE_ID, s, END_NODE_ID, TerminalEdge, "", DEFAULT_POLICY, Some(Right), Some(Left))
  }

  function CenterY(states: seq<Name>, at: map<Name, Point>): real
    requires states != [] && forall n :: n in states ==> n in at
  {
    (MinOf(Ys(states, at)) + MaxOf(Ys(states, at))) / 2.0
  }

  /** One rank left of the leftmost linked state, or of the whole diagram when nothing is linked. */
  function StartPlace(states: seq<Name>, at: map<Name, Point>, sources: seq<Name>): Point
    requires states != [] && forall n :: n in states ==> n in at
  {
    var links := Links(sources, states);
    Point(MinOf(Xs(if links == [] then states else links, at)) - TERMINAL_SPACING, CenterY(states, at))
  }

  /** One rank right of the rightmost linked state, or of the whole diagram when nothing is linked. */
  function EndPlace(states: seq<Name>, at: map<Name, Point>, sources: seq<Name>): Point
    requires states != [] && forall n :: n in states ==> n in at
  {
    var links := Links(sources, states);
    Point(MaxOf(Xs(if links == [] then states else links, at)) + TERMINAL_SPACING, CenterY(states, at))
  }

  function HasPlace(at: map<Name, Point>): Name -> bool { (n: Name) => n in at }

  /** Both markers and one edge per linked state that has a place; states without one are passed over. */
  function TerminalMarkers(states: seq<Name>, at: map<Name, Point>, startSources: seq<Name>,
    endSources: seq<Name>): Canvas
    requires at.Keys <= ToSet(states)
  {
    var placed := Filter(HasPlace(at), states);
    if states == [] then Canvas([], []) else
      Canvas(
        [FlowNode(START_NODE_ID, StartMarker,
           if placed == [] then Point(-TERMINAL_SPACING, 0.0) else StartPlace(placed, at, startSources),
           START_NODE_ID, false),
         FlowNode(END_NODE_ID, EndMarker,
           if placed == [] then Point(TERMINAL_SPACING, 0.0) else EndPlace(placed, at, endSources),
           END_NODE_ID, false)],
        Map(StartEdge, Links(startSources, placed)) + Map(EndEdge, Links(endSources, placed)))
  }

  lemma NoneSkipped(states: seq<Name>, at: map<Name, Point>)
    requires at.Keys == ToSet(states)
    ensures Filter(HasPlace(at), states) == states
  {
    FilterAll(HasPlace(at), states);
  }

  // ---------------------------------------------------------------- where the markers stand

  /** The placed states a marker stands beside: its linked ones, or all when it has none. */
  ghost predicate Beside(at: map<Name, Point>, sources: seq<Name>, s: Name) {
    s in at && (s in sources || forall t :: t in at ==> t !in sources)
  }

  /** One rank left of the leftmost of those states. */
  ghost predicate LeftOf(at: map<Name, Point>, sources: seq<Name>, x: real) {
    && (forall s :: Beside(at, sources, s) ==> x + 240.0 <= at[s].x)
    && (exists s :: Beside(at, sources, s) && x + 240.0 == at[s].x)
  }

  /** One rank right of the rightmost of those states. */
  ghost predicate RightOf(at: map<Name, Point>, sources: seq<Name>, x: real) {
    && (forall s :: Beside(at, sources, s) ==> at[s].x <= x - 240.0)
    && (exists s :: Beside(at, sources, s) && at[s].x == x - 240.0)
  }

  ghost predicate Highest(at: map<Name, Point>, s: Name) { s in at && forall t :: t in at ==> at[s].y <= at[t].y }

  ghost predicate Lowest(at: map<Name, Point>, s: Name) { s in at && forall t :: t in at ==> at[t].y <= at[s].y }

  /** Halfway between the highest and the lowest of all placed states. */
  ghost predicate Midway(at: map<Name, Point>, y: real) {
    exists s, t :: Highest(at, s) && Lowest(at, t) && 2.0 * y == at[s].y + at[t].y
  }

  lemma {:induction false} ListedOnce(sources: seq<Name>, live: set<Name>)
    ensures forall s :: s in ReconcileList(sources, live, None) <==> s in sources && s in live
  {
    if sources != [] {
      ListedOnce(sources[..|sources| - 1], live);
    }
  }

  lemma BesideIs(states: seq<Name>, at: map<Name, Point>, sources: seq<Name>, s: Name)
    requires ToSet(states) == at.Keys
    ensures
      var links := Links(sources, states);
      s in (if links == [] then states else links) <==> Beside(at, sources, s)
  {
    ListedOnce(sources, ToSet(states));
    var links := Links(sources, states);
    assert forall t :: t in links <==> t in sources && t in at;
    hide Links, ReconcileList;
    assert forall t :: t in states <==> t in at;
    if links != [] {
      assert links[0] in links;
    }
  }

  lemma LeastX(names: seq<Name>, at: map<Name, Point>) returns (s: Name)
    requires names != [] && forall n :: n in names ==> n in at
    ensures s in names && at[s].x == MinOf(Xs(names, at))
    ensures forall n :: n in names ==> MinOf(Xs(names, at)) <= at[n].x
  {
    var xs := Xs(names, at);
    hide MinOf, Xs;
    var i :| 0 <= i < |xs| && xs[i] == MinOf(xs);
    s := names[i];
    forall n | n in names ensures MinOf(xs) <= at[n].x {
      var j :| 0 <= j < |names| && names[j] == n;
      assert xs[j] == at[n].x;
    }
  }

  lemma GreatestX(names: seq<Name>, at: map<Name, Point>) returns (s: Name)
    requires names != [] && forall n :: n in names ==> n in at
    ensures s in names && at[s].x == MaxOf(Xs(names, at))
    ensures forall n :: n in names ==> at[n].x <= MaxOf(Xs(names, at))
  {
    var xs := Xs(names, at);
    hide MaxOf, Xs;
    var i :| 0 <= i < |xs| && xs[i] == MaxOf(xs);
    s := names[i];
    forall n | n in names ensures at[n].x <= MaxOf(xs) {
      var j :| 0 <= j < |names| && names[j] == n;
      assert xs[j] == at[n].x;
    }
  }

  lemma CenterIsMidway(states: seq<Name>, at: map<Name, Point>)
    requires states != [] && ToSet(states) == at.Keys
    ensures Midway(at, CenterY(states, at))
  {
    var ys := Ys(states, at);
    hide MinOf, MaxOf, Ys;
    var i :| 0 <= i < |ys| && ys[i] == MinOf(ys);
    var j :| 0 <= j < |ys| && ys[j] == MaxOf(ys);
    forall t | t in at ensures MinOf(ys) <= at[t].y <= MaxOf(ys) {
      var k :| 0 <= k < |states| && states[k] == t;
      assert ys[k] == at[t].y;
    }
    assert states[i] in ToSet(states) && states[j] in ToSet(states);
    assert Highest(at, states[i]) && Lowest(at, states[j]);
  }

  /** Start stands one rank left of its states, End one rank right of its own, both at half the height. */
  lemma PlacesBeside(states: seq<Name>, at: map<Name, Point>, startSources: seq<Name>, endSources: seq<Name>)
    requires states != [] && ToSet(states) == at.Keys
    ensures
      var start, end := StartPlace(states, at, startSources), EndPlace(states, at, endSources);
      && LeftOf(at, startSources, start.x) && Midway(at, start.y)
      && RightOf(at, endSources, end.x) && Midway(at, end.y)
  {
    StartBeside(states, at, startSources);
    EndBeside(states, at, endSources);
    CenterIsMidway(states, at);
    hide LeftOf, RightOf, Midway, CenterY, Links, MinOf, MaxOf;
  }

  lemma StartBeside(states: seq<Name>, at: map<Name, Point>, sources: seq<Name>)
    requires states != [] && ToSet(states) == at.Keys
    ensures LeftOf(at, sources, StartPlace(states, at, sources).x)
  {
    var links := Links(sources, states);
    var names := if links == [] then states else links;
    forall s {
      BesideIs(states, at, sources, s);
    }
    hide Links, Beside, MinOf, CenterY;
    var s := LeastX(names, at);
    assert Beside(at, sources, s);
  }

  lemma EndBeside(states: seq<Name>, at: map<Name, Point>, sources: seq<Name>)
    requires states != [] && ToSet(states) == at.Keys
    ensures RightOf(at, sources, EndPlace(states, at, sources).x)
  {
    var links := Links(sources, states);
    var names := if links == [] then states else links;
    forall s {
      BesideIs(states, at, sources, s);
    }
    hide Links, Beside, MaxOf, CenterY;
    var s := GreatestX(names, at);
    assert Beside(at, sources, s);
  }

  /** Where the two markers of a non-empty machine stand; without any place, left and right of the origin. */
  ghost predicate MarkersStand(at: map<Name, Point>, startSources: seq<Name>, endSources: seq<Name>, c: Canvas) {
    && |c.nodes| == 2 && c.nodes[0].id == START_NODE_ID && c.nodes[1].id == END_NODE_ID
    && c.nodes[0].kind == StartMarker && c.nodes[1].kind == EndMarker
    && var start, end := c.nodes[0].position, c.nodes[1].position;
       if at == map[] then start == Point(-240.0, 0.0) && end == Point(240.0, 0.0)
       else
         && LeftOf(at, startSources, start.x) && Midway(at, start.y)
         && RightOf(at, endSources, end.x) && Midway(at, end.y)
  }

  /** An arrow out of Start into a linked state, or out of one into End, from right to left. */
  ghost predicate IsLinkArrow(at: map<Name, Point>, startSources: seq<Name>, endSources: seq<Name>, e: FlowEdge) {
    && e.kind == TerminalEdge && e.sourceHandle == Some(Right) && e.targetHandle == Some(Left)
    && e.actionLabel == "" && e.requeuePolicy == DEFAULT_POLICY && e.id == e.source + "->" + e.target
    && ((e.source == START_NODE_ID && e.target in startSources && e.target in at)
        || (e.target == END_NODE_ID && e.source in endSources && e.source in at))
  }

  lemma MarkersMean(states: seq<Name>, at: map<Name, Point>, startSources: seq<Name>, endSources: seq<Name>)
    requires at.Keys <= ToSet(states) && states != []
    ensures MarkersStand(at, startSources, endSources, TerminalMarkers(states, at, startSources, endSources))
  {
    var placed := Filter(HasPlace(at), states);
    assert ToSet(placed) == at.Keys;
    hide StartPlace, EndPlace, Filter, LeftOf, RightOf, Midway, Links;
    if placed == [] {
      assert at == map[];
    } else {
      assert placed[0] in ToSet(placed);
      PlacesBeside(placed, at, startSources, endSources);
    }
  }

  lemma LinksMean(states: seq<Name>, at: map<Name, Point>, startSources: seq<Name>, endSources: seq<Name>, e: FlowEdge)
    requires at.Keys <= ToSet(states) && states != []
    ensures e in TerminalMarkers(states, at, startSources, endSources).edges <==>
      IsLinkArrow(at, startSources, endSources, e)
  {
    var placed := Filter(HasPlace(at), states);
    assert ToSet(placed) == at.Keys;
    ListedOnce(startSources, at.Keys);
    ListedOnce(endSources, at.Keys);
    var starts, ends := Links(startSources, placed), Links(endSources, placed);
    hide StartPlace, EndPlace, Filter, Links, ReconcileList;
    if e in Map(StartEdge, starts) {
      var i :| 0 <= i < |starts| && Map(StartEdge, starts)[i] == e;
      assert starts[i] in starts;
    }
    if e in Map(EndEdge, ends) {
      var i :| 0 <= i < |ends| && Map(EndEdge, ends)[i] == e;
      assert ends[i] in ends;
    }
    if IsLinkArrow(at, startSources, endSources, e) {
      if e.source == START_NODE_ID && e.target in startSources && e.target in at {
        var i :| 0 <= i < |starts| && starts[i] == e.target;
        assert Map(StartEdge, starts)[i] == e;
      } else {
        var i :| 0 <= i < |ends| && ends[i] == e.source;
        assert Map(EndEdge, ends)[i] == e;
      }
    }
  }

  /** The two loops that pick the linked states, the bounds, and one edge per link. */
  method DeriveTerminalMarkers(states: seq<Name>, at: map<Name, Point>, startSources: seq<Name>, endSources: seq<Name>)
    returns (c: Canvas)
    requires at.Keys <= ToSet(states)
    ensures c == TerminalMarkers(states, at, startSources, endSources)
    ensures if states == [] then c == Canvas([], [])
            else
              && MarkersStand(at, startSources, endSources, c)
              && forall e :: e in c.edges <==> IsLinkArrow(at, startSources, endSources, e)
  {
    if |states| == 0 {
      return Canvas([], []);
    }
    MarkersMean(states, at, startSources, endSources);
    forall e {
      LinksMean(states, at, startSources, endSources, e);
    }
    hide MarkersStand, IsLinkArrow;
    var placed := Filter(HasPlace(at), states);
    assert ToSet(placed) == at.Keys;
    var startOutgoing := ReconcileNames(startSources, at.Keys, None);
    var endIncoming := ReconcileNames(endSources, at.Keys, None);
    assert startOutgoing == Links(startSources, placed) && endIncoming == Links(endSources, placed);
    var start := Point(-TERMINAL_SPACING, 0.0);
    var end := Point(TERMINAL_SPACING, 0.0);
    if placed != [] {
      start, end := StartPlace(placed, at, startSources), EndPlace(placed, at, endSources);
    }
    hide StartPlace, EndPlace, ReconcileList, Links, Filter;
    var edges := PushEdges([], StartEdge, startOutgoing);
    edges := PushEdges(edges, EndEdge, endIncoming);
    assert [] + Map(StartEdge, startOutgoing) == Map(StartEdge, startOutgoing);
    c := Canvas([FlowNode(START_NODE_ID, StartMarker, start, START_NODE_ID, false),
                 FlowNode(END_NODE_ID, EndMarker, end, END_NODE_ID, false)], edges);
  }

  method PushEdges(before: seq<FlowEdge>, edgeOf: Name -> FlowEdge, links: seq<Name>) returns (edges: seq<FlowEdge>)
    ensures edges == before + Map(edgeOf, links)
  {
    edges := before;
    for i := 0 to |links|
      invariant edges == before + Map(edgeOf, links)[..i]
    {
      edges := edges + [edgeOf(links[i])];
    }
  }

  function MarkerAt(t: Terminal, id: Name, kind: NodeKind, derived: Point): seq<FlowNode> {
    match t
    case Hidden => []
    case Auto => [FlowNode(id, kind, derived, id, false)]
    case Pinned(p) => [FlowNode(id, kind, p, id, true)]
  }

  /** A marker where the form wants it, an automatic one beside the states. */
  function MarkerNodes(f: Form, at: map<Name, Point>): seq<FlowNode>
    requires at.Keys == ToSet(f.states)
  {
    var nowhere := Point(0.0, 0.0);
    MarkerAt(f.terminalNodes.start, START_NODE_ID, StartMarker,
      if f.states == [] then nowhere else StartPlace(f.states, at, f.startSources))
    + MarkerAt(f.terminalNodes.end, END_NODE_ID, EndMarker,
        if f.states == [] then nowhere else EndPlace(f.states, at, f.endSources))
  }

  function LinkEdges(f: Form): seq<FlowEdge> {
    Map(StartEdge, Links(f.startSources, f.states)) + Map(EndEdge, Links(f.endSources, f.states))
  }

  predicate FromStart(e: FlowEdge) { e.source == START_NODE_ID }

  predicate IntoEnd(e: FlowEdge) { e.target == END_NODE_ID }

  /** The link edges of the visible markers, picked by the marker id they touch. */
  function MarkerEdges(f: Form): seq<FlowEdge> {
    (if f.terminalNodes.start == Hidden then [] else Filter(FromStart, LinkEdges(f)))
    + (if f.terminalNodes.end == Hidden then [] else Filter(IntoEnd, LinkEdges(f)))
  }

  function Positions(f: Form, fallback: map<Name, Point>, auto: map<Name, Point>): map<Name, Point> {
    map s | s in f.states :: PositionOf(f, fallback, auto, s)
  }

  /** An automatic marker on a machine without states cannot be placed: the source throws. */
  predicate Renderable(f: Form) {
    f.states != [] || (f.terminalNodes.start != Auto && f.terminalNodes.end != Auto)
  }

  function FormToFlowWithMarkers(f: Form, fallback: map<Name, Point>, auto: map<Name, Point>): Option<Canvas> {
    var states := FormToFlow(f, fallback, auto);
    if !Renderable(f) then None else
      Some(Canvas(states.nodes + MarkerNodes(f, Positions(f, fallback, auto)), states.edges + MarkerEdges(f)))
  }

  lemma NoStatesNoLinks(f: Form)
    requires f.states == []
    ensures LinkEdges(f) == []
  {
    assert ToSet(f.states) == {};
    NothingLive(f.startSources);
    NothingLive(f.endSources);
  }

  lemma {:induction false} NothingLive(names: seq<Name>)
    ensures ReconcileList(names, {}, None) == []
  {
    if names != [] {
      NothingLive(names[..|names| - 1]);
    }
  }

  lemma MarkersOfAll(f: Form, at: map<Name, Point>)
    requires at.Keys == ToSet(f.states)
    ensures
      var c := TerminalMarkers(f.states, at, f.startSources, f.endSources);
      && c.edges == LinkEdges(f)
      && (f.states != [] ==>
            c.nodes ==
              [FlowNode(START_NODE_ID, StartMarker, StartPlace(f.states, at, f.startSources), START_NODE_ID, false),
               FlowNode(END_NODE_ID, EndMarker, EndPlace(f.states, at, f.endSources), END_NODE_ID, false)])
  {
    NoneSkipped(f.states, at);
    if f.states == [] {
      NoStatesNoLinks(f);
    }
    hide StartPlace, EndPlace, Links, Filter, Map, StartEdge, EndEdge;
  }

  /** The markers the form shows, with their edges. */
  method DrawMarkers(f: Form, at: map<Name, Point>) returns (nodes: seq<FlowNode>, edges: seq<FlowEdge>)
    requires at.Keys == ToSet(f.states) && Renderable(f)
    ensures nodes == MarkerNodes(f, at) && edges == MarkerEdges(f)
  {
    hide StartPlace, EndPlace, ToSet, Filter, TerminalMarkers, LinkEdges;
    var topo := DeriveTerminalMarkers(f.states, at, f.startSources, f.endSources);
    MarkersOfAll(f, at);
    var t := f.terminalNodes;
    nodes, edges := [], [];
    if t.start != Hidden {
      nodes := [if t.start.Pinned? then FlowNode(START_NODE_ID, StartMarker, t.start.at, START_NODE_ID, true)
                else topo.nodes[0]];
      edges := Filter(FromStart, topo.edges);
    }
    if t.end != Hidden {
      nodes := nodes + [if t.end.Pinned? then FlowNode(END_NODE_ID, EndMarker, t.end.at, END_NODE_ID, true)
                        else topo.nodes[1]];
      edges := edges + Filter(IntoEnd, topo.edges);
    }
  }

  /** A state stands at its stored place, else at the one at hand, else at its place in the automatic layout. */
  ghost predicate StandsWhere(f: Form, fallback: map<Name, Point>, auto: map<Name, Point>, s: Name, at: Point) {
    if s in f.positions then at == f.positions[s]
    else if s in fallback then at == fallback[s]
    else s in auto && at == auto[s]
  }

  /** A marker stands where it is pinned, or beside the states. */
  ghost predicate MarkerStands(f: Form, at: map<Name, Point>, m: FlowNode) {
    && (m.kind == StartMarker ==>
          m.id == START_NODE_ID &&
          match f.terminalNodes.start
          case Hidden => false
          case Pinned(p) => m.position == p && m.pinned
          case Auto => LeftOf(at, f.startSources, m.position.x) && Midway(at, m.position.y) && !m.pinned)
    && (m.kind == EndMarker ==>
          m.id == END_NODE_ID &&
          match f.terminalNodes.end
          case Hidden => false
          case Pinned(p) => m.position == p && m.pinned
          case Auto => RightOf(at, f.endSources, m.position.x) && Midway(at, m.position.y) && !m.pinned)
  }

  /** The nodes of a drawn canvas: the states in order where they belong, and then the markers. */
  ghost predicate NodesStand(f: Form, fallback: map<Name, Point>, auto: map<Name, Point>, nodes: seq<FlowNode>) {
    && |f.states| <= |nodes|
    && (forall i :: 0 <= i < |f.states| ==>
          && nodes[i].kind == StateNode && nodes[i].id == nodes[i].name == f.states[i]
          && StandsWhere(f, fallback, auto, f.states[i], nodes[i].position))
    && (forall i :: |f.states| <= i < |nodes| ==>
          nodes[i].kind != StateNode && MarkerStands(f, PositionByName(nodes[..|f.states|]), nodes[i]))
  }

  lemma PositionStands(f: Form, fallback: map<Name, Point>, auto: map<Name, Point>, s: Name)
    requires auto.Keys == ToSet(f.states) && s in f.states
    ensures StandsWhere(f, fallback, auto, s, PositionOf(f, fallback, auto, s))
  {}

  lemma MarkersOnCanvas(f: Form, at: map<Name, Point>, i: nat)
    requires at.Keys == ToSet(f.states) && Renderable(f) && i < |MarkerNodes(f, at)|
    ensures MarkerNodes(f, at)[i].kind != StateNode && MarkerStands(f, at, MarkerNodes(f, at)[i])
  {
    var nowhere := Point(0.0, 0.0);
    var start := if f.states == [] then nowhere else StartPlace(f.states, at, f.startSources);
    var end := if f.states == [] then nowhere else EndPlace(f.states, at, f.endSources);
    if f.states != [] {
      PlacesBeside(f.states, at, f.startSources, f.endSources);
    }
    var starts := MarkerAt(f.terminalNodes.start, START_NODE_ID, StartMarker, start);
    var ends := MarkerAt(f.terminalNodes.end, END_NODE_ID, EndMarker, end);
    assert MarkerNodes(f, at) == starts + ends;
    assert f.states == [] ==> !f.terminalNodes.start.Auto? && !f.terminalNodes.end.Auto?;
    hide *;
    if i < |starts| {
      StartStands(f, at, start, i);
    } else {
      EndStands(f, at, end, i - |starts|);
    }
  }

  lemma StartStands(f: Form, at: map<Name, Point>, derived: Point, i: nat)
    requires f.terminalNodes.start.Auto? ==> LeftOf(at, f.startSources, derived.x) && Midway(at, derived.y)
    requires i < |MarkerAt(f.terminalNodes.start, START_NODE_ID, StartMarker, derived)|
    ensures var m := MarkerAt(f.terminalNodes.start, START_NODE_ID, StartMarker, derived)[i];
      m.kind != StateNode && MarkerStands(f, at, m)
  {
    hide LeftOf, Midway;
  }

  lemma EndStands(f: Form, at: map<Name, Point>, derived: Point, i: nat)
    requires f.terminalNodes.end.Auto? ==> RightOf(at, f.endSources, derived.x) && Midway(at, derived.y)
    requires i < |MarkerAt(f.terminalNodes.end, END_NODE_ID, EndMarker, derived)|
    ensures var m := MarkerAt(f.terminalNodes.end, END_NODE_ID, EndMarker, derived)[i];
      m.kind != StateNode && MarkerStands(f, at, m)
  {
    hide RightOf, Midway;
  }

  lemma DrawnNodesStand(f: Form, fallback: map<Name, Point>, auto: map<Name, Point>, c: Canvas)
    requires auto.Keys == ToSet(f.states) && FormToFlowWithMarkers(f, fallback, auto) == Some(c)
    ensures NodesStand(f, fallback, auto, c.nodes)
  {
    var base := FormToFlow(f, fallback, auto);
    var at := Positions(f, fallback, auto);
    BaseReads(f, fallback, auto);
    BaseStands(f, fallback, auto);
    forall i: nat | i < |MarkerNodes(f, at)| {
      MarkersOnCanvas(f, at, i);
    }
    assert c.nodes == base.nodes + MarkerNodes(f, at);
    hide *;
    StandTogether(f, fallback, auto, base.nodes, MarkerNodes(f, at), at);
  }

  lemma BaseStands(f: Form, fallback: map<Name, Point>, auto: map<Name, Point>)
    requires auto.Keys == ToSet(f.states)
    ensures var nodes := FormToFlow(f, fallback, auto).nodes;
      && |nodes| == |f.states|
      && forall i :: 0 <= i < |nodes| ==>
           && nodes[i].kind == StateNode && nodes[i].id == nodes[i].name == f.states[i]
           && StandsWhere(f, fallback, auto, f.states[i], nodes[i].position)
  {
    forall s | s in f.states {
      PositionStands(f, fallback, auto, s);
    }
    hide StandsWhere, PositionOf, FormToFlow;
  }

  lemma StandTogether(f: Form, fallback: map<Name, Point>, auto: map<Name, Point>, base: seq<FlowNode>,
    markers: seq<FlowNode>, at: map<Name, Point>)
    requires |base| == |f.states| && PositionByName(base) == at
    requires forall i :: 0 <= i < |base| ==>
      && base[i].kind == StateNode && base[i].id == base[i].name == f.states[i]
      && StandsWhere(f, fallback, auto, f.states[i], base[i].position)
    requires forall i: nat :: i < |markers| ==> markers[i].kind != StateNode && MarkerStands(f, at, markers[i])
    ensures NodesStand(f, fallback, auto, base + markers)
  {
    hide PositionByName, MarkerStands, StandsWhere;
    var nodes := base + markers;
    assert nodes[..|f.states|] == base;
    assert forall i :: |base| <= i < |nodes| ==> nodes[i] == markers[i - |base|];
  }

  /** Without any known place different states are drawn at different places. */
  lemma FreshPlacesDiffer(f: Form, auto: map<Name, Point>, nodes: seq<FlowNode>, i: nat, j: nat)
    requires NodesStand(f, map[], auto, nodes) && f.positions == map[]
    requires forall s, t :: s in auto && t in auto && auto[s] == auto[t] ==> s == t
    requires i < |f.states| && j < |f.states| && nodes[i].position == nodes[j].position
    ensures f.states[i] == f.states[j]
  {}

  /** The canvas of a form, laid out automatically where no position is known. */
  method Draw(f: Form, fallback: map<Name, Point>) returns (c: Option<Canvas>, ghost auto: map<Name, Point>)
    ensures c == FormToFlowWithMarkers(f, fallback, auto)
    ensures c.Some? <==> Renderable(f)
    ensures c.None? <==> f.states == [] && (f.terminalNodes.start == Auto || f.terminalNodes.end == Auto)
    ensures c.Some? ==> NodesStand(f, fallback, auto, c.value.nodes)
    ensures IsLayout(f.states, f.transitions, auto) && auto.Keys == ToSet(f.states)
    ensures forall s, t :: s in auto && t in auto && auto[s] == auto[t] ==> s == t
  {
    var placed, rank := Layout(f.states, f.transitions);
    auto := placed;
    assert LayoutBy(f.states, f.transitions, auto, rank);
    assert auto.Keys == ToSet(f.states);
    hide LayoutBy;
    if !Renderable(f) {
      return None, placed;
    }
    var states := FormToFlow(f, fallback, placed);
    var nodes, edges := DrawMarkers(f, Positions(f, fallback, placed));
    c := Some(Canvas(states.nodes + nodes, states.edges + edges));
    DrawnNodesStand(f, fallback, placed, c.value);
  }

  // ---------------------------------------------------------------- canvas to form

  datatype Graph = Graph(
    states: seq<Name>, transitions: seq<Transition>, positions: map<Name, Point>, terminalNodes: Terminals)

  predicate IsState(n: FlowNode) { n.kind == StateNode }

  predicate IsTransition(e: FlowEdge) { e.kind == TransitionEdge }

  function NameById(nodes: seq<FlowNode>): map<Name, Name> {
    if nodes == [] then map[] else
      var n := nodes[|nodes| - 1];
      NameById(nodes[..|nodes| - 1])[n.id := n.name]
  }

  function PositionByName(nodes: seq<FlowNode>): map<Name, Point> {
    if nodes == [] then map[] else
      var n := nodes[|nodes| - 1];
      PositionByName(nodes[..|nodes| - 1])[n.name := n.position]
  }

  function NodeName(n: FlowNode): Name { n.name }

  function ToTransition(names: map<Name, Name>, e: FlowEdge): Transition {
    Transition(if e.source in names then names[e.source] else e.source,
      if e.target in names then names[e.target] else e.target,
      e.actionLabel, e.requeuePolicy, e.sourceHandle, e.targetHandle)
  }

  /** The first marker of a kind, as a terminal: pinned where it stands, automatic, or as before when absent. */
  function Capture(nodes: seq<FlowNode>, kind: NodeKind, before: Terminal): Terminal {
    if nodes == [] then before
    else if nodes[0].kind == kind then if nodes[0].pinned then Pinned(nodes[0].position) else Auto
    else Capture(nodes[1..], kind, before)
  }

  function FlowToGraph(nodes: seq<FlowNode>, edges: seq<FlowEdge>, before: Terminals): Graph {
    var stateNodes := Filter(IsState, nodes);
    var names := NameById(stateNodes);
    Graph(Map(NodeName, stateNodes), Map((e: FlowEdge) => ToTransition(names, e), Filter(IsTransition, edges)),
      PositionByName(stateNodes),
      Terminals(Capture(nodes, StartMarker, before.start), Capture(nodes, EndMarker, before.end)))
  }

  method ReadCanvas(nodes: seq<FlowNode>, edges: seq<FlowEdge>, before: Terminals) returns (g: Graph)
    ensures g == FlowToGraph(nodes, edges, before)
  {
    var stateNodes := Filter(IsState, nodes);
    var idToName: map<Name, Name> := map[];
    var positions: map<Name, Point> := map[];
    for i := 0 to |stateNodes|
      invariant idToName == NameById(stateNodes[..i]) && positions == PositionByName(stateNodes[..i])
    {
      assert stateNodes[..i + 1][..i] == stateNodes[..i];
      idToName := idToName[stateNodes[i].id := stateNodes[i].name];
      positions := positions[stateNodes[i].name := stateNodes[i].position];
    }
    assert stateNodes[..|stateNodes|] == stateNodes;
    g := Graph(Map(NodeName, stateNodes),
      Map((e: FlowEdge) => ToTransition(idToName, e), Filter(IsTransition, edges)), positions,
      Terminals(Capture(nodes, StartMarker, before.start), Capture(nodes, EndMarker, before.end)));
  }

  // ---------------------------------------------------------------- new names and edge checks

  function StatusName(i: nat): Name { "STATUS_" + Dec(i) }

  lemma StatusNameInjective(i: nat, j: nat)
    requires StatusName(i) == StatusName(j)
    ensures i == j
  {
    assert StatusName(i)[7..] == Dec(i) && StatusName(j)[7..] == Dec(j);
    DecInjective(i, j);
  }

  /** The first free numbered name, free of the standard names too. */
  method NextStateName(existing: seq<Name>) returns (name: Name, ghost i: nat)
    ensures i >= 1 && name == StatusName(i) && name !in existing && name !in DEFAULT_STATES
    ensures forall j :: 1 <= j < i ==> StatusName(j) in existing || StatusName(j) in DEFAULT_STATES
  {
    var used := ToSet(existing + DEFAULT_STATES);
    ghost var untried := used;
    var n := 1;
    while StatusName(n) in used
      invariant n >= 1
      invariant forall j :: 1 <= j < n ==> StatusName(j) in used
      invariant forall j: nat :: j >= n && StatusName(j) in used ==> StatusName(j) in untried
      decreases |untried|
    {
      forall j: nat | j > n && StatusName(j) in used ensures StatusName(j) in untried - {StatusName(n)} {
        if StatusName(j) == StatusName(n) {
          StatusNameInjective(j, n);
        }
      }
      untried := untried - {StatusName(n)};
      n := n + 1;
    }
    name, i := StatusName(n), n;
  }

  predicate IsDuplicateTransition(edges: seq<FlowEdge>, source: Name, target: Name) {
    exists i :: 0 <= i < |edges| && edges[i].kind != TerminalEdge && edges[i].source == source
      && edges[i].target == target
  }

  predicate HasEndSource(edges: seq<FlowEdge>, source: Name) {
    exists i :: 0 <= i < |edges| && edges[i].kind == TerminalEdge && edges[i].target == END_NODE_ID
      && edges[i].source == source
  }

  predicate HasStartSource(edges: seq<FlowEdge>, target: Name) {
    exists i :: 0 <= i < |edges| && edges[i].kind == TerminalEdge && edges[i].source == START_NODE_ID
      && edges[i].target == target
  }

  // ---------------------------------------------------------------- there and back

  lemma {:induction false} NamesById(nodes: seq<FlowNode>)
    requires forall i :: 0 <= i < |nodes| ==> nodes[i].id == nodes[i].name
    ensures forall k :: k in NameById(nodes) ==> NameById(nodes)[k] == k
  {
    if nodes != [] {
      NamesById(nodes[..|nodes| - 1]);
    }
  }

  /** The transition an edge stands for when every node is known by its name. */
  function Plainly(e: FlowEdge): Transition {
    Transition(e.source, e.target, e.actionLabel, e.requeuePolicy, e.sourceHandle, e.targetHandle)
  }

  /** With ids that are names, reading the canvas is reading its state nodes and transition edges in order. */
  lemma ReadPlainly(nodes: seq<FlowNode>, edges: seq<FlowEdge>, before: Terminals)
    requires forall n :: n in nodes && IsState(n) ==> n.id == n.name
    ensures
      var g := FlowToGraph(nodes, edges, before);
      && g.states == Map(NodeName, Filter(IsState, nodes))
      && g.transitions == Map(Plainly, Filter(IsTransition, edges))
      && g.positions == PositionByName(Filter(IsState, nodes))
  {
    var stateNodes := Filter(IsState, nodes);
    forall i | 0 <= i < |stateNodes| ensures stateNodes[i].id == stateNodes[i].name {
      assert stateNodes[i] in stateNodes;
    }
    NamesById(stateNodes);
  }

  lemma {:induction false} CaptureSkips(a: seq<FlowNode>, b: seq<FlowNode>, kind: NodeKind, before: Terminal)
    requires forall i :: 0 <= i < |a| ==> a[i].kind != kind
    ensures Capture(a + b, kind, before) == Capture(b, kind, before)
  {
    if a == [] {
      assert a + b == b;
    } else {
      assert (a + b)[1..] == a[1..] + b;
      CaptureSkips(a[1..], b, kind, before);
    }
  }

  /** What is read from the markers of a form is what the form says about them. */
  lemma MarkersReadBack(f: Form, at: map<Name, Point>, stateNodes: seq<FlowNode>)
    requires at.Keys == ToSet(f.states) && forall i :: 0 <= i < |stateNodes| ==> IsState(stateNodes[i])
    ensures
      var nodes := stateNodes + MarkerNodes(f, at);
      && Capture(nodes, StartMarker, f.terminalNodes.start) == f.terminalNodes.start
      && Capture(nodes, EndMarker, f.terminalNodes.end) == f.terminalNodes.end
  {
    var t := f.terminalNodes;
    CaptureSkips(stateNodes, MarkerNodes(f, at), StartMarker, t.start);
    CaptureSkips(stateNodes, MarkerNodes(f, at), EndMarker, t.end);
    hide StartPlace, EndPlace;
    var nowhere := Point(0.0, 0.0);
    var starts := MarkerAt(t.start, START_NODE_ID, StartMarker,
      if f.states == [] then nowhere else StartPlace(f.states, at, f.startSources));
    var ends := MarkerAt(t.end, END_NODE_ID, EndMarker,
      if f.states == [] then nowhere else EndPlace(f.states, at, f.endSources));
    CaptureOne(ends, EndMarker, t.end);
    CaptureOne(starts, StartMarker, t.start);
    CaptureSkips(starts, ends, EndMarker, t.end);
    if starts == [] {
      assert starts + ends == ends;
      CaptureSkips(ends, [], StartMarker, t.start);
      assert ends + [] == ends;
    } else {
      assert (starts + ends)[0] == starts[0];
    }
  }

  lemma CaptureOne(ms: seq<FlowNode>, kind: NodeKind, t: Terminal)
    requires |ms| <= 1 && (ms == [] <==> t == Hidden) && forall i :: 0 <= i < |ms| ==> ms[i].kind == kind
    requires ms != [] ==> (ms[0].pinned <==> t.Pinned?) && (t.Pinned? ==> ms[0].position == t.at)
    ensures Capture(ms, kind, t) == t
  {}

  lemma {:induction false} PositionsReadBack(nodes: seq<FlowNode>, at: map<Name, Point>)
    requires forall i :: 0 <= i < |nodes| ==> nodes[i].name in at && nodes[i].position == at[nodes[i].name]
    ensures PositionByName(nodes).Keys == ToSet(Map(NodeName, nodes))
    ensures forall k :: k in PositionByName(nodes) ==> k in at && PositionByName(nodes)[k] == at[k]
  {
    if nodes != [] {
      var init := nodes[..|nodes| - 1];
      PositionsReadBack(init, at);
      assert Map(NodeName, nodes) == Map(NodeName, init) + [nodes[|nodes| - 1].name];
    }
  }

  /** The drawn form: what a canvas built from `f` says when it is read. */
  function DrawnForm(f: Form, at: map<Name, Point>): Form {
    f.(transitions := Map(Drawn, f.transitions), positions := at)
  }

  lemma MarkersAreNoStates(f: Form, at: map<Name, Point>)
    requires at.Keys == ToSet(f.states)
    ensures Filter(IsState, MarkerNodes(f, at)) == []
  {
    MarkerKinds(f, at);
    hide MarkerNodes, Filter;
    FilterNone(IsState, MarkerNodes(f, at));
  }

  lemma MarkerKinds(f: Form, at: map<Name, Point>)
    requires at.Keys == ToSet(f.states)
    ensures forall i :: 0 <= i < |MarkerNodes(f, at)| ==> !IsState(MarkerNodes(f, at)[i])
  {
    hide StartPlace, EndPlace, ToSet;
  }

  lemma LinksAreNoTransitions(f: Form)
    ensures forall i :: 0 <= i < |MarkerEdges(f)| ==> MarkerEdges(f)[i].kind == TerminalEdge
    ensures Filter(IsTransition, MarkerEdges(f)) == []
  {
    var all := LinkEdges(f);
    forall e | e in all ensures e.kind == TerminalEdge {}
    var es := MarkerEdges(f);
    forall i | 0 <= i < |es| ensures es[i].kind == TerminalEdge {
      assert es[i] in es;
      assert es[i] in Filter(FromStart, all) || es[i] in Filter(IntoEnd, all);
    }
    FilterNone(IsTransition, es);
  }

  /** State nodes followed by no others are the state nodes; the same for transitions. */
  lemma FilterPrefix<A(!new)>(p: A -> bool, a: seq<A>, b: seq<A>)
    requires (forall i :: 0 <= i < |a| ==> p(a[i])) && Filter(p, b) == []
    ensures Filter(p, a + b) == a
  {
    FilterConcat(p, a, b);
    FilterAll(p, a);
    assert a + [] == a;
  }

  lemma DrawnParts(f: Form, fallback: map<Name, Point>, auto: map<Name, Point>)
    requires Renderable(f)
    ensures
      var c := FormToFlowWithMarkers(f, fallback, auto).value;
      var base := FormToFlow(f, fallback, auto);
      && Filter(IsState, c.nodes) == base.nodes && Filter(IsTransition, c.edges) == base.edges
      && (forall n :: n in c.nodes && IsState(n) ==> n.id == n.name)
  {
    var c := FormToFlowWithMarkers(f, fallback, auto).value;
    var base := FormToFlow(f, fallback, auto);
    var at := Positions(f, fallback, auto);
    MarkersAreNoStates(f, at);
    LinksAreNoTransitions(f);
    hide MarkerNodes, MarkerEdges, Filter;
    FilterPrefix(IsState, base.nodes, MarkerNodes(f, at));
    FilterPrefix(IsTransition, base.edges, MarkerEdges(f));
    forall n | n in c.nodes && IsState(n) ensures n.id == n.name {
      assert n in Filter(IsState, c.nodes);
    }
  }

  lemma BaseReads(f: Form, fallback: map<Name, Point>, auto: map<Name, Point>)
    ensures
      var base := FormToFlow(f, fallback, auto);
      && Map(NodeName, base.nodes) == f.states && Map(Plainly, base.edges) == Map(Drawn, f.transitions)
      && PositionByName(base.nodes) == Positions(f, fallback, auto)
  {
    var base := FormToFlow(f, fallback, auto);
    assert Map(NodeName, base.nodes) == f.states;
    assert Map(Plainly, base.edges) == Map(Drawn, f.transitions);
    PositionsReadBack(base.nodes, Positions(f, fallback, auto));
  }

  /**
   * Reading a freshly drawn canvas gives back the states in order, the endpoints, labels, policies and chosen sides,
   * the positions and the markers; only a side nobody chose is filled in.
   */
  lemma DrawnReadsBack(f: Form, fallback: map<Name, Point>, auto: map<Name, Point>)
    requires Renderable(f)
    ensures
      var c := FormToFlowWithMarkers(f, fallback, auto).value;
      FlowToGraph(c.nodes, c.edges, f.terminalNodes) ==
        Graph(f.states, Map(Drawn, f.transitions), Positions(f, fallback, auto), f.terminalNodes)
  {
    var c := FormToFlowWithMarkers(f, fallback, auto).value;
    var base := FormToFlow(f, fallback, auto);
    DrawnParts(f, fallback, auto);
    BaseReads(f, fallback, auto);
    MarkersReadBack(f, Positions(f, fallback, auto), base.nodes);
    hide MarkerNodes, MarkerEdges, Filter, Capture, FormToFlow, PositionByName, Map, Positions, NameById;
    ReadPlainly(c.nodes, c.edges, f.terminalNodes);
  }

  /** A second pass changes nothing: drawing what was read, and reading it again, gives the same graph. */
  lemma SecondPassChangesNothing(f: Form, fallback: map<Name, Point>, auto: map<Name, Point>,
    fallback2: map<Name, Point>, auto2: map<Name, Point>)
    requires Renderable(f)
    ensures
      var c := FormToFlowWithMarkers(f, fallback, auto).value;
      var g := FlowToGraph(c.nodes, c.edges, f.terminalNodes);
      var again := f.(states := g.states, transitions := g.transitions, positions := g.positions,
                      terminalNodes := g.terminalNodes);
      && Renderable(again)
      && var d := FormToFlowWithMarkers(again, fallback2, auto2).value;
         FlowToGraph(d.nodes, d.edges, again.terminalNodes) == g
  {
    var at := Positions(f, fallback, auto);
    var again := DrawnForm(f, at);
    RedrawnAlike(f, at, fallback2, auto2);
    hide *;
    DrawnReadsBack(f, fallback, auto);
    DrawnReadsBack(again, fallback2, auto2);
  }

  /** The drawn form is drawn as it is. */
  lemma RedrawnAlike(f: Form, at: map<Name, Point>, fallback: map<Name, Point>, auto: map<Name, Point>)
    requires Renderable(f) && at.Keys == ToSet(f.states)
    ensures
      var again := DrawnForm(f, at);
      && again == f.(states := f.states, transitions := Map(Drawn, f.transitions), positions := at,
                     terminalNodes := f.terminalNodes)
      && Renderable(again) && again.states == f.states && again.terminalNodes == f.terminalNodes
      && Map(Drawn, again.transitions) == Map(Drawn, f.transitions) && Positions(again, fallback, auto) == at
  {
    DrawnTwice(f.transitions);
    hide Map, Drawn;
  }

  lemma DrawnTwice(ts: seq<Transition>)
    ensures Map(Drawn, Map(Drawn, ts)) == Map(Drawn, ts)
  {}

  /** One transition of the saved and reloaded form. */
  function Reloaded(f: Form, i: nat): Transition
    requires i < |f.transitions|
  {
    MergeSides(ToWireTransition(f.transitions[i]), EdgeRouting(f.transitions))
  }

  /**
   * A save and a reload keep the drawn sides of a transition exactly when it is no self-loop, or its drawn target is
   * the one the routing map would give back: a loop routed right to left comes back right to top, and a loop with only
   * a source side chosen comes back with the left target.
   */
  lemma LoopsAfterReload(f: Form, i: nat)
    requires f.mode == CustomMode && SidesAgreeOnKeys(f.transitions) && i < |f.transitions|
    ensures Load(Save(f)).transitions[i] == Reloaded(f, i)
    ensures
      var t := f.transitions[i];
      Drawn(Reloaded(f, i)).sourceSide == Drawn(t).sourceSide && Drawn(Reloaded(f, i)).targetSide == Drawn(t).targetSide
      <==> t.from != t.to || (if t.targetSide.Some? then !IsDefaultSides(t) else SourceOf(t) == Right)
  {
    var t := f.transitions[i];
    RoutingFinds(f.transitions, t);
    RoutedIsChosen(f.transitions, KeyOf(t));
  }

  /** A loop routed right to left is drawn right to top after a save and a load. */
  lemma LoopComesBackOtherwise()
    ensures
      var t := Transition("A", "A", "again", DEFAULT_POLICY, Some(Right), Some(Left));
      var f := Form(CustomMode, ["A"], [t], map[], map[], map[], DEFAULT_TERMINALS, [], []);
      Drawn(t).targetSide == Some(Left) && Drawn(Load(Save(f)).transitions[0]).targetSide == Some(Top)
  {
    var t := Transition("A", "A", "again", DEFAULT_POLICY, Some(Right), Some(Left));
    var f := Form(CustomMode, ["A"], [t], map[], map[], map[], DEFAULT_TERMINALS, [], []);
    assert f.transitions[..0] == [];
    assert EdgeRouting(f.transitions) == map[];
  }

  /** A routing entry is never the default pair. */
  lemma {:induction false} RoutedIsChosen(ts: seq<Transition>, key: string)
    ensures key in EdgeRouting(ts) ==>
      EdgeRouting(ts)[key] != Sides(DEFAULT_SOURCE_SIDE, DEFAULT_TARGET_SIDE)
  {
    if ts != [] {
      RoutedIsChosen(ts[..|ts| - 1], key);
    }
  }

  // ---------------------------------------------------------------- the end of a connection drag

  /** Why a connection was refused. */
  datatype Refusal =
    | AlreadyLinkedToEnd(state: Name)
    | AlreadyLinkedToStart(state: Name)
    | AlreadyLoops(state: Name)
    | AlreadyConnected(from: Name, to: Name)
    | NotPossible

  /** What the canvas library reports; `isValid` is absent when the drop was never judged. */
  datatype ConnectEnd = ConnectEnd(
    isValid: Option<bool>, fromId: Option<Name>, toId: Option<Name>, fromHandle: Option<Side>, pointer: Option<Name>)

  datatype Decision = Nothing | SelfLoop(state: Name, handles: Handles) | Message(why: Refusal)

  function RejectionMessage(o: ConnectEnd, edges: seq<FlowEdge>): Option<Refusal> {
    if o.isValid != Some(false) || o.toId.None? then None else
      var to := o.toId.value;
      if to == END_NODE_ID && o.fromId.Some? && HasEndSource(edges, o.fromId.value) then
        Some(AlreadyLinkedToEnd(o.fromId.value))
      else if o.fromId == Some(START_NODE_ID) && HasStartSource(edges, to) then Some(AlreadyLinkedToStart(to))
      else if o.fromId == Some(to) && IsDuplicateTransition(edges, to, to) then Some(AlreadyLoops(to))
      else if o.fromId.Some? && IsDuplicateTransition(edges, o.fromId.value, to) then
        Some(AlreadyConnected(o.fromId.value, to))
      else Some(NotPossible)
  }

  function DecideConnectEnd(o: ConnectEnd, edges: seq<FlowEdge>): Decision {
    var drop := if o.toId.Some? then o.toId else o.pointer;
    if o.fromId.Some? && drop == o.fromId && !IsTerminalNodeId(o.fromId.value) then
      var from := o.fromId.value;
      if o.isValid == Some(true) then Nothing
      else if IsDuplicateTransition(edges, from, from) then Message(AlreadyLoops(from))
      else
        var side := o.fromHandle.Or(DEFAULT_SOURCE_SIDE);
        SelfLoop(from, Handles(side, SelfLoopTarget(side)))
    else
      match RejectionMessage(o, edges)
      case Some(why) => Message(why)
      case None => Nothing
  }
}
