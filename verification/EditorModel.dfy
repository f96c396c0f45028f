/** What a settled editor keeps between its form and its canvas, as predicates on values. */
module EditorModel {
  import opened Decimal
  import opened Sequences
  import opened StateMachine
  import opened StateMachineFlow
  import opened Text

  // ---------------------------------------------------------------- edge ids

  function MintedId(n: nat): string { "sm-edge-" + Dec(n) }

  ghost predicate IsSeed(id: string, from: Name, rest: string, i: nat) {
    id == from + "->" + rest + "#" + Dec(i) && !IsTerminalNodeId(from)
  }

  /** An id given when the canvas was drawn from a form. It may hold a name that has changed since. */
  ghost predicate IsSeedId(id: string) {
    exists from, rest, i: nat :: IsSeed(id, from, rest, i)
  }

  ghost predicate IsMintedBelow(id: string, seq_: nat) {
    exists n: nat :: n < seq_ && id == MintedId(n)
  }

  ghost predicate IdOk(id: string, next: nat) { IsSeedId(id) || IsMintedBelow(id, next) }

  lemma SeedsHaveArrows(id: string)
    requires IsSeedId(id)
    ensures '>' in id
  {
    var from, rest, i: nat :| IsSeed(id, from, rest, i);
    assert id[|from| + 1] == '>';
  }

  lemma MintedHaveNone(n: nat)
    ensures '>' !in MintedId(n)
  {
    var s := MintedId(n);
    forall i | 0 <= i < |s| ensures s[i] != '>' {
      if i >= 8 {
        assert s[i] == Dec(n)[i - 8];
      }
    }
  }

  lemma MintedInjective(m: nat, n: nat)
    requires MintedId(m) == MintedId(n)
    ensures m == n
  {
    assert MintedId(m)[8..] == Dec(m) && MintedId(n)[8..] == Dec(n);
    DecInjective(m, n);
  }

  /** The next minted id is new. */
  lemma MintIsFresh(id: string, next: nat)
    requires IdOk(id, next)
    ensures id != MintedId(next) && IdOk(id, next + 1) && IdOk(MintedId(next), next + 1)
  {
    MintedHaveNone(next);
    if IsSeedId(id) {
      SeedsHaveArrows(id);
    } else {
      var n: nat :| n < next && id == MintedId(n);
      if id == MintedId(next) {
        MintedInjective(n, next);
      }
    }
  }

  /** The last `#` of a numbered id stands before the number. */
  lemma LastHash(a: string, i: nat)
    ensures var s := a + "#" + Dec(i); s[|a|] == '#' && forall k :: |a| < k < |s| ==> s[k] != '#'
  {
    var s := a + "#" + Dec(i);
    forall k | |a| < k < |s| ensures s[k] != '#' {
      assert s[k] == Dec(i)[k - |a| - 1];
    }
  }

  lemma TailsDiffer(a: string, i: nat, b: string, j: nat)
    requires a + "#" + Dec(i) == b + "#" + Dec(j)
    ensures i == j
  {
    LastHash(a, i);
    LastHash(b, j);
    assert |a| == |b|;
    assert (a + "#" + Dec(i))[|a| + 1..] == Dec(i) && (b + "#" + Dec(j))[|b| + 1..] == Dec(j);
    DecInjective(i, j);
  }

  // ---------------------------------------------------------------- well-formed forms and canvases

  predicate NamesOk(states: seq<Name>) {
    Distinct(states) && forall s :: s in states ==> !IsBlank(s) && !IsTerminalNodeId(s)
  }

  predicate SamePair(a: Transition, b: Transition) { a.from == b.from && a.to == b.to }

  predicate TransitionsOk(ts: seq<Transition>, states: set<Name>) {
    && (forall i :: 0 <= i < |ts| ==> ts[i].from in states && ts[i].to in states)
    && (forall i, j :: 0 <= i < j < |ts| ==> !SamePair(ts[i], ts[j]))
  }

  /**
   * A well-formed draft: distinct, non-blank names that are no marker ids, live endpoints, no repeated pair, and every
   * name in the four name-referencing fields live, the two source lists without repeats.
   */
  predicate FormOk(f: Form) {
    NamesOk(f.states) && TransitionsOk(f.transitions, ToSet(f.states)) && RefsLive(RefsOf(f), ToSet(f.states))
  }

  ghost predicate NodesOk(sn: seq<FlowNode>) {
    (forall i :: 0 <= i < |sn| ==> sn[i].id == sn[i].name) && NamesOk(Map(NodeName, sn))
  }

  ghost predicate EdgesOk(te: seq<FlowEdge>, states: set<Name>, next: nat) {
    && TransitionsOk(Map(Plainly, te), states)
    && (forall i :: 0 <= i < |te| ==> te[i].sourceHandle.Some? && te[i].targetHandle.Some? && IdOk(te[i].id, next))
    && (forall i, j :: 0 <= i < j < |te| ==> te[i].id != te[j].id)
  }

  /**
   * What the signature cannot tell apart: a self-loop whose target side is the default left may be drawn into the left
   * or, by the default of its shape, into the top.
   */
  predicate Draws(c: CanonTransition, d: CanonTransition) {
    d == c || (c.from == c.to && c.target == Left && d == c.(target := Top))
  }

  ghost predicate DrawsAll(ts: seq<Transition>, te: seq<FlowEdge>) {
    |te| == |ts| && forall i :: 0 <= i < |ts| ==> Draws(Canon(ts[i]), Canon(Plainly(te[i])))
  }

  /** The canvas shows the form: its states in order, its transitions, its markers and exactly its link edges. */
  ghost predicate Shows(f: Form, nodes: seq<FlowNode>, edges: seq<FlowEdge>) {
    var sn, te := Filter(IsState, nodes), Filter(IsTransition, edges);
    var at := PositionByName(sn);
    && Map(NodeName, sn) == f.states
    && at.Keys == ToSet(f.states)
    && (forall s :: s in f.states && s in f.positions ==> at[s] == f.positions[s])
    && nodes == sn + MarkerNodes(f, at)
    && DrawsAll(f.transitions, te)
    && |te| <= |edges| && edges[..|te|] == te && multiset(edges[|te|..]) == multiset(MarkerEdges(f))
  }

  /** The form as its canvas reads. */
  function AsDrawn(f: Form, nodes: seq<FlowNode>, edges: seq<FlowEdge>): Form {
    f.(transitions := Map(Plainly, Filter(IsTransition, edges)), positions := PositionByName(Filter(IsState, nodes)))
  }

  // ---------------------------------------------------------------- drawing and committing

  predicate NotState(n: FlowNode) { !IsState(n) }

  predicate NotTransition(e: FlowEdge) { !IsTransition(e) }

  lemma StartLinksOnly(links: seq<Name>)
    requires forall i :: 0 <= i < |links| ==> !IsTerminalNodeId(links[i])
    ensures Filter(FromStart, Map(StartEdge, links)) == Map(StartEdge, links)
    ensures Filter(IntoEnd, Map(StartEdge, links)) == []
  {
    FilterAll(FromStart, Map(StartEdge, links));
    FilterNone(IntoEnd, Map(StartEdge, links));
  }

  lemma EndLinksOnly(links: seq<Name>)
    requires forall i :: 0 <= i < |links| ==> !IsTerminalNodeId(links[i])
    ensures Filter(IntoEnd, Map(EndEdge, links)) == Map(EndEdge, links) && Filter(FromStart, Map(EndEdge, links)) == []
  {
    FilterAll(IntoEnd, Map(EndEdge, links));
    FilterNone(FromStart, Map(EndEdge, links));
  }

  lemma LinksAreNames(sources: seq<Name>, states: seq<Name>)
    requires NamesOk(states)
    ensures forall i :: 0 <= i < |Links(sources, states)| ==> !IsTerminalNodeId(Links(sources, states)[i])
  {
    var links := Links(sources, states);
    forall i | 0 <= i < |links| ensures !IsTerminalNodeId(links[i]) {
      assert links[i] in links;
    }
  }

  /** With no state under a marker's id, the link edges are one per live source of a visible marker. */
  lemma MarkerEdgesAre(f: Form)
    requires NamesOk(f.states)
    ensures MarkerEdges(f) ==
      (if f.terminalNodes.start == Hidden then [] else Map(StartEdge, Links(f.startSources, f.states)))
      + (if f.terminalNodes.end == Hidden then [] else Map(EndEdge, Links(f.endSources, f.states)))
  {
    var starts, ends := Links(f.startSources, f.states), Links(f.endSources, f.states);
    LinksAreNames(f.startSources, f.states);
    LinksAreNames(f.endSources, f.states);
    hide Links, NamesOk, Filter, Map, IsTerminalNodeId;
    StartLinksOnly(starts);
    EndLinksOnly(ends);
    FilterConcat(FromStart, Map(StartEdge, starts), Map(EndEdge, ends));
    FilterConcat(IntoEnd, Map(StartEdge, starts), Map(EndEdge, ends));
    assert Map(StartEdge, starts) + [] == Map(StartEdge, starts) && [] + Map(EndEdge, ends) == Map(EndEdge, ends);
  }

  lemma SeedIdsDiffer(ts: seq<Transition>, i: nat, j: nat)
    requires i < |ts| && j < |ts| && i != j
    ensures EdgeId(ts[i], i) != EdgeId(ts[j], j)
  {
    if EdgeId(ts[i], i) == EdgeId(ts[j], j) {
      TailsDiffer(ts[i].from + "->" + ts[i].to, i, ts[j].from + "->" + ts[j].to, j);
    }
  }

  /** The transition edges of a drawn form, each with the id of its place. */
  ghost predicate SeedEdges(ts: seq<Transition>, te: seq<FlowEdge>) {
    |te| == |ts| && forall i :: 0 <= i < |ts| ==> te[i] == ToEdge(ts[i], i)
  }

  lemma BaseParts(f: Form, fallback: map<Name, Point>, auto: map<Name, Point>)
    ensures var base := FormToFlow(f, fallback, auto);
      && SeedEdges(f.transitions, base.edges) && Map(NodeName, base.nodes) == f.states
      && forall i :: 0 <= i < |base.nodes| ==> base.nodes[i].id == base.nodes[i].name
  {
    hide FormToFlow, ToEdge;
  }

  lemma SeedsAreOk(ts: seq<Transition>, te: seq<FlowEdge>, states: set<Name>, next: nat)
    requires SeedEdges(ts, te) && TransitionsOk(ts, states) && forall s :: s in states ==> !IsTerminalNodeId(s)
    ensures EdgesOk(te, states, next)
  {
    forall i | 0 <= i < |te|
      ensures IdOk(te[i].id, next) && te[i].sourceHandle.Some? && te[i].targetHandle.Some?
    {
      assert ts[i].from in states;
      assert IsSeed(te[i].id, ts[i].from, ts[i].to, i);
    }
    forall i, j | 0 <= i < j < |te| ensures te[i].id != te[j].id {
      SeedIdsDiffer(ts, i, j);
    }
    SeedPairs(ts, te, states);
    hide *;
    EdgesFrom(te, states, next);
  }

  lemma EdgesFrom(te: seq<FlowEdge>, states: set<Name>, next: nat)
    requires TransitionsOk(Map(Plainly, te), states)
    requires forall i :: 0 <= i < |te| ==>
      IdOk(te[i].id, next) && te[i].sourceHandle.Some? && te[i].targetHandle.Some?
    requires forall i, j :: 0 <= i < j < |te| ==> te[i].id != te[j].id
    ensures EdgesOk(te, states, next)
  {
    hide TransitionsOk, IdOk, Map;
  }

  lemma SeedPairs(ts: seq<Transition>, te: seq<FlowEdge>, states: set<Name>)
    requires SeedEdges(ts, te) && TransitionsOk(ts, states)
    ensures TransitionsOk(Map(Plainly, te), states)
  {
    var ps := Map(Plainly, te);
    assert forall i :: 0 <= i < |ps| ==> ps[i].from == ts[i].from && ps[i].to == ts[i].to;
    hide SeedEdges;
    forall i, j | 0 <= i < j < |ps| ensures !SamePair(ps[i], ps[j]) {
      assert !SamePair(ts[i], ts[j]);
    }
  }

  lemma SeedsDraw(ts: seq<Transition>, te: seq<FlowEdge>)
    requires SeedEdges(ts, te)
    ensures DrawsAll(ts, te)
  {
    hide EdgeId;
  }

  lemma FormParts(f: Form)
    requires FormOk(f)
    ensures NamesOk(f.states) && TransitionsOk(f.transitions, ToSet(f.states))
    ensures forall s :: s in ToSet(f.states) ==> !IsTerminalNodeId(s)
  {
    hide RefsLive, TransitionsOk, Distinct, IsBlank;
  }

  lemma BaseIsOk(f: Form, fallback: map<Name, Point>, auto: map<Name, Point>, next: nat)
    requires FormOk(f)
    ensures
      var base := FormToFlow(f, fallback, auto);
      NodesOk(base.nodes) && EdgesOk(base.edges, ToSet(f.states), next) && DrawsAll(f.transitions, base.edges)
  {
    FormParts(f);
    BaseParts(f, fallback, auto);
    hide FormOk, NamesOk, TransitionsOk, ToSet, FormToFlow, SeedEdges, EdgesOk, DrawsAll, Map;
    var base := FormToFlow(f, fallback, auto);
    SeedsAreOk(f.transitions, base.edges, ToSet(f.states), next);
    SeedsDraw(f.transitions, base.edges);
  }

  lemma FilterSuffix<A(!new)>(p: A -> bool, a: seq<A>, b: seq<A>)
    requires (forall i :: 0 <= i < |a| ==> !p(a[i])) && (forall i :: 0 <= i < |b| ==> p(b[i]))
    ensures Filter(p, a + b) == b
  {
    FilterConcat(p, a, b);
    FilterNone(p, a);
    FilterAll(p, b);
    assert [] + b == b;
  }

  /** A canvas drawn from a well-formed form shows it, and reads as the form with its default sides filled in. */
  lemma DrawnShows(f: Form, fallback: map<Name, Point>, auto: map<Name, Point>, next: nat)
    requires FormOk(f) && Renderable(f)
    ensures
      var c := FormToFlowWithMarkers(f, fallback, auto).value;
      && Shows(f, c.nodes, c.edges) && NodesOk(Filter(IsState, c.nodes))
      && EdgesOk(Filter(IsTransition, c.edges), ToSet(f.states), next)
      && AsDrawn(f, c.nodes, c.edges) == DrawnForm(f, Positions(f, fallback, auto))
  {
    var base := FormToFlow(f, fallback, auto);
    var at := Positions(f, fallback, auto);
    DrawnParts(f, fallback, auto);
    BaseReads(f, fallback, auto);
    BaseIsOk(f, fallback, auto, next);
    DrawnInParts(f, fallback, auto);
    StoredKept(f, fallback, auto);
    hide *;
    DrawnIs(f, base, at, FormToFlowWithMarkers(f, fallback, auto).value);
  }

  lemma StoredKept(f: Form, fallback: map<Name, Point>, auto: map<Name, Point>)
    ensures var at := Positions(f, fallback, auto);
      at.Keys == ToSet(f.states) && forall s :: s in f.states && s in f.positions ==> at[s] == f.positions[s]
  {}

  lemma DrawnIs(f: Form, base: Canvas, at: map<Name, Point>, c: Canvas)
    requires Filter(IsState, c.nodes) == base.nodes && Filter(IsTransition, c.edges) == base.edges
    requires Map(NodeName, base.nodes) == f.states && Map(Plainly, base.edges) == Map(Drawn, f.transitions)
    requires at.Keys == ToSet(f.states) && forall s :: s in f.states && s in f.positions ==> at[s] == f.positions[s]
    requires PositionByName(base.nodes) == at && DrawsAll(f.transitions, base.edges)
    requires c.nodes == base.nodes + MarkerNodes(f, at) && c.edges == base.edges + MarkerEdges(f)
    ensures Shows(f, c.nodes, c.edges) && AsDrawn(f, c.nodes, c.edges) == DrawnForm(f, at)
  {
    hide FormToFlow, MarkerNodes, MarkerEdges, Filter, DrawsAll, PositionByName, Map;
    TwoParts(base.edges, MarkerEdges(f));
  }

  ghost function CommitForm(f: Form, nextNodes: seq<FlowNode>, nextEdges: seq<FlowEdge>, rename: Option<Rename>): Form {
    var g := FlowToGraph(nextNodes, nextEdges, f.terminalNodes);
    var refs := Reconcile(RefsOf(f), ToSet(g.states), rename);
    Form(f.mode, g.states, g.transitions, g.positions, refs.nodeActions, refs.descriptions, g.terminalNodes,
      refs.endSources, refs.startSources)
  }

  /** What a mutation must hand over: good state nodes and good transition edges between them. */
  ghost predicate MutationOk(nextNodes: seq<FlowNode>, nextEdges: seq<FlowEdge>, next: nat) {
    var sn, te := Filter(IsState, nextNodes), Filter(IsTransition, nextEdges);
    NodesOk(sn) && EdgesOk(te, ToSet(Map(NodeName, sn)), next)
  }

  /** The form of a commit is well-formed and says what the mutated canvas says. */
  lemma CommitFormOk(f: Form, nextNodes: seq<FlowNode>, nextEdges: seq<FlowEdge>, rename: Option<Rename>, next: nat)
    requires MutationOk(nextNodes, nextEdges, next)
    ensures
      var g := CommitForm(f, nextNodes, nextEdges, rename);
      var sn, te := Filter(IsState, nextNodes), Filter(IsTransition, nextEdges);
      && FormOk(g) && g.states == Map(NodeName, sn) && g.transitions == Map(Plainly, te)
      && g.positions == PositionByName(sn)
      && RefsOf(g) == Reconcile(RefsOf(f), ToSet(g.states), rename) && g.mode == f.mode
  {
    var sn := Filter(IsState, nextNodes);
    forall n | n in nextNodes && IsState(n) ensures n.id == n.name {
      assert n in sn;
      var i :| 0 <= i < |sn| && sn[i] == n;
    }
    ReadPlainly(nextNodes, nextEdges, f.terminalNodes);
    ReconciledIsLive(RefsOf(f), ToSet(Map(NodeName, sn)), rename);
  }

  /** The canvas of a commit: the mutated states and transitions as they are, the markers rebuilt. */
  lemma CommittedShows(g: Form, nextNodes: seq<FlowNode>, nextEdges: seq<FlowEdge>, auto: map<Name, Point>,
    nodes: seq<FlowNode>, edges: seq<FlowEdge>)
    requires Renderable(g) && g.states == Map(NodeName, Filter(IsState, nextNodes))
    requires g.transitions == Map(Plainly, Filter(IsTransition, nextEdges))
    requires g.positions == PositionByName(Filter(IsState, nextNodes))
    requires
      var c := FormToFlowWithMarkers(g, map[], auto).value;
      && nodes == Filter(IsState, nextNodes) + Filter(NotState, c.nodes)
      && edges == Filter(IsTransition, nextEdges) + Filter(NotTransition, c.edges)
    ensures Shows(g, nodes, edges) && AsDrawn(g, nodes, edges) == g
    ensures Filter(IsState, nodes) == Filter(IsState, nextNodes)
    ensures Filter(IsTransition, edges) == Filter(IsTransition, nextEdges)
  {
    var sn, te := Filter(IsState, nextNodes), Filter(IsTransition, nextEdges);
    hide *;
    StatePositions(sn);
    PositionsKept(g, auto);
    RebuiltMarkers(g, auto);
    FilteredAll(IsState, nextNodes);
    FilteredAll(IsTransition, nextEdges);
    ShowsParts(g, sn, te, nodes, edges);
  }

  lemma PositionsKept(g: Form, auto: map<Name, Point>)
    requires g.positions.Keys == ToSet(g.states)
    ensures Positions(g, map[], auto) == g.positions
  {}

  lemma ShowsParts(g: Form, sn: seq<FlowNode>, te: seq<FlowEdge>, nodes: seq<FlowNode>, edges: seq<FlowEdge>)
    requires (forall i :: 0 <= i < |sn| ==> IsState(sn[i])) && (forall i :: 0 <= i < |te| ==> IsTransition(te[i]))
    requires Map(NodeName, sn) == g.states && g.positions == PositionByName(sn) && g.positions.Keys == ToSet(g.states)
    requires g.transitions == Map(Plainly, te)
    requires nodes == sn + MarkerNodes(g, g.positions) && edges == te + MarkerEdges(g)
    ensures Filter(IsState, nodes) == sn && Filter(IsTransition, edges) == te
    ensures Shows(g, nodes, edges) && AsDrawn(g, nodes, edges) == g
  {
    MarkersAreNoStates(g, g.positions);
    LinksAreNoTransitions(g);
    DrawsThemselves(g.transitions, te);
    hide *;
    FilterPrefix(IsState, sn, MarkerNodes(g, g.positions));
    FilterPrefix(IsTransition, te, MarkerEdges(g));
    TwoParts(te, MarkerEdges(g));
    ShowsFrom(g, nodes, edges);
    ReadsSame(g, nodes, edges);
  }

  lemma DrawsThemselves(ts: seq<Transition>, te: seq<FlowEdge>)
    requires ts == Map(Plainly, te)
    ensures DrawsAll(ts, te)
  {
    hide Canon, Plainly;
  }

  lemma TwoParts<A>(a: seq<A>, b: seq<A>)
    ensures |a| <= |a + b| && (a + b)[..|a|] == a && (a + b)[|a|..] == b
  {}

  lemma ShowsFrom(g: Form, nodes: seq<FlowNode>, edges: seq<FlowEdge>)
    requires
      var sn, te := Filter(IsState, nodes), Filter(IsTransition, edges);
      && Map(NodeName, sn) == g.states && g.positions == PositionByName(sn) && g.positions.Keys == ToSet(g.states)
      && DrawsAll(g.transitions, te)
      && nodes == sn + MarkerNodes(g, g.positions)
      && |te| <= |edges| && edges[..|te|] == te && edges[|te|..] == MarkerEdges(g)
    ensures Shows(g, nodes, edges)
  {
    hide Filter, PositionByName, MarkerNodes, MarkerEdges, DrawsAll, Map, ToSet;
  }

  lemma ReadsSame(g: Form, nodes: seq<FlowNode>, edges: seq<FlowEdge>)
    requires g.positions == PositionByName(Filter(IsState, nodes))
    requires g.transitions == Map(Plainly, Filter(IsTransition, edges))
    ensures AsDrawn(g, nodes, edges) == g
  {
    hide Filter, PositionByName, Map;
  }

  lemma FilteredAll<A(!new)>(p: A -> bool, s: seq<A>)
    ensures forall i :: 0 <= i < |Filter(p, s)| ==> p(Filter(p, s)[i])
  {
    forall i | 0 <= i < |Filter(p, s)| ensures p(Filter(p, s)[i]) {
      assert Filter(p, s)[i] in Filter(p, s);
    }
  }

  /** What a drawn canvas holds besides states and transitions: the markers and their edges. */
  lemma RebuiltMarkers(g: Form, auto: map<Name, Point>)
    requires Renderable(g)
    ensures
      var c := FormToFlowWithMarkers(g, map[], auto).value;
      && Filter(NotState, c.nodes) == MarkerNodes(g, Positions(g, map[], auto))
      && Filter(NotTransition, c.edges) == MarkerEdges(g)
  {
    var base := FormToFlow(g, map[], auto);
    var at := Positions(g, map[], auto);
    LinksAreNoTransitions(g);
    MarkersAreOthers(g, at);
    BaseKinds(g, auto);
    DrawnInParts(g, map[], auto);
    hide *;
    FilterSuffix(NotState, base.nodes, MarkerNodes(g, at));
    FilterSuffix(NotTransition, base.edges, MarkerEdges(g));
  }

  lemma BaseKinds(g: Form, auto: map<Name, Point>)
    ensures
      var base := FormToFlow(g, map[], auto);
      && (forall i :: 0 <= i < |base.nodes| ==> !NotState(base.nodes[i]))
      && (forall i :: 0 <= i < |base.edges| ==> !NotTransition(base.edges[i]))
    ensures forall i :: 0 <= i < |MarkerEdges(g)| ==> NotTransition(MarkerEdges(g)[i])
  {
    LinksAreNoTransitions(g);
    hide MarkerEdges;
  }

  lemma DrawnInParts(g: Form, fallback: map<Name, Point>, auto: map<Name, Point>)
    requires Renderable(g)
    ensures FormToFlowWithMarkers(g, fallback, auto).Some?
    ensures
      var c, base := FormToFlowWithMarkers(g, fallback, auto).value, FormToFlow(g, fallback, auto);
      && c.nodes == base.nodes + MarkerNodes(g, Positions(g, fallback, auto)) && c.edges == base.edges + MarkerEdges(g)
  {
    hide MarkerNodes, MarkerEdges, FormToFlow, Positions;
  }

  lemma {:induction false} StatePositions(sn: seq<FlowNode>)
    ensures PositionByName(sn).Keys == ToSet(Map(NodeName, sn))
  {
    if sn != [] {
      var init := sn[..|sn| - 1];
      StatePositions(init);
      assert Map(NodeName, sn) == Map(NodeName, init) + [sn[|sn| - 1].name];
    }
  }

  lemma MarkersAreOthers(f: Form, at: map<Name, Point>)
    requires at.Keys == ToSet(f.states)
    ensures forall i :: 0 <= i < |MarkerNodes(f, at)| ==> NotState(MarkerNodes(f, at)[i])
  {
    hide StartPlace, EndPlace;
  }

  // ---------------------------------------------------------------- forms the signature cannot tell apart

  lemma LinksOfLive(sources: seq<Name>, states: seq<Name>)
    requires Distinct(sources) && forall n :: n in sources ==> n in ToSet(states)
    ensures Links(sources, states) == sources
  {
    ReconcileListRenames(sources, ToSet(states), None);
    assert RenameAll(sources, None) == sources;
  }

  lemma SameMembers(a: seq<Name>, b: seq<Name>, x: Name)
    requires multiset(a) == multiset(b)
    ensures x in a <==> x in b
  {
    assert x in a <==> x in multiset(a);
    assert x in b <==> x in multiset(b);
  }

  lemma SameBounds(a: seq<Name>, b: seq<Name>, at: map<Name, Point>)
    requires a != [] && b != [] && (forall x :: x in a <==> x in b) && forall x :: x in a ==> x in at
    ensures MinOf(Xs(a, at)) == MinOf(Xs(b, at)) && MaxOf(Xs(a, at)) == MaxOf(Xs(b, at))
  {
    BoundsCover(a, b, at);
    BoundsCover(b, a, at);
  }

  lemma BoundsCover(a: seq<Name>, b: seq<Name>, at: map<Name, Point>)
    requires a != [] && b != [] && (forall x :: x in a ==> x in b) && forall x :: x in b ==> x in at
    ensures MinOf(Xs(b, at)) <= MinOf(Xs(a, at)) && MaxOf(Xs(a, at)) <= MaxOf(Xs(b, at))
  {
    var i :| 0 <= i < |a| && Xs(a, at)[i] == MinOf(Xs(a, at));
    var j :| 0 <= j < |a| && Xs(a, at)[j] == MaxOf(Xs(a, at));
    assert a[i] in b && a[j] in b;
    var k :| 0 <= k < |b| && b[k] == a[i];
    var m :| 0 <= m < |b| && b[m] == a[j];
    assert Xs(b, at)[k] == MinOf(Xs(a, at)) && Xs(b, at)[m] == MaxOf(Xs(a, at));
  }

  ghost predicate SourcesAgree(a: seq<Name>, b: seq<Name>, states: seq<Name>) {
    && multiset(a) == multiset(b) && Distinct(a) && Distinct(b)
    && (forall n :: n in a ==> n in ToSet(states)) && (forall n :: n in b ==> n in ToSet(states))
  }

  lemma PlacesAgree(states: seq<Name>, at: map<Name, Point>, a: seq<Name>, b: seq<Name>)
    requires states != [] && at.Keys == ToSet(states) && SourcesAgree(a, b, states)
    ensures StartPlace(states, at, a) == StartPlace(states, at, b) && EndPlace(states, at, a) == EndPlace(states, at, b)
  {
    LinksOfLive(a, states);
    LinksOfLive(b, states);
    assert |a| == |multiset(a)| && |b| == |multiset(b)|;
    if a == [] {
      assert b == [];
    } else {
      forall x ensures x in a <==> x in b {
        SameMembers(a, b, x);
      }
      BothPlaces(states, at, a, b);
    }
  }

  lemma BothPlaces(states: seq<Name>, at: map<Name, Point>, a: seq<Name>, b: seq<Name>)
    requires states != [] && at.Keys == ToSet(states) && Links(a, states) == a && Links(b, states) == b
    requires a != [] && b != [] && (forall x :: x in a <==> x in b) && forall x :: x in a ==> x in states
    ensures StartPlace(states, at, a) == StartPlace(states, at, b) && EndPlace(states, at, a) == EndPlace(states, at, b)
  {
    hide Links, MinOf, MaxOf, Xs, CenterY;
    SameBounds(a, b, at);
  }

  lemma MarkersAgree(f: Form, g: Form, at: map<Name, Point>)
    requires FormOk(f) && FormOk(g) && GraphSignature(f) == GraphSignature(g) && at.Keys == ToSet(f.states)
    ensures MarkerNodes(f, at) == MarkerNodes(g, at)
    ensures multiset(MarkerEdges(f)) == multiset(MarkerEdges(g))
  {
    assert SourcesAgree(f.startSources, g.startSources, f.states) && SourcesAgree(f.endSources, g.endSources, f.states);
    MarkerEdgesAre(f);
    MarkerEdgesAre(g);
    LinksOfLive(f.startSources, f.states);
    LinksOfLive(g.startSources, f.states);
    LinksOfLive(f.endSources, f.states);
    LinksOfLive(g.endSources, f.states);
    MapPermutes(StartEdge, f.startSources, g.startSources);
    MapPermutes(EndEdge, f.endSources, g.endSources);
    if f.states != [] {
      PlacesAgree(f.states, at, f.startSources, g.startSources);
      PlacesAgree(f.states, at, f.endSources, g.endSources);
    }
  }

  /** A form with the same signature is shown by the same canvas, so there is nothing to redraw. */
  lemma SameSignatureShows(f: Form, g: Form, nodes: seq<FlowNode>, edges: seq<FlowEdge>)
    requires FormOk(f) && FormOk(g) && GraphSignature(f) == GraphSignature(g) && Shows(f, nodes, edges)
    ensures Shows(g, nodes, edges) && (Renderable(f) <==> Renderable(g))
  {
    MarkersAgree(f, g, PositionByName(Filter(IsState, nodes)));
    DrawsSame(f, g, Filter(IsTransition, edges));
    hide Filter, MarkerNodes, MarkerEdges, PositionByName, FormOk, Map, DrawsAll;
  }

  lemma DrawsSame(f: Form, g: Form, te: seq<FlowEdge>)
    requires GraphSignature(f) == GraphSignature(g) && DrawsAll(f.transitions, te)
    ensures DrawsAll(g.transitions, te)
  {
    var a, b := GraphSignature(f).transitions, GraphSignature(g).transitions;
    assert |a| == |b|;
    forall i | 0 <= i < |g.transitions| ensures Draws(Canon(g.transitions[i]), Canon(Plainly(te[i]))) {
      assert a[i] == b[i];
      assert Draws(Canon(f.transitions[i]), Canon(Plainly(te[i])));
    }
  }

  // ---------------------------------------------------------------- mutations of the canvas

  function IndexOf(te: seq<FlowEdge>, id: string): (r: Option<nat>)
    ensures r.Some? ==> r.value < |te| && te[r.value].id == id
    ensures r.None? ==> forall i :: 0 <= i < |te| ==> te[i].id != id
  {
    if te == [] then None
    else if te[|te| - 1].id == id then Some(|te| - 1)
    else IndexOf(te[..|te| - 1], id)
  }

  function PatchEdge(id: string, g: FlowEdge -> FlowEdge): FlowEdge -> FlowEdge {
    (e: FlowEdge) => if e.id == id then g(e) else e
  }

  /** A patch by id touches one transition edge, or none. */
  lemma PatchTouchesOne(edges: seq<FlowEdge>, id: string, g: FlowEdge -> FlowEdge, states: set<Name>, next: nat)
    requires EdgesOk(Filter(IsTransition, edges), states, next) && forall e :: g(e).kind == e.kind
    ensures
      var te := Filter(IsTransition, edges);
      var k := IndexOf(te, id);
      Filter(IsTransition, Map(PatchEdge(id, g), edges)) == if k.None? then te else te[k.value := g(te[k.value])]
  {
    var te := Filter(IsTransition, edges);
    KindsKept(id, g);
    IdsDiffer(te, states, next);
    hide *;
    FilterMap(IsTransition, PatchEdge(id, g), edges);
    PatchList(te, id, g);
  }

  lemma KindsKept(id: string, g: FlowEdge -> FlowEdge)
    requires forall e :: g(e).kind == e.kind
    ensures forall e :: IsTransition(PatchEdge(id, g)(e)) == IsTransition(e)
  {}

  ghost predicate DistinctIds(te: seq<FlowEdge>) {
    forall i, j :: 0 <= i < j < |te| ==> te[i].id != te[j].id
  }

  function IdOf(e: FlowEdge): string { e.id }

  /** The ids of the transition edges, in order. */
  ghost function EdgeIds(edges: seq<FlowEdge>): seq<string> { Map(IdOf, Filter(IsTransition, edges)) }

  lemma IdsDiffer(te: seq<FlowEdge>, states: set<Name>, next: nat)
    requires EdgesOk(te, states, next)
    ensures DistinctIds(te)
  {
    hide TransitionsOk, IdOk, Map;
  }

  lemma PatchList(te: seq<FlowEdge>, id: string, g: FlowEdge -> FlowEdge)
    requires DistinctIds(te)
    ensures
      var k := IndexOf(te, id);
      Map(PatchEdge(id, g), te) == if k.None? then te else te[k.value := g(te[k.value])]
  {
    hide IndexOf;
    var k := IndexOf(te, id);
    if k.Some? {
      assert forall i :: 0 <= i < |te| && i != k.value ==> te[i].id != te[k.value].id;
    }
  }

  /** Replacing one edge keeps the rest, if its ends live and no other edge has its pair. */
  lemma ReplaceEdge(te: seq<FlowEdge>, k: nat, e: FlowEdge, states: set<Name>, next: nat)
    requires EdgesOk(te, states, next) && k < |te| && e.id == te[k].id
    requires e.source in states && e.target in states && e.sourceHandle.Some? && e.targetHandle.Some?
    requires forall i :: 0 <= i < |te| && i != k ==> !SamePair(Plainly(te[i]), Plainly(e))
    ensures EdgesOk(te[k := e], states, next)
    ensures Map(Plainly, te[k := e]) == Map(Plainly, te)[k := Plainly(e)]
  {
    var ps, qs := Map(Plainly, te), Map(Plainly, te[k := e]);
    assert qs == ps[k := Plainly(e)];
    forall i, j | 0 <= i < j < |qs| ensures !SamePair(qs[i], qs[j]) {
      assert !SamePair(ps[i], ps[j]);
    }
  }

  lemma PairsStayApart(te: seq<FlowEdge>, k: nat, e: FlowEdge, states: set<Name>, next: nat)
    requires EdgesOk(te, states, next) && k < |te| && SamePair(Plainly(te[k]), Plainly(e))
    ensures forall i :: 0 <= i < |te| && i != k ==> !SamePair(Plainly(te[i]), Plainly(e))
  {
    var ps := Map(Plainly, te);
    forall i | 0 <= i < |te| && i != k ensures !SamePair(Plainly(te[i]), Plainly(e)) {
      assert !SamePair(ps[if i < k then i else k], ps[if i < k then k else i]);
    }
  }

  lemma NoDuplicate(edges: seq<FlowEdge>, from: Name, to: Name)
    requires !IsDuplicateTransition(edges, from, to)
    ensures var te := Filter(IsTransition, edges);
      forall i :: 0 <= i < |te| ==> !(te[i].source == from && te[i].target == to)
  {
    var te := Filter(IsTransition, edges);
    forall i | 0 <= i < |te| ensures !(te[i].source == from && te[i].target == to) {
      assert te[i] in te;
    }
  }

  lemma AppendTransition(ts: seq<Transition>, t: Transition, states: set<Name>)
    requires TransitionsOk(ts, states) && t.from in states && t.to in states
    requires forall i :: 0 <= i < |ts| ==> !SamePair(ts[i], t)
    ensures TransitionsOk(ts + [t], states)
  {}

  /** A new edge with a fresh id between two states not connected yet. */
  lemma AppendEdge(te: seq<FlowEdge>, e: FlowEdge, states: set<Name>, next: nat)
    requires EdgesOk(te, states, next) && e.id == MintedId(next)
    requires e.source in states && e.target in states && e.sourceHandle.Some? && e.targetHandle.Some?
    requires forall i :: 0 <= i < |te| ==> !SamePair(Plainly(te[i]), Plainly(e))
    ensures EdgesOk(te + [e], states, next + 1)
    ensures Map(Plainly, te + [e]) == Map(Plainly, te) + [Plainly(e)]
  {
    assert Map(Plainly, te + [e]) == Map(Plainly, te) + [Plainly(e)];
    AppendTransition(Map(Plainly, te), Plainly(e), states);
    assert IsMintedBelow(e.id, next + 1);
    forall i | 0 <= i < |te| ensures te[i].id != e.id && IdOk(te[i].id, next + 1) {
      MintIsFresh(te[i].id, next);
    }
    hide TransitionsOk, IdOk, MintedId;
  }

  lemma KeptEdge(te: seq<FlowEdge>, states: set<Name>, next: nat, e: FlowEdge)
    requires EdgesOk(te, states, next) && te != [] && e in te[..|te| - 1]
    ensures var last := te[|te| - 1]; e.id != last.id && !SamePair(Plainly(e), Plainly(last))
  {
    var j :| 0 <= j < |te| - 1 && te[j] == e;
    var ps := Map(Plainly, te);
    hide IdOk;
    assert te[j].id != te[|te| - 1].id && !SamePair(ps[j], ps[|te| - 1]);
  }

  lemma EdgesInit(te: seq<FlowEdge>, states: set<Name>, next: nat)
    requires EdgesOk(te, states, next) && te != []
    ensures EdgesOk(te[..|te| - 1], states, next)
    ensures var last := te[|te| - 1]; last.sourceHandle.Some? && last.targetHandle.Some? && IdOk(last.id, next)
  {
    var init := te[..|te| - 1];
    assert Map(Plainly, init) == Map(Plainly, te)[..|te| - 1];
    hide IdOk, Plainly, SamePair;
  }

  lemma EdgesSnoc(te: seq<FlowEdge>, e: FlowEdge, states: set<Name>, next: nat)
    requires EdgesOk(te, states, next) && e.source in states && e.target in states
    requires e.sourceHandle.Some? && e.targetHandle.Some? && IdOk(e.id, next)
    requires forall d :: d in te ==> d.id != e.id && !SamePair(Plainly(d), Plainly(e))
    ensures EdgesOk(te + [e], states, next)
  {
    assert forall i :: 0 <= i < |te| ==> te[i] in te;
    MapLast(Plainly, te, e);
    AppendTransition(Map(Plainly, te), Plainly(e), states);
    hide TransitionsOk, IdOk, Map, SamePair;
  }

  /** Dropping edges keeps the others good, over any states that hold their ends. */
  lemma {:induction false} KeepEdges(q: FlowEdge -> bool, te: seq<FlowEdge>, states: set<Name>, fewer: set<Name>,
    next: nat)
    requires EdgesOk(te, states, next) && forall e :: e in te && q(e) ==> e.source in fewer && e.target in fewer
    ensures EdgesOk(Filter(q, te), fewer, next)
  {
    if te == [] {
      FilterEmpty(q);
      NoEdgesOk(fewer, next);
    } else {
      var init, last := te[..|te| - 1], te[|te| - 1];
      assert te == init + [last] && last in te && forall e :: e in init ==> e in te;
      hide *;
      EdgesInit(te, states, next);
      KeepEdges(q, init, states, fewer, next);
      FilterLast(q, init, last);
      if q(last) {
        forall e | e in Filter(q, init) ensures e.id != last.id && !SamePair(Plainly(e), Plainly(last)) {
          FilterMembers(q, init, e);
          KeptEdge(te, states, next, e);
        }
        EdgesSnoc(Filter(q, init), last, fewer, next);
      } else {
        assert Filter(q, init) + [] == Filter(q, init);
      }
    }
  }

  lemma NoEdgesOk(states: set<Name>, next: nat)
    ensures EdgesOk([], states, next)
  {}

  lemma FilterMembers<A(!new)>(p: A -> bool, s: seq<A>, x: A)
    ensures x in Filter(p, s) <==> x in s && p(x)
  {}

  function RenameEdge(r: Rename, e: FlowEdge): FlowEdge {
    e.(source := MapName(Some(r), e.source), target := MapName(Some(r), e.target))
  }

  function RenameNode(r: Rename, n: FlowNode): FlowNode {
    if n.id == r.from then n.(id := r.to, name := r.to) else n
  }

  function RenamesEdge(r: Rename): FlowEdge -> FlowEdge { (e: FlowEdge) => RenameEdge(r, e) }

  function RenamesNode(r: Rename): FlowNode -> FlowNode { (n: FlowNode) => RenameNode(r, n) }

  function NotNode(id: Name): FlowNode -> bool { (n: FlowNode) => n.id != id }

  lemma RenameEdges(te: seq<FlowEdge>, r: Rename, states: set<Name>, next: nat)
    requires EdgesOk(te, states, next) && Fresh(r, states)
    ensures EdgesOk(Map(RenamesEdge(r), te), Renamed(states, r), next)
    ensures Map(Plainly, Map(RenamesEdge(r), te))
         == Map(RenamesEnds(r), Map(Plainly, te))
  {
    var renamed := Map(RenamesEdge(r), te);
    var ps, qs := Map(Plainly, te), Map(Plainly, renamed);
    assert qs == Map(RenamesEnds(r), ps);
    forall i, j | 0 <= i < j < |qs| ensures !SamePair(qs[i], qs[j]) {
      assert !SamePair(ps[i], ps[j]);
      assert ps[i].from in states && ps[i].to in states && ps[j].from in states && ps[j].to in states;
    }
  }

  lemma AppendNode(sn: seq<FlowNode>, n: FlowNode)
    requires NodesOk(sn) && n.id == n.name && n.name !in Map(NodeName, sn)
    requires !IsBlank(n.name) && !IsTerminalNodeId(n.name)
    ensures NodesOk(sn + [n]) && Map(NodeName, sn + [n]) == Map(NodeName, sn) + [n.name]
    ensures PositionByName(sn + [n]) == PositionByName(sn)[n.name := n.position]
  {
    assert Map(NodeName, sn + [n]) == Map(NodeName, sn) + [n.name];
    assert (sn + [n])[..|sn|] == sn;
    DistinctAppend(Map(NodeName, sn), n.name);
  }

  ghost predicate NamedById(sn: seq<FlowNode>) {
    forall i :: 0 <= i < |sn| ==> sn[i].id == sn[i].name
  }

  lemma {:induction false} RemoveNames(sn: seq<FlowNode>, name: Name)
    requires NamedById(sn)
    ensures
      var kept := Filter(NotNode(name), sn);
      NamedById(kept) && Map(NodeName, kept) == Filter(Except(name), Map(NodeName, sn))
  {
    hide Filter, Map;
    if sn == [] {
      FilterEmpty(NotNode(name));
      FilterEmpty(Except(name));
      assert Map(NodeName, sn) == [];
    } else {
      var init, last := sn[..|sn| - 1], sn[|sn| - 1];
      var kept := Filter(NotNode(name), init);
      assert sn == init + [last] && NamedById(init) && last.id == last.name;
      RemoveNames(init, name);
      FilterLast(NotNode(name), init, last);
      MapLast(NodeName, init, last);
      FilterLast(Except(name), Map(NodeName, init), last.name);
      MapLast(NodeName, kept, last);
      assert kept + [] == kept && Map(NodeName, kept) + [] == Map(NodeName, kept);
    }
  }

  lemma PositionsAppend(sn: seq<FlowNode>, n: FlowNode)
    ensures PositionByName(sn + [n]) == PositionByName(sn)[n.name := n.position]
  {
    assert (sn + [n])[..|sn|] == sn;
  }

  ghost function PlacesBut(sn: seq<FlowNode>, name: Name): map<Name, Point> { PositionByName(sn) - {name} }

  lemma {:induction false} RemovePositions(sn: seq<FlowNode>, name: Name)
    requires NamedById(sn)
    ensures PositionByName(Filter(NotNode(name), sn)) == PlacesBut(sn, name)
  {
    if sn == [] {
      FilterEmpty(NotNode(name));
      assert PositionByName([]) == map[];
    } else {
      var init, last := sn[..|sn| - 1], sn[|sn| - 1];
      assert sn == init + [last] && last.id == last.name && NamedById(init);
      hide PositionByName, Filter, NamedById, PlacesBut;
      RemovePositions(init, name);
      var kept := Filter(NotNode(name), init);
      FilterLast(NotNode(name), init, last);
      assert kept + [] == kept;
      PlacesButLast(init, last, name);
      PositionsAppend(kept, last);
    }
  }

  lemma PlacesButLast(init: seq<FlowNode>, last: FlowNode, name: Name)
    ensures PlacesBut(init + [last], name) ==
      if last.name == name then PlacesBut(init, name) else PlacesBut(init, name)[last.name := last.position]
  {
    hide PositionByName;
    PositionsAppend(init, last);
    UpdateMinus(PositionByName(init), last.name, last.position, name);
  }

  lemma UpdateMinus<V>(m: map<Name, V>, k: Name, v: V, gone: Name)
    ensures m[k := v] - {gone} == if k == gone then m - {gone} else (m - {gone})[k := v]
  {}

  lemma RemoveNode(sn: seq<FlowNode>, name: Name)
    requires NodesOk(sn)
    ensures
      var kept := Filter(NotNode(name), sn);
      && NodesOk(kept) && Map(NodeName, kept) == Filter(Except(name), Map(NodeName, sn))
      && PositionByName(kept) == PositionByName(sn) - {name}
  {
    RemoveNames(sn, name);
    RemovePositions(sn, name);
    FilterKeepsDistinct(Except(name), Map(NodeName, sn));
  }

  lemma RenamedStayDistinct(names: seq<Name>, r: Rename)
    requires Distinct(names) && r.to !in names
    ensures Distinct(RenameAll(names, Some(r)))
  {
    assert forall i :: 0 <= i < |names| ==> names[i] in names;
  }

  lemma RenamedNamesOk(names: seq<Name>, r: Rename)
    requires NamesOk(names) && r.to !in names && !IsBlank(r.to) && !IsTerminalNodeId(r.to)
    ensures NamesOk(RenameAll(names, Some(r)))
  {
    RenamedStayDistinct(names, r);
    var after := RenameAll(names, Some(r));
    forall s | s in after ensures !IsBlank(s) && !IsTerminalNodeId(s) {
      var i :| 0 <= i < |after| && after[i] == s;
      assert names[i] in names;
    }
  }

  lemma {:induction false} RenamePositions(sn: seq<FlowNode>, r: Rename)
    requires NamedById(sn) && r.to !in Map(NodeName, sn) && r.from != r.to
    ensures KeyMoved(PositionByName(sn), r, PositionByName(Map(RenamesNode(r), sn)))
  {
    if sn != [] {
      var init, last := sn[..|sn| - 1], sn[|sn| - 1];
      assert Map(NodeName, sn) == Map(NodeName, init) + [last.name];
      RenamePositions(init, r);
      var renamed := Map(RenamesNode(r), sn);
      assert renamed[..|sn| - 1] == Map(RenamesNode(r), init);
      StatePositions(init);
    }
  }

  lemma RenameNodes(sn: seq<FlowNode>, r: Rename)
    requires NodesOk(sn) && r.to !in Map(NodeName, sn) && r.from != r.to && !IsBlank(r.to) && !IsTerminalNodeId(r.to)
    ensures
      var renamed := Map(RenamesNode(r), sn);
      && NodesOk(renamed) && Map(NodeName, renamed) == RenameAll(Map(NodeName, sn), Some(r))
      && KeyMoved(PositionByName(sn), r, PositionByName(renamed))
  {
    var renamed := Map(RenamesNode(r), sn);
    assert Map(NodeName, renamed) == RenameAll(Map(NodeName, sn), Some(r));
    RenamedNamesOk(Map(NodeName, sn), r);
    RenamePositions(sn, r);
  }

  /** A settled editor: a well-formed form, a canvas that shows it, good ids, and its signature on record. */
  ghost predicate SettledEditor(f: Form, nodes: seq<FlowNode>, edges: seq<FlowEdge>, last: Signature, next: nat) {
    && FormOk(f) && Renderable(f)
    && Shows(f, nodes, edges)
    && NodesOk(Filter(IsState, nodes)) && EdgesOk(Filter(IsTransition, edges), ToSet(f.states), next)
    && last == GraphSignature(f)
  }

  lemma FreshCanvas(f: Form, fallback: map<Name, Point>, auto: map<Name, Point>, c: Option<Canvas>, next: nat)
    requires FormOk(f) && Renderable(f) && c == FormToFlowWithMarkers(f, fallback, auto)
    ensures c.Some? && SettledEditor(f, c.value.nodes, c.value.edges, GraphSignature(f), next)
    ensures AsDrawn(f, c.value.nodes, c.value.edges) == DrawnForm(f, Positions(f, fallback, auto))
  {
    hide Shows, EdgesOk, NodesOk, Filter;
    DrawnShows(f, fallback, auto, next);
  }

  lemma SettleQuietly(f: Form, g: Form, nodes: seq<FlowNode>, edges: seq<FlowEdge>, last: Signature, next: nat)
    requires SettledEditor(f, nodes, edges, last, next) && FormOk(g) && GraphSignature(g) == last
    ensures SettledEditor(g, nodes, edges, last, next)
  {
    SameSignatureShows(f, g, nodes, edges);
    assert f.states == g.states;
    hide Shows, EdgesOk, NodesOk, Filter, FormOk;
  }

  lemma CommittedCanvas(f: Form, nextNodes: seq<FlowNode>, nextEdges: seq<FlowEdge>, rename: Option<Rename>,
    auto: map<Name, Point>, g: Form, c: Canvas, nodes: seq<FlowNode>, edges: seq<FlowEdge>, next: nat)
    requires MutationOk(nextNodes, nextEdges, next) && g == CommitForm(f, nextNodes, nextEdges, rename)
    requires FormToFlowWithMarkers(g, map[], auto) == Some(c)
    requires nodes == Filter(IsState, nextNodes) + Filter(NotState, c.nodes)
    requires edges == Filter(IsTransition, nextEdges) + Filter(NotTransition, c.edges)
    ensures SettledEditor(g, nodes, edges, GraphSignature(g), next) && AsDrawn(g, nodes, edges) == g
    ensures Filter(IsState, nodes) == Filter(IsState, nextNodes)
    ensures Filter(IsTransition, edges) == Filter(IsTransition, nextEdges)
  {
    CommitFormOk(f, nextNodes, nextEdges, rename, next);
    hide Reconcile, FlowToGraph, EdgesOk, NodesOk, FormOk, Shows, Filter, CommitForm;
    CommittedShows(g, nextNodes, nextEdges, auto, nodes, edges);
  }
}
