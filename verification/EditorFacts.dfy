/** What a settled editor promises its surroundings. */
module EditorFacts {
  import opened Decimal
  import opened EditorForms
  import opened EditorModel
  import opened EditorSteps
  import opened Sequences
  import opened StateMachine
  import opened StateMachineFlow
  import opened Text

  // ---------------------------------------------------------------- the canvas refines the form

  /**
   * What a transition of the form reads as: the same ends, label, policy and sides, except that a self-loop into the
   * default left may read as one into the top.
   */
  ghost predicate ReadsAs(t: Transition, u: Transition) {
    && u.from == t.from && u.to == t.to && u.actionLabel == t.actionLabel
    && SamePolicy(t.requeuePolicy, u.requeuePolicy) && u.sourceSide.Or(Right) == t.sourceSide.Or(Right)
    && (u.targetSide.Or(Left) == t.targetSide.Or(Left)
        || (t.from == t.to && t.targetSide.Or(Left) == Left && u.targetSide == Some(Top)))
  }

  lemma DrawsMeans(t: Transition, u: Transition)
    ensures Draws(Canon(t), Canon(u)) <==> ReadsAs(t, u)
  {}

  /**
   * Reading a settled canvas gives the form's states, markers and stored places, and its transitions up to the drawn
   * default of a self-loop; its marker edges are exactly the form's links.
   */
  lemma CanvasRefinesForm(f: Form, nodes: seq<FlowNode>, edges: seq<FlowEdge>, last: Signature, next: nat)
    requires SettledEditor(f, nodes, edges, last, next)
    ensures
      var g := FlowToGraph(nodes, edges, f.terminalNodes);
      && g.states == f.states && g.terminalNodes == f.terminalNodes && |g.transitions| == |f.transitions|
      && (forall i :: 0 <= i < |f.transitions| ==> ReadsAs(f.transitions[i], g.transitions[i]))
      && g.positions.Keys == ToSet(f.states)
      && (forall s :: s in f.states && s in f.positions ==> g.positions[s] == f.positions[s])
    ensures forall e :: e in edges && e.kind == TerminalEdge <==> IsLinkOf(f, e)
  {
    SettledCanvas(f, nodes, edges, last, next);
    ShowsTransitions(f, nodes, edges);
    StoredPlaces(f, nodes, edges);
    CommitReads(f, nodes, edges, None);
    LinksShown(f, nodes, edges, last, next);
    hide *;
    ReadsAsDrawn(f, nodes, edges);
    var g := FlowToGraph(nodes, edges, f.terminalNodes);
    forall i | 0 <= i < |f.transitions| {
      DrawsMeans(f.transitions[i], g.transitions[i]);
    }
  }

  lemma LinksShown(f: Form, nodes: seq<FlowNode>, edges: seq<FlowEdge>, last: Signature, next: nat)
    requires SettledEditor(f, nodes, edges, last, next)
    ensures forall e :: e in edges && e.kind == TerminalEdge <==> IsLinkOf(f, e)
  {
    assert FormOk(f) && Shows(f, nodes, edges);
    hide SettledEditor, Shows, FormOk, MarkerEdges;
    forall e ensures e in edges && e.kind == TerminalEdge <==> IsLinkOf(f, e) {
      TerminalEdgesAre(f, nodes, edges, e);
      LinkEdgeOf(f, e);
    }
  }

  lemma ReadsAsDrawn(f: Form, nodes: seq<FlowNode>, edges: seq<FlowEdge>)
    requires DrawsAll(f.transitions, Filter(IsTransition, edges))
    requires NamesOf(nodes) == f.states && TerminalsOf(nodes, f.terminalNodes) == f.terminalNodes
    requires
      var at := PositionByName(StateNodes(nodes));
      at.Keys == ToSet(f.states) && forall s :: s in f.states && s in f.positions ==> at[s] == f.positions[s]
    requires
      var g := CommitForm(f, nodes, edges, None);
      && g.mode == f.mode && g.states == NamesOf(nodes) && g.transitions == TransitionsOf(edges)
      && g.positions == PositionByName(StateNodes(nodes)) && g.terminalNodes == TerminalsOf(nodes, f.terminalNodes)
    ensures
      var g := FlowToGraph(nodes, edges, f.terminalNodes);
      && g.states == f.states && g.terminalNodes == f.terminalNodes && |g.transitions| == |f.transitions|
      && (forall i :: 0 <= i < |f.transitions| ==> Draws(Canon(f.transitions[i]), Canon(g.transitions[i])))
      && g.positions.Keys == ToSet(f.states)
      && (forall s :: s in f.states && s in f.positions ==> g.positions[s] == f.positions[s])
  {
    hide Filter, PositionByName, Draws, FlowToGraph, Reconcile, TerminalsOf, NamesOf, StateNodes;
  }

  // ---------------------------------------------------------------- edge ids

  /** The start sources hold no arrow, or there is no Start marker. */
  predicate StartsPlain(f: Form) {
    f.terminalNodes.start != Hidden ==> forall s :: s in f.startSources ==> NoArrow(s)
  }

  /** `a->b` with an arrow-free `a` and `b` has its only arrow in the middle. */
  lemma OnlyArrow(a: string, b: string)
    requires NoArrow(a) && NoArrow(b)
    ensures forall k :: k != |a| ==> !ArrowAt(a + "->" + b, k)
  {
    var s := a + "->" + b;
    FirstArrow(a, b);
    forall k | |a| + 2 <= k < |s| - 1 ensures !ArrowAt(s, k) {
      assert !ArrowAt(b, k - |a| - 2);
      assert s[k] == b[k - |a| - 2] && s[k + 1] == b[k - |a| - 1];
    }
  }

  lemma Head(a: string, b: string, s: string)
    requires s == a + "->" + b
    ensures |a| <= |s| && s[..|a|] == a && ArrowAt(s, |a|)
  {
    assert s[|a|] == '-' && s[|a| + 1] == '>';
  }

  lemma StartIdIsNoSeed(s: Name, id: string)
    requires IsSeedId(id) && NoArrow(s)
    ensures StartEdge(s).id != id
  {
    var from, rest, i: nat :| IsSeed(id, from, rest, i);
    assert id == from + "->" + (rest + "#" + Dec(i));
    Head(from, rest + "#" + Dec(i), id);
    Head(START_NODE_ID, s, START_NODE_ID + "->" + s);
    assert NoArrow(START_NODE_ID);
    OnlyArrow(START_NODE_ID, s);
  }

  lemma StartIdIsNoEnd(s: Name, x: Name)
    requires NoArrow(s) && StartEdge(s).id == EndEdge(x).id
    ensures x == START_NODE_ID
  {
    Head(START_NODE_ID, s, START_NODE_ID + "->" + s);
    Head(x, END_NODE_ID, x + "->" + END_NODE_ID);
    assert NoArrow(START_NODE_ID);
    OnlyArrow(START_NODE_ID, s);
  }

  lemma SameHead(s: Name, t: Name)
    ensures StartEdge(s).id == StartEdge(t).id ==> s == t
    ensures EndEdge(s).id == EndEdge(t).id ==> s == t
  {
    assert StartEdge(s).id[9..] == s && StartEdge(t).id[9..] == t;
    assert EndEdge(s).id[..|s|] == s && EndEdge(t).id[..|t|] == t;
  }

  lemma LinkIdsApart(f: Form, d: FlowEdge, e: FlowEdge)
    requires FormOk(f) && IsLinkOf(f, d) && IsLinkOf(f, e) && d.id == e.id && StartsPlain(f)
    ensures d == e
  {
    NamesArePlain(f);
    assert forall s :: s in f.endSources ==> s in f.states;
    SameHead(d.target, e.target);
    SameHead(d.source, e.source);
    hide FormOk, NoArrow;
    if d.source == START_NODE_ID && e.source != START_NODE_ID {
      StartIdIsNoEnd(d.target, e.source);
    } else if d.source != START_NODE_ID && e.source == START_NODE_ID {
      StartIdIsNoEnd(e.target, d.source);
    }
  }

  lemma EndIdIsNoSeed(s: Name, id: string)
    requires IsSeedId(id)
    ensures EndEdge(s).id != id
  {
    var from, rest, i: nat :| IsSeed(id, from, rest, i);
    var e := EndEdge(s).id;
    assert e[|e| - 1] == END_NODE_ID[|END_NODE_ID| - 1];
    assert id[|id| - 1] == Dec(i)[|Dec(i)| - 1];
  }

  /** The id of a link is neither minted nor drawn from a transition. */
  lemma LinkIdIsNoOther(f: Form, e: FlowEdge, id: string, next: nat)
    requires IsLinkOf(f, e) && StartsPlain(f) && IdOk(id, next)
    ensures e.id != id
  {
    assert e.id[|e.source|] == '-' && e.id[|e.source| + 1] == '>';
    if IsSeedId(id) {
      if e.source == START_NODE_ID && e.target in f.startSources && e == StartEdge(e.target) {
        StartIdIsNoSeed(e.target, id);
      } else {
        EndIdIsNoSeed(e.source, id);
      }
    } else {
      var n: nat :| n < next && id == MintedId(n);
      MintedHaveNone(n);
    }
  }

  lemma DistinctOnce<T>(s: seq<T>, x: T)
    requires Distinct(s)
    ensures multiset(s)[x] <= 1
  {
    if k :| 0 <= k < |s| && s[k] == x {
      TakeOut(s, k);
      assert x !in Without(s, k);
    } else {
      assert x !in s;
    }
  }

  lemma TwiceCounts<T>(t: seq<T>, i: nat, j: nat)
    requires i < j < |t| && t[i] == t[j]
    ensures multiset(t)[t[i]] >= 2
  {
    TakeOut(t, j);
    assert Without(t, j)[i] == t[i];
    assert t[i] in multiset(Without(t, j));
  }

  lemma DistinctCount<T>(s: seq<T>, t: seq<T>)
    requires Distinct(s) && multiset(s) == multiset(t)
    ensures Distinct(t)
  {
    forall i, j | 0 <= i < j < |t| ensures t[i] != t[j] {
      DistinctOnce(s, t[i]);
      if t[i] == t[j] {
        TwiceCounts(t, i, j);
      }
    }
  }

  lemma LinksDistinct(f: Form)
    requires FormOk(f)
    ensures Distinct(MarkerEdges(f))
  {
    MarkerEdgesAre(f);
    LinksOfLive(f.startSources, f.states);
    LinksOfLive(f.endSources, f.states);
    var starts, ends := Map(StartEdge, f.startSources), Map(EndEdge, f.endSources);
    assert forall s :: s in f.endSources ==> s in f.states;
    forall i | 0 <= i < |f.endSources| ensures f.endSources[i] != START_NODE_ID {
      assert f.endSources[i] in f.endSources;
    }
    assert Distinct(f.startSources) && Distinct(f.endSources);
    hide Map, StartEdge, EndEdge, FormOk, MarkerEdges, StateMachineFlow.Links, ToSet;
    StartEdgesDistinct(f.startSources, f.endSources);
    DistinctSides(starts, ends);
  }

  lemma StartEdgesDistinct(a: seq<Name>, b: seq<Name>)
    requires Distinct(a) && Distinct(b) && forall i :: 0 <= i < |b| ==> b[i] != START_NODE_ID
    ensures Distinct(Map(StartEdge, a) + Map(EndEdge, b)) && Distinct(Map(StartEdge, a)) && Distinct(Map(EndEdge, b))
  {
    assert forall i :: 0 <= i < |a| ==> StartEdge(a[i]).source == START_NODE_ID && StartEdge(a[i]).target == a[i];
    assert forall i :: 0 <= i < |b| ==> EndEdge(b[i]).source == b[i];
    hide StartEdge, EndEdge;
  }

  lemma DistinctSides<T>(a: seq<T>, b: seq<T>)
    requires Distinct(a + b)
    ensures Distinct(a + []) && Distinct([] + b)
  {
    assert a + [] == a && [] + b == b;
    forall i, j | 0 <= i < j < |a| ensures a[i] != a[j] {
      assert (a + b)[i] == a[i] && (a + b)[j] == a[j];
    }
    forall i, j | 0 <= i < j < |b| ensures b[i] != b[j] {
      assert (a + b)[|a| + i] == b[i] && (a + b)[|a| + j] == b[j];
    }
  }

  /**
   * When no start source holds an arrow, all edge ids of a settled canvas are pairwise distinct, those of the marker
   * edges included. On a canvas with a history only this way is in reach: an id keeps the names of when it was drawn.
   */
  lemma EdgeIdsDistinct(f: Form, nodes: seq<FlowNode>, edges: seq<FlowEdge>, last: Signature, next: nat)
    requires SettledEditor(f, nodes, edges, last, next) && StartsPlain(f)
    ensures DistinctIds(edges)
  {
    var te := Filter(IsTransition, edges);
    var n := |te|;
    EdgesSplit(f, nodes, edges, last, next);
    forall i, j | 0 <= i < j < |edges| ensures edges[i].id != edges[j].id {
      IdsApart(f, nodes, edges, last, next, i, j);
    }
  }

  ghost predicate SplitEdges(f: Form, edges: seq<FlowEdge>, n: nat, next: nat) {
    && n <= |edges|
    && (forall i, j :: 0 <= i < j < n ==> edges[i].id != edges[j].id)
    && (forall i :: 0 <= i < n ==> IdOk(edges[i].id, next))
    && (forall i :: n <= i < |edges| ==> IsLinkOf(f, edges[i]))
    && (forall i, j :: n <= i < j < |edges| ==> edges[i] != edges[j])
  }

  lemma EdgesSplit(f: Form, nodes: seq<FlowNode>, edges: seq<FlowEdge>, last: Signature, next: nat)
    requires SettledEditor(f, nodes, edges, last, next)
    ensures SplitEdges(f, edges, |Filter(IsTransition, edges)|, next)
  {
    var te := Filter(IsTransition, edges);
    var rest := edges[|te|..];
    LinksDistinct(f);
    SettledSplit(f, nodes, edges, last, next);
    hide *;
    DistinctCount(MarkerEdges(f), rest);
    RestAreLinks(f, rest);
    SplitFrom(f, edges, te, next);
  }

  lemma SettledSplit(f: Form, nodes: seq<FlowNode>, edges: seq<FlowEdge>, last: Signature, next: nat)
    requires SettledEditor(f, nodes, edges, last, next)
    ensures var te := Filter(IsTransition, edges);
      && |te| <= |edges| && edges[..|te|] == te && multiset(edges[|te|..]) == multiset(MarkerEdges(f))
      && (forall i :: 0 <= i < |te| ==> IdOk(te[i].id, next))
      && (forall i, j :: 0 <= i < j < |te| ==> te[i].id != te[j].id)
    ensures FormOk(f)
  {
    hide FormOk, NodesOk, MarkerNodes, MarkerEdges, Filter, PositionByName, DrawsAll, TransitionsOk, IdOk;
  }

  lemma RestAreLinks(f: Form, rest: seq<FlowEdge>)
    requires FormOk(f) && multiset(rest) == multiset(MarkerEdges(f))
    ensures forall i :: 0 <= i < |rest| ==> IsLinkOf(f, rest[i])
  {
    hide FormOk, MarkerEdges, IsLinkOf;
    forall i | 0 <= i < |rest| ensures IsLinkOf(f, rest[i]) {
      assert rest[i] in multiset(rest);
      LinkEdgeOf(f, rest[i]);
    }
  }

  lemma SplitFrom(f: Form, edges: seq<FlowEdge>, te: seq<FlowEdge>, next: nat)
    requires |te| <= |edges| && edges[..|te|] == te
    requires (forall i :: 0 <= i < |te| ==> IdOk(te[i].id, next))
    requires (forall i, j :: 0 <= i < j < |te| ==> te[i].id != te[j].id)
    requires (forall i :: 0 <= i < |edges[|te|..]| ==> IsLinkOf(f, edges[|te|..][i])) && Distinct(edges[|te|..])
    ensures SplitEdges(f, edges, |te|, next)
  {
    var rest := edges[|te|..];
    hide IdOk, IsLinkOf;
    assert forall i :: 0 <= i < |te| ==> edges[i] == te[i];
    forall i | |te| <= i < |edges| ensures IsLinkOf(f, edges[i]) {
      assert rest[i - |te|] == edges[i];
    }
    forall i, j | |te| <= i < j < |edges| ensures edges[i] != edges[j] {
      assert rest[i - |te|] != rest[j - |te|];
    }
  }

  lemma IdsApart(f: Form, nodes: seq<FlowNode>, edges: seq<FlowEdge>, last: Signature, next: nat, i: nat, j: nat)
    requires FormOk(f) && StartsPlain(f) && i < j < |edges|
    requires SplitEdges(f, edges, |Filter(IsTransition, edges)|, next)
    ensures edges[i].id != edges[j].id
  {
    var n := |Filter(IsTransition, edges)|;
    hide Filter, FormOk, StartsPlain, IdOk, IsLinkOf;
    if j >= n {
      if i < n {
        LinkIdIsNoOther(f, edges[j], edges[i].id, next);
      } else if edges[i].id == edges[j].id {
        LinkIdsApart(f, edges[i], edges[j]);
      }
    }
  }

  // ---------------------------------------------------------------- edge ids of a drawn canvas

  /** A transition from a state named `__start->x`, and a start source named like the rest of its id. */
  ghost predicate MeetsTransition(f: Form, s: Name, x: string) {
    exists i :: 0 <= i < |f.transitions| && f.transitions[i].from == START_NODE_ID + "->" + x
      && s == x + "->" + f.transitions[i].to + "#" + Dec(i)
  }

  /** An end source named `__start->x`, with End shown, and a start source named `x->__end`. */
  ghost predicate MeetsEnd(f: Form, s: Name, x: string) {
    f.terminalNodes.end != Hidden && START_NODE_ID + "->" + x in f.endSources && s == x + "->" + END_NODE_ID
  }

  ghost predicate Meets(f: Form, s: Name, x: string) { MeetsTransition(f, s, x) || MeetsEnd(f, s, x) }

  /** What it takes for two edges of a drawn canvas to share an id. */
  ghost predicate NamesClash(f: Form) {
    f.terminalNodes.start != Hidden && exists s, x :: s in f.startSources && Meets(f, s, x)
  }

  /** A name before an arrow that begins like a Start link either is the marker's id or begins with it and an arrow. */
  lemma LikeAStart(from: Name, rest: string, s: Name)
    requires from + "->" + rest == START_NODE_ID + "->" + s && from != START_NODE_ID
    ensures |from| >= 9 && from == START_NODE_ID + "->" + from[9..] && s == from[9..] + "->" + rest
  {
    var id := START_NODE_ID + "->" + s;
    Head(from, rest, id);
    Head(START_NODE_ID, s, id);
    FirstArrow(START_NODE_ID, s);
    assert id[..7] == START_NODE_ID && id[..|from|] == from && id[8] == '>';
    assert |from| >= 9;
    assert from == id[..9] + from[9..] && id[..9] == START_NODE_ID + "->";
    assert s == id[9..];
    assert id[9..] == (from + "->" + rest)[9..] == from[9..] + "->" + rest;
  }

  lemma EdgeMeetsStart(f: Form, i: nat, s: Name)
    requires i < |f.transitions| && f.transitions[i].from != START_NODE_ID && s in f.startSources
    requires EdgeId(f.transitions[i], i) == StartEdge(s).id
    ensures exists x :: Meets(f, s, x)
  {
    var t := f.transitions[i];
    var rest := t.to + "#" + Dec(i);
    assert t.from + "->" + rest == START_NODE_ID + "->" + s;
    LikeAStart(t.from, rest, s);
    assert t.from[9..] + "->" + rest == t.from[9..] + "->" + t.to + "#" + Dec(i);
    assert MeetsTransition(f, s, t.from[9..]);
    assert Meets(f, s, t.from[9..]);
  }

  lemma EndMeetsStart(f: Form, e: Name, s: Name)
    requires e in f.endSources && e != START_NODE_ID && f.terminalNodes.end != Hidden
    requires EndEdge(e).id == StartEdge(s).id
    ensures exists x :: Meets(f, s, x)
  {
    LikeAStart(e, END_NODE_ID, s);
    assert MeetsEnd(f, s, e[9..]);
    assert Meets(f, s, e[9..]);
  }

  lemma LinksClash(f: Form, d: FlowEdge, e: FlowEdge)
    requires FormOk(f) && IsLinkOf(f, d) && IsLinkOf(f, e) && d.id == e.id && d != e
    ensures NamesClash(f)
  {
    NamesArePlain(f);
    assert forall s :: s in f.endSources ==> s in f.states;
    hide FormOk, Meets;
    SameHead(d.target, e.target);
    SameHead(d.source, e.source);
    if d.source == START_NODE_ID {
      EndMeetsStart(f, e.source, d.target);
    } else {
      EndMeetsStart(f, d.source, e.target);
    }
  }

  lemma EdgeClashes(f: Form, i: nat, e: FlowEdge)
    requires FormOk(f) && i < |f.transitions| && IsLinkOf(f, e) && e.id == EdgeId(f.transitions[i], i)
    ensures NamesClash(f)
  {
    NamesArePlain(f);
    var t := f.transitions[i];
    assert t.from in f.states;
    assert IsSeed(e.id, t.from, t.to, i);
    if s :| s in f.endSources && e == EndEdge(s) {
      EndIdIsNoSeed(s, e.id);
    }
    hide FormOk, Meets;
    var s :| s in f.startSources && e == StartEdge(s);
    EdgeMeetsStart(f, i, s);
  }

  ghost predicate DrawnEdges(f: Form, edges: seq<FlowEdge>) {
    && |f.transitions| <= |edges|
    && (forall i :: 0 <= i < |f.transitions| ==> edges[i].id == EdgeId(f.transitions[i], i))
    && (forall e :: e in edges[|f.transitions|..] <==> IsLinkOf(f, e))
    && Distinct(edges[|f.transitions|..])
  }

  lemma DrawnEdgesAre(f: Form, fallback: map<Name, Point>, auto: map<Name, Point>, c: Canvas)
    requires FormOk(f) && FormToFlowWithMarkers(f, fallback, auto) == Some(c)
    ensures DrawnEdges(f, c.edges)
  {
    LinksDistinct(f);
    forall e {
      LinkEdgeOf(f, e);
    }
    DrawnInParts(f, fallback, auto);
    BaseIds(f, fallback, auto);
    hide *;
    DrawnFrom(f, FormToFlow(f, fallback, auto).edges, MarkerEdges(f));
  }

  lemma BaseIds(f: Form, fallback: map<Name, Point>, auto: map<Name, Point>)
    ensures var te := FormToFlow(f, fallback, auto).edges;
      |te| == |f.transitions| && forall i :: 0 <= i < |te| ==> te[i].id == EdgeId(f.transitions[i], i)
  {
    hide FormToFlow, EdgeId;
  }

  lemma DrawnFrom(f: Form, te: seq<FlowEdge>, links: seq<FlowEdge>)
    requires |te| == |f.transitions| && forall i :: 0 <= i < |te| ==> te[i].id == EdgeId(f.transitions[i], i)
    requires Distinct(links) && forall e :: e in links <==> IsLinkOf(f, e)
    ensures DrawnEdges(f, te + links)
  {
    hide EdgeId, IsLinkOf;
    assert (te + links)[|te|..] == links;
  }

  lemma PlainNamesKeepIds(f: Form, edges: seq<FlowEdge>, i: nat, j: nat)
    requires FormOk(f) && DrawnEdges(f, edges) && i < j < |edges| && edges[i].id == edges[j].id
    ensures NamesClash(f)
  {
    var n := |f.transitions|;
    hide FormOk, NamesClash, IsLinkOf, EdgeId;
    if j < n {
      SeedIdsDiffer(f.transitions, i, j);
    } else {
      assert edges[j] == edges[n..][j - n] && edges[j] in edges[n..];
      if i < n {
        EdgeClashes(f, i, edges[j]);
      } else {
        assert edges[i] == edges[n..][i - n] && edges[i] in edges[n..];
        LinksClash(f, edges[i], edges[j]);
      }
    }
  }

  lemma LinkIsDrawn(f: Form, edges: seq<FlowEdge>, e: FlowEdge) returns (j: nat)
    requires DrawnEdges(f, edges) && IsLinkOf(f, e)
    ensures |f.transitions| <= j < |edges| && edges[j] == e
  {
    hide IsLinkOf, EdgeId;
    var n := |f.transitions|;
    assert e in edges[n..];
    var k :| 0 <= k < |edges[n..]| && edges[n..][k] == e;
    j := n + k;
  }

  lemma TransitionSharesId(f: Form, edges: seq<FlowEdge>, s: Name, x: string, j: nat)
    requires DrawnEdges(f, edges) && MeetsTransition(f, s, x)
    requires |f.transitions| <= j < |edges| && edges[j] == StartEdge(s)
    ensures !DistinctIds(edges)
  {
    var ts := f.transitions;
    var i :| 0 <= i < |ts| && ts[i].from == START_NODE_ID + "->" + x && s == x + "->" + ts[i].to + "#" + Dec(i);
    hide IsLinkOf, Distinct, Dec;
    assert EdgeId(ts[i], i) == START_NODE_ID + "->" + s;
    assert edges[i].id == edges[j].id;
  }

  lemma EndSharesId(edges: seq<FlowEdge>, s: Name, x: string, j: nat, k: nat)
    requires s == x + "->" + END_NODE_ID && j < |edges| && k < |edges|
    requires edges[j] == StartEdge(s) && edges[k] == EndEdge(START_NODE_ID + "->" + x)
    ensures !DistinctIds(edges)
  {
    assert START_NODE_ID + "->" + (x + "->" + END_NODE_ID) == (START_NODE_ID + "->" + x) + "->" + END_NODE_ID;
    assert edges[j].id == edges[k].id;
    assert edges[j].target == s && edges[k].target == END_NODE_ID && |s| > |END_NODE_ID|;
  }

  lemma ClashSharesId(f: Form, edges: seq<FlowEdge>)
    requires FormOk(f) && DrawnEdges(f, edges) && NamesClash(f)
    ensures !DistinctIds(edges)
  {
    var s, x :| s in f.startSources && Meets(f, s, x);
    assert IsLinkOf(f, StartEdge(s));
    assert MeetsEnd(f, s, x) ==> IsLinkOf(f, EndEdge(START_NODE_ID + "->" + x)) && s == x + "->" + END_NODE_ID;
    assert MeetsTransition(f, s, x) || MeetsEnd(f, s, x);
    hide *;
    var j := LinkIsDrawn(f, edges, StartEdge(s));
    if MeetsTransition(f, s, x) {
      TransitionSharesId(f, edges, s, x, j);
    } else {
      var k := LinkIsDrawn(f, edges, EndEdge(START_NODE_ID + "->" + x));
      EndSharesId(edges, s, x, j, k);
    }
  }

  /**
   * On a canvas just drawn all edge ids differ exactly when no start source is named like the rest of the id of an edge
   * that leaves a state whose own name begins with the id of the Start marker and an arrow.
   */
  lemma DrawnIdsExactly(f: Form, fallback: map<Name, Point>, auto: map<Name, Point>, c: Canvas)
    requires FormOk(f) && FormToFlowWithMarkers(f, fallback, auto) == Some(c)
    ensures DistinctIds(c.edges) <==> !NamesClash(f)
  {
    hide *;
    DrawnEdgesAre(f, fallback, auto, c);
    if NamesClash(f) {
      ClashSharesId(f, c.edges);
    } else {
      ManyIds(c.edges);
      if i, j :| 0 <= i < j < |c.edges| && c.edges[i].id == c.edges[j].id {
        PlainNamesKeepIds(f, c.edges, i, j);
      }
    }
  }

  lemma ManyIds(edges: seq<FlowEdge>)
    ensures DistinctIds(edges) <==> forall i, j :: 0 <= i < j < |edges| ==> edges[i].id != edges[j].id
  {}

  /** Three states, a transition and a start link that share an id. */
  function ClashingForm(): Form {
    Form(CustomMode, ["__start->X", "Y", "X->Y#0"], [Plain("__start->X", "Y", "go")], map[], map[], map[],
      DEFAULT_TERMINALS, [], ["X->Y#0"])
  }

  /** An arrow in names can make a marker edge and a transition share an id, on a form that meets the rules. */
  lemma IdsCanClash()
    ensures
      var f := ClashingForm();
      && FormOk(f) && Renderable(f) && MeetsRules(f) && NamesClash(f)
      && EdgeId(f.transitions[0], 0) == StartEdge(f.startSources[0]).id
  {
    var f := ClashingForm();
    ClashingNames(f.states);
    ClashingRules(f);
    hide NamesOk, MeetsRules, Distinct, Dec;
    ClashingLinks(f);
  }

  lemma ClashingLinks(f: Form)
    requires f == ClashingForm()
    ensures NamesClash(f) && EdgeId(f.transitions[0], 0) == StartEdge(f.startSources[0]).id
  {
    assert Dec(0) == "0";
    assert "__start->X" == START_NODE_ID + "->" + "X" && "X->Y#0" == "X" + "->" + "Y" + "#" + "0";
    assert MeetsTransition(f, "X->Y#0", "X");
    assert Meets(f, "X->Y#0", "X");
    assert EdgeId(f.transitions[0], 0) == "__start->X->Y#0" == StartEdge("X->Y#0").id;
  }

  lemma ClashingRules(f: Form)
    requires f == ClashingForm() && NamesOk(f.states)
    ensures MeetsRules(f)
  {
    hide Dec;
    assert f.transitions[0].actionLabel[0] == 'g';
    assert Map(KeyOf, f.transitions) == [KeyOf(f.transitions[0])];
    assert f.states[0] == f.transitions[0].from && f.states[1] == f.transitions[0].to;
  }

  lemma ClashingNames(states: seq<Name>)
    requires states == ["__start->X", "Y", "X->Y#0"]
    ensures NamesOk(states)
  {
    assert |states[0]| == 10 && |states[1]| == 1 && |states[2]| == 6;
    assert states[0][0] == '_' && states[1][0] == 'Y' && states[2][0] == 'X';
  }

  // ---------------------------------------------------------------- what validation can still find

  /** A non-empty draft whose names hold no arrow breaks at most the label and the policy rules. */
  lemma OnlyLabelsAndPolicies(f: Form, p: Problem)
    requires FormOk(f) && f.states != [] && f.transitions != [] && (forall s :: s in f.states ==> NoArrow(s))
    requires HasProblem(f.states, f.transitions, p)
    ensures p.BlankLabel? || p.PolicyNeedsWaiting? || p.PolicyNeedsCount?
  {
    NoNameFault(f, p);
    var ts := f.transitions;
    assert EdgeFault(f.states, ts, |ts|, p);
    var i: nat :| i < |ts| && EdgeProblem(f.states, ts, i, p);
    KeyIsNew(f, i);
    assert ts[i].from in f.states && ts[i].to in f.states;
  }

  lemma NoNameFault(f: Form, p: Problem)
    requires FormOk(f)
    ensures !StateFault(f.states, |f.states|, p)
  {
    forall i: nat | i < |f.states| ensures !StateProblem(f.states, i, p) {
      assert f.states[i] in f.states;
    }
  }

  lemma KeyIsNew(f: Form, i: nat)
    requires FormOk(f) && i < |f.transitions| && (forall s :: s in f.states ==> NoArrow(s))
    ensures KeyOf(f.transitions[i]) !in Map(KeyOf, f.transitions[..i])
  {
    var ts := f.transitions;
    hide RefsLive, NamesOk, NoArrow;
    forall j | 0 <= j < i ensures KeyOf(ts[j]) != KeyOf(ts[i]) {
      assert ts[j].from in f.states && ts[i].from in f.states && !SamePair(ts[j], ts[i]);
      if KeyOf(ts[j]) == KeyOf(ts[i]) {
        ArrowSplits(ts[j].from, ts[j].to, ts[i].from, ts[i].to);
      }
    }
  }

  // ---------------------------------------------------------------- a rename onto a marker's id

  /**
   * Renaming to a fresh, non-blank name leaves a well-formed draft exactly when the name is not the id of a marker.
   * The rename guard only looks at the nodes on the canvas, so it misses the id of a hidden marker; the panel never
   * sends one because it upper-cases what is typed.
   */
  lemma RenameIsOkExactly(f: Form, nodes: seq<FlowNode>, edges: seq<FlowEdge>, last: Signature, next: nat, r: Rename)
    requires SettledEditor(f, nodes, edges, last, next)
    requires r.from in f.states && !IsNode(nodes, r.to) && !IsBlank(r.to)
    ensures FormOk(CommitForm(f, Map(RenamesNode(r), nodes), Map(RenamesEdge(r), edges), Some(r)))
      <==> !IsTerminalNodeId(r.to)
    ensures IsTerminalNodeId(r.to) ==>
      (if r.to == START_NODE_ID then f.terminalNodes.start else f.terminalNodes.end) == Hidden
  {
    NodeIds(f, nodes, edges, last, next, r.to);
    CanvasMeans(f, r.to);
    SettledCanvas(f, nodes, edges, last, next);
    hide *;
    var nextNodes, nextEdges := Map(RenamesNode(r), nodes), Map(RenamesEdge(r), edges);
    var g := CommitForm(f, nextNodes, nextEdges, Some(r));
    if IsTerminalNodeId(r.to) {
      RenamedNodePresent(f, nodes, r);
      CommitStates(f, nextNodes, nextEdges, Some(r));
      ReservedIsBad(g, r.to);
      HiddenMarker(f, r.to);
    } else {
      StateRenamed(f, nodes, edges, last, next, r);
      CommitFormOk(f, nextNodes, nextEdges, Some(r), next);
    }
  }

  lemma HiddenMarker(f: Form, id: Name)
    requires !OnCanvas(f, id) && IsTerminalNodeId(id)
    ensures (if id == START_NODE_ID then f.terminalNodes.start else f.terminalNodes.end) == Hidden
  {}

  lemma CommitStates(f: Form, nodes: seq<FlowNode>, edges: seq<FlowEdge>, rename: Option<Rename>)
    ensures CommitForm(f, nodes, edges, rename).states == NamesOf(nodes)
  {
    hide Filter, Reconcile, Capture, PositionByName, NameById;
  }

  lemma ReservedIsBad(g: Form, id: Name)
    requires id in g.states && IsTerminalNodeId(id)
    ensures !FormOk(g)
  {}

  lemma RenamedNodePresent(f: Form, nodes: seq<FlowNode>, r: Rename)
    requires NodesOk(StateNodes(nodes)) && NamesOf(nodes) == f.states && r.from in f.states
    ensures r.to in NamesOf(Map(RenamesNode(r), nodes))
  {
    FilterMap(IsState, RenamesNode(r), nodes);
    var sn := StateNodes(nodes);
    var i :| 0 <= i < |f.states| && f.states[i] == r.from;
    assert sn[i].id == r.from;
    assert NamesOf(Map(RenamesNode(r), nodes))[i] == r.to;
  }

  // ---------------------------------------------------------------- the guard during a drag

  /** What the canvas shows as a valid drop while a connection is being dragged. */
  predicate IsValidConnection(edges: seq<FlowEdge>, from: Name, to: Name) {
    if to == END_NODE_ID then !IsTerminalNodeId(from) && !HasEndSource(edges, from)
    else if to == START_NODE_ID then false
    else if from == START_NODE_ID then !IsTerminalNodeId(to) && !HasStartSource(edges, to)
    else if from == END_NODE_ID then false
    else !IsTerminalNodeId(from) && !IsTerminalNodeId(to) && !IsDuplicateTransition(edges, from, to)
  }

  /** What a connection needs in order to change the form. */
  ghost predicate Connects(f: Form, from: Name, to: Name) {
    if to == END_NODE_ID then !IsTerminalNodeId(from) && from !in f.endSources
    else if from == START_NODE_ID then !IsTerminalNodeId(to) && to !in f.startSources
    else !IsTerminalNodeId(from) && !IsTerminalNodeId(to) && !HasPair(f.transitions, from, to)
  }

  /** The drag shows a drop as valid exactly when dropping there changes the form. */
  lemma DragShowsWhatConnects(f: Form, nodes: seq<FlowNode>, edges: seq<FlowEdge>, last: Signature, next: nat,
    from: Name, to: Name)
    requires SettledEditor(f, nodes, edges, last, next) && OnCanvas(f, from) && OnCanvas(f, to)
    ensures IsValidConnection(edges, from, to) <==> Connects(f, from, to)
  {
    GuardSeesPairs(f, nodes, edges, last, next, from, to);
    MarkersReserved(f, nodes, edges, last, next);
    hide SettledEditor, HasPair, HasEndSource, HasStartSource, IsDuplicateTransition;
    if to == END_NODE_ID {
      EndLinksShown(f, nodes, edges, last, next, from);
    } else if from == START_NODE_ID {
      StartLinksShown(f, nodes, edges, last, next, to);
    }
  }

  // ---------------------------------------------------------------- what a drop is answered with

  /** The drag ended where it began, on a state; a drop that hit no handle counts by the node under the pointer. */
  ghost predicate OntoItself(o: ConnectEnd) {
    && o.fromId.Some? && o.fromId.value != START_NODE_ID && o.fromId.value != END_NODE_ID
    && (if o.toId.Some? then o.toId == o.fromId else o.pointer == o.fromId)
  }

  /** Why a rejected drop between two nodes was refused, as the form knows it; the first that applies. */
  ghost predicate Refused(f: Form, from: Option<Name>, to: Name, why: Refusal) {
    if to == END_NODE_ID && f.terminalNodes.end != Hidden && from.Some? && from.value in f.endSources then
      why == AlreadyLinkedToEnd(from.value)
    else if from == Some(START_NODE_ID) && f.terminalNodes.start != Hidden && to in f.startSources then
      why == AlreadyLinkedToStart(to)
    else if from.Some? && HasPair(f.transitions, from.value, to) then
      why == if from.value == to then AlreadyLoops(to) else AlreadyConnected(from.value, to)
    else why == NotPossible
  }

  /** The answer to the end of a drag: a loop to draw, a reason that is true of the form, or nothing. */
  ghost predicate Answered(f: Form, o: ConnectEnd, d: Decision) {
    if OntoItself(o) then
      var s := o.fromId.value;
      if o.isValid == Some(true) then d == Nothing
      else if HasPair(f.transitions, s, s) then d == Message(AlreadyLoops(s))
      else d.SelfLoop? && d.state == s && d.handles.source == o.fromHandle.Or(Right)
    else if o.isValid == Some(false) && o.toId.Some? then
      d.Message? && Refused(f, o.fromId, o.toId.value, d.why)
    else d == Nothing
  }

  lemma EndLinkMeans(f: Form, nodes: seq<FlowNode>, edges: seq<FlowEdge>, last: Signature, next: nat, s: Name)
    requires SettledEditor(f, nodes, edges, last, next)
    ensures HasEndSource(edges, s) <==> f.terminalNodes.end != Hidden && s in f.endSources
  {
    if f.terminalNodes.end != Hidden {
      EndLinksShown(f, nodes, edges, last, next, s);
    } else {
      LinksShown(f, nodes, edges, last, next);
      NamesArePlain(f);
      hide SettledEditor;
    }
  }

  lemma StartLinkMeans(f: Form, nodes: seq<FlowNode>, edges: seq<FlowEdge>, last: Signature, next: nat, s: Name)
    requires SettledEditor(f, nodes, edges, last, next)
    ensures HasStartSource(edges, s) <==> f.terminalNodes.start != Hidden && s in f.startSources
  {
    if f.terminalNodes.start != Hidden {
      StartLinksShown(f, nodes, edges, last, next, s);
    } else {
      LinksShown(f, nodes, edges, last, next);
      NamesArePlain(f);
      hide SettledEditor;
    }
  }

  /** On a settled canvas the end of every drag is answered by what the form holds. */
  lemma DropsAreAnswered(f: Form, nodes: seq<FlowNode>, edges: seq<FlowEdge>, last: Signature, next: nat,
    o: ConnectEnd)
    requires SettledEditor(f, nodes, edges, last, next)
    ensures Answered(f, o, DecideConnectEnd(o, edges))
  {
    if o.fromId.Some? {
      GuardSeesPairs(f, nodes, edges, last, next, o.fromId.value, o.fromId.value);
      if o.toId.Some? {
        GuardSeesPairs(f, nodes, edges, last, next, o.fromId.value, o.toId.value);
      }
      EndLinkMeans(f, nodes, edges, last, next, o.fromId.value);
    }
    if o.toId.Some? {
      StartLinkMeans(f, nodes, edges, last, next, o.toId.value);
    }
    hide *;
    if OntoItself(o) {
      LoopAnswered(f, o, edges);
    } else {
      DropAnswered(f, o, edges);
    }
  }

  lemma LoopAnswered(f: Form, o: ConnectEnd, edges: seq<FlowEdge>)
    requires OntoItself(o)
    requires IsDuplicateTransition(edges, o.fromId.value, o.fromId.value) <==>
      HasPair(f.transitions, o.fromId.value, o.fromId.value)
    ensures Answered(f, o, DecideConnectEnd(o, edges))
  {
    hide HasPair, IsDuplicateTransition, RejectionMessage;
  }

  lemma DropAnswered(f: Form, o: ConnectEnd, edges: seq<FlowEdge>)
    requires !OntoItself(o)
    requires o.fromId.Some? && o.toId.Some? ==>
      (IsDuplicateTransition(edges, o.fromId.value, o.toId.value) <==>
        HasPair(f.transitions, o.fromId.value, o.toId.value))
    requires o.fromId.Some? ==>
      (HasEndSource(edges, o.fromId.value) <==> f.terminalNodes.end != Hidden && o.fromId.value in f.endSources)
    requires o.toId.Some? ==>
      (HasStartSource(edges, o.toId.value) <==> f.terminalNodes.start != Hidden && o.toId.value in f.startSources)
    ensures Answered(f, o, DecideConnectEnd(o, edges))
  {
    NotLooped(o, edges);
    hide HasPair, IsDuplicateTransition, HasEndSource, HasStartSource, DecideConnectEnd, OntoItself;
  }

  lemma NotLooped(o: ConnectEnd, edges: seq<FlowEdge>)
    requires !OntoItself(o)
    ensures DecideConnectEnd(o, edges) ==
      match RejectionMessage(o, edges) case Some(why) => Message(why) case None => Nothing
  {
    hide RejectionMessage, IsDuplicateTransition;
  }
}
