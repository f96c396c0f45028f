/**
 * The default canvas layout of a state machine: an iterative depth-first search drops the edges that close a cycle,
 * a relaxation over what is left gives every state a rank, and ranks become coordinates.
 */
module AutoLayout {
  import opened Sequences
  import opened StateMachine

  type Graph = map<Name, seq<Name>>

  const X_SPACING: int := 240
  const Y_SPACING: int := 120

  // ---------------------------------------------------------------- paths

  ghost predicate IsPath(g: Graph, p: seq<Name>) {
    && p != []
    && (forall i :: 0 <= i < |p| ==> p[i] in g)
    && (forall i, j {:trigger p[i], p[j]} :: 0 <= i && i + 1 == j && j < |p| ==> p[j] in g[p[i]])
  }

  ghost predicate PathTo(g: Graph, p: seq<Name>, b: Name) {
    IsPath(g, p) && p[|p| - 1] == b
  }

  ghost predicate Reaches(g: Graph, a: Name, b: Name) {
    exists p :: PathTo(g, p, b) && p[0] == a
  }

  /** No path with at least one edge returns to where it started. */
  ghost predicate Acyclic(g: Graph) {
    forall p :: IsPath(g, p) && |p| >= 2 ==> p[0] != p[|p| - 1]
  }

  ghost predicate ClosedGraph(g: Graph) {
    forall u, v :: u in g && v in g[u] ==> v in g
  }

  // ---------------------------------------------------------------- the usable edges

  predicate Usable(states: seq<Name>, t: Transition) {
    t.from in states && t.to in states && t.from != t.to
  }

  /** The targets of the usable transitions that leave `u`, in the order they are declared. */
  function Targets(states: seq<Name>, transitions: seq<Transition>, u: Name): seq<Name> {
    if transitions == [] then [] else
      var t := transitions[|transitions| - 1];
      Targets(states, transitions[..|transitions| - 1], u) + if Usable(states, t) && t.from == u then [t.to] else []
  }

  function UsableGraph(states: seq<Name>, transitions: seq<Transition>): Graph {
    map u | u in states :: Targets(states, transitions, u)
  }

  lemma {:induction false} TargetsKnown(states: seq<Name>, transitions: seq<Transition>, u: Name)
    ensures forall v :: v in Targets(states, transitions, u) ==> v in states && v != u
  {
    if transitions != [] {
      TargetsKnown(states, transitions[..|transitions| - 1], u);
    }
  }

  lemma UsableGraphClosed(states: seq<Name>, transitions: seq<Transition>)
    ensures ClosedGraph(UsableGraph(states, transitions))
  {
    forall u | u in states {
      TargetsKnown(states, transitions, u);
    }
  }

  ghost predicate HasNoIncoming(g: Graph, v: Name) {
    forall u :: u in g ==> v !in g[u]
  }

  /** One more transition appends its target to the list of its source, or changes nothing. */
  lemma UsableGraphExtends(states: seq<Name>, transitions: seq<Transition>, t: Transition)
    ensures
      var g := UsableGraph(states, transitions);
      UsableGraph(states, transitions + [t]) == if Usable(states, t) then g[t.from := g[t.from] + [t.to]] else g
  {
    var all := transitions + [t];
    assert all[..|all| - 1] == transitions;
    forall u | u in states
      ensures Targets(states, all, u)
           == Targets(states, transitions, u) + if Usable(states, t) && t.from == u then [t.to] else []
    {}
    assert forall u :: Targets(states, transitions, u) + [] == Targets(states, transitions, u);
  }

  lemma IncomingAfterAppend(g: Graph, u: Name, w: Name, v: Name)
    requires u in g
    ensures HasNoIncoming(g[u := g[u] + [w]], v) <==> HasNoIncoming(g, v) && v != w
  {
    var h := g[u := g[u] + [w]];
    assert w in h[u];
    if HasNoIncoming(h, v) {
      forall x | x in g ensures v !in g[x] {
        assert v !in h[x];
      }
    }
  }

  /** Adjacency lists and in-degrees of the usable edges; a self-loop or an edge to an unknown state does not count. */
  method BuildGraph(states: seq<Name>, transitions: seq<Transition>) returns (adj: Graph, indegree: map<Name, nat>)
    ensures adj == UsableGraph(states, transitions)
    ensures indegree.Keys == ToSet(states)
    ensures forall v :: v in indegree ==> (indegree[v] == 0 <==> HasNoIncoming(adj, v))
  {
    adj, indegree := EmptyLists(states);
    NoTransitionsYet(states, transitions, adj);
    assert DegreesFit(adj, indegree);
    hide *;
    for i := 0 to |transitions|
      invariant adj == UsableGraph(states, transitions[..i]) && DegreesFit(adj, indegree)
    {
      adj, indegree := AddEdge(states, transitions[..i], transitions[i], adj, indegree);
      assert transitions[..i] + [transitions[i]] == transitions[..i + 1];
    }
    assert transitions[..|transitions|] == transitions;
    KnownKeys(states, transitions);
    DegreesMean(adj, indegree);
  }

  /** One transition: append its target and count it, unless it is unusable. */
  method AddEdge(states: seq<Name>, ghost before: seq<Transition>, t: Transition, adj0: Graph,
    indegree0: map<Name, nat>)
    returns (adj: Graph, indegree: map<Name, nat>)
    requires adj0 == UsableGraph(states, before) && DegreesFit(adj0, indegree0)
    ensures adj == UsableGraph(states, before + [t]) && DegreesFit(adj, indegree)
  {
    UsableGraphExtends(states, before, t);
    KnownKeys(states, before);
    DegreeKeys(adj0, indegree0);
    hide UsableGraph, DegreesFit;
    adj, indegree := adj0, indegree0;
    if t.from !in states || t.to !in states || t.from == t.to { return; }
    DegreesAfter(adj, indegree, t.from, t.to);
    adj := adj[t.from := adj[t.from] + [t.to]];
    indegree := indegree[t.to := indegree[t.to] + 1];
  }

  lemma DegreeKeys(adj: Graph, indegree: map<Name, nat>)
    requires DegreesFit(adj, indegree)
    ensures adj.Keys == indegree.Keys
  {}

  /** A degree is zero exactly when nothing leads in. */
  ghost predicate DegreesFit(adj: Graph, indegree: map<Name, nat>) {
    adj.Keys == indegree.Keys && forall v :: v in indegree ==> (indegree[v] == 0 <==> HasNoIncoming(adj, v))
  }

  lemma DegreesMean(adj: Graph, indegree: map<Name, nat>)
    requires DegreesFit(adj, indegree)
    ensures adj.Keys == indegree.Keys && forall v :: v in indegree ==> (indegree[v] == 0 <==> HasNoIncoming(adj, v))
  {}

  lemma DegreesAfter(adj: Graph, indegree: map<Name, nat>, u: Name, w: Name)
    requires DegreesFit(adj, indegree) && u in adj && w in adj
    ensures DegreesFit(adj[u := adj[u] + [w]], indegree[w := indegree[w] + 1])
  {
    forall v | v in indegree {
      IncomingAfterAppend(adj, u, w, v);
    }
    hide HasNoIncoming;
  }

  lemma KnownKeys(states: seq<Name>, transitions: seq<Transition>)
    ensures UsableGraph(states, transitions).Keys == ToSet(states)
  {}

  lemma NoTransitionsYet(states: seq<Name>, transitions: seq<Transition>, adj: Graph)
    requires adj.Keys == ToSet(states) && forall s :: s in adj ==> adj[s] == []
    ensures adj == UsableGraph(states, transitions[..0]) && forall v :: v in adj ==> HasNoIncoming(adj, v)
  {}

  method EmptyLists(states: seq<Name>) returns (adj: Graph, indegree: map<Name, nat>)
    ensures adj.Keys == ToSet(states) == indegree.Keys
    ensures forall s :: s in adj ==> adj[s] == [] && indegree[s] == 0
  {
    adj, indegree := map[], map[];
    for i := 0 to |states|
      invariant adj.Keys == ToSet(states[..i]) == indegree.Keys
      invariant forall s :: s in adj ==> adj[s] == [] && indegree[s] == 0
    {
      assert states[..i + 1] == states[..i] + [states[i]];
      adj, indegree := adj[states[i] := []], indegree[states[i] := 0];
    }
    assert states[..|states|] == states;
  }

  // ---------------------------------------------------------------- the depth-first search

  datatype Frame = Frame(node: Name, edgeIdx: nat)

  /**
   * One moment of the search. `visited`, `onStack`, `stack` and `dag` are the program's own variables; `done` (the
   * finished states, oldest first) and `dropped` (the edges left out so far) record its history.
   */
  datatype Search = Search(
    stack: seq<Frame>, visited: set<Name>, onStack: set<Name>, dag: Graph, done: seq<Name>, dropped: set<(Name, Name)>)

  ghost predicate FramesFit(adj: Graph, stack: seq<Frame>) {
    forall k :: 0 <= k < |stack| ==> stack[k].node in adj && stack[k].edgeIdx <= |adj[stack[k].node]|
  }

  ghost predicate Fits(adj: Graph, s: Search) {
    ClosedGraph(adj) && FramesFit(adj, s.stack) && s.dag.Keys == adj.Keys && s.visited <= adj.Keys
  }

  ghost function Start(s: Search, root: Name): Search {
    s.(stack := [Frame(root, 0)], onStack := {root}, visited := s.visited + {root})
  }

  /** One turn of the inner loop. */
  ghost function Step(adj: Graph, s: Search): (r: Search)
    requires Fits(adj, s) && s.stack != []
    ensures Fits(adj, r)
  {
    var last := |s.stack| - 1;
    var top := s.stack[last];
    if top.edgeIdx < |adj[top.node]| then
      var v := adj[top.node][top.edgeIdx];
      var below := s.stack[..last] + [Frame(top.node, top.edgeIdx + 1)];
      if v !in s.visited then
        s.(stack := below + [Frame(v, 0)], visited := s.visited + {v}, onStack := s.onStack + {v},
           dag := s.dag[top.node := s.dag[top.node] + [v]])
      else if v !in s.onStack then
        s.(stack := below, dag := s.dag[top.node := s.dag[top.node] + [v]])
      else
        s.(stack := below, dropped := s.dropped + {(top.node, v)})
    else
      s.(stack := s.stack[..last], onStack := s.onStack - {top.node}, done := s.done + [top.node])
  }

  /** Edges still to be looked at from the stack, plus one for each pop. */
  ghost function Work(adj: Graph, stack: seq<Frame>): nat
    requires FramesFit(adj, stack)
  {
    if stack == [] then 0 else
      var top := stack[|stack| - 1];
      Work(adj, stack[..|stack| - 1]) + |adj[top.node]| - top.edgeIdx + 1
  }

  ghost function WorkOf(adj: Graph, s: Search): nat
    requires Fits(adj, s)
  {
    Work(adj, s.stack)
  }

  lemma WorkPush(adj: Graph, below: seq<Frame>, f: Frame)
    requires FramesFit(adj, below) && f.node in adj && f.edgeIdx <= |adj[f.node]|
    ensures FramesFit(adj, below + [f])
    ensures Work(adj, below + [f]) == Work(adj, below) + |adj[f.node]| - f.edgeIdx + 1
  {
    assert (below + [f])[..|below|] == below;
  }

  lemma BelowFits(adj: Graph, stack: seq<Frame>)
    requires FramesFit(adj, stack) && stack != []
    ensures FramesFit(adj, stack[..|stack| - 1]) && stack == stack[..|stack| - 1] + [stack[|stack| - 1]]
  {}

  /** Every turn looks at one more edge, or finds a new state. */
  lemma StepDescends(adj: Graph, s: Search)
    requires Fits(adj, s) && s.stack != []
    ensures
      var r := Step(adj, s);
      || |adj.Keys - r.visited| < |adj.Keys - s.visited|
      || (r.visited == s.visited && WorkOf(adj, r) < WorkOf(adj, s))
  {
    var last := |s.stack| - 1;
    var top, below := s.stack[last], s.stack[..last];
    var r := Step(adj, s);
    TopFits(adj, s);
    BelowFits(adj, s.stack);
    WorkPush(adj, below, top);
    if top.edgeIdx < |adj[top.node]| {
      var v := adj[top.node][top.edgeIdx];
      if v !in s.visited {
        NewState(adj, s, v);
      } else {
        WorkPush(adj, below, Frame(top.node, top.edgeIdx + 1));
      }
    }
    hide Work, FramesFit, ClosedGraph;
  }

  lemma NewState(adj: Graph, s: Search, v: Name)
    requires v in adj && v !in s.visited
    ensures |adj.Keys - (s.visited + {v})| < |adj.Keys - s.visited|
  {
    assert adj.Keys - (s.visited + {v}) == (adj.Keys - s.visited) - {v};
  }

  /** The inner loop, run until its stack is empty. */
  ghost function Explore(adj: Graph, s: Search): (r: Search)
    requires Fits(adj, s)
    ensures Fits(adj, r) && r.stack == []
    decreases |adj.Keys - s.visited|, WorkOf(adj, s)
  {
    if s.stack == [] then s else
      StepDescends(adj, s);
      Explore(adj, Step(adj, s))
  }

  lemma ExploreTurn(adj: Graph, s: Search)
    requires Fits(adj, s) && s.stack != []
    ensures Explore(adj, s) == Explore(adj, Step(adj, s)) && Fits(adj, Step(adj, s))
  {
    hide Step, Fits;
    StepDescends(adj, s);
  }

  lemma TopFits(adj: Graph, s: Search)
    requires Fits(adj, s) && s.stack != []
    ensures
      var top := s.stack[|s.stack| - 1];
      top.node in adj && top.node in s.dag && top.edgeIdx <= |adj[top.node]|
  {}

  /** The outer loop: every state not seen yet becomes the root of a search. */
  ghost function SearchAll(adj: Graph, roots: seq<Name>, s: Search): (r: Search)
    requires Fits(adj, s) && s.stack == [] && forall x :: x in roots ==> x in adj
    ensures Fits(adj, r) && r.stack == []
  {
    if roots == [] then s else
      SearchAll(adj, roots[1..], if roots[0] in s.visited then s else Explore(adj, Start(s, roots[0])))
  }

  ghost function Unsearched(adj: Graph): Search {
    Search([], {}, {}, map u | u in adj :: [], [], {})
  }

  /** The inner loop: search from one root, growing `visited` and the retained graph. */
  method SearchFrom(adj: Graph, root: Name, seen: set<Name>, retained: Graph, ghost s: Search)
    returns (visited: set<Name>, dagAdj: Graph)
    requires Fits(adj, s) && root in adj && s.visited == seen && s.dag == retained
    ensures visited == Explore(adj, Start(s, root)).visited
    ensures dagAdj == Explore(adj, Start(s, root)).dag
  {
    var stack := [Frame(root, 0)];
    var onStack := {root};
    visited, dagAdj := seen + {root}, retained;
    ghost var now := Start(s, root);
    assert Fits(adj, now) && now.stack == stack && now.onStack == onStack;
    assert now.visited == visited && now.dag == dagAdj;
    hide Explore, Fits, WorkOf, Step, Start;
    while stack != []
      invariant Fits(adj, now) && Explore(adj, now) == Explore(adj, Start(s, root))
      invariant now.stack == stack && now.onStack == onStack && now.visited == visited && now.dag == dagAdj
      decreases |adj.Keys - now.visited|, WorkOf(adj, now)
    {
      ExploreTurn(adj, now);
      StepDescends(adj, now);
      stack, visited, onStack, dagAdj := Turn(adj, stack, visited, onStack, dagAdj, now);
      now := Step(adj, now);
    }
    ExploreIdle(adj, now);
  }

  /** The body of the inner loop: follow the next edge of the top state, or pop it. */
  method Turn(adj: Graph, stack0: seq<Frame>, visited0: set<Name>, onStack0: set<Name>, dag0: Graph, ghost s: Search)
    returns (stack: seq<Frame>, visited: set<Name>, onStack: set<Name>, dagAdj: Graph)
    requires Fits(adj, s) && s.stack != []
    requires s.stack == stack0 && s.onStack == onStack0 && s.visited == visited0 && s.dag == dag0
    ensures
      var r := Step(adj, s);
      stack == r.stack && visited == r.visited && onStack == r.onStack && dagAdj == r.dag
  {
    TopFits(adj, s);
    hide Fits;
    stack, visited, onStack, dagAdj := stack0, visited0, onStack0, dag0;
    var last := |stack| - 1;
    var top := stack[last];
    var outs := adj[top.node];
    if top.edgeIdx < |outs| {
      var v := outs[top.edgeIdx];
      stack := stack[..last] + [Frame(top.node, top.edgeIdx + 1)];
      if v !in visited {
        visited, onStack := visited + {v}, onStack + {v};
        stack := stack + [Frame(v, 0)];
        dagAdj := dagAdj[top.node := dagAdj[top.node] + [v]];
      } else if v !in onStack {
        dagAdj := dagAdj[top.node := dagAdj[top.node] + [v]];
      }
    } else {
      onStack := onStack - {top.node};
      stack := stack[..last];
    }
  }

  lemma ExploreIdle(adj: Graph, s: Search)
    requires Fits(adj, s) && s.stack == []
    ensures Explore(adj, s) == s
  {}

  method ClassifyEdges(states: seq<Name>, adj: Graph) returns (dagAdj: Graph)
    requires ClosedGraph(adj) && adj.Keys == ToSet(states)
    ensures dagAdj == SearchAll(adj, states, Unsearched(adj)).dag
  {
    var visited: set<Name> := {};
    dagAdj := map u | u in adj :: [];
    ghost var now := Unsearched(adj);
    NothingSearched(adj, states);
    hide *;
    for i := 0 to |states|
      invariant Fits(adj, now) && now.stack == [] && now.visited == visited && now.dag == dagAdj
      invariant SearchAll(adj, states[i..], now) == SearchAll(adj, states, Unsearched(adj))
    {
      SearchAllTurn(adj, states, i, now);
      if states[i] !in visited {
        visited, dagAdj := SearchFrom(adj, states[i], visited, dagAdj, now);
        now := Explore(adj, Start(now, states[i]));
      }
    }
    SearchAllEnds(adj, states, now);
  }

  lemma NothingSearched(adj: Graph, states: seq<Name>)
    requires ClosedGraph(adj) && adj.Keys == ToSet(states)
    ensures
      var s := Unsearched(adj);
      Fits(adj, s) && s.stack == [] && s.visited == {} && s.dag == (map u | u in adj :: [])
    ensures states[0..] == states && forall x :: x in states ==> x in adj
  {
    hide ClosedGraph;
  }

  lemma SearchAllTurn(adj: Graph, roots: seq<Name>, i: nat, s: Search)
    requires Fits(adj, s) && s.stack == [] && i < |roots| && forall x :: x in roots ==> x in adj
    ensures roots[i] in adj && Fits(adj, Start(s, roots[i]))
    ensures SearchAll(adj, roots[i..], s) ==
      SearchAll(adj, roots[i + 1..], if roots[i] in s.visited then s else Explore(adj, Start(s, roots[i])))
  {
    assert roots[i..][0] == roots[i] && roots[i..][1..] == roots[i + 1..];
    hide Explore;
  }

  lemma SearchAllEnds(adj: Graph, roots: seq<Name>, s: Search)
    requires Fits(adj, s) && s.stack == []
    ensures SearchAll(adj, roots[|roots|..], s) == s
  {
    assert roots[|roots|..] == [];
  }

  // ---------------------------------------------------------------- what the search keeps

  /** `vs` without the targets whose edge from `u` was dropped. */
  ghost function Kept(vs: seq<Name>, u: Name, dropped: set<(Name, Name)>): seq<Name> {
    if vs == [] then [] else
      var v := vs[|vs| - 1];
      Kept(vs[..|vs| - 1], u, dropped) + if (u, v) in dropped then [] else [v]
  }

  ghost predicate OnStackAt(s: Search, k: int, v: Name) {
    0 <= k < |s.stack| && s.stack[k].node == v
  }

  /** `onStack` holds the states of the stack, each once. */
  ghost predicate StackAgrees(s: Search) {
    && (forall v :: v in s.onStack <==> exists k :: OnStackAt(s, k, v))
    && (forall j, k :: 0 <= j < k < |s.stack| ==> s.stack[j].node != s.stack[k].node)
  }

  /** A visited state is on the stack or finished, never both. */
  ghost predicate Bookkept(s: Search) {
    && s.visited == s.onStack + ToSet(s.done)
    && s.onStack !! ToSet(s.done)
    && Distinct(s.done)
  }

  ghost predicate StackKnown(s: Search) {
    forall k :: 0 <= k < |s.stack| ==> s.stack[k].node in s.dag
  }

  /** The stack is a path of the retained graph. */
  ghost predicate Chained(s: Search) {
    StackKnown(s) && forall k :: 0 <= k < |s.stack| - 1 ==> s.stack[k + 1].node in s.dag[s.stack[k].node]
  }

  /** A retained target of a state on the stack is finished, or is the next state on the stack. */
  ghost predicate Settling(s: Search) {
    && StackKnown(s)
    && (forall k, v :: 0 <= k < |s.stack| && v in s.dag[s.stack[k].node] ==> v in s.done || OnStackAt(s, k + 1, v))
  }

  /** The retained targets of a finished state were finished before it. */
  ghost predicate Ordered(g: Graph, done: seq<Name>) {
    forall k, v :: 0 <= k < |done| && done[k] in g && v in g[done[k]] ==> v in done[..k]
  }

  /** Each list examined so far is the declared list without the dropped edges. */
  ghost predicate StackLists(adj: Graph, s: Search) requires Fits(adj, s) {
    forall k :: 0 <= k < |s.stack| ==>
      s.dag[s.stack[k].node] == Kept(adj[s.stack[k].node][..s.stack[k].edgeIdx], s.stack[k].node, s.dropped)
  }

  ghost predicate DoneLists(adj: Graph, s: Search) requires Fits(adj, s) {
    forall u :: u in s.done && u in adj ==> s.dag[u] == Kept(adj[u], u, s.dropped)
  }

  ghost predicate Untouched(s: Search) {
    forall u :: u in s.dag && u !in s.visited ==> s.dag[u] == []
  }

  /** A dropped edge points back at a state that reaches its source. */
  ghost predicate DroppedCloseCycles(s: Search) {
    forall u, v :: (u, v) in s.dropped ==> Reaches(s.dag, v, u)
  }

  ghost predicate Below(s: Search, k: int, v: Name) {
    exists j :: j <= k && OnStackAt(s, j, v)
  }

  /** A dropped edge leaves a visited state; while that state is on the stack, the target is below it. */
  ghost predicate DroppedBack(s: Search) {
    && (forall u, v :: (u, v) in s.dropped ==> u in s.visited)
    && (forall u, v, k :: (u, v) in s.dropped && OnStackAt(s, k, u) ==> Below(s, k, v))
  }

  ghost predicate SearchInv(adj: Graph, s: Search) {
    && Fits(adj, s) && StackAgrees(s) && Bookkept(s) && Chained(s) && Settling(s) && Ordered(s.dag, s.done)
    && Untouched(s) && StackLists(adj, s) && DoneLists(adj, s) && DroppedCloseCycles(s) && DroppedBack(s)
  }

  ghost predicate Extends(g: Graph, h: Graph) {
    g.Keys == h.Keys && forall u, v :: u in g && v in g[u] ==> v in h[u]
  }

  lemma ReachesGrows(g: Graph, h: Graph, a: Name, b: Name)
    requires Extends(g, h) && Reaches(g, a, b)
    ensures Reaches(h, a, b)
  {
    var p :| PathTo(g, p, b) && p[0] == a;
    assert PathTo(h, p, b);
  }

  /** Every state on the stack reaches the top along retained edges. */
  lemma StackIsPath(s: Search, v: Name)
    requires Chained(s) && StackAgrees(s) && v in s.onStack
    ensures s.stack != [] && Reaches(s.dag, v, s.stack[|s.stack| - 1].node)
  {
    var k :| OnStackAt(s, k, v);
    var p := seq(|s.stack| - k, i requires 0 <= i < |s.stack| - k => s.stack[k + i].node);
    assert PathTo(s.dag, p, s.stack[|s.stack| - 1].node);
  }

  ghost predicate SameStack(s: Search, r: Search) {
    && |r.stack| == |s.stack| && (forall k :: 0 <= k < |s.stack| ==> r.stack[k].node == s.stack[k].node)
    && r.onStack == s.onStack && r.visited == s.visited && r.done == s.done
  }

  ghost predicate FoundNew(s: Search, r: Search, v: Name) {
    && |r.stack| == |s.stack| + 1 && (forall k :: 0 <= k < |s.stack| ==> r.stack[k].node == s.stack[k].node)
    && r.stack[|s.stack|].node == v && v !in s.visited
    && r.onStack == s.onStack + {v} && r.visited == s.visited + {v} && r.done == s.done
  }

  ghost predicate PoppedTop(s: Search, r: Search) {
    s.stack != [] &&
    var top := s.stack[|s.stack| - 1];
    && r.stack == s.stack[..|s.stack| - 1] && r.onStack == s.onStack - {top.node}
    && r.visited == s.visited && r.done == s.done + [top.node] && r.dag == s.dag
  }

  /** The retained graph gains the edge from the top of the stack to `v`. */
  ghost predicate Gained(s: Search, r: Search, v: Name) {
    s.stack != [] &&
    var u := s.stack[|s.stack| - 1].node;
    u in s.dag && r.dag == s.dag[u := s.dag[u] + [v]]
  }

  lemma FitsKnows(adj: Graph, s: Search)
    requires Fits(adj, s)
    ensures StackKnown(s)
  {}

  /** A turn pushes a new state, keeps the stack and retains or drops an edge, or pops. */
  lemma StepShape(adj: Graph, s: Search)
    requires Fits(adj, s) && s.stack != []
    ensures StackKnown(Step(adj, s))
    ensures
      var r := Step(adj, s);
      || PoppedTop(s, r)
      || (SameStack(s, r) && r.dag == s.dag)
      || (exists v :: v in s.visited && v !in s.onStack && SameStack(s, r) && Gained(s, r, v))
      || (exists v :: FoundNew(s, r, v) && Gained(s, r, v))
  {
    TopFits(adj, s);
    FitsKnows(adj, Step(adj, s));
    hide Fits, StackKnown;
    var top := s.stack[|s.stack| - 1];
    var r := Step(adj, s);
    if top.edgeIdx < |adj[top.node]| {
      var v := adj[top.node][top.edgeIdx];
      if v !in s.visited {
        assert FoundNew(s, r, v) && Gained(s, r, v);
      } else if v !in s.onStack {
        assert SameStack(s, r) && Gained(s, r, v);
      }
    }
  }

  lemma SameNodesAgree(s: Search, r: Search)
    requires SameStack(s, r) && StackAgrees(s) && Bookkept(s)
    ensures StackAgrees(r) && Bookkept(r) && forall k, x :: OnStackAt(r, k, x) <==> OnStackAt(s, k, x)
  {
    hide Distinct, ToSet;
    assert forall k, x :: OnStackAt(r, k, x) <==> OnStackAt(s, k, x);
    hide OnStackAt;
  }

  lemma PushAgrees(s: Search, r: Search, v: Name)
    requires FoundNew(s, r, v) && StackAgrees(s) && Bookkept(s)
    ensures StackAgrees(r) && Bookkept(r)
    ensures forall k, x :: OnStackAt(r, k, x) <==> OnStackAt(s, k, x) || (k == |s.stack| && x == v)
  {
    hide Distinct;
    assert forall k, x :: OnStackAt(r, k, x) <==> OnStackAt(s, k, x) || (k == |s.stack| && x == v);
    assert OnStackAt(r, |s.stack|, v);
    forall k | 0 <= k < |s.stack| ensures s.stack[k].node != v {
      assert OnStackAt(s, k, s.stack[k].node);
    }
    assert forall j, k :: 0 <= j < k < |r.stack| ==> r.stack[j].node != r.stack[k].node;
    hide OnStackAt;
  }

  lemma PopAgrees(s: Search, r: Search)
    requires PoppedTop(s, r) && StackAgrees(s) && Bookkept(s)
    ensures StackAgrees(r) && Bookkept(r)
    ensures forall k, x :: OnStackAt(r, k, x) <==> OnStackAt(s, k, x) && k < |s.stack| - 1
  {
    var last := |s.stack| - 1;
    var u := s.stack[last].node;
    assert OnStackAt(s, last, u);
    assert u in s.onStack;
    assert u !in ToSet(s.done);
    assert forall k, x :: OnStackAt(r, k, x) <==> OnStackAt(s, k, x) && k < last;
    forall k | OnStackAt(s, k, u) ensures k == last {}
    DistinctAppend(s.done, u);
    assert ToSet(r.done) == ToSet(s.done) + {u};
    hide Distinct, ToSet;
    forall x | x in r.onStack ensures exists k :: OnStackAt(r, k, x) {
      var k :| OnStackAt(s, k, x);
      assert OnStackAt(r, k, x);
    }
  }

  lemma StepKeepsStack(adj: Graph, s: Search)
    requires Fits(adj, s) && StackAgrees(s) && Bookkept(s) && s.stack != []
    ensures StackAgrees(Step(adj, s)) && Bookkept(Step(adj, s))
  {
    StepShape(adj, s);
    var r := Step(adj, s);
    hide *;
    if PoppedTop(s, r) {
      PopAgrees(s, r);
    } else if SameStack(s, r) {
      SameNodesAgree(s, r);
    } else {
      var v :| FoundNew(s, r, v) && Gained(s, r, v);
      PushAgrees(s, r, v);
    }
  }

  lemma StepKeepsChain(adj: Graph, s: Search)
    requires Fits(adj, s) && StackAgrees(s) && Bookkept(s) && Chained(s) && s.stack != []
    ensures Chained(Step(adj, s))
  {}

  lemma StepKeepsSettling(adj: Graph, s: Search)
    requires Fits(adj, s) && StackAgrees(s) && Bookkept(s) && Untouched(s) && Settling(s) && s.stack != []
    ensures Settling(Step(adj, s)) && Untouched(Step(adj, s))
  {
    StepKeepsUntouched(adj, s);
    StepSettles(adj, s);
  }

  lemma StepKeepsUntouched(adj: Graph, s: Search)
    requires Fits(adj, s) && StackAgrees(s) && Bookkept(s) && Untouched(s) && s.stack != []
    ensures Untouched(Step(adj, s))
  {
    assert OnStackAt(s, |s.stack| - 1, s.stack[|s.stack| - 1].node);
    hide Distinct;
  }

  lemma StepSettles(adj: Graph, s: Search)
    requires Fits(adj, s) && StackAgrees(s) && Bookkept(s) && Untouched(s) && Settling(s) && s.stack != []
    ensures Settling(Step(adj, s))
  {
    StepShape(adj, s);
    var r := Step(adj, s);
    hide *;
    if PoppedTop(s, r) {
      PopSettles(s, r);
    } else if SameStack(s, r) && r.dag == s.dag {
      SameNodesAgree(s, r);
      SameSettles(s, r);
    } else if v :| v in s.visited && v !in s.onStack && SameStack(s, r) && Gained(s, r, v) {
      SameNodesAgree(s, r);
      RetainSettles(s, r, v);
    } else {
      var v :| FoundNew(s, r, v) && Gained(s, r, v);
      PushAgrees(s, r, v);
      PushSettles(s, r, v);
    }
  }

  lemma PopSettles(s: Search, r: Search)
    requires PoppedTop(s, r) && Settling(s)
    ensures Settling(r)
  {
    forall k, x | 0 <= k < |r.stack| && x in r.dag[r.stack[k].node] ensures x in r.done || OnStackAt(r, k + 1, x) {
      assert x in s.done || OnStackAt(s, k + 1, x);
    }
  }

  lemma SameSettles(s: Search, r: Search)
    requires SameStack(s, r) && r.dag == s.dag && Settling(s)
    requires forall k, x :: OnStackAt(r, k, x) <==> OnStackAt(s, k, x)
    ensures Settling(r)
  {
    forall k, x | 0 <= k < |r.stack| && x in r.dag[r.stack[k].node] ensures x in r.done || OnStackAt(r, k + 1, x) {
      assert x in s.done || OnStackAt(s, k + 1, x);
    }
  }

  /** What is retained to a state that is visited and not on the stack leads to a finished one. */
  lemma RetainSettles(s: Search, r: Search, v: Name)
    requires SameStack(s, r) && Gained(s, r, v) && Settling(s) && Bookkept(s) && v in s.visited && v !in s.onStack
    requires forall k, x :: OnStackAt(r, k, x) <==> OnStackAt(s, k, x)
    ensures Settling(r)
  {
    assert v in r.done;
    hide Bookkept;
    forall k, x | 0 <= k < |r.stack| && x in r.dag[r.stack[k].node] ensures x in r.done || OnStackAt(r, k + 1, x) {
      if x in s.dag[s.stack[k].node] {
        assert x in s.done || OnStackAt(s, k + 1, x);
      }
    }
  }

  lemma NewIsBare(s: Search, r: Search, v: Name)
    requires FoundNew(s, r, v) && Gained(s, r, v) && StackAgrees(s) && Bookkept(s) && Untouched(s)
    ensures
      var u := s.stack[|s.stack| - 1].node;
      && u != v && r.dag[u] == s.dag[u] + [v] && (v in r.dag ==> r.dag[v] == [])
      && forall k :: 0 <= k < |s.stack| - 1 ==> s.stack[k].node != u
  {
    TopIsApart(s);
    hide StackAgrees, Bookkept;
  }

  lemma PushSettlesBelow(s: Search, r: Search, v: Name, k: nat, x: Name)
    requires FoundNew(s, r, v) && Gained(s, r, v) && Settling(s) && StackKnown(r) && k + 1 < |s.stack|
    requires s.stack[k].node != s.stack[|s.stack| - 1].node && x in r.dag[r.stack[k].node]
    ensures x in s.done || OnStackAt(s, k + 1, x)
  {
    assert x in s.dag[s.stack[k].node];
    hide FoundNew, Gained;
  }

  lemma PushSettlesTop(s: Search, r: Search, v: Name, x: Name)
    requires FoundNew(s, r, v) && Gained(s, r, v) && Settling(s) && StackKnown(r)
    requires x in r.dag[s.stack[|s.stack| - 1].node]
    ensures x in s.done || x == v
  {
    var last := |s.stack| - 1;
    if x != v {
      assert x in s.dag[s.stack[last].node];
      assert !OnStackAt(s, last + 1, x);
    }
  }

  /** A new state stands right above the one it was found from, which had led nowhere else on the stack. */
  lemma PushSettles(s: Search, r: Search, v: Name)
    requires FoundNew(s, r, v) && Gained(s, r, v) && Settling(s) && StackAgrees(s) && Bookkept(s) && Untouched(s)
    requires StackKnown(r)
    requires forall k, x :: OnStackAt(r, k, x) <==> OnStackAt(s, k, x) || (k == |s.stack| && x == v)
    ensures Settling(r)
  {
    var last := |s.stack| - 1;
    NewIsBare(s, r, v);
    assert r.done == s.done && |r.stack| == last + 2 && r.stack[last + 1].node == v;
    assert r.stack[last].node == s.stack[last].node;
    hide Bookkept, StackAgrees, Untouched, FoundNew, Gained, OnStackAt;
    forall k, x | 0 <= k < |r.stack| && x in r.dag[r.stack[k].node] ensures x in r.done || OnStackAt(r, k + 1, x) {
      if k < last {
        PushSettlesBelow(s, r, v, k, x);
      } else if k == last {
        PushSettlesTop(s, r, v, x);
      }
    }
  }

  lemma StepKeepsOrder(adj: Graph, s: Search)
    requires Fits(adj, s) && StackAgrees(s) && Bookkept(s) && Settling(s) && Ordered(s.dag, s.done) && s.stack != []
    ensures Ordered(Step(adj, s).dag, Step(adj, s).done)
  {
    var last := |s.stack| - 1;
    var top := s.stack[last];
    var r := Step(adj, s);
    assert OnStackAt(s, last, top.node);
    forall k, v | 0 <= k < |r.done| && r.done[k] in r.dag && v in r.dag[r.done[k]] ensures v in r.done[..k] {
      if k < |s.done| {
        assert s.done[k] in ToSet(s.done);
        assert r.done[..k] == s.done[..k];
      } else {
        assert r.done[..k] == s.done;
        assert !OnStackAt(s, last + 1, v);
      }
    }
  }

  lemma {:induction false} KeptIgnores(vs: seq<Name>, u: Name, dropped: set<(Name, Name)>, v: Name)
    requires v !in Kept(vs, u, dropped)
    ensures Kept(vs, u, dropped + {(u, v)}) == Kept(vs, u, dropped)
  {
    if vs != [] {
      KeptIgnores(vs[..|vs| - 1], u, dropped, v);
    }
  }

  lemma {:induction false} KeptLocal(vs: seq<Name>, u: Name, dropped: set<(Name, Name)>, e: (Name, Name))
    requires e.0 != u
    ensures Kept(vs, u, dropped + {e}) == Kept(vs, u, dropped)
  {
    if vs != [] {
      KeptLocal(vs[..|vs| - 1], u, dropped, e);
    }
  }

  lemma StepKeepsDropped(adj: Graph, s: Search)
    requires Fits(adj, s) && StackAgrees(s) && Bookkept(s) && Chained(s) && s.stack != []
    requires DroppedCloseCycles(s)
    ensures DroppedCloseCycles(Step(adj, s))
  {
    var r := Step(adj, s);
    forall u, v | (u, v) in r.dropped ensures Reaches(r.dag, v, u) {
      if (u, v) in s.dropped {
        ReachesGrows(s.dag, r.dag, v, u);
      } else {
        StackIsPath(s, v);
      }
    }
  }

  lemma StepKeepsBack(adj: Graph, s: Search)
    requires Fits(adj, s) && StackAgrees(s) && Bookkept(s) && DroppedBack(s) && s.stack != []
    ensures DroppedBack(Step(adj, s))
  {
    var last := |s.stack| - 1;
    var r := Step(adj, s);
    assert OnStackAt(s, last, s.stack[last].node);
    forall u, v, k | (u, v) in r.dropped && OnStackAt(r, k, u) ensures Below(r, k, v) {
      if (u, v) in s.dropped {
        assert OnStackAt(s, k, u) && Below(s, k, v);
        var j :| j <= k && OnStackAt(s, j, v);
        assert OnStackAt(r, j, v);
      } else {
        var j :| OnStackAt(s, j, v);
        assert OnStackAt(r, j, v);
      }
    }
  }

  lemma KeptAppend(vs: seq<Name>, i: nat, u: Name, dropped: set<(Name, Name)>)
    requires i < |vs|
    ensures Kept(vs[..i + 1], u, dropped) == Kept(vs[..i], u, dropped) + if (u, vs[i]) in dropped then [] else [vs[i]]
  {
    assert vs[..i + 1][..i] == vs[..i];
  }

  /** The top of the stack has looked at one more edge, which is retained; its target may be new on the stack. */
  ghost predicate Retains(s: Search, r: Search, top: Frame, v: Name) {
    s.stack != [] && top.node in s.dag &&
    var last := |s.stack| - 1;
    && r.dag == s.dag[top.node := s.dag[top.node] + [v]] && r.dropped == s.dropped && r.done == s.done
    && last + 1 <= |r.stack| <= last + 2 && r.stack[..last] == s.stack[..last]
    && r.stack[last] == Frame(top.node, top.edgeIdx + 1)
    && (|r.stack| == last + 2 ==> r.stack[last + 1] == Frame(v, 0) && v !in s.visited)
  }

  lemma RetainingStep(adj: Graph, s: Search, top: Frame, v: Name)
    requires Fits(adj, s) && s.stack != [] && s.stack[|s.stack| - 1] == top
    requires top.edgeIdx < |adj[top.node]| && v == adj[top.node][top.edgeIdx] && (v in s.visited ==> v !in s.onStack)
    ensures Retains(s, Step(adj, s), top, v)
  {
    TopFits(adj, s);
    hide Fits;
    var last, r := |s.stack| - 1, Step(adj, s);
    assert r.stack[..last] == s.stack[..last];
  }

  lemma TopIsApart(s: Search)
    requires StackAgrees(s) && Bookkept(s) && s.stack != []
    ensures
      var u := s.stack[|s.stack| - 1].node;
      u in s.visited && u !in s.done && forall k :: 0 <= k < |s.stack| - 1 ==> s.stack[k].node != u
  {
    assert OnStackAt(s, |s.stack| - 1, s.stack[|s.stack| - 1].node);
    hide Distinct;
  }

  lemma RetainedStackLists(adj: Graph, s: Search, r: Search, top: Frame, v: Name)
    requires Fits(adj, s) && Fits(adj, r) && Retains(s, r, top, v) && s.stack[|s.stack| - 1] == top && v in adj
    requires StackLists(adj, s) && Untouched(s) && top.node in s.visited && top.edgeIdx < |adj[top.node]|
    requires forall k :: 0 <= k < |s.stack| - 1 ==> s.stack[k].node != top.node
    requires Kept(adj[top.node][..top.edgeIdx + 1], top.node, s.dropped)
          == Kept(adj[top.node][..top.edgeIdx], top.node, s.dropped) + [v]
    ensures StackLists(adj, r)
  {
    var last := |s.stack| - 1;
    assert Kept(adj[v][..0], v, s.dropped) == [];
    hide Kept, ClosedGraph;
    forall k | 0 <= k < |r.stack|
      ensures r.dag[r.stack[k].node] == Kept(adj[r.stack[k].node][..r.stack[k].edgeIdx], r.stack[k].node, r.dropped)
    {
      if k < last {
        assert r.stack[k] == r.stack[..last][k] == s.stack[k];
      }
    }
  }

  lemma RetainedDoneLists(adj: Graph, s: Search, r: Search, top: Frame, v: Name)
    requires Fits(adj, s) && Fits(adj, r) && Retains(s, r, top, v) && DoneLists(adj, s) && top.node !in s.done
    ensures DoneLists(adj, r)
  {
    hide Kept, ClosedGraph, FramesFit;
  }

  lemma RetainKeepsLists(adj: Graph, s: Search, top: Frame, v: Name)
    requires Fits(adj, s) && s.stack != [] && s.stack[|s.stack| - 1] == top && StackLists(adj, s) && DoneLists(adj, s)
    requires top.edgeIdx < |adj[top.node]| && v == adj[top.node][top.edgeIdx] && (v in s.visited ==> v !in s.onStack)
    requires StackAgrees(s) && Bookkept(s) && Untouched(s) && (top.node, v) !in s.dropped
    ensures StackLists(adj, Step(adj, s)) && DoneLists(adj, Step(adj, s))
  {
    var r := Step(adj, s);
    KeptAppend(adj[top.node], top.edgeIdx, top.node, s.dropped);
    TargetKnown(adj, top.node, v);
    hide *;
    TopFits(adj, s);
    TopIsApart(s);
    RetainingStep(adj, s, top, v);
    RetainedStackLists(adj, s, r, top, v);
    RetainedDoneLists(adj, s, r, top, v);
  }

  lemma TargetKnown(adj: Graph, u: Name, v: Name)
    requires ClosedGraph(adj) && u in adj && v in adj[u]
    ensures v in adj
  {}

  lemma DropKeepsLists(adj: Graph, s: Search, top: Frame, v: Name)
    requires Fits(adj, s) && s.stack != [] && s.stack[|s.stack| - 1] == top && StackLists(adj, s) && DoneLists(adj, s)
    requires top.edgeIdx < |adj[top.node]| && v == adj[top.node][top.edgeIdx] && v in s.visited && v in s.onStack
    requires StackAgrees(s) && Bookkept(s) && v !in s.dag[top.node]
    ensures StackLists(adj, Step(adj, s)) && DoneLists(adj, Step(adj, s))
  {
    var last := |s.stack| - 1;
    var r := Step(adj, s);
    KeptAppend(adj[top.node], top.edgeIdx, top.node, r.dropped);
    KeptIgnores(adj[top.node][..top.edgeIdx], top.node, s.dropped, v);
    assert OnStackAt(s, last, top.node);
    hide Kept, ClosedGraph;
    forall u, vs | u != top.node ensures Kept(vs, u, r.dropped) == Kept(vs, u, s.dropped) {
      KeptLocal(vs, u, s.dropped, (top.node, v));
    }
    assert top.node !in ToSet(s.done);
    forall k | 0 <= k < |r.stack|
      ensures r.dag[r.stack[k].node] == Kept(adj[r.stack[k].node][..r.stack[k].edgeIdx], r.stack[k].node, r.dropped)
    {
      if k < last {
        assert r.stack[k] == s.stack[k] && r.stack[k].node != top.node;
      }
    }
  }

  lemma StepKeepsLists(adj: Graph, s: Search)
    requires SearchInv(adj, s) && s.stack != []
    ensures StackLists(adj, Step(adj, s)) && DoneLists(adj, Step(adj, s))
  {
    var last := |s.stack| - 1;
    var top := s.stack[last];
    assert OnStackAt(s, last, top.node);
    if top.edgeIdx < |adj[top.node]| {
      var v := adj[top.node][top.edgeIdx];
      if v in s.visited && v in s.onStack {
        DropKeepsLists(adj, s, top, v);
      } else {
        assert (top.node, v) in s.dropped ==> Below(s, last, v);
        RetainKeepsLists(adj, s, top, v);
      }
    } else {
      assert adj[top.node][..top.edgeIdx] == adj[top.node];
    }
  }

  lemma StepKeeps(adj: Graph, s: Search)
    requires SearchInv(adj, s) && s.stack != []
    ensures SearchInv(adj, Step(adj, s))
  {
    StepKeepsStack(adj, s);
    StepKeepsChain(adj, s);
    StepKeepsSettling(adj, s);
    StepKeepsOrder(adj, s);
    StepKeepsDropped(adj, s);
    StepKeepsBack(adj, s);
    StepKeepsLists(adj, s);
  }

  lemma {:induction false} ExploreKeeps(adj: Graph, s: Search)
    requires SearchInv(adj, s)
    ensures SearchInv(adj, Explore(adj, s)) && s.visited <= Explore(adj, s).visited
    decreases |adj.Keys - s.visited|, Work(adj, s.stack)
  {
    hide StackAgrees, Bookkept, Chained, Settling, Ordered, Untouched, StackLists, DoneLists, DroppedCloseCycles,
      DroppedBack;
    if s.stack != [] {
      StepDescends(adj, s);
      StepKeeps(adj, s);
      ExploreKeeps(adj, Step(adj, s));
    }
  }

  lemma IdleStack(s: Search)
    requires StackAgrees(s) && s.stack == []
    ensures s.onStack == {}
  {
    assert forall k, x :: !OnStackAt(s, k, x);
  }

  /** A search that starts from a fresh root, with nothing on the stack, starts from the same history. */
  lemma StartKeeps(adj: Graph, s: Search, root: Name)
    requires SearchInv(adj, s) && s.stack == [] && root in adj && root !in s.visited
    ensures SearchInv(adj, Start(s, root))
  {
    var r := Start(s, root);
    IdleStack(s);
    assert OnStackAt(r, 0, root);
    assert adj[root][..0] == [];
    assert forall u, k :: OnStackAt(r, k, u) ==> u == root;
  }

  lemma {:induction false} SearchAllKeeps(adj: Graph, roots: seq<Name>, s: Search)
    requires SearchInv(adj, s) && s.stack == [] && forall x :: x in roots ==> x in adj
    ensures SearchInv(adj, SearchAll(adj, roots, s))
    ensures s.visited + ToSet(roots) <= SearchAll(adj, roots, s).visited
  {
    hide StackAgrees, Bookkept, Chained, Settling, Ordered, Untouched, StackLists, DoneLists, DroppedCloseCycles,
      DroppedBack;
    if roots != [] {
      assert ToSet(roots) == {roots[0]} + ToSet(roots[1..]);
      if roots[0] in s.visited {
        SearchAllKeeps(adj, roots[1..], s);
      } else {
        StartKeeps(adj, s, roots[0]);
        ExploreKeeps(adj, Start(s, roots[0]));
        SearchAllKeeps(adj, roots[1..], Explore(adj, Start(s, roots[0])));
      }
    }
  }

  // ---------------------------------------------------------------- the retained graph

  /** The retained list of `u`: the declared list without the targets from which `u` can be reached. */
  ghost function Forward(g: Graph, vs: seq<Name>, u: Name): seq<Name> {
    if vs == [] then [] else
      var v := vs[|vs| - 1];
      Forward(g, vs[..|vs| - 1], u) + if Reaches(g, v, u) then [] else [v]
  }

  /** `dag` is `adj` without exactly the edges whose target already leads back to their source, and has no cycle. */
  ghost predicate Retained(adj: Graph, dag: Graph) {
    dag.Keys == adj.Keys && Acyclic(dag) && forall u :: u in adj ==> dag[u] == Forward(dag, adj[u], u)
  }

  ghost function At(s: seq<Name>, x: Name): nat
    requires x in s
    ensures At(s, x) < |s| && s[At(s, x)] == x
  {
    if s[|s| - 1] == x then |s| - 1 else At(s[..|s| - 1], x)
  }

  lemma EarlierHasSmallerIndex(s: seq<Name>, n: nat, x: Name)
    requires Distinct(s) && n <= |s| && x in s[..n]
    ensures At(s, x) < n
  {}

  /** Along a path the finishing times go down by at least one per edge. */
  lemma {:induction false} PathDescends(g: Graph, done: seq<Name>, p: seq<Name>)
    requires IsPath(g, p) && Ordered(g, done) && Distinct(done) && forall x :: x in g ==> x in done
    ensures At(done, p[|p| - 1]) + |p| - 1 <= At(done, p[0])
  {
    if |p| > 1 {
      var q := p[1..];
      assert IsPath(g, q) by {
        forall i | 0 <= i < |q| - 1 ensures q[i + 1] in g[q[i]] {
          assert p[i + 1 + 1] in g[p[i + 1]];
        }
      }
      PathDescends(g, done, q);
      assert p[1] in g[p[0]] && p[1] in done[..At(done, p[0])];
    }
  }

  lemma OrderedIsAcyclic(g: Graph, done: seq<Name>)
    requires Ordered(g, done) && Distinct(done) && forall x :: x in g ==> x in done
    ensures Acyclic(g)
  {
    forall p | IsPath(g, p) && |p| >= 2 ensures p[0] != p[|p| - 1] {
      PathDescends(g, done, p);
    }
  }

  lemma PathPrepend(g: Graph, u: Name, p: seq<Name>)
    requires IsPath(g, p) && u in g && p[0] in g[u]
    ensures IsPath(g, [u] + p)
  {}

  /** A retained edge is never one whose target leads back. */
  lemma RetainedGoesForward(g: Graph, u: Name, v: Name)
    requires Acyclic(g) && u in g && v in g[u]
    ensures !Reaches(g, v, u)
  {
    if Reaches(g, v, u) {
      var p :| PathTo(g, p, u) && p[0] == v;
      PathPrepend(g, u, p);
    }
  }

  lemma {:induction false} KeptIsForward(g: Graph, vs: seq<Name>, u: Name, dropped: set<(Name, Name)>)
    requires u in g && Acyclic(g) && forall v :: v in Kept(vs, u, dropped) ==> v in g[u]
    requires forall v :: (u, v) in dropped ==> Reaches(g, v, u)
    ensures Kept(vs, u, dropped) == Forward(g, vs, u)
  {
    if vs != [] {
      var v := vs[|vs| - 1];
      KeptIsForward(g, vs[..|vs| - 1], u, dropped);
      if (u, v) !in dropped {
        RetainedGoesForward(g, u, v);
      }
    }
  }

  /** The search keeps a maximal acyclic part of any graph: it drops an edge exactly when its target leads back. */
  lemma SearchRetains(adj: Graph, roots: seq<Name>)
    requires ClosedGraph(adj) && ToSet(roots) == adj.Keys
    ensures Retained(adj, SearchAll(adj, roots, Unsearched(adj)).dag)
    ensures
      var end := SearchAll(adj, roots, Unsearched(adj));
      Ordered(end.dag, end.done) && Distinct(end.done) && ToSet(end.done) == adj.Keys
  {
    var begin := Unsearched(adj);
    SearchAllKeeps(adj, roots, begin);
    var end := SearchAll(adj, roots, begin);
    IdleStack(end);
    OrderedIsAcyclic(end.dag, end.done);
    forall u | u in adj ensures end.dag[u] == Forward(end.dag, adj[u], u) {
      KeptIsForward(end.dag, adj[u], u, end.dropped);
    }
  }

  // ---------------------------------------------------------------- ranking

  /** A place in an adjacency list: one edge, told apart from its duplicates. */
  datatype Slot = Slot(node: Name, index: nat)

  /** The places in the lists of `g` where `v` occurs: its incoming edges, counted with their multiplicity. */
  ghost function Into(g: Graph, v: Name): set<Slot> {
    set u, i: nat | u in g && i < |g[u]| && g[u][i] == v :: Slot(u, i)
  }

  ghost predicate RanksFollow(g: Graph, rank: map<Name, nat>, relaxed: set<Slot>)
    requires rank.Keys == g.Keys && ClosedGraph(g)
  {
    forall u, i: nat :: Slot(u, i) in relaxed && u in g && i < |g[u]| ==> rank[g[u][i]] >= rank[u] + 1
  }

  ghost predicate RankFrom(g: Graph, rank: map<Name, nat>, relaxed: set<Slot>, v: Name, u: Name, i: nat)
    requires rank.Keys == g.Keys && v in g
  {
    Slot(u, i) in relaxed && u in g && i < |g[u]| && g[u][i] == v && rank[v] == rank[u] + 1
  }

  ghost predicate RanksEarned(g: Graph, rank: map<Name, nat>, relaxed: set<Slot>)
    requires rank.Keys == g.Keys
  {
    forall v :: v in g && rank[v] > 0 ==> exists u, i: nat :: RankFrom(g, rank, relaxed, v, u, i)
  }

  ghost predicate Counted(g: Graph, remaining: map<Name, int>, relaxed: set<Slot>)
    requires remaining.Keys == g.Keys
  {
    forall v :: v in g ==> remaining[v] == |Into(g, v) - relaxed|
  }

  /** `v` has incoming edges and all of them have been relaxed. */
  ghost predicate Exhausted(g: Graph, v: Name, relaxed: set<Slot>) {
    Into(g, v) != {} && Into(g, v) <= relaxed
  }

  ghost predicate Enqueued(g: Graph, sources: set<Name>, queue: seq<Name>, relaxed: set<Slot>) {
    && Distinct(queue)
    && (forall v :: v in queue ==> v in g)
    && (forall v :: v in g ==> (v in queue <==> v in sources || Exhausted(g, v, relaxed)))
  }

  /** `relaxed` holds the edges of the states before `head`, and the first `k` edges of the state at `head`. */
  ghost predicate RelaxedUpTo(g: Graph, queue: seq<Name>, head: nat, k: nat, relaxed: set<Slot>) {
    && head <= |queue|
    && forall u, i: nat :: Slot(u, i) in relaxed <==>
         u in g && i < |g[u]| && (u in queue[..head] || (head < |queue| && u == queue[head] && i < k))
  }

  function Max(a: nat, b: nat): nat { if a < b then b else a }

  ghost predicate Relaxing(g: Graph, sources: set<Name>, queue: seq<Name>, rank: map<Name, nat>,
    remaining: map<Name, int>, relaxed: set<Slot>)
  {
    && ClosedGraph(g) && rank.Keys == g.Keys == remaining.Keys
    && RanksFollow(g, rank, relaxed) && RanksEarned(g, rank, relaxed) && Counted(g, remaining, relaxed)
    && Enqueued(g, sources, queue, relaxed)
  }

  /** The target of an edge not relaxed yet is not in the queue. */
  lemma TargetNotQueued(g: Graph, sources: set<Name>, queue: seq<Name>, relaxed: set<Slot>, u: Name, k: nat)
    requires Enqueued(g, sources, queue, relaxed) && ClosedGraph(g) && u in g && k < |g[u]| && Slot(u, k) !in relaxed
    requires forall v :: v in sources && v in g ==> Into(g, v) == {}
    ensures g[u][k] !in queue
  {
    assert Slot(u, k) in Into(g, g[u][k]);
  }

  lemma LeaveOut<T>(all: set<T>, gone: set<T>, e: T)
    ensures |all - (gone + {e})| == |all - gone| - if e in all && e !in gone then 1 else 0
    ensures |all - gone| == 0 <==> all <= gone
  {
    if e in all && e !in gone {
      assert all - (gone + {e}) == (all - gone) - {e};
    } else {
      assert all - (gone + {e}) == all - gone;
    }
    if all - gone == {} {
      forall x | x in all ensures x in gone {
        assert x !in all - gone;
      }
    }
  }

  lemma RelaxCounts(g: Graph, remaining: map<Name, int>, relaxed: set<Slot>, u: Name, k: nat)
    requires remaining.Keys == g.Keys && ClosedGraph(g) && Counted(g, remaining, relaxed)
    requires u in g && k < |g[u]| && Slot(u, k) !in relaxed
    ensures var v := g[u][k]; Counted(g, remaining[v := remaining[v] - 1], relaxed + {Slot(u, k)})
  {
    hide Into;
    forall x | x in g {
      LeftAfter(g, relaxed, u, k, x);
    }
  }

  lemma LeftAfter(g: Graph, relaxed: set<Slot>, u: Name, k: nat, x: Name)
    requires u in g && k < |g[u]| && Slot(u, k) !in relaxed
    ensures |Into(g, x) - (relaxed + {Slot(u, k)})| == |Into(g, x) - relaxed| - if x == g[u][k] then 1 else 0
  {
    assert Slot(u, k) in Into(g, x) <==> x == g[u][k];
    hide Into;
    LeaveOut(Into(g, x), relaxed, Slot(u, k));
  }

  lemma RelaxFollows(g: Graph, rank: map<Name, nat>, relaxed: set<Slot>, u: Name, k: nat)
    requires rank.Keys == g.Keys && ClosedGraph(g) && RanksFollow(g, rank, relaxed)
    requires u in g && k < |g[u]| && u != g[u][k] && forall i: nat :: Slot(g[u][k], i) !in relaxed
    ensures RanksFollow(g, rank[g[u][k] := Max(rank[g[u][k]], rank[u] + 1)], relaxed + {Slot(u, k)})
  {
    var v, more := g[u][k], relaxed + {Slot(u, k)};
    var raised := rank[v := Max(rank[v], rank[u] + 1)];
    forall w, i: nat | Slot(w, i) in more && w in g && i < |g[w]| ensures raised[g[w][i]] >= raised[w] + 1 {
      if Slot(w, i) != Slot(u, k) {
        assert Slot(w, i) in relaxed && w != v;
      }
    }
  }

  lemma RelaxEarns(g: Graph, rank: map<Name, nat>, relaxed: set<Slot>, u: Name, k: nat)
    requires rank.Keys == g.Keys && ClosedGraph(g) && RanksEarned(g, rank, relaxed)
    requires u in g && k < |g[u]| && u != g[u][k] && forall i: nat :: Slot(g[u][k], i) !in relaxed
    ensures RanksEarned(g, rank[g[u][k] := Max(rank[g[u][k]], rank[u] + 1)], relaxed + {Slot(u, k)})
  {
    var v := g[u][k];
    var more := relaxed + {Slot(u, k)};
    var raised := rank[v := Max(rank[v], rank[u] + 1)];
    forall x | x in g && raised[x] > 0 ensures exists w, i: nat :: RankFrom(g, raised, more, x, w, i) {
      if x == v && rank[v] < rank[u] + 1 {
        assert RankFrom(g, raised, more, x, u, k);
      } else {
        var w, i: nat :| RankFrom(g, rank, relaxed, x, w, i);
        assert RankFrom(g, raised, more, x, w, i);
      }
    }
  }

  lemma RelaxRanks(g: Graph, rank: map<Name, nat>, relaxed: set<Slot>, u: Name, k: nat)
    requires rank.Keys == g.Keys && ClosedGraph(g) && RanksFollow(g, rank, relaxed) && RanksEarned(g, rank, relaxed)
    requires u in g && k < |g[u]| && u != g[u][k] && forall i: nat :: Slot(g[u][k], i) !in relaxed
    ensures
      var raised := rank[g[u][k] := Max(rank[g[u][k]], rank[u] + 1)];
      RanksFollow(g, raised, relaxed + {Slot(u, k)}) && RanksEarned(g, raised, relaxed + {Slot(u, k)})
  {
    hide RanksFollow, RanksEarned;
    RelaxFollows(g, rank, relaxed, u, k);
    RelaxEarns(g, rank, relaxed, u, k);
  }

  /** Relaxing one edge changes what is exhausted for its own target only. */
  lemma RelaxExhausts(g: Graph, left: int, relaxed: set<Slot>, u: Name, k: nat, x: Name)
    requires u in g && k < |g[u]| && Slot(u, k) !in relaxed
    requires left == |Into(g, g[u][k]) - (relaxed + {Slot(u, k)})|
    ensures Exhausted(g, x, relaxed + {Slot(u, k)}) <==> if x == g[u][k] then left == 0 else Exhausted(g, x, relaxed)
  {
    assert Slot(u, k) in Into(g, x) <==> x == g[u][k];
    LeaveOut(Into(g, x), relaxed + {Slot(u, k)}, Slot(u, k));
  }

  lemma EnqueueOne(g: Graph, sources: set<Name>, queue: seq<Name>, relaxed: set<Slot>,
    more: set<Slot>, v: Name, ready: bool)
    requires Enqueued(g, sources, queue, relaxed) && v in g && v !in queue && v !in sources
    requires forall x :: x in g && x != v ==> (Exhausted(g, x, more) <==> Exhausted(g, x, relaxed))
    requires Exhausted(g, v, more) <==> ready
    ensures Enqueued(g, sources, if ready then queue + [v] else queue, more)
  {
    hide Exhausted;
    DistinctAppend(queue, v);
  }

  lemma RelaxEnqueues(g: Graph, sources: set<Name>, queue: seq<Name>, remaining: map<Name, int>,
    relaxed: set<Slot>, u: Name, k: nat)
    requires ClosedGraph(g) && Enqueued(g, sources, queue, relaxed) && remaining.Keys == g.Keys
    requires u in g && k < |g[u]| && Slot(u, k) !in relaxed && Counted(g, remaining, relaxed + {Slot(u, k)})
    requires forall v :: v in sources && v in g ==> Into(g, v) == {}
    ensures
      var v := g[u][k];
      Enqueued(g, sources, if remaining[v] == 0 then queue + [v] else queue, relaxed + {Slot(u, k)})
  {
    var v := g[u][k];
    TargetNotQueued(g, sources, queue, relaxed, u, k);
    assert v !in sources by {
      assert Slot(u, k) in Into(g, v);
    }
    hide Enqueued, Exhausted;
    forall x | x in g {
      RelaxExhausts(g, remaining[v], relaxed, u, k, x);
    }
    EnqueueOne(g, sources, queue, relaxed, relaxed + {Slot(u, k)}, v, remaining[v] == 0);
  }

  lemma UpToExtends(g: Graph, queue: seq<Name>, head: nat, k: nat, relaxed: set<Slot>, v: Name)
    requires RelaxedUpTo(g, queue, head, k, relaxed) && head < |queue|
    ensures RelaxedUpTo(g, queue + [v], head, k, relaxed)
  {
    assert (queue + [v])[..head] == queue[..head];
  }

  lemma UpToAdvances(g: Graph, queue: seq<Name>, head: nat, k: nat, relaxed: set<Slot>)
    requires RelaxedUpTo(g, queue, head, k, relaxed) && head < |queue| && queue[head] in g && k < |g[queue[head]]|
    ensures RelaxedUpTo(g, queue, head, k + 1, relaxed + {Slot(queue[head], k)})
  {}

  lemma UpToNext(g: Graph, queue: seq<Name>, head: nat, relaxed: set<Slot>)
    requires head < |queue| && queue[head] in g && RelaxedUpTo(g, queue, head, |g[queue[head]]|, relaxed)
    ensures RelaxedUpTo(g, queue, head + 1, 0, relaxed)
  {
    assert queue[..head + 1] == queue[..head] + [queue[head]];
  }

  /** The next edge has not been relaxed, and nothing has been relaxed from its target. */
  lemma EdgeIsNew(g: Graph, sources: set<Name>, queue: seq<Name>, head: nat, k: nat, relaxed: set<Slot>)
    requires ClosedGraph(g) && Enqueued(g, sources, queue, relaxed) && RelaxedUpTo(g, queue, head, k, relaxed)
    requires head < |queue| && k < |g[queue[head]]| && forall v :: v in sources && v in g ==> Into(g, v) == {}
    ensures Slot(queue[head], k) !in relaxed && g[queue[head]][k] !in queue
    ensures forall i: nat :: Slot(g[queue[head]][k], i) !in relaxed
  {
    assert queue[head] !in queue[..head];
    TargetNotQueued(g, sources, queue, relaxed, queue[head], k);
  }

  /** One relaxation, of an edge from `u` to `v` that was not relaxed before, keeps everything the loop needs. */
  lemma RelaxOne(g: Graph, sources: set<Name>, queue: seq<Name>, rank: map<Name, nat>, remaining: map<Name, int>,
    relaxed: set<Slot>, u: Name, k: nat, v: Name)
    requires Relaxing(g, sources, queue, rank, remaining, relaxed)
    requires u in g && k < |g[u]| && v == g[u][k] && v in g && u != v
    requires Slot(u, k) !in relaxed && forall i: nat :: Slot(v, i) !in relaxed
    requires forall v :: v in sources && v in g ==> Into(g, v) == {}
    ensures Relaxing(g, sources, if remaining[v] == 1 then queue + [v] else queue,
              rank[v := Max(rank[v], rank[u] + 1)], remaining[v := remaining[v] - 1], relaxed + {Slot(u, k)})
  {
    hide Into, Distinct, RanksFollow, RanksEarned, Counted, Enqueued, Exhausted, ClosedGraph;
    RelaxRanks(g, rank, relaxed, u, k);
    RelaxCounts(g, remaining, relaxed, u, k);
    RelaxEnqueues(g, sources, queue, remaining[v := remaining[v] - 1], relaxed, u, k);
  }

  /** What the relaxation computes: which states are reached through their last incoming edge, and every rank. */
  ghost predicate Ranked(g: Graph, sources: set<Name>, queue: seq<Name>, rank: map<Name, nat>) {
    && rank.Keys == g.Keys
    && Distinct(queue)
    && (forall v :: v in queue ==> v in g)
    && (forall v :: v in g ==> (v in queue <==> v in sources || (!HasNoIncoming(g, v) && PredecessorsIn(g, v, queue))))
    && (forall u, v :: u in queue && u in g && v in g[u] && v in g ==> rank[v] >= rank[u] + 1)
    && (forall v :: v in g && rank[v] > 0 ==> exists u :: u in queue && u in g && v in g[u] && rank[v] == rank[u] + 1)
  }

  ghost predicate PredecessorsIn(g: Graph, v: Name, queue: seq<Name>) {
    forall u :: u in g && v in g[u] ==> u in queue
  }

  lemma RelaxingEnds(g: Graph, sources: set<Name>, queue: seq<Name>, rank: map<Name, nat>, remaining: map<Name, int>,
    relaxed: set<Slot>)
    requires Relaxing(g, sources, queue, rank, remaining, relaxed) && RelaxedUpTo(g, queue, |queue|, 0, relaxed)
    ensures Ranked(g, sources, queue, rank)
  {
    assert queue[..|queue|] == queue;
    forall v | v in g
      ensures Exhausted(g, v, relaxed) <==> !HasNoIncoming(g, v) && PredecessorsIn(g, v, queue)
    {
      forall u | u in g && v in g[u] ensures Into(g, v) != {} && (Into(g, v) <= relaxed ==> u in queue) {
        var i: nat :| i < |g[u]| && g[u][i] == v;
        assert Slot(u, i) in Into(g, v);
      }
    }
    forall u, v | u in queue && u in g && v in g[u] && v in g ensures rank[v] >= rank[u] + 1 {
      var i: nat :| i < |g[u]| && g[u][i] == v;
      assert Slot(u, i) in relaxed;
    }
    forall v | v in g && rank[v] > 0
      ensures exists u :: u in queue && u in g && v in g[u] && rank[v] == rank[u] + 1
    {
      var u, i: nat :| RankFrom(g, rank, relaxed, v, u, i);
      assert u in queue;
    }
  }

  ghost predicate CountedIn(g: Graph, indegree: map<Name, int>, seen: set<Slot>)
    requires indegree.Keys == g.Keys
  {
    forall v :: v in g ==> indegree[v] == |Into(g, v) * seen|
  }

  lemma TakeIn<T>(all: set<T>, seen: set<T>, e: T)
    requires e !in seen
    ensures |all * (seen + {e})| == |all * seen| + if e in all then 1 else 0
  {
    if e in all {
      assert all * (seen + {e}) == (all * seen) + {e};
    } else {
      assert all * (seen + {e}) == all * seen;
    }
  }

  lemma CountOne(g: Graph, indegree: map<Name, int>, seen: set<Slot>, u: Name, i: nat)
    requires ClosedGraph(g) && indegree.Keys == g.Keys && CountedIn(g, indegree, seen)
    requires u in g && i < |g[u]| && Slot(u, i) !in seen
    ensures var v := g[u][i]; CountedIn(g, indegree[v := indegree[v] + 1], seen + {Slot(u, i)})
  {
    var v := g[u][i];
    assert forall x :: Slot(u, i) in Into(g, x) <==> x == v;
    hide Into;
    forall x | x in g ensures indegree[v := indegree[v] + 1][x] == |Into(g, x) * (seen + {Slot(u, i)})| {
      TakeIn(Into(g, x), seen, Slot(u, i));
    }
  }

  lemma CountAll(g: Graph, indegree: map<Name, int>, seen: set<Slot>)
    requires indegree.Keys == g.Keys && CountedIn(g, indegree, seen)
    requires forall u, i: nat :: u in g && i < |g[u]| ==> Slot(u, i) in seen
    ensures Counted(g, indegree, {})
  {
    forall v | v in g ensures Into(g, v) * seen == Into(g, v) - {} {}
  }

  /** Beyond what was seen before, exactly the first `n` edges of `u`. */
  ghost predicate SeenUpTo(seen: set<Slot>, before: set<Slot>, u: Name, n: nat) {
    forall x, j: nat :: Slot(x, j) in seen <==> Slot(x, j) in before || (x == u && j < n)
  }

  ghost predicate SeenBut(g: Graph, seen: set<Slot>, todo: set<Name>) {
    && (forall u, i: nat :: Slot(u, i) in seen ==> u !in todo)
    && (forall u, i: nat :: u in g && u !in todo && i < |g[u]| ==> Slot(u, i) in seen)
  }

  /** One list: each of its targets has one more incoming edge. */
  method CountList(dagAdj: Graph, u: Name, counted: map<Name, int>, ghost before: set<Slot>)
    returns (indegree: map<Name, int>, ghost seen: set<Slot>)
    requires ClosedGraph(dagAdj) && u in dagAdj && counted.Keys == dagAdj.Keys && CountedIn(dagAdj, counted, before)
    requires forall i: nat :: Slot(u, i) !in before
    ensures indegree.Keys == dagAdj.Keys && CountedIn(dagAdj, indegree, seen)
    ensures SeenUpTo(seen, before, u, |dagAdj[u]|)
  {
    hide Into, CountedIn, Distinct;
    indegree, seen := counted, before;
    for i := 0 to |dagAdj[u]|
      invariant indegree.Keys == dagAdj.Keys && CountedIn(dagAdj, indegree, seen)
      invariant SeenUpTo(seen, before, u, i)
    {
      CountOne(dagAdj, indegree, seen, u, i);
      var v := dagAdj[u][i];
      indegree := indegree[v := indegree[v] + 1];
      seen := seen + {Slot(u, i)};
    }
  }

  /** The number of incoming retained edges of every state, counted with their multiplicity. */
  method CountIncoming(dagAdj: Graph) returns (indegree: map<Name, int>)
    requires ClosedGraph(dagAdj)
    ensures indegree.Keys == dagAdj.Keys && Counted(dagAdj, indegree, {})
  {
    indegree := map v | v in dagAdj :: 0;
    var todo := dagAdj.Keys;
    ghost var seen: set<Slot> := {};
    NothingCounted(dagAdj, indegree);
    hide *;
    while todo != {}
      invariant todo <= dagAdj.Keys && indegree.Keys == dagAdj.Keys && CountedIn(dagAdj, indegree, seen)
      invariant SeenBut(dagAdj, seen, todo)
    {
      var u :| u in todo;
      ghost var before := seen;
      NotSeen(dagAdj, seen, todo, u);
      indegree, seen := CountList(dagAdj, u, indegree, seen);
      SeenMore(dagAdj, before, seen, todo, u);
      todo := todo - {u};
    }
    AllSeen(dagAdj, seen);
    CountAll(dagAdj, indegree, seen);
  }

  lemma NotSeen(g: Graph, seen: set<Slot>, todo: set<Name>, u: Name)
    requires SeenBut(g, seen, todo) && u in todo
    ensures forall i: nat :: Slot(u, i) !in seen
  {}

  lemma SeenMore(g: Graph, before: set<Slot>, seen: set<Slot>, todo: set<Name>, u: Name)
    requires SeenBut(g, before, todo) && u in todo && u in g && SeenUpTo(seen, before, u, |g[u]|)
    ensures SeenBut(g, seen, todo - {u})
  {}

  lemma AllSeen(g: Graph, seen: set<Slot>)
    requires SeenBut(g, seen, {})
    ensures forall u, i: nat :: u in g && i < |g[u]| ==> Slot(u, i) in seen
  {}

  lemma NothingCounted(g: Graph, indegree: map<Name, int>)
    requires indegree.Keys == g.Keys && forall v :: v in g ==> indegree[v] == 0
    ensures CountedIn(g, indegree, {}) && SeenBut(g, {}, g.Keys)
  {
    assert forall v :: Into(g, v) * {} == {};
    hide Into;
  }

  /** The states pushed after the first `base` are distinct states of the graph that are no longer waited for. */
  ghost predicate Pushed(g: Graph, queue: seq<Name>, base: nat, remaining: map<Name, int>)
    requires remaining.Keys == g.Keys
  {
    && base <= |queue|
    && (forall v :: v in queue ==> v in g)
    && Distinct(queue[base..])
    && (forall v :: v in queue[base..] && v in g ==> remaining[v] <= 0)
  }

  lemma PushKeeps(g: Graph, queue: seq<Name>, base: nat, remaining: map<Name, int>, v: Name)
    requires remaining.Keys == g.Keys && v in g && Pushed(g, queue, base, remaining)
    ensures Pushed(g, if remaining[v] == 1 then queue + [v] else queue, base, remaining[v := remaining[v] - 1])
  {
    if remaining[v] == 1 {
      assert (queue + [v])[base..] == queue[base..] + [v];
      DistinctAppend(queue[base..], v);
    }
  }

  lemma PushedIsShort(g: Graph, queue: seq<Name>, base: nat, remaining: map<Name, int>)
    requires remaining.Keys == g.Keys && Pushed(g, queue, base, remaining)
    ensures |queue| <= base + |g|
  {
    DistinctIsShort(queue[base..], g.Keys);
  }

  ghost predicate Orderly(g: Graph, sources: set<Name>, queue: seq<Name>, head: nat, k: nat, rank: map<Name, nat>,
    remaining: map<Name, int>, relaxed: set<Slot>)
  {
    Relaxing(g, sources, queue, rank, remaining, relaxed) && RelaxedUpTo(g, queue, head, k, relaxed)
  }

  lemma OrderlyStep(g: Graph, sources: set<Name>, queue: seq<Name>, head: nat, k: nat, rank: map<Name, nat>,
    remaining: map<Name, int>, relaxed: set<Slot>, u: Name, v: Name)
    requires Orderly(g, sources, queue, head, k, rank, remaining, relaxed)
    requires head < |queue| && queue[head] == u && k < |g[u]| && v == g[u][k]
    requires forall v :: v in sources && v in g ==> Into(g, v) == {}
    ensures v in g
    ensures Orderly(g, sources, if remaining[v] == 1 then queue + [v] else queue, head, k + 1,
              rank[v := Max(rank[v], rank[u] + 1)], remaining[v := remaining[v] - 1], relaxed + {Slot(u, k)})
  {
    EdgeIsNew(g, sources, queue, head, k, relaxed);
    RelaxOne(g, sources, queue, rank, remaining, relaxed, u, k, v);
    hide Relaxing, Into;
    UpToAdvances(g, queue, head, k, relaxed);
    UpToExtends(g, queue, head, k + 1, relaxed + {Slot(u, k)}, v);
  }

  /** One turn of the queue: relax every edge of `u`, and queue each target that waits for nothing else. */
  method RelaxTargets(g: Graph, u: Name, rank0: map<Name, nat>, remaining0: map<Name, int>, queue0: seq<Name>,
    ghost sources: set<Name>, ghost base: nat, ghost head: nat, ghost relaxed0: set<Slot>, ghost orderly: bool)
    returns (rank: map<Name, nat>, remaining: map<Name, int>, queue: seq<Name>, ghost relaxed: set<Slot>)
    requires ClosedGraph(g) && rank0.Keys == g.Keys == remaining0.Keys && Pushed(g, queue0, base, remaining0)
    requires head < |queue0| && queue0[head] == u && forall v :: v in sources && v in g ==> Into(g, v) == {}
    requires orderly ==> Orderly(g, sources, queue0, head, 0, rank0, remaining0, relaxed0)
    ensures rank.Keys == g.Keys == remaining.Keys && Pushed(g, queue, base, remaining) && |queue0| <= |queue|
    ensures orderly ==> Orderly(g, sources, queue, head + 1, 0, rank, remaining, relaxed)
  {
    rank, remaining, queue, relaxed := rank0, remaining0, queue0, relaxed0;
    assert u in g;
    hide Pushed, Orderly, Into;
    for k := 0 to |g[u]|
      invariant rank.Keys == g.Keys == remaining.Keys && Pushed(g, queue, base, remaining)
      invariant |queue0| <= |queue| && queue[head] == u
      invariant orderly ==> Orderly(g, sources, queue, head, k, rank, remaining, relaxed)
    {
      var v := g[u][k];
      PushKeeps(g, queue, base, remaining, v);
      if orderly {
        OrderlyStep(g, sources, queue, head, k, rank, remaining, relaxed, u, v);
      }
      rank := rank[v := Max(rank[v], rank[u] + 1)];
      remaining := remaining[v := remaining[v] - 1];
      relaxed := relaxed + {Slot(u, k)};
      if remaining[v] == 0 {
        queue := queue + [v];
      }
    }
    if orderly {
      OrderlyNext(g, sources, queue, head, rank, remaining, relaxed);
    }
  }

  lemma OrderlyNext(g: Graph, sources: set<Name>, queue: seq<Name>, head: nat, rank: map<Name, nat>,
    remaining: map<Name, int>, relaxed: set<Slot>)
    requires head < |queue| && queue[head] in g
    requires Orderly(g, sources, queue, head, |g[queue[head]]|, rank, remaining, relaxed)
    ensures Orderly(g, sources, queue, head + 1, 0, rank, remaining, relaxed)
  {
    UpToNext(g, queue, head, relaxed);
  }

  lemma OrderlyEnds(g: Graph, sources: set<Name>, queue: seq<Name>, rank: map<Name, nat>,
    remaining: map<Name, int>, relaxed: set<Slot>)
    requires Orderly(g, sources, queue, |queue|, 0, rank, remaining, relaxed)
    ensures Ranked(g, sources, queue, rank)
  {
    RelaxingEnds(g, sources, queue, rank, remaining, relaxed);
  }

  lemma NoneInto(g: Graph, sources: set<Name>)
    requires forall v :: v in sources && v in g ==> HasNoIncoming(g, v)
    ensures forall v :: v in sources && v in g ==> Into(g, v) == {}
  {}

  /** The states with no incoming usable edge, in order of appearance. */
  function Sources(states: seq<Name>, indegree: map<Name, nat>): seq<Name>
    requires forall s :: s in states ==> s in indegree
  {
    if states == [] then [] else
      var s := states[|states| - 1];
      Sources(states[..|states| - 1], indegree) + if indegree[s] == 0 then [s] else []
  }

  lemma {:induction false} SourcesAreThose(states: seq<Name>, indegree: map<Name, nat>)
    requires forall s :: s in states ==> s in indegree
    ensures forall s :: s in Sources(states, indegree) <==> s in states && indegree[s] == 0
    ensures Distinct(states) ==> Distinct(Sources(states, indegree))
  {
    if states != [] {
      SourcesAreThose(states[..|states| - 1], indegree);
    }
  }

  ghost predicate Ready(g: Graph, work: seq<Name>, rank: map<Name, nat>, remaining: map<Name, int>, orderly: bool) {
    && ClosedGraph(g) && rank.Keys == g.Keys == remaining.Keys && Pushed(g, work, |work|, remaining)
    && (forall v :: v in ToSet(work) && v in g ==> Into(g, v) == {})
    && (orderly ==> Orderly(g, ToSet(work), work, 0, 0, rank, remaining, {}))
  }

  /** Everything the relaxation needs holds before its first turn. */
  lemma RelaxationStarts(states: seq<Name>, indegree: map<Name, nat>, g: Graph, rank: map<Name, nat>,
    remaining: map<Name, int>)
    requires ClosedGraph(g) && rank.Keys == g.Keys == remaining.Keys == indegree.Keys == ToSet(states)
    requires Counted(g, remaining, {}) && (forall v :: v in g ==> rank[v] == 0)
    requires forall v :: v in g && indegree[v] == 0 ==> HasNoIncoming(g, v)
    ensures Ready(g, Sources(states, indegree), rank, remaining, Distinct(states))
  {
    var work := Sources(states, indegree);
    SourcesAreThose(states, indegree);
    SourcesKnown(states, g, indegree);
    hide Pushed, Orderly, Into, ToSet, Sources, Counted, ClosedGraph, Distinct;
    PushedStarts(g, work, remaining);
    if Distinct(states) {
      OrderlyStarts(g, work, rank, remaining);
    }
  }

  lemma SourcesKnown(states: seq<Name>, g: Graph, indegree: map<Name, nat>)
    requires g.Keys == indegree.Keys == ToSet(states) && forall v :: v in g && indegree[v] == 0 ==> HasNoIncoming(g, v)
    ensures
      var work := Sources(states, indegree);
      (forall v :: v in work ==> v in g) && forall v :: v in ToSet(work) && v in g ==> Into(g, v) == {}
  {
    SourcesAreThose(states, indegree);
    hide Sources, Into;
    NoneInto(g, ToSet(Sources(states, indegree)));
  }

  lemma PushedStarts(g: Graph, work: seq<Name>, remaining: map<Name, int>)
    requires remaining.Keys == g.Keys && forall v :: v in work ==> v in g
    ensures Pushed(g, work, |work|, remaining)
  {
    assert work[|work|..] == [];
  }

  lemma OrderlyStarts(g: Graph, work: seq<Name>, rank: map<Name, nat>, remaining: map<Name, int>)
    requires ClosedGraph(g) && rank.Keys == g.Keys == remaining.Keys && Counted(g, remaining, {})
    requires (forall v :: v in g ==> rank[v] == 0) && Distinct(work) && forall v :: v in work ==> v in g
    ensures Orderly(g, ToSet(work), work, 0, 0, rank, remaining, {})
  {
    hide ClosedGraph, Counted, Distinct, Into;
    forall v | v in g ensures !Exhausted(g, v, {}) {}
  }

  /** The queue loop. It ends on every input: a state is pushed at most once. */
  method RelaxAll(g: Graph, rank0: map<Name, nat>, remaining0: map<Name, int>, work: seq<Name>, ghost orderly: bool)
    returns (rank: map<Name, nat>, queue: seq<Name>)
    requires Ready(g, work, rank0, remaining0, orderly)
    ensures rank.Keys == g.Keys
    ensures orderly ==> Ranked(g, ToSet(work), queue, rank)
  {
    hide Pushed, Orderly, Into, Ranked, ToSet;
    var remaining := remaining0;
    rank, queue := rank0, work;
    ghost var relaxed: set<Slot> := {};
    var head := 0;
    while head < |queue|
      invariant head <= |queue| && rank.Keys == g.Keys == remaining.Keys && Pushed(g, queue, |work|, remaining)
      invariant orderly ==> Orderly(g, ToSet(work), queue, head, 0, rank, remaining, relaxed)
      decreases |work| + |g| - head
    {
      PushedIsShort(g, queue, |work|, remaining);
      rank, remaining, queue, relaxed :=
        RelaxTargets(g, queue[head], rank, remaining, queue, ToSet(work), |work|, head, relaxed, orderly);
      head := head + 1;
    }
    if orderly {
      OrderlyEnds(g, ToSet(work), queue, rank, remaining, relaxed);
    }
  }

  function Unranked(g: Graph): (rank: map<Name, nat>)
    ensures rank.Keys == g.Keys && forall v :: v in g ==> rank[v] == 0
  {
    map v | v in g :: 0
  }

  /** Ranks by relaxation along a queue that starts with the sources. */
  method AssignRanks(states: seq<Name>, indegree: map<Name, nat>, g: Graph)
    returns (rank: map<Name, nat>, queue: seq<Name>)
    requires ClosedGraph(g) && indegree.Keys == g.Keys == ToSet(states)
    requires forall v :: v in g && indegree[v] == 0 ==> HasNoIncoming(g, v)
    ensures rank.Keys == g.Keys
    ensures Distinct(states) ==> Ranked(g, ToSet(Sources(states, indegree)), queue, rank)
  {
    assert forall s :: s in states ==> s in indegree;
    hide *;
    var remaining := CountIncoming(g);
    rank := Unranked(g);
    RelaxationStarts(states, indegree, g, rank, remaining);
    rank, queue := RelaxAll(g, rank, remaining, Sources(states, indegree), Distinct(states));
  }

  // ---------------------------------------------------------------- what a rank is

  /** Every start of a retained path into `v` is a state with no incoming usable edge at all. */
  ghost predicate Settled(g: Graph, sources: set<Name>, v: Name) {
    forall p :: PathTo(g, p, v) && HasNoIncoming(g, p[0]) ==> p[0] in sources
  }

  /** A retained path into `v` whose earlier states are all settled. */
  ghost predicate SettledPath(g: Graph, sources: set<Name>, p: seq<Name>, v: Name) {
    PathTo(g, p, v) && forall i :: 0 <= i < |p| - 1 ==> Settled(g, sources, p[i])
  }

  /** `k` is the number of edges of a longest settled path into `v`. */
  ghost predicate RankIs(g: Graph, sources: set<Name>, v: Name, k: nat) {
    && (exists p :: SettledPath(g, sources, p, v) && |p| == k + 1)
    && (forall p :: SettledPath(g, sources, p, v) ==> |p| <= k + 1)
  }

  ghost predicate SourcesAreBare(g: Graph, sources: set<Name>) {
    forall v :: v in sources && v in g ==> HasNoIncoming(g, v)
  }

  /** Everything on a retained path into a queued state is queued. */
  lemma {:induction false} QueueClosed(g: Graph, sources: set<Name>, queue: seq<Name>, rank: map<Name, nat>,
    p: seq<Name>, v: Name)
    requires Ranked(g, sources, queue, rank) && SourcesAreBare(g, sources) && PathTo(g, p, v) && v in queue
    ensures p[0] in queue
  {
    hide Ranked, PathTo, SourcesAreBare;
    PathEnds(g, p, v);
    if |p| > 1 {
      var u := p[|p| - 2];
      LastEdge(g, p, v);
      QueuedBefore(g, sources, queue, rank, u, v);
      QueueClosed(g, sources, queue, rank, p[..|p| - 1], u);
    }
  }

  /** The last edge of a path. */
  lemma LastEdge(g: Graph, path: seq<Name>, b: Name)
    requires PathTo(g, path, b) && |path| > 1
    ensures PathTo(g, path[..|path| - 1], path[|path| - 2]) && b in g[path[|path| - 2]]
  {}

  lemma PathEnds(g: Graph, path: seq<Name>, b: Name)
    requires PathTo(g, path, b)
    ensures path != [] && path[|path| - 1] == b && forall i :: 0 <= i < |path| ==> path[i] in g
  {}

  lemma OneStatePath(g: Graph, v: Name)
    requires v in g
    ensures PathTo(g, [v], v)
  {}

  lemma RankedKeys(g: Graph, sources: set<Name>, queue: seq<Name>, rank: map<Name, nat>)
    requires Ranked(g, sources, queue, rank)
    ensures rank.Keys == g.Keys
  {}

  lemma RankedEdge(g: Graph, sources: set<Name>, queue: seq<Name>, rank: map<Name, nat>, u: Name, v: Name)
    requires Ranked(g, sources, queue, rank) && u in queue && u in g && v in g && v in g[u]
    ensures rank[v] >= rank[u] + 1
  {}

  lemma RankedFrom(g: Graph, sources: set<Name>, queue: seq<Name>, rank: map<Name, nat>, v: Name) returns (u: Name)
    requires Ranked(g, sources, queue, rank) && v in g && rank[v] > 0
    ensures u in queue && u in g && v in g[u] && rank[v] == rank[u] + 1
  {
    u :| u in queue && u in g && v in g[u] && rank[v] == rank[u] + 1;
  }

  lemma QueuedBefore(g: Graph, sources: set<Name>, queue: seq<Name>, rank: map<Name, nat>, u: Name, v: Name)
    requires Ranked(g, sources, queue, rank) && SourcesAreBare(g, sources) && v in queue
    requires u in g && v in g && v in g[u]
    ensures u in queue
  {}

  lemma NotQueued(g: Graph, sources: set<Name>, queue: seq<Name>, rank: map<Name, nat>, v: Name) returns (u: Name)
    requires Ranked(g, sources, queue, rank) && v in g && v !in queue && !HasNoIncoming(g, v)
    ensures u in g && v in g[u] && u !in queue
  {
    u :| u in g && v in g[u] && u !in queue;
  }

  lemma PathAppend(g: Graph, q: seq<Name>, u: Name, v: Name)
    requires PathTo(g, q, u) && v in g && v in g[u]
    ensures PathTo(g, q + [v], v) && (q + [v])[0] == q[0]
  {}

  /** From a state never queued one can go back to a start that is not a source. */
  lemma {:induction false} UnqueuedHasBadStart(g: Graph, sources: set<Name>, queue: seq<Name>, rank: map<Name, nat>,
    done: seq<Name>, v: Name) returns (p: seq<Name>)
    requires Ranked(g, sources, queue, rank) && Ordered(g, done) && Distinct(done) && ToSet(done) == g.Keys
    requires v in g && v !in queue
    ensures PathTo(g, p, v) && HasNoIncoming(g, p[0]) && p[0] !in sources
    decreases |done| - At(done, v)
  {
    if HasNoIncoming(g, v) {
      p := [v];
      OneStatePath(g, v);
      BareUnqueued(g, sources, queue, rank, v);
    } else {
      var u := NotQueued(g, sources, queue, rank, v);
      FinishedEarlier(g, done, u, v);
      hide Distinct, Ordered, Ranked, PathTo;
      var q := UnqueuedHasBadStart(g, sources, queue, rank, done, u);
      PathEnds(g, q, u);
      PathAppend(g, q, u, v);
      p := q + [v];
    }
  }

  lemma BareUnqueued(g: Graph, sources: set<Name>, queue: seq<Name>, rank: map<Name, nat>, v: Name)
    requires Ranked(g, sources, queue, rank) && v in g && v !in queue
    ensures v !in sources
  {}

  lemma FinishedEarlier(g: Graph, done: seq<Name>, u: Name, v: Name)
    requires Ordered(g, done) && Distinct(done) && u in done && v in done && u in g && v in g[u]
    ensures At(done, v) < At(done, u)
  {
    assert done[At(done, u)] == u && v in done[..At(done, u)];
    EarlierHasSmallerIndex(done, At(done, u), v);
  }

  lemma QueuedIsSettled(g: Graph, sources: set<Name>, queue: seq<Name>, rank: map<Name, nat>, done: seq<Name>, v: Name)
    requires Ranked(g, sources, queue, rank) && SourcesAreBare(g, sources) && v in g
    requires Ordered(g, done) && Distinct(done) && ToSet(done) == g.Keys
    ensures v in queue <==> Settled(g, sources, v)
  {
    if v in queue {
      forall p | PathTo(g, p, v) && HasNoIncoming(g, p[0]) ensures p[0] in sources {
        QueueClosed(g, sources, queue, rank, p, v);
      }
    } else {
      var p := UnqueuedHasBadStart(g, sources, queue, rank, done, v);
    }
  }

  /** A rank is earned: a path through queued states has that many edges. */
  lemma {:induction false} RankPath(g: Graph, sources: set<Name>, queue: seq<Name>, rank: map<Name, nat>, v: Name)
    returns (p: seq<Name>)
    requires Ranked(g, sources, queue, rank) && SourcesAreBare(g, sources) && v in g
    ensures PathTo(g, p, v) && |p| == rank[v] + 1 && forall i :: 0 <= i < |p| - 1 ==> p[i] in queue
    decreases rank[v]
  {
    RankedKeys(g, sources, queue, rank);
    hide Ranked, PathTo, SourcesAreBare;
    if rank[v] == 0 {
      p := [v];
      OneStatePath(g, v);
    } else {
      var u := RankedFrom(g, sources, queue, rank, v);
      var q := RankPath(g, sources, queue, rank, u);
      PathEnds(g, q, u);
      PathAppend(g, q, u, v);
      p := q + [v];
    }
  }

  /** No path through queued states has more edges than the rank. */
  lemma {:induction false} RankBounds(g: Graph, sources: set<Name>, queue: seq<Name>, rank: map<Name, nat>,
    p: seq<Name>, v: Name)
    requires Ranked(g, sources, queue, rank) && PathTo(g, p, v) && forall i :: 0 <= i < |p| - 1 ==> p[i] in queue
    ensures |p| <= rank[v] + 1
  {
    RankedKeys(g, sources, queue, rank);
    hide Ranked, PathTo;
    PathEnds(g, p, v);
    if |p| > 1 {
      var u := p[|p| - 2];
      LastEdge(g, p, v);
      RankedEdge(g, sources, queue, rank, u, v);
      RankBounds(g, sources, queue, rank, p[..|p| - 1], u);
    }
  }

  lemma RanksAreExact(g: Graph, sources: set<Name>, queue: seq<Name>, rank: map<Name, nat>, done: seq<Name>, v: Name)
    requires Ranked(g, sources, queue, rank) && SourcesAreBare(g, sources) && v in g
    requires Ordered(g, done) && Distinct(done) && ToSet(done) == g.Keys
    ensures RankIs(g, sources, v, rank[v])
  {
    forall u | u in g {
      QueuedIsSettled(g, sources, queue, rank, done, u);
    }
    hide Ordered, Distinct, Settled;
    var p := RankPath(g, sources, queue, rank, v);
    assert SettledPath(g, sources, p, v);
    forall q | SettledPath(g, sources, q, v) ensures |q| <= rank[v] + 1 {
      RankBounds(g, sources, queue, rank, q, v);
    }
  }

  /** A path of an acyclic graph visits no state twice, so a rank is below the number of states. */
  lemma RankIsSmall(g: Graph, sources: set<Name>, v: Name, k: nat)
    requires Acyclic(g) && RankIs(g, sources, v, k)
    ensures k < |g|
  {
    var p :| SettledPath(g, sources, p, v) && |p| == k + 1;
    PathEnds(g, p, v);
    hide Settled, RankIs;
    forall i, j | 0 <= i < j < |p| ensures p[i] != p[j] {
      NoReturn(g, p, i, j);
    }
    hide IsPath;
    forall x | x in p ensures x in g {
      var i :| 0 <= i < |p| && p[i] == x;
    }
    DistinctIsShort(p, g.Keys);
  }

  lemma PartOfPath(g: Graph, p: seq<Name>, i: nat, j: nat)
    requires IsPath(g, p) && i < j <= |p|
    ensures IsPath(g, p[i..j])
  {}

  lemma NoReturn(g: Graph, p: seq<Name>, i: nat, j: nat)
    requires Acyclic(g) && IsPath(g, p) && i < j < |p|
    ensures p[i] != p[j]
  {
    hide IsPath;
    PartOfPath(g, p, i, j + 1);
    assert p[i..j + 1][0] == p[i] && p[i..j + 1][j - i] == p[j];
  }

  /** Along a retained edge that leaves a settled state the rank goes up. */
  lemma RankGrows(g: Graph, sources: set<Name>, u: Name, v: Name, j: nat, k: nat)
    requires u in g && v in g && v in g[u] && Settled(g, sources, u)
    requires RankIs(g, sources, u, j) && RankIs(g, sources, v, k)
    ensures j + 1 <= k
  {
    var p :| SettledPath(g, sources, p, u) && |p| == j + 1;
    assert SettledPath(g, sources, p + [v], v);
  }

  /** A state on a retained path into a settled state is settled. */
  lemma SettledBackwards(g: Graph, sources: set<Name>, p: seq<Name>, v: Name)
    requires Settled(g, sources, v) && PathTo(g, p, v)
    ensures Settled(g, sources, p[0])
  {
    forall q | PathTo(g, q, p[0]) && HasNoIncoming(g, q[0]) ensures q[0] in sources {
      assert PathTo(g, q + p[1..], v);
    }
  }

  /** `k` is the number of edges of a longest retained path from a source into `v`. */
  ghost predicate LongestFromSource(g: Graph, sources: set<Name>, v: Name, k: nat) {
    && (exists p :: PathTo(g, p, v) && p[0] in sources && |p| == k + 1)
    && (forall p :: PathTo(g, p, v) && p[0] in sources ==> |p| <= k + 1)
  }

  lemma PathsIntoSettled(g: Graph, sources: set<Name>, v: Name, p: seq<Name>)
    requires Settled(g, sources, v) && PathTo(g, p, v)
    ensures SettledPath(g, sources, p, v)
  {
    PathEnds(g, p, v);
    forall i | 0 <= i < |p| - 1 ensures Settled(g, sources, p[i]) {
      PartOfPath(g, p, i, |p|);
      SettledBackwards(g, sources, p[i..], v);
    }
  }

  lemma PathStep(g: Graph, u: Name, p: seq<Name>, v: Name)
    requires PathTo(g, p, v) && u in g && p[0] in g[u]
    ensures PathTo(g, [u] + p, v)
  {
    PathPrepend(g, u, p);
  }

  lemma LongestStartsBare(g: Graph, v: Name, p: seq<Name>)
    requires PathTo(g, p, v) && forall q :: PathTo(g, q, v) ==> |q| <= |p|
    ensures HasNoIncoming(g, p[0])
  {
    forall u | u in g ensures p[0] !in g[u] {
      if p[0] in g[u] {
        PathStep(g, u, p, v);
      }
    }
  }

  /** A settled state has the documented rank: the length of a longest retained path from a source. */
  lemma SettledRankIsDocumented(g: Graph, sources: set<Name>, v: Name, k: nat)
    requires Settled(g, sources, v) && RankIs(g, sources, v, k)
    ensures LongestFromSource(g, sources, v, k)
  {
    forall q | PathTo(g, q, v) {
      PathsIntoSettled(g, sources, v, q);
    }
    var p :| SettledPath(g, sources, p, v) && |p| == k + 1;
    LongestStartsBare(g, v, p);
    assert PathTo(g, p, v) && p[0] in sources;
  }

  lemma SettledStep(g: Graph, sources: set<Name>, u: Name, p: seq<Name>, v: Name)
    requires SettledPath(g, sources, p, v) && |p| > 1 && u in g && p[0] in g[u]
    ensures SettledPath(g, sources, [u] + p, v)
  {
    PathEnds(g, p, v);
    OneStatePath(g, p[0]);
    PathStep(g, u, [p[0]], p[0]);
    SettledBackwards(g, sources, [u] + [p[0]], p[0]);
    PathStep(g, u, p, v);
  }

  /** A rank above 0 is counted from a source. */
  lemma EarnedFromSource(g: Graph, sources: set<Name>, v: Name, k: nat) returns (p: seq<Name>)
    requires v in g && RankIs(g, sources, v, k)
    ensures SettledPath(g, sources, p, v) && |p| == k + 1 && (k > 0 ==> p[0] in sources)
  {
    p :| SettledPath(g, sources, p, v) && |p| == k + 1;
    PathEnds(g, p, v);
    if k > 0 {
      forall u | u in g ensures p[0] !in g[u] {
        if p[0] in g[u] {
          SettledStep(g, sources, u, p, v);
        }
      }
      assert Settled(g, sources, p[0]);
      OneStatePath(g, p[0]);
      assert HasNoIncoming(g, [p[0]][0]);
    }
  }

  /** A longest retained path from a source into `v` runs through settled states. */
  ghost predicate LongestIsSettled(g: Graph, sources: set<Name>, v: Name) {
    exists p :: SettledPath(g, sources, p, v) && LongestPath(g, sources, p, v)
  }

  ghost predicate LongestPath(g: Graph, sources: set<Name>, p: seq<Name>, v: Name) {
    PathTo(g, p, v) && p[0] in sources && forall q :: PathTo(g, q, v) && q[0] in sources ==> |q| <= |p|
  }

  /**
   * The rank of a state is the documented one exactly when a longest path from a source runs through settled states;
   * a state that no source reaches keeps rank 0.
   */
  lemma DocumentedRankExactly(g: Graph, sources: set<Name>, v: Name, k: nat)
    requires v in g && RankIs(g, sources, v, k)
    ensures LongestFromSource(g, sources, v, k) <==> LongestIsSettled(g, sources, v)
    ensures (forall p :: PathTo(g, p, v) ==> p[0] !in sources) ==> k == 0
  {
    var p := EarnedFromSource(g, sources, v, k);
    hide Settled;
    PathEnds(g, p, v);
    if LongestFromSource(g, sources, v, k) {
      var q :| PathTo(g, q, v) && q[0] in sources && |q| == k + 1;
      assert k == 0 ==> p[0] == v == q[0];
      assert LongestPath(g, sources, p, v);
    }
    if LongestIsSettled(g, sources, v) {
      var q :| SettledPath(g, sources, q, v) && LongestPath(g, sources, q, v);
      assert |q| == k + 1;
    }
  }

  // ---------------------------------------------------------------- coordinates

  /** The states of one rank, in order of appearance. */
  function Peers(states: seq<Name>, rank: map<Name, nat>, r: nat): seq<Name>
    requires forall s :: s in states ==> s in rank
  {
    if states == [] then [] else
      var s := states[|states| - 1];
      Peers(states[..|states| - 1], rank, r) + if rank[s] == r then [s] else []
  }

  lemma {:induction false} PeersAreThose(states: seq<Name>, rank: map<Name, nat>, r: nat)
    requires forall s :: s in states ==> s in rank
    ensures forall s :: s in Peers(states, rank, r) <==> s in states && rank[s] == r
  {
    if states != [] {
      PeersAreThose(states[..|states| - 1], rank, r);
    }
  }

  function Cell(r: nat, i: nat): Point {
    Point((r * X_SPACING) as real, (i * Y_SPACING) as real)
  }

  /** The states of the same rank that appear before the one at `i`. */
  ghost function Ahead(states: seq<Name>, rank: map<Name, nat>, i: nat): set<nat>
    requires i < |states| && forall s :: s in states ==> s in rank
  {
    set j: nat | j < i && rank[states[j]] == rank[states[i]]
  }

  /** The state at `i`, in its last appearance: 240 to the right per rank, 120 down per state of its rank before it. */
  ghost predicate StandsAt(states: seq<Name>, rank: map<Name, nat>, i: nat, at: Point)
    requires i < |states| && forall s :: s in states ==> s in rank
  {
    && states[i] !in states[i + 1..]
    && at == Point(240.0 * (rank[states[i]] as real), 120.0 * (|Ahead(states, rank, i)| as real))
  }

  ghost predicate PlacedAt(states: seq<Name>, rank: map<Name, nat>, s: Name, at: Point)
    requires forall s :: s in states ==> s in rank
  {
    exists i: nat :: i < |states| && states[i] == s && StandsAt(states, rank, i, at)
  }

  lemma {:induction false} PeersConcat(a: seq<Name>, b: seq<Name>, rank: map<Name, nat>, r: nat)
    requires forall s :: s in a || s in b ==> s in rank
    ensures Peers(a + b, rank, r) == Peers(a, rank, r) + Peers(b, rank, r)
  {
    if b == [] {
      assert a + b == a;
    } else {
      var init := b[..|b| - 1];
      assert (a + b)[..|a + b| - 1] == a + init;
      PeersConcat(a, init, rank, r);
    }
  }

  /** The states among the first `n` of rank `r`. */
  ghost function Ranking(states: seq<Name>, rank: map<Name, nat>, r: nat, n: nat): set<nat>
    requires n <= |states| && forall s :: s in states ==> s in rank
  {
    set j: nat | j < n && rank[states[j]] == r
  }

  lemma {:induction false} PeersCount(states: seq<Name>, rank: map<Name, nat>, r: nat, n: nat)
    requires n <= |states| && forall s :: s in states ==> s in rank
    ensures |Peers(states[..n], rank, r)| == |Ranking(states, rank, r, n)|
  {
    if n == 0 {
      assert Ranking(states, rank, r, 0) == {};
    } else {
      PeersCount(states, rank, r, n - 1);
      assert states[..n][..n - 1] == states[..n - 1];
      var fewer := Ranking(states, rank, r, n - 1);
      assert Ranking(states, rank, r, n) == if rank[states[n - 1]] == r then fewer + {n - 1} else fewer;
    }
  }

  /** In the list of its rank a state comes after those before it, and no later appearance follows its last one. */
  lemma PeerInOrder(states: seq<Name>, rank: map<Name, nat>, i: nat)
    requires i < |states| && forall s :: s in states ==> s in rank
    ensures
      var peers, k := Peers(states, rank, rank[states[i]]), |Ahead(states, rank, i)|;
      && k < |peers| && peers[k] == states[i]
      && (states[i] !in states[i + 1..] ==> states[i] !in peers[k + 1..])
  {
    var r := rank[states[i]];
    var head, tail := states[..i], states[i + 1..];
    assert states == head + ([states[i]] + tail);
    PeersConcat(head, [states[i]] + tail, rank, r);
    PeersConcat([states[i]], tail, rank, r);
    OnePeer(states[i], rank);
    PeersCount(states, rank, r, i);
    RankingIsAhead(states, rank, i);
    PeersAreThose(tail, rank, r);
    hide *;
    Middle(Peers(head, rank, r), states[i], Peers(tail, rank, r));
  }

  lemma OnePeer(s: Name, rank: map<Name, nat>)
    requires s in rank
    ensures Peers([s], rank, rank[s]) == [s]
  {
    assert [s][..0] == [];
  }

  lemma RankingIsAhead(states: seq<Name>, rank: map<Name, nat>, i: nat)
    requires i < |states| && forall s :: s in states ==> s in rank
    ensures Ranking(states, rank, rank[states[i]], i) == Ahead(states, rank, i)
  {}

  lemma Middle(before: seq<Name>, s: Name, after: seq<Name>)
    ensures
      var all := before + ([s] + after);
      |before| < |all| && all[|before|] == s && all[|before| + 1..] == after
  {}

  ghost predicate Grouped(states: seq<Name>, rank: map<Name, nat>, byRank: map<nat, seq<Name>>)
    requires forall s :: s in states ==> s in rank
  {
    && (forall r: nat :: r in byRank <==> Peers(states, rank, r) != [])
    && (forall r: nat :: r in byRank ==> byRank[r] == Peers(states, rank, r))
  }

  method GroupByRank(states: seq<Name>, rank: map<Name, nat>) returns (byRank: map<nat, seq<Name>>)
    requires rank.Keys == ToSet(states)
    ensures Grouped(states, rank, byRank)
  {
    byRank := map[];
    for n := 0 to |states|
      invariant Grouped(states[..n], rank, byRank)
    {
      var r := rank[states[n]];
      assert states[..n + 1][..n] == states[..n];
      var bucket := if r in byRank then byRank[r] else [];
      byRank := byRank[r := bucket + [states[n]]];
    }
    assert states[..|states|] == states;
  }

  ghost predicate AllPlaced(states: seq<Name>, rank: map<Name, nat>, positions: map<Name, Point>)
    requires forall s :: s in states ==> s in rank
  {
    forall s :: s in positions ==> s in rank && PlacedAt(states, rank, s, positions[s])
  }

  /** `s` is last placed by the entry at `k` of the first `n` names. */
  ghost predicate LastOf(names: seq<Name>, n: nat, s: Name, k: nat) {
    k < n <= |names| && names[k] == s && s !in names[k + 1..n]
  }

  ghost predicate InColumn(names: seq<Name>, n: nat, r: nat, s: Name, at: Point) {
    exists k: nat :: LastOf(names, n, s, k) && at == Cell(r, k)
  }

  lemma {:induction false} LastIndex(states: seq<Name>, s: Name) returns (i: nat)
    requires s in states
    ensures i < |states| && states[i] == s && s !in states[i + 1..]
  {
    i := |states| - 1;
    if states[i] != s {
      i := LastIndex(states[..i], s);
      assert states[i + 1..] == states[..|states| - 1][i + 1..] + [states[|states| - 1]];
    }
  }

  lemma LaterOn(s: seq<Name>, i: nat, k: nat)
    requires i < k < |s|
    ensures s[k] in s[i + 1..]
  {
    assert s[i + 1..][k - i - 1] == s[k];
  }

  lemma SameLast(s: seq<Name>, i: nat, k: nat)
    requires i < |s| && k < |s| && s[i] == s[k] && s[i] !in s[i + 1..] && s[k] !in s[k + 1..]
    ensures i == k
  {
    if i < k {
      LaterOn(s, i, k);
    } else if k < i {
      LaterOn(s, k, i);
    }
  }

  lemma CellIs(r: nat, i: nat)
    ensures Cell(r, i) == Point(240.0 * (r as real), 120.0 * (i as real))
  {}

  /** The last entry of a name in the list of a rank gives its place. */
  lemma ColumnPlaces(states: seq<Name>, rank: map<Name, nat>, r: nat, s: Name, at: Point)
    requires rank.Keys == ToSet(states)
    requires var names := Peers(states, rank, r); s in names && InColumn(names, |names|, r, s, at)
    ensures PlacedAt(states, rank, s, at)
  {
    var names := Peers(states, rank, r);
    PeersAreThose(states, rank, r);
    var i := LastIndex(states, s);
    PeerInOrder(states, rank, i);
    hide Peers;
    var k: nat :| LastOf(names, |names|, s, k) && at == Cell(r, k);
    var m := |Ahead(states, rank, i)|;
    assert names[k + 1..|names|] == names[k + 1..];
    SameLast(names, m, k);
    CellIs(r, k);
    assert StandsAt(states, rank, i, at);
  }

  lemma NextInColumn(names: seq<Name>, n: nat, r: nat, s: Name, at: Point)
    requires n < |names|
    ensures InColumn(names, n, r, s, at) && s != names[n] ==> InColumn(names, n + 1, r, s, at)
    ensures InColumn(names, n + 1, r, names[n], Cell(r, n))
  {
    if InColumn(names, n, r, s, at) && s != names[n] {
      var k: nat :| LastOf(names, n, s, k) && at == Cell(r, k);
      assert names[k + 1..n + 1] == names[k + 1..n] + [names[n]];
      assert LastOf(names, n + 1, s, k);
    }
    assert LastOf(names, n + 1, names[n], n);
  }

  /** One bucket: its states go down the column of its rank. */
  method PlaceColumn(r: nat, names: seq<Name>, before: map<Name, Point>) returns (positions: map<Name, Point>)
    requires forall s :: s in names ==> s !in before
    ensures positions.Keys == before.Keys + ToSet(names)
    ensures forall s :: s in before ==> positions[s] == before[s]
    ensures forall s :: s in names ==> InColumn(names, |names|, r, s, positions[s])
  {
    positions := before;
    hide InColumn, Cell;
    for i := 0 to |names|
      invariant positions.Keys == before.Keys + ToSet(names[..i])
      invariant forall s :: s in before ==> positions[s] == before[s]
      invariant forall s :: s in names[..i] ==> InColumn(names, i, r, s, positions[s])
    {
      assert names[..i + 1] == names[..i] + [names[i]];
      forall s | s in names[..i] {
        NextInColumn(names, i, r, s, positions[s]);
      }
      NextInColumn(names, i, r, names[i], Cell(r, i));
      positions := positions[names[i] := Cell(r, i)];
    }
    assert names[..|names|] == names;
  }

  /** The states of the finished ranks are placed, and no others. */
  ghost predicate RanksDone(states: seq<Name>, rank: map<Name, nat>, positions: map<Name, Point>, done: set<nat>)
    requires forall s :: s in states ==> s in rank
  {
    && AllPlaced(states, rank, positions)
    && forall s :: s in positions <==> s in states && rank[s] in done
  }

  lemma NewColumn(states: seq<Name>, rank: map<Name, nat>, r: nat, positions: map<Name, Point>, done: set<nat>)
    requires rank.Keys == ToSet(states) && RanksDone(states, rank, positions, done) && r !in done
    ensures forall s :: s in Peers(states, rank, r) ==> s !in positions
  {
    PeersAreThose(states, rank, r);
    hide AllPlaced;
  }

  lemma ColumnDone(states: seq<Name>, rank: map<Name, nat>, r: nat, names: seq<Name>, before: map<Name, Point>,
    positions: map<Name, Point>, done: set<nat>)
    requires rank.Keys == ToSet(states) && RanksDone(states, rank, before, done) && names == Peers(states, rank, r)
    requires positions.Keys == before.Keys + ToSet(names)
    requires forall s :: s in before ==> positions[s] == before[s]
    requires forall s :: s in names ==> InColumn(names, |names|, r, s, positions[s])
    ensures RanksDone(states, rank, positions, done + {r})
  {
    PeersAreThose(states, rank, r);
    hide InColumn, PlacedAt, Peers;
    ColumnPlaced(states, rank, r, names, before, positions);
    hide AllPlaced;
  }

  lemma ColumnPlaced(states: seq<Name>, rank: map<Name, nat>, r: nat, names: seq<Name>, before: map<Name, Point>,
    positions: map<Name, Point>)
    requires rank.Keys == ToSet(states) && AllPlaced(states, rank, before) && names == Peers(states, rank, r)
    requires positions.Keys == before.Keys + ToSet(names)
    requires forall s :: s in before ==> positions[s] == before[s]
    requires forall s :: s in names ==> InColumn(names, |names|, r, s, positions[s])
    ensures AllPlaced(states, rank, positions)
  {
    PeersAreThose(states, rank, r);
    hide InColumn, PlacedAt, Peers;
    forall s | s in positions ensures s in rank && PlacedAt(states, rank, s, positions[s]) {
      if s in names {
        ColumnPlaces(states, rank, r, s, positions[s]);
      }
    }
  }

  lemma AllRanksDone(states: seq<Name>, rank: map<Name, nat>, byRank: map<nat, seq<Name>>,
    positions: map<Name, Point>)
    requires rank.Keys == ToSet(states) && Grouped(states, rank, byRank)
    requires RanksDone(states, rank, positions, byRank.Keys)
    ensures positions.Keys == ToSet(states) && AllPlaced(states, rank, positions)
  {
    forall s | s in states ensures rank[s] in byRank {
      PeersAreThose(states, rank, rank[s]);
    }
    hide AllPlaced, Peers;
  }

  lemma NoRankDone(states: seq<Name>, rank: map<Name, nat>)
    requires rank.Keys == ToSet(states)
    ensures RanksDone(states, rank, map[], {})
  {}

  lemma BucketIs(states: seq<Name>, rank: map<Name, nat>, byRank: map<nat, seq<Name>>, r: nat)
    requires rank.Keys == ToSet(states) && Grouped(states, rank, byRank) && r in byRank
    ensures byRank[r] == Peers(states, rank, r)
  {}

  method Place(states: seq<Name>, rank: map<Name, nat>) returns (positions: map<Name, Point>)
    requires rank.Keys == ToSet(states)
    ensures positions.Keys == ToSet(states) && AllPlaced(states, rank, positions)
  {
    assert forall s :: s in states ==> s in rank;
    hide *;
    var byRank := GroupByRank(states, rank);
    positions := map[];
    var todo := byRank.Keys;
    ghost var done: set<nat> := {};
    NoRankDone(states, rank);
    while todo != {}
      invariant todo <= byRank.Keys && done == byRank.Keys - todo && RanksDone(states, rank, positions, done)
    {
      var r: nat :| r in todo;
      BucketIs(states, rank, byRank, r);
      NewColumn(states, rank, r, positions, done);
      ghost var before := positions;
      positions := PlaceColumn(r, byRank[r], positions);
      ColumnDone(states, rank, r, byRank[r], before, positions, done);
      todo := todo - {r};
      done := done + {r};
    }
    assert done == byRank.Keys;
    AllRanksDone(states, rank, byRank, positions);
  }

  lemma AheadGrows(states: seq<Name>, rank: map<Name, nat>, i: nat, j: nat)
    requires i < j < |states| && (forall s :: s in states ==> s in rank) && rank[states[i]] == rank[states[j]]
    ensures |Ahead(states, rank, i)| < |Ahead(states, rank, j)|
  {
    var fewer, more := Ahead(states, rank, i), Ahead(states, rank, j);
    assert i in more && i !in fewer && fewer <= more - {i};
    SubsetCount(fewer, more - {i});
  }

  lemma {:induction false} SubsetCount(a: set<nat>, b: set<nat>)
    requires a <= b
    ensures |a| <= |b|
    decreases a
  {
    if x :| x in a {
      SubsetCount(a - {x}, b - {x});
    }
  }

  /** Two states never share a place. */
  lemma PlacesDiffer(states: seq<Name>, rank: map<Name, nat>, s: Name, t: Name, at: Point)
    requires rank.Keys == ToSet(states) && PlacedAt(states, rank, s, at) && PlacedAt(states, rank, t, at)
    ensures s == t
  {
    var i: nat :| i < |states| && states[i] == s && StandsAt(states, rank, i, at);
    var j: nat :| j < |states| && states[j] == t && StandsAt(states, rank, j, at);
    hide Ahead;
    assert rank[s] as real == rank[t] as real;
    if i < j {
      AheadGrows(states, rank, i, j);
    } else if j < i {
      AheadGrows(states, rank, j, i);
    }
  }

  /**
   * Where the layout puts the state at `i`, in its last appearance: its column is its rank, its row the number of
   * states of that rank before it.
   */
  lemma PlacesExactly(states: seq<Name>, rank: map<Name, nat>, positions: map<Name, Point>, i: nat)
    requires rank.Keys == ToSet(states) == positions.Keys && AllPlaced(states, rank, positions)
    requires i < |states| && states[i] !in states[i + 1..]
    ensures positions[states[i]] ==
      Point(240.0 * (rank[states[i]] as real),
        120.0 * (|set j: nat | j < i && rank[states[j]] == rank[states[i]]| as real))
  {
    var s := states[i];
    var k := SameAppearance(states, rank, positions, i);
    assert StandsAt(states, rank, k, positions[s]);
  }

  lemma SameAppearance(states: seq<Name>, rank: map<Name, nat>, positions: map<Name, Point>, i: nat) returns (k: nat)
    requires rank.Keys == ToSet(states) == positions.Keys && AllPlaced(states, rank, positions)
    requires i < |states| && states[i] !in states[i + 1..]
    ensures k == i && StandsAt(states, rank, k, positions[states[i]])
  {
    var s := states[i];
    assert PlacedAt(states, rank, s, positions[s]);
    hide AllPlaced, Ahead;
    k :| k < |states| && states[k] == s && StandsAt(states, rank, k, positions[s]);
    SameLast(states, k, i);
  }

  lemma AllStand(states: seq<Name>, rank: map<Name, nat>, positions: map<Name, Point>)
    requires rank.Keys == ToSet(states) == positions.Keys && AllPlaced(states, rank, positions)
    ensures forall i :: 0 <= i < |states| && states[i] !in states[i + 1..] ==>
      StandsAt(states, rank, i, positions[states[i]])
  {
    hide AllPlaced, Ahead;
    forall i | 0 <= i < |states| && states[i] !in states[i + 1..]
      ensures StandsAt(states, rank, i, positions[states[i]])
    {
      PlacesExactly(states, rank, positions, i);
      AheadIs(states, rank, i);
    }
  }

  lemma AheadIs(states: seq<Name>, rank: map<Name, nat>, i: nat)
    requires i < |states| && forall s :: s in states ==> s in rank
    ensures Ahead(states, rank, i) == set j: nat | j < i && rank[states[j]] == rank[states[i]]
  {}

  ghost function BareStates(states: seq<Name>, transitions: seq<Transition>): set<Name> {
    set s | s in states && HasNoIncoming(UsableGraph(states, transitions), s)
  }

  ghost function RetainedGraph(states: seq<Name>, transitions: seq<Transition>): Graph {
    UsableGraphClosed(states, transitions);
    SearchAll(UsableGraph(states, transitions), states, Unsearched(UsableGraph(states, transitions))).dag
  }

  lemma ForwardIsPart(g: Graph, vs: seq<Name>, u: Name)
    ensures forall v :: v in Forward(g, vs, u) ==> v in vs
  {}

  /** The retained graph, of any machine: acyclic, maximal, and never with an edge into a source. */
  lemma RetainedGraphIsSound(states: seq<Name>, transitions: seq<Transition>)
    ensures Retained(UsableGraph(states, transitions), RetainedGraph(states, transitions))
    ensures ClosedGraph(RetainedGraph(states, transitions))
    ensures SourcesAreBare(RetainedGraph(states, transitions), BareStates(states, transitions))
  {
    var adj := UsableGraph(states, transitions);
    var dag := RetainedGraph(states, transitions);
    UsableGraphClosed(states, transitions);
    SearchRetains(adj, states);
    forall u | u in adj {
      ForwardIsPart(dag, adj[u], u);
    }
  }

  lemma PlacesAreInjective(states: seq<Name>, rank: map<Name, nat>, positions: map<Name, Point>)
    requires rank.Keys == ToSet(states) && AllPlaced(states, rank, positions)
    ensures forall s, t :: s in positions && t in positions && positions[s] == positions[t] ==> s == t
  {
    forall s, t | s in positions && t in positions && positions[s] == positions[t] ensures s == t {
      PlacesDiffer(states, rank, s, t, positions[s]);
    }
  }

  lemma RanksAreLongest(states: seq<Name>, transitions: seq<Transition>, queue: seq<Name>, rank: map<Name, nat>)
    requires Ranked(RetainedGraph(states, transitions), BareStates(states, transitions), queue, rank)
    ensures forall s :: s in states ==>
      RankIs(RetainedGraph(states, transitions), BareStates(states, transitions), s, rank[s])
  {
    var adj := UsableGraph(states, transitions);
    UsableGraphClosed(states, transitions);
    SearchRetains(adj, states);
    RetainedGraphIsSound(states, transitions);
    var end := SearchAll(adj, states, Unsearched(adj));
    forall s | s in states
      ensures RankIs(RetainedGraph(states, transitions), BareStates(states, transitions), s, rank[s])
    {
      RanksAreExact(end.dag, BareStates(states, transitions), queue, rank, end.done, s);
    }
  }

  lemma SourcesAreBareStates(states: seq<Name>, transitions: seq<Transition>, indegree: map<Name, nat>)
    requires indegree.Keys == ToSet(states)
    requires forall v :: v in indegree ==> (indegree[v] == 0 <==> HasNoIncoming(UsableGraph(states, transitions), v))
    ensures ToSet(Sources(states, indegree)) == BareStates(states, transitions)
  {
    SourcesAreThose(states, indegree);
  }

  lemma BareInRetained(states: seq<Name>, transitions: seq<Transition>)
    ensures forall s :: s in states && HasNoIncoming(UsableGraph(states, transitions), s) ==>
      HasNoIncoming(RetainedGraph(states, transitions), s)
  {
    RetainedGraphIsSound(states, transitions);
    assert forall s :: s in states && HasNoIncoming(UsableGraph(states, transitions), s) ==>
      s in BareStates(states, transitions);
  }

  /** Every state stands in the column of its rank, at its place there; with distinct names the ranks are exact. */
  ghost predicate LayoutBy(states: seq<Name>, transitions: seq<Transition>, positions: map<Name, Point>,
    rank: map<Name, nat>)
  {
    && positions.Keys == ToSet(states) == rank.Keys
    && AllPlaced(states, rank, positions)
    && (Distinct(states) ==> forall s :: s in states ==>
          RankIs(RetainedGraph(states, transitions), BareStates(states, transitions), s, rank[s]))
  }

  ghost predicate IsLayout(states: seq<Name>, transitions: seq<Transition>, positions: map<Name, Point>) {
    exists rank :: LayoutBy(states, transitions, positions, rank)
  }

  /**
   * The layout of any machine. Distinct states never share a position; when no state is declared twice, the column of
   * a state is the length of a longest settled path into it.
   */
  method Layout(states: seq<Name>, transitions: seq<Transition>)
    returns (positions: map<Name, Point>, ghost rank: map<Name, nat>)
    ensures LayoutBy(states, transitions, positions, rank)
    ensures forall i :: 0 <= i < |states| && states[i] !in states[i + 1..] ==>
      StandsAt(states, rank, i, positions[states[i]])
    ensures forall s, t :: s in positions && t in positions && positions[s] == positions[t] ==> s == t
  {
    var adj, indegree := BuildGraph(states, transitions);
    UsableGraphClosed(states, transitions);
    RetainedGraphIsSound(states, transitions);
    BareInRetained(states, transitions);
    SourcesAreBareStates(states, transitions, indegree);
    hide Retained, SourcesAreBare, HasNoIncoming, ClosedGraph, Ranked, RankIs, AllPlaced, Targets, Sources, BareStates,
      Distinct, StandsAt;
    var dagAdj := ClassifyEdges(states, adj);
    var ranks, queue := AssignRanks(states, indegree, dagAdj);
    if Distinct(states) {
      RanksAreLongest(states, transitions, queue, ranks);
    }
    positions := Place(states, ranks);
    PlacesAreInjective(states, ranks, positions);
    AllStand(states, ranks, positions);
    rank := ranks;
  }

  /** The diagram reads left to right along every retained edge that leaves a settled state. */
  lemma ColumnsGoRight(states: seq<Name>, transitions: seq<Transition>, rank: map<Name, nat>,
    positions: map<Name, Point>, u: Name, v: Name)
    requires rank.Keys == ToSet(states) == positions.Keys && AllPlaced(states, rank, positions)
    requires forall s :: s in states ==>
      RankIs(RetainedGraph(states, transitions), BareStates(states, transitions), s, rank[s])
    requires u in states && v in RetainedGraph(states, transitions)[u]
    requires Settled(RetainedGraph(states, transitions), BareStates(states, transitions), u)
    ensures v in states && positions[v].x >= positions[u].x + 240.0
    ensures rank[u] < |ToSet(states)|
  {
    RetainedGraphIsSound(states, transitions);
    RankGrows(RetainedGraph(states, transitions), BareStates(states, transitions), u, v, rank[u], rank[v]);
    RankIsSmall(RetainedGraph(states, transitions), BareStates(states, transitions), u, rank[u]);
    assert RetainedGraph(states, transitions).Keys == ToSet(states);
    assert rank[v] as real >= rank[u] as real + 1.0;
  }

  /** All states are settled exactly when every start of the retained graph is a source. */
  lemma AllSettled(g: Graph, sources: set<Name>)
    requires ClosedGraph(g)
    ensures (forall v :: v in g ==> Settled(g, sources, v)) <==>
      (forall v :: v in g && HasNoIncoming(g, v) ==> v in sources)
  {
    forall v | v in g && Settled(g, sources, v) && HasNoIncoming(g, v) ensures v in sources {
      assert PathTo(g, [v], v);
    }
  }
}
