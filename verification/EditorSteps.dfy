/** What each canvas mutation of the editor does to the form, as lemmas on values. */
module EditorSteps {
  import opened EditorModel
  import opened Sequences
  import opened StateMachine
  import opened StateMachineFlow
  import opened Text

  // ---------------------------------------------------------------- reading a mutated canvas

  /** The markers alone decide what is read about them. */
  lemma {:induction false} CaptureOthers(nodes: seq<FlowNode>, kind: NodeKind, before: Terminal)
    requires kind != StateNode
    ensures Capture(nodes, kind, before) == Capture(Filter(NotState, nodes), kind, before)
  {
    if nodes != [] {
      var head, rest := nodes[0], nodes[1..];
      CaptureOthers(rest, kind, before);
      FilterConcat(NotState, [head], rest);
      FilterOne(NotState, head);
      assert nodes == [head] + rest;
      if NotState(head) {
        assert ([head] + Filter(NotState, rest))[1..] == Filter(NotState, rest);
      } else {
        assert [] + Filter(NotState, rest) == Filter(NotState, rest);
      }
    }
  }

  ghost function StateNodes(nodes: seq<FlowNode>): seq<FlowNode> { Filter(IsState, nodes) }

  ghost function Markers(nodes: seq<FlowNode>): seq<FlowNode> { Filter(NotState, nodes) }

  ghost function TransitionEdges(edges: seq<FlowEdge>): seq<FlowEdge> { Filter(IsTransition, edges) }

  ghost function NamesOf(nodes: seq<FlowNode>): seq<Name> { Map(NodeName, StateNodes(nodes)) }

  ghost function TransitionsOf(edges: seq<FlowEdge>): seq<Transition> { Map(Plainly, TransitionEdges(edges)) }

  ghost function TerminalsOf(nodes: seq<FlowNode>, before: Terminals): Terminals {
    Terminals(Capture(Markers(nodes), StartMarker, before.start), Capture(Markers(nodes), EndMarker, before.end))
  }

  /** A commit reads states, transitions, places and markers off the canvas and carries the references over. */
  lemma CommitReads(f: Form, nodes: seq<FlowNode>, edges: seq<FlowEdge>, rename: Option<Rename>)
    requires NodesOk(StateNodes(nodes))
    ensures
      var g := CommitForm(f, nodes, edges, rename);
      && g.mode == f.mode && g.states == NamesOf(nodes) && g.transitions == TransitionsOf(edges)
      && g.positions == PositionByName(StateNodes(nodes)) && g.terminalNodes == TerminalsOf(nodes, f.terminalNodes)
      && RefsOf(g) == Reconcile(RefsOf(f), ToSet(g.states), rename)
  {
    forall n | n in nodes && IsState(n) ensures n.id == n.name {
      var sn := StateNodes(nodes);
      assert n in sn;
      var i :| 0 <= i < |sn| && sn[i] == n;
    }
    hide Filter, NodesOk, Reconcile, Capture;
    ReadPlainly(nodes, edges, f.terminalNodes);
    CaptureOthers(nodes, StartMarker, f.terminalNodes.start);
    CaptureOthers(nodes, EndMarker, f.terminalNodes.end);
  }

  /** The settled canvas: its states, its transitions, and the markers the form asks for. */
  lemma SettledCanvas(f: Form, nodes: seq<FlowNode>, edges: seq<FlowEdge>, last: Signature, next: nat)
    requires SettledEditor(f, nodes, edges, last, next)
    ensures NodesOk(StateNodes(nodes)) && EdgesOk(TransitionEdges(edges), ToSet(f.states), next)
    ensures NamesOf(nodes) == f.states && PositionByName(StateNodes(nodes)).Keys == ToSet(f.states)
    ensures nodes == StateNodes(nodes) + Markers(nodes)
    ensures Markers(nodes) == MarkerNodes(f, PositionByName(StateNodes(nodes)))
    ensures TerminalsOf(nodes, f.terminalNodes) == f.terminalNodes
  {
    var sn := StateNodes(nodes);
    var at := PositionByName(sn);
    SettledMarkers(f, sn, nodes);
    hide Filter, NodesOk, EdgesOk, MarkerNodes, Capture, PositionByName, FormOk;
    MarkersReadBack(f, at, []);
    assert [] + MarkerNodes(f, at) == MarkerNodes(f, at);
  }

  lemma SettledMarkers(f: Form, sn: seq<FlowNode>, nodes: seq<FlowNode>)
    requires sn == StateNodes(nodes) && PositionByName(sn).Keys == ToSet(f.states)
    requires nodes == sn + MarkerNodes(f, PositionByName(sn))
    ensures Markers(nodes) == MarkerNodes(f, PositionByName(sn))
  {
    FilteredAll(IsState, nodes);
    MarkersAreOthers(f, PositionByName(sn));
    hide MarkerNodes, Filter;
    FilterSuffix(NotState, sn, MarkerNodes(f, PositionByName(sn)));
  }

  // ---------------------------------------------------------------- mutations of the transitions

  /** A commit that only changes transitions changes only the transitions of the drawing. */
  lemma EdgesChanged(f: Form, nodes: seq<FlowNode>, edges: seq<FlowEdge>, last: Signature, next: nat,
    nextEdges: seq<FlowEdge>, more: nat)
    requires SettledEditor(f, nodes, edges, last, next) && EdgesOk(TransitionEdges(nextEdges), ToSet(f.states), more)
    ensures MutationOk(nodes, nextEdges, more)
    ensures CommitForm(f, nodes, nextEdges, None) == AsDrawn(f, nodes, edges).(transitions := TransitionsOf(nextEdges))
    ensures Renderable(CommitForm(f, nodes, nextEdges, None))
  {
    SettledCanvas(f, nodes, edges, last, next);
    CommitReads(f, nodes, nextEdges, None);
    ReconcileNothing(RefsOf(f), ToSet(f.states));
    hide Filter, NodesOk, EdgesOk, Reconcile, Capture, PositionByName, FlowToGraph, CommitForm, TerminalsOf, Shows;
  }

  /** A new edge between two states that were not connected adds one transition at the end. */
  lemma Connected(f: Form, nodes: seq<FlowNode>, edges: seq<FlowEdge>, last: Signature, next: nat, e: FlowEdge)
    requires SettledEditor(f, nodes, edges, last, next)
    requires e.kind == TransitionEdge && e.id == MintedId(next) && e.sourceHandle.Some? && e.targetHandle.Some?
    requires e.source in f.states && e.target in f.states && !IsDuplicateTransition(edges, e.source, e.target)
    ensures MutationOk(nodes, edges + [e], next + 1)
    ensures
      var d := AsDrawn(f, nodes, edges);
      CommitForm(f, nodes, edges + [e], None) == d.(transitions := d.transitions + [Plainly(e)])
    ensures Renderable(CommitForm(f, nodes, edges + [e], None))
  {
    FilterLast(IsTransition, edges, e);
    NoDuplicate(edges, e.source, e.target);
    hide Filter, FormOk, NodesOk, EdgesOk, Shows, IsDuplicateTransition, CommitForm, MutationOk, MintedId;
    AppendEdge(TransitionEdges(edges), e, ToSet(f.states), next);
    EdgesChanged(f, nodes, edges, last, next, edges + [e], next + 1);
  }

  /** Transition `k` of the drawing replaced, or the drawing as it is when no edge has the id. */
  ghost function Replaced(d: Form, k: Option<nat>, t: Transition): Form {
    if k.Some? && k.value < |d.transitions| then d.(transitions := d.transitions[k.value := t]) else d
  }

  ghost function EdgeAt(edges: seq<FlowEdge>, id: string): Option<nat> { IndexOf(TransitionEdges(edges), id) }

  /** A patch by id, onto a pair no other edge has, replaces the transition that edge draws. */
  lemma Patched(f: Form, nodes: seq<FlowNode>, edges: seq<FlowEdge>, last: Signature, next: nat, id: string,
    g: FlowEdge -> FlowEdge, t: Transition)
    requires SettledEditor(f, nodes, edges, last, next)
    requires forall e :: g(e).kind == e.kind && g(e).id == e.id
    requires
      var te := TransitionEdges(edges);
      var k := EdgeAt(edges, id);
      k.Some? ==>
        && Plainly(g(te[k.value])) == t && t.sourceSide.Some? && t.targetSide.Some?
        && t.from in f.states && t.to in f.states
        && forall i :: 0 <= i < |te| && i != k.value ==> !SamePair(Plainly(te[i]), t)
    ensures MutationOk(nodes, Map(PatchEdge(id, g), edges), next)
    ensures CommitForm(f, nodes, Map(PatchEdge(id, g), edges), None)
         == Replaced(AsDrawn(f, nodes, edges), EdgeAt(edges, id), t)
    ensures Renderable(CommitForm(f, nodes, Map(PatchEdge(id, g), edges), None))
    ensures EdgeIds(Map(PatchEdge(id, g), edges)) == EdgeIds(edges)
  {
    PatchKeepsIds(edges, id, g);
    var te := TransitionEdges(edges);
    var k := EdgeAt(edges, id);
    PatchTouchesOne(edges, id, g, ToSet(f.states), next);
    hide Filter, FormOk, NodesOk, EdgesOk, Shows, CommitForm, MutationOk, PatchEdge, Map, SamePair, EdgeIds;
    if k.Some? {
      ReplaceEdge(te, k.value, g(te[k.value]), ToSet(f.states), next);
    }
    EdgesChanged(f, nodes, edges, last, next, Map(PatchEdge(id, g), edges), next);
  }

  lemma PatchKeepsIds(edges: seq<FlowEdge>, id: string, g: FlowEdge -> FlowEdge)
    requires forall e :: g(e).kind == e.kind && g(e).id == e.id
    ensures EdgeIds(Map(PatchEdge(id, g), edges)) == EdgeIds(edges)
  {
    KindsKept(id, g);
    hide Filter;
    FilterMap(IsTransition, PatchEdge(id, g), edges);
  }

  function OtherThan(id: string): FlowEdge -> bool { (e: FlowEdge) => e.id != id }

  lemma WithoutLast<A>(init: seq<A>, last: A)
    ensures Without(init + [last], |init|) == init
  {}

  lemma WithoutEarlier<A>(init: seq<A>, last: A, k: nat)
    requires k < |init|
    ensures Without(init + [last], k) == Without(init, k) + [last]
  {}

  lemma {:induction false} DropOne(te: seq<FlowEdge>, id: string)
    requires forall i, j :: 0 <= i < j < |te| ==> te[i].id != te[j].id
    ensures
      var k := IndexOf(te, id);
      Filter(OtherThan(id), te) == if k.None? then te else Without(te, k.value)
  {
    if te != [] {
      var init, last := te[..|te| - 1], te[|te| - 1];
      assert te == init + [last];
      hide Filter, Without;
      FilterLast(OtherThan(id), init, last);
      if last.id == id {
        FilterAll(OtherThan(id), init);
        WithoutLast(init, last);
        assert init + [] == init;
      } else {
        DropOne(init, id);
        if IndexOf(init, id).Some? {
          WithoutEarlier(init, last, IndexOf(init, id).value);
        }
      }
    } else {
      FilterNone(OtherThan(id), te);
    }
  }

  ghost function Dropped(d: Form, k: Option<nat>): Form {
    if k.Some? && k.value < |d.transitions| then d.(transitions := Without(d.transitions, k.value)) else d
  }

  lemma MapWithout<A, B>(g: A -> B, s: seq<A>, k: nat)
    requires k < |s|
    ensures Map(g, Without(s, k)) == Without(Map(g, s), k)
  {}

  /** Dropping the edges of an id removes the transition that edge draws. */
  lemma TransitionDropped(f: Form, nodes: seq<FlowNode>, edges: seq<FlowEdge>, last: Signature, next: nat, id: string)
    requires SettledEditor(f, nodes, edges, last, next)
    ensures
      var kept := Filter(OtherThan(id), edges);
      && MutationOk(nodes, kept, next)
      && CommitForm(f, nodes, kept, None) == Dropped(AsDrawn(f, nodes, edges), EdgeAt(edges, id))
      && Renderable(CommitForm(f, nodes, kept, None))
  {
    var te := TransitionEdges(edges);
    var q := OtherThan(id);
    var kept := Filter(q, edges);
    DropOne(te, id);
    FilterSwap(IsTransition, q, edges);
    SettledCanvas(f, nodes, edges, last, next);
    hide Filter, FormOk, NodesOk, Shows, CommitForm, MutationOk, Map, IndexOf;
    EdgeEndsLive(te, ToSet(f.states), next);
    KeepEdges(q, te, ToSet(f.states), ToSet(f.states), next);
    hide EdgesOk;
    if EdgeAt(edges, id).Some? {
      MapWithout(Plainly, te, EdgeAt(edges, id).value);
    }
    EdgesChanged(f, nodes, edges, last, next, kept, next);
  }

  lemma EdgeEndsLive(te: seq<FlowEdge>, states: set<Name>, next: nat)
    requires EdgesOk(te, states, next)
    ensures forall e :: e in te ==> e.source in states && e.target in states
  {
    var ps := Map(Plainly, te);
    forall e | e in te ensures e.source in states && e.target in states {
      var i :| 0 <= i < |te| && te[i] == e;
      assert ps[i].from in states && ps[i].to in states;
    }
  }

  // ---------------------------------------------------------------- mutations of the states

  /** A new state, with its place. */
  ghost function WithState(d: Form, name: Name, at: Point): Form {
    d.(states := d.states + [name], positions := d.positions[name := at])
  }

  lemma MoreStates(te: seq<FlowEdge>, states: set<Name>, more: set<Name>, next: nat)
    requires EdgesOk(te, states, next) && states <= more
    ensures EdgesOk(te, more, next)
  {}

  lemma ReconcileMore(refs: Refs, live: set<Name>, more: set<Name>)
    requires RefsLive(refs, live) && live <= more
    ensures Reconcile(refs, more, None) == refs
  {
    hide Reconcile;
    forall k | k in refs.nodeActions ensures ActionsLive(refs.nodeActions[k], more) {}
    ReconcileNothing(refs, more);
  }

  lemma OneMore(states: seq<Name>, name: Name)
    ensures ToSet(states) <= ToSet(states + [name])
  {}

  lemma NodesWithState(nodes: seq<FlowNode>, n: FlowNode)
    requires NodesOk(StateNodes(nodes)) && IsState(n) && n.id == n.name && n.name !in NamesOf(nodes)
    requires !IsBlank(n.name) && !IsTerminalNodeId(n.name)
    ensures StateNodes(nodes + [n]) == StateNodes(nodes) + [n] && Markers(nodes + [n]) == Markers(nodes)
    ensures NodesOk(StateNodes(nodes + [n])) && NamesOf(nodes + [n]) == NamesOf(nodes) + [n.name]
    ensures PositionByName(StateNodes(nodes + [n])) == PositionByName(StateNodes(nodes))[n.name := n.position]
  {
    FilterLast(IsState, nodes, n);
    FilterLast(NotState, nodes, n);
    hide Filter, NodesOk;
    AppendNode(StateNodes(nodes), n);
    assert Markers(nodes) + [] == Markers(nodes);
  }

  lemma StateAdded(f: Form, nodes: seq<FlowNode>, edges: seq<FlowEdge>, last: Signature, next: nat, n: FlowNode)
    requires SettledEditor(f, nodes, edges, last, next)
    requires IsState(n) && n.id == n.name && n.name !in f.states && !IsBlank(n.name) && !IsTerminalNodeId(n.name)
    ensures MutationOk(nodes + [n], edges, next)
    ensures CommitForm(f, nodes + [n], edges, None) == WithState(AsDrawn(f, nodes, edges), n.name, n.position)
    ensures Renderable(CommitForm(f, nodes + [n], edges, None))
  {
    SettledCanvas(f, nodes, edges, last, next);
    assert RefsLive(RefsOf(f), ToSet(f.states));
    hide Filter, NodesOk, EdgesOk, Shows, FormOk, SettledEditor, CommitForm, MutationOk, Capture, PositionByName,
      Reconcile, RefsLive, ToSet;
    NodesWithState(nodes, n);
    OneMore(f.states, n.name);
    MoreStates(TransitionEdges(edges), ToSet(f.states), ToSet(f.states + [n.name]), next);
    ReconcileMore(RefsOf(f), ToSet(f.states), ToSet(f.states + [n.name]));
    MutationFrom(nodes + [n], edges, f.states + [n.name], next);
    CommitReads(f, nodes + [n], edges, None);
  }

  lemma MutationFrom(nodes: seq<FlowNode>, edges: seq<FlowEdge>, states: seq<Name>, next: nat)
    requires NodesOk(StateNodes(nodes)) && NamesOf(nodes) == states
    requires EdgesOk(TransitionEdges(edges), ToSet(states), next)
    ensures MutationOk(nodes, edges, next)
  {}

  predicate Avoids(gone: Name, t: Transition) { t.from != gone && t.to != gone }

  function AvoidsName(gone: Name): Transition -> bool { (t: Transition) => Avoids(gone, t) }

  function EdgeAvoids(gone: Name): FlowEdge -> bool { (e: FlowEdge) => e.source != gone && e.target != gone }

  /** A state gone, with its place, its transitions and every reference to it. */
  ghost function WithoutState(d: Form, gone: Name): Form {
    var refs := RefsBut(RefsOf(d), gone);
    d.(states := Filter(Except(gone), d.states), transitions := Filter(AvoidsName(gone), d.transitions),
       positions := d.positions - {gone}, nodeActions := refs.nodeActions, descriptions := refs.descriptions,
       endSources := refs.endSources, startSources := refs.startSources)
  }

  lemma {:induction false} FilterPlainly(te: seq<FlowEdge>, gone: Name)
    ensures Map(Plainly, Filter(EdgeAvoids(gone), te)) == Filter(AvoidsName(gone), Map(Plainly, te))
  {
    hide Filter, Map;
    if te == [] {
      FilterEmpty(EdgeAvoids(gone));
      FilterEmpty(AvoidsName(gone));
      assert Map(Plainly, te) == [];
    } else {
      var init, last := te[..|te| - 1], te[|te| - 1];
      assert te == init + [last];
      FilterPlainly(init, gone);
      MapLast(Plainly, init, last);
      FilterLast(AvoidsName(gone), Map(Plainly, init), Plainly(last));
      FilterLast(EdgeAvoids(gone), init, last);
      MapLast(Plainly, Filter(EdgeAvoids(gone), init), last);
      var kept := Filter(EdgeAvoids(gone), init);
      assert kept + [] == kept && Map(Plainly, kept) + [] == Map(Plainly, kept);
    }
  }

  lemma OneLess(states: seq<Name>, gone: Name)
    ensures ToSet(Filter(Except(gone), states)) == ToSet(states) - {gone}
  {}

  lemma MarkersReserved(f: Form, nodes: seq<FlowNode>, edges: seq<FlowEdge>, last: Signature, next: nat)
    requires SettledEditor(f, nodes, edges, last, next)
    ensures forall i :: 0 <= i < |Markers(nodes)| ==> IsTerminalNodeId(Markers(nodes)[i].id)
    ensures forall s :: s in f.states ==> !IsTerminalNodeId(s)
  {
    SettledCanvas(f, nodes, edges, last, next);
    NamesArePlain(f);
    hide *;
    MarkerIdsReserved(f, PositionByName(StateNodes(nodes)));
  }

  lemma NamesArePlain(f: Form)
    requires FormOk(f)
    ensures forall s :: s in f.states ==> !IsTerminalNodeId(s)
  {
    hide RefsLive, TransitionsOk, Distinct, IsBlank;
  }

  lemma MarkerIdsReserved(f: Form, at: map<Name, Point>)
    requires at.Keys == ToSet(f.states)
    ensures forall i :: 0 <= i < |MarkerNodes(f, at)| ==> IsTerminalNodeId(MarkerNodes(f, at)[i].id)
  {
    hide MarkerNodes;
    MarkersPresent(f, at);
  }

  lemma NodesWithoutState(nodes: seq<FlowNode>, gone: Name)
    requires NodesOk(StateNodes(nodes)) && !IsTerminalNodeId(gone)
    requires forall i :: 0 <= i < |Markers(nodes)| ==> IsTerminalNodeId(Markers(nodes)[i].id)
    ensures
      var kept := Filter(NotNode(gone), nodes);
      && Markers(kept) == Markers(nodes) && NodesOk(StateNodes(kept))
      && NamesOf(kept) == Filter(Except(gone), NamesOf(nodes))
      && PositionByName(StateNodes(kept)) == PositionByName(StateNodes(nodes)) - {gone}
  {
    FilterSwap(IsState, NotNode(gone), nodes);
    FilterSwap(NotState, NotNode(gone), nodes);
    hide Filter, NodesOk;
    FilterAll(NotNode(gone), Markers(nodes));
    RemoveNode(StateNodes(nodes), gone);
  }

  lemma EdgesWithoutState(edges: seq<FlowEdge>, gone: Name, states: set<Name>, next: nat)
    requires EdgesOk(TransitionEdges(edges), states, next)
    ensures
      var kept := Filter(EdgeAvoids(gone), edges);
      && EdgesOk(TransitionEdges(kept), states - {gone}, next)
      && TransitionsOf(kept) == Filter(AvoidsName(gone), TransitionsOf(edges))
  {
    FilterSwap(IsTransition, EdgeAvoids(gone), edges);
    EdgeEndsLive(TransitionEdges(edges), states, next);
    hide Filter, EdgesOk;
    KeepEdges(EdgeAvoids(gone), TransitionEdges(edges), states, states - {gone}, next);
    FilterPlainly(TransitionEdges(edges), gone);
  }

  /** Deleting a state's node and its edges leaves the drawing without that state. */
  lemma StateDeleted(f: Form, nodes: seq<FlowNode>, edges: seq<FlowEdge>, last: Signature, next: nat, gone: Name)
    requires SettledEditor(f, nodes, edges, last, next) && gone in f.states
    ensures
      var nextNodes, nextEdges := Filter(NotNode(gone), nodes), Filter(EdgeAvoids(gone), edges);
      && MutationOk(nextNodes, nextEdges, next)
      && CommitForm(f, nextNodes, nextEdges, None) == WithoutState(AsDrawn(f, nodes, edges), gone)
  {
    SettledCanvas(f, nodes, edges, last, next);
    MarkersReserved(f, nodes, edges, last, next);
    assert RefsLive(RefsOf(f), ToSet(f.states));
    var nextNodes, nextEdges := Filter(NotNode(gone), nodes), Filter(EdgeAvoids(gone), edges);
    hide Filter, NodesOk, EdgesOk, Shows, FormOk, SettledEditor, CommitForm, MutationOk, Capture, PositionByName,
      Reconcile, RefsLive, ToSet, RefsBut, IsTerminalNodeId;
    NodesWithoutState(nodes, gone);
    EdgesWithoutState(edges, gone, ToSet(f.states), next);
    OneLess(f.states, gone);
    DeleteDropsExactly(RefsOf(f), ToSet(f.states), gone);
    MutationFrom(nextNodes, nextEdges, Filter(Except(gone), f.states), next);
    CommitReads(f, nextNodes, nextEdges, None);
  }

  /** `g` is `d` with one state renamed wherever it occurs, and nothing else changed. */
  ghost predicate StateRenamedIn(d: Form, r: Rename, g: Form) {
    && g.mode == d.mode && g.terminalNodes == d.terminalNodes
    && g.states == RenameAll(d.states, Some(r)) && g.transitions == Map(RenamesEnds(r), d.transitions)
    && KeyMoved(d.positions, r, g.positions) && NameReplaced(RefsOf(d), r, RefsOf(g))
  }

  lemma MapNothing<A>(g: A -> A, s: seq<A>)
    requires forall i :: 0 <= i < |s| ==> g(s[i]) == s[i]
    ensures Map(g, s) == s
  {}

  lemma RenameSkipsMarkers(ms: seq<FlowNode>, r: Rename)
    requires !IsTerminalNodeId(r.from) && forall i :: 0 <= i < |ms| ==> IsTerminalNodeId(ms[i].id)
    ensures Map(RenamesNode(r), ms) == ms
  {
    MapNothing(RenamesNode(r), ms);
  }

  lemma NodesRenamed(nodes: seq<FlowNode>, r: Rename)
    requires NodesOk(StateNodes(nodes)) && !IsTerminalNodeId(r.from)
    requires forall i :: 0 <= i < |Markers(nodes)| ==> IsTerminalNodeId(Markers(nodes)[i].id)
    requires r.to !in NamesOf(nodes) && r.from != r.to && !IsBlank(r.to) && !IsTerminalNodeId(r.to)
    ensures
      var renamed := Map(RenamesNode(r), nodes);
      && Markers(renamed) == Markers(nodes) && NodesOk(StateNodes(renamed))
      && NamesOf(renamed) == RenameAll(NamesOf(nodes), Some(r))
      && KeyMoved(PositionByName(StateNodes(nodes)), r, PositionByName(StateNodes(renamed)))
  {
    FilterMap(IsState, RenamesNode(r), nodes);
    FilterMap(NotState, RenamesNode(r), nodes);
    hide Filter, NodesOk, PositionByName, KeyMoved, IsTerminalNodeId, Map, RenameAll;
    RenameSkipsMarkers(Markers(nodes), r);
    RenameNodes(StateNodes(nodes), r);
  }

  lemma RenameKeepsIds(edges: seq<FlowEdge>, r: Rename)
    ensures EdgeIds(Map(RenamesEdge(r), edges)) == EdgeIds(edges)
  {
    hide Filter;
    FilterMap(IsTransition, RenamesEdge(r), edges);
  }

  lemma RenamedLive(states: seq<Name>, r: Rename)
    requires r.from in states && r.to !in states
    ensures ToSet(RenameAll(states, Some(r))) == Renamed(ToSet(states), r) && Fresh(r, ToSet(states))
  {
    var after := RenameAll(states, Some(r));
    forall s | s in Renamed(ToSet(states), r) ensures s in after {
      var was := if s == r.to then r.from else s;
      var j :| 0 <= j < |states| && states[j] == was;
      assert after[j] == s;
    }
    forall s | s in after ensures s in Renamed(ToSet(states), r) {
      var j :| 0 <= j < |after| && after[j] == s;
      assert states[j] in states;
    }
  }

  lemma EdgesRenamed(edges: seq<FlowEdge>, r: Rename, states: seq<Name>, next: nat)
    requires EdgesOk(TransitionEdges(edges), ToSet(states), next) && r.from in states && r.to !in states
    ensures
      var renamed := Map(RenamesEdge(r), edges);
      && EdgesOk(TransitionEdges(renamed), ToSet(RenameAll(states, Some(r))), next)
      && TransitionsOf(renamed) == Map(RenamesEnds(r), TransitionsOf(edges))
  {
    FilterMap(IsTransition, RenamesEdge(r), edges);
    RenamedLive(states, r);
    hide Filter, EdgesOk, Map;
    RenameEdges(TransitionEdges(edges), r, ToSet(states), next);
  }

  /** Renaming a node and the ends of every edge renames the state everywhere in the form. */
  lemma StateRenamed(f: Form, nodes: seq<FlowNode>, edges: seq<FlowEdge>, last: Signature, next: nat, r: Rename)
    requires SettledEditor(f, nodes, edges, last, next)
    requires r.from in f.states && r.to !in f.states && !IsBlank(r.to) && !IsTerminalNodeId(r.to)
    ensures
      var nextNodes, nextEdges := Map(RenamesNode(r), nodes), Map(RenamesEdge(r), edges);
      && MutationOk(nextNodes, nextEdges, next)
      && StateRenamedIn(AsDrawn(f, nodes, edges), r, CommitForm(f, nextNodes, nextEdges, Some(r)))
      && Renderable(CommitForm(f, nextNodes, nextEdges, Some(r)))
    ensures KeysStayApart(RefsOf(f), Some(r)) && EdgeIds(Map(RenamesEdge(r), edges)) == EdgeIds(edges)
  {
    RenameKeepsIds(edges, r);
    SettledCanvas(f, nodes, edges, last, next);
    MarkersReserved(f, nodes, edges, last, next);
    assert RefsLive(RefsOf(f), ToSet(f.states));
    var nextNodes, nextEdges := Map(RenamesNode(r), nodes), Map(RenamesEdge(r), edges);
    hide Filter, NodesOk, EdgesOk, Shows, FormOk, SettledEditor, CommitForm, MutationOk, Capture, PositionByName,
      Reconcile, ToSet, IsTerminalNodeId, Map, RenameAll, KeyMoved, NameReplaced, Renamed, ActionsLive;
    NodesRenamed(nodes, r);
    EdgesRenamed(edges, r, f.states, next);
    RenamedLive(f.states, r);
    RenameLosesNothing(RefsOf(f), ToSet(f.states), r);
    MutationFrom(nextNodes, nextEdges, RenameAll(f.states, Some(r)), next);
    CommitReads(f, nextNodes, nextEdges, Some(r));
    KeysApart(f, r);
  }

  lemma KeysApart(f: Form, r: Rename)
    requires RefsLive(RefsOf(f), ToSet(f.states)) && r.to !in f.states
    ensures KeysStayApart(RefsOf(f), Some(r))
  {}

  // ---------------------------------------------------------------- dragging

  function MoveNode(moved: map<Name, Point>, n: FlowNode): FlowNode {
    if n.id in moved then n.(position := moved[n.id], pinned := n.pinned || IsTerminalNodeId(n.id)) else n
  }

  function MovesNode(moved: map<Name, Point>): FlowNode -> FlowNode { (n: FlowNode) => MoveNode(moved, n) }

  function MovedPlaces(at: map<Name, Point>, moved: map<Name, Point>): map<Name, Point> {
    map s | s in at :: if s in moved then moved[s] else at[s]
  }

  /** A visible marker that is dragged is pinned where it is dropped. */
  function PinnedBy(t: Terminal, id: Name, moved: map<Name, Point>): Terminal {
    if t != Hidden && id in moved then Pinned(moved[id]) else t
  }

  ghost function Dragged(d: Form, moved: map<Name, Point>): Form {
    d.(positions := MovedPlaces(d.positions, moved),
       terminalNodes := Terminals(PinnedBy(d.terminalNodes.start, START_NODE_ID, moved),
         PinnedBy(d.terminalNodes.end, END_NODE_ID, moved)))
  }

  lemma {:induction false} PlacesMoved(sn: seq<FlowNode>, moved: map<Name, Point>)
    requires NamedById(sn)
    ensures PositionByName(Map(MovesNode(moved), sn)) == MovedPlaces(PositionByName(sn), moved)
  {
    hide PositionByName, MovedPlaces, Map;
    if sn == [] {
      NoPlaces(moved);
      assert Map(MovesNode(moved), sn) == [];
    } else {
      var init, last := sn[..|sn| - 1], sn[|sn| - 1];
      assert sn == init + [last] && NamedById(init) && last.id == last.name;
      PlacesMoved(init, moved);
      MapLast(MovesNode(moved), init, last);
      PositionsAppend(Map(MovesNode(moved), init), MoveNode(moved, last));
      PositionsAppend(init, last);
      MovedUpdate(PositionByName(init), last.name, last.position, moved);
    }
  }

  lemma NoPlaces(moved: map<Name, Point>)
    ensures PositionByName([]) == map[] && MovedPlaces(map[], moved) == map[]
  {}

  lemma MovedUpdate(at: map<Name, Point>, s: Name, p: Point, moved: map<Name, Point>)
    ensures MovedPlaces(at[s := p], moved) == MovedPlaces(at, moved)[s := if s in moved then moved[s] else p]
  {}

  lemma MoveNodes(sn: seq<FlowNode>, moved: map<Name, Point>)
    requires NodesOk(sn)
    ensures
      var after := Map(MovesNode(moved), sn);
      && NodesOk(after) && Map(NodeName, after) == Map(NodeName, sn)
      && PositionByName(after) == MovedPlaces(PositionByName(sn), moved)
  {
    PlacesMoved(sn, moved);
    assert Map(NodeName, Map(MovesNode(moved), sn)) == Map(NodeName, sn);
    hide NamesOk, PositionByName, MovedPlaces;
  }

  lemma NodesMoved(nodes: seq<FlowNode>, moved: map<Name, Point>)
    requires NodesOk(StateNodes(nodes))
    ensures
      var after := Map(MovesNode(moved), nodes);
      && Markers(after) == Map(MovesNode(moved), Markers(nodes)) && NodesOk(StateNodes(after))
      && NamesOf(after) == NamesOf(nodes)
      && PositionByName(StateNodes(after)) == MovedPlaces(PositionByName(StateNodes(nodes)), moved)
  {
    FilterMap(IsState, MovesNode(moved), nodes);
    FilterMap(NotState, MovesNode(moved), nodes);
    hide Filter, NodesOk, PositionByName, MovedPlaces, MovesNode, Map;
    MoveNodes(StateNodes(nodes), moved);
  }

  ghost predicate MarkerIdsFit(ms: seq<FlowNode>) {
    forall i :: 0 <= i < |ms| ==>
      (ms[i].kind == StartMarker && ms[i].id == START_NODE_ID) || (ms[i].kind == EndMarker && ms[i].id == END_NODE_ID)
  }

  lemma {:induction false} CaptureMoved(ms: seq<FlowNode>, moved: map<Name, Point>, kind: NodeKind, id: Name,
    before: Terminal)
    requires MarkerIdsFit(ms)
    requires (kind == StartMarker && id == START_NODE_ID) || (kind == EndMarker && id == END_NODE_ID)
    ensures Capture(Map(MovesNode(moved), ms), kind, before) ==
      if id in moved && (exists i :: 0 <= i < |ms| && ms[i].kind == kind) then Pinned(moved[id])
      else Capture(ms, kind, before)
  {
    if ms != [] && ms[0].kind != kind {
      CaptureMoved(ms[1..], moved, kind, id, before);
      assert Map(MovesNode(moved), ms)[1..] == Map(MovesNode(moved), ms[1..]);
      if i :| 0 <= i < |ms| && ms[i].kind == kind {
        assert ms[1..][i - 1].kind == kind;
      }
    }
  }

  lemma MarkersPresent(f: Form, at: map<Name, Point>)
    requires at.Keys == ToSet(f.states)
    ensures MarkerIdsFit(MarkerNodes(f, at))
    ensures var ms := MarkerNodes(f, at);
      && ((exists i :: 0 <= i < |ms| && ms[i].kind == StartMarker) <==> f.terminalNodes.start != Hidden)
      && ((exists i :: 0 <= i < |ms| && ms[i].kind == EndMarker) <==> f.terminalNodes.end != Hidden)
  {
    hide StartPlace, EndPlace;
    var ms := MarkerNodes(f, at);
    if f.terminalNodes.start != Hidden {
      assert ms[0].kind == StartMarker;
    }
    if f.terminalNodes.end != Hidden {
      assert ms[|ms| - 1].kind == EndMarker;
    }
  }

  lemma TerminalsMoved(f: Form, nodes: seq<FlowNode>, at: map<Name, Point>, moved: map<Name, Point>)
    requires at.Keys == ToSet(f.states) && Markers(nodes) == MarkerNodes(f, at)
    requires TerminalsOf(nodes, f.terminalNodes) == f.terminalNodes
    requires Markers(Map(MovesNode(moved), nodes)) == Map(MovesNode(moved), Markers(nodes))
    ensures TerminalsOf(Map(MovesNode(moved), nodes), f.terminalNodes) == Dragged(f, moved).terminalNodes
  {
    MarkersPresent(f, at);
    hide MarkerNodes, Markers, Capture, MovesNode, Map;
    CaptureMoved(Markers(nodes), moved, StartMarker, START_NODE_ID, f.terminalNodes.start);
    CaptureMoved(Markers(nodes), moved, EndMarker, END_NODE_ID, f.terminalNodes.end);
  }

  lemma DragOpens(d: Form, moved: map<Name, Point>)
    requires Renderable(d)
    ensures Renderable(Dragged(d, moved))
  {}

  /** A finished drag moves the dragged states and pins the dragged markers, and changes nothing else. */
  lemma NodesDragged(f: Form, nodes: seq<FlowNode>, edges: seq<FlowEdge>, last: Signature, next: nat,
    moved: map<Name, Point>)
    requires SettledEditor(f, nodes, edges, last, next)
    ensures
      var after := Map(MovesNode(moved), nodes);
      && MutationOk(after, edges, next)
      && CommitForm(f, after, edges, None) == Dragged(AsDrawn(f, nodes, edges), moved)
      && Renderable(CommitForm(f, after, edges, None))
  {
    SettledCanvas(f, nodes, edges, last, next);
    assert RefsLive(RefsOf(f), ToSet(f.states)) && Renderable(f);
    var after := Map(MovesNode(moved), nodes);
    hide Filter, NodesOk, EdgesOk, Shows, FormOk, SettledEditor, CommitForm, MutationOk, Capture, PositionByName,
      Reconcile, RefsLive, ToSet, Map, MovesNode, MarkerNodes, MovedPlaces, TerminalsOf, Markers, StateNodes;
    NodesMoved(nodes, moved);
    TerminalsMoved(f, nodes, PositionByName(StateNodes(nodes)), moved);
    ReconcileNothing(RefsOf(f), ToSet(f.states));
    MutationFrom(after, edges, f.states, next);
    CommitReads(f, after, edges, None);
    DragOpens(AsDrawn(f, nodes, edges), moved);
  }
}
