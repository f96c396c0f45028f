/** The editor's form-only edits, and what its canvas guards mean for the form. */
module EditorForms {
  import opened EditorModel
  import opened EditorSteps
  import opened Sequences
  import opened StateMachine
  import opened StateMachineFlow
  import opened Text

  // ---------------------------------------------------------------- what the guards see

  ghost predicate HasPair(ts: seq<Transition>, from: Name, to: Name) {
    exists i :: 0 <= i < |ts| && ts[i].from == from && ts[i].to == to
  }

  /** A node of the canvas: a state or a visible marker. */
  predicate OnCanvas(f: Form, id: Name) {
    || id in f.states
    || (id == START_NODE_ID && f.terminalNodes.start != Hidden)
    || (id == END_NODE_ID && f.terminalNodes.end != Hidden)
  }

  predicate IsNode(nodes: seq<FlowNode>, id: Name) {
    exists i :: 0 <= i < |nodes| && nodes[i].id == id
  }

  lemma StatesAreNodes(f: Form, nodes: seq<FlowNode>, id: Name)
    requires NodesOk(StateNodes(nodes)) && NamesOf(nodes) == f.states
    ensures id in f.states <==> IsNode(StateNodes(nodes), id)
  {
    var sn := StateNodes(nodes);
    hide Filter;
    assert forall i :: 0 <= i < |sn| ==> sn[i].id == f.states[i];
  }

  lemma MarkersAreNodes(f: Form, at: map<Name, Point>, id: Name)
    requires at.Keys == ToSet(f.states)
    ensures IsNode(MarkerNodes(f, at), id) <==>
      (id == START_NODE_ID && f.terminalNodes.start != Hidden) || (id == END_NODE_ID && f.terminalNodes.end != Hidden)
  {
    MarkersPresent(f, at);
    hide MarkerNodes;
    var ms := MarkerNodes(f, at);
    if f.terminalNodes.start != Hidden {
      var i :| 0 <= i < |ms| && ms[i].kind == StartMarker;
      assert ms[i].id == START_NODE_ID;
    }
    if f.terminalNodes.end != Hidden {
      var i :| 0 <= i < |ms| && ms[i].kind == EndMarker;
      assert ms[i].id == END_NODE_ID;
    }
  }

  lemma NodesConcat(a: seq<FlowNode>, b: seq<FlowNode>, id: Name)
    ensures IsNode(a + b, id) <==> IsNode(a, id) || IsNode(b, id)
  {
    if i :| 0 <= i < |a| && a[i].id == id {
      assert (a + b)[i].id == id;
    }
    if i :| 0 <= i < |b| && b[i].id == id {
      assert (a + b)[|a| + i].id == id;
    }
  }

  /** The nodes of a settled canvas are the states and the visible markers. */
  lemma NodeIds(f: Form, nodes: seq<FlowNode>, edges: seq<FlowEdge>, last: Signature, next: nat, id: Name)
    requires SettledEditor(f, nodes, edges, last, next)
    ensures IsNode(nodes, id) <==> OnCanvas(f, id)
  {
    SettledCanvas(f, nodes, edges, last, next);
    var at := PositionByName(StateNodes(nodes));
    hide *;
    NodesConcat(StateNodes(nodes), Markers(nodes), id);
    StatesAreNodes(f, nodes, id);
    MarkersAreNodes(f, at, id);
    CanvasMeans(f, id);
  }

  lemma CanvasMeans(f: Form, id: Name)
    ensures OnCanvas(f, id) <==>
      (id in f.states
        || (id == START_NODE_ID && f.terminalNodes.start != Hidden)
        || (id == END_NODE_ID && f.terminalNodes.end != Hidden))
  {}

  lemma PairsDrawn(f: Form, te: seq<FlowEdge>, from: Name, to: Name)
    requires DrawsAll(f.transitions, te)
    ensures HasPair(f.transitions, from, to) <==> Joins(te, from, to)
  {
    var ts := f.transitions;
    forall i | 0 <= i < |ts| ensures ts[i].from == te[i].source && ts[i].to == te[i].target {
      assert Draws(Canon(ts[i]), Canon(Plainly(te[i])));
    }
    hide DrawsAll;
    if i :| 0 <= i < |ts| && ts[i].from == from && ts[i].to == to {
      assert te[i].source == from;
    }
    if i :| 0 <= i < |te| && te[i].source == from && te[i].target == to {
      assert ts[i].from == from;
    }
  }

  ghost predicate Joins(te: seq<FlowEdge>, from: Name, to: Name) {
    exists i :: 0 <= i < |te| && te[i].source == from && te[i].target == to
  }

  lemma DuplicateFiltered(edges: seq<FlowEdge>, from: Name, to: Name)
    ensures IsDuplicateTransition(edges, from, to) <==> Joins(Filter(IsTransition, edges), from, to)
  {
    var te := Filter(IsTransition, edges);
    if Joins(te, from, to) {
      var i :| 0 <= i < |te| && te[i].source == from && te[i].target == to;
      assert te[i] in te;
      var j :| 0 <= j < |edges| && edges[j] == te[i];
      assert edges[j].kind != TerminalEdge;
    }
    if IsDuplicateTransition(edges, from, to) {
      var i :| 0 <= i < |edges| && edges[i].kind != TerminalEdge && edges[i].source == from && edges[i].target == to;
      assert IsTransition(edges[i]);
      assert edges[i] in te;
      var j :| 0 <= j < |te| && te[j] == edges[i];
      assert te[j].source == from;
    }
  }

  /** The duplicate guard looks at the canvas and answers for the form. */
  lemma GuardSeesPairs(f: Form, nodes: seq<FlowNode>, edges: seq<FlowEdge>, last: Signature, next: nat, from: Name,
    to: Name)
    requires SettledEditor(f, nodes, edges, last, next)
    ensures IsDuplicateTransition(edges, from, to) <==> HasPair(f.transitions, from, to)
  {
    ShowsTransitions(f, nodes, edges);
    hide *;
    DuplicateFiltered(edges, from, to);
    PairsDrawn(f, Filter(IsTransition, edges), from, to);
  }

  lemma ShowsTransitions(f: Form, nodes: seq<FlowNode>, edges: seq<FlowEdge>)
    requires Shows(f, nodes, edges)
    ensures DrawsAll(f.transitions, Filter(IsTransition, edges))
  {
    hide Filter, MarkerEdges, MarkerNodes, DrawsAll, PositionByName, Map;
  }

  lemma TerminalEdgesAre(f: Form, nodes: seq<FlowNode>, edges: seq<FlowEdge>, e: FlowEdge)
    requires Shows(f, nodes, edges)
    ensures e in edges && e.kind == TerminalEdge <==> e in MarkerEdges(f)
  {
    var te := Filter(IsTransition, edges);
    LinksAreNoTransitions(f);
    FilteredAll(IsTransition, edges);
    hide Filter, MarkerEdges, MarkerNodes, DrawsAll, PositionByName, Map;
    assert edges == edges[..|te|] + edges[|te|..];
    assert e in MarkerEdges(f) <==> e in multiset(MarkerEdges(f));
    assert e in edges[|te|..] <==> e in multiset(edges[|te|..]);
  }

  /** The link edges a form asks for: one per source of a visible marker. */
  ghost predicate IsLinkOf(f: Form, e: FlowEdge) {
    || (f.terminalNodes.start != Hidden && exists s :: s in f.startSources && e == StartEdge(s))
    || (f.terminalNodes.end != Hidden && exists s :: s in f.endSources && e == EndEdge(s))
  }

  lemma LinkEdgeOf(f: Form, e: FlowEdge)
    requires FormOk(f)
    ensures e in MarkerEdges(f) <==> IsLinkOf(f, e)
  {
    MarkerEdgesAre(f);
    LinksOfLive(f.startSources, f.states);
    LinksOfLive(f.endSources, f.states);
    InMapped(StartEdge, f.startSources, e);
    InMapped(EndEdge, f.endSources, e);
    hide MarkerEdges, StateMachineFlow.Links, FormOk, Map, StartEdge, EndEdge, ToSet;
  }

  lemma InMapped<A, B>(g: A -> B, s: seq<A>, y: B)
    ensures y in Map(g, s) <==> exists x :: x in s && y == g(x)
  {
    var r := Map(g, s);
    if y in r {
      var i :| 0 <= i < |r| && r[i] == y;
      assert s[i] in s && y == g(s[i]);
    }
    if x :| x in s && y == g(x) {
      var i :| 0 <= i < |s| && s[i] == x;
      assert r[i] == y;
    }
  }

  /** With the End marker on the canvas, a state is linked to it on the canvas exactly when the form says so. */
  lemma EndLinksShown(f: Form, nodes: seq<FlowNode>, edges: seq<FlowEdge>, last: Signature, next: nat, s: Name)
    requires SettledEditor(f, nodes, edges, last, next) && f.terminalNodes.end != Hidden
    ensures HasEndSource(edges, s) <==> s in f.endSources
  {
    hide Shows, NodesOk, EdgesOk, Filter, MarkerEdges;
    if s in f.endSources {
      TerminalEdgesAre(f, nodes, edges, EndEdge(s));
      LinkEdgeOf(f, EndEdge(s));
      var i :| 0 <= i < |edges| && edges[i] == EndEdge(s);
    }
    if HasEndSource(edges, s) {
      var i :| 0 <= i < |edges| && edges[i].kind == TerminalEdge && edges[i].target == END_NODE_ID
        && edges[i].source == s;
      TerminalEdgesAre(f, nodes, edges, edges[i]);
      LinkEdgeOf(f, edges[i]);
    }
  }

  /** With the Start marker on the canvas, it is linked to a state on the canvas exactly when the form says so. */
  lemma StartLinksShown(f: Form, nodes: seq<FlowNode>, edges: seq<FlowEdge>, last: Signature, next: nat, s: Name)
    requires SettledEditor(f, nodes, edges, last, next) && f.terminalNodes.start != Hidden
    ensures HasStartSource(edges, s) <==> s in f.startSources
  {
    hide Shows, NodesOk, EdgesOk, Filter, MarkerEdges;
    if s in f.startSources {
      TerminalEdgesAre(f, nodes, edges, StartEdge(s));
      LinkEdgeOf(f, StartEdge(s));
      var i :| 0 <= i < |edges| && edges[i] == StartEdge(s);
    }
    if HasStartSource(edges, s) {
      var i :| 0 <= i < |edges| && edges[i].kind == TerminalEdge && edges[i].source == START_NODE_ID
        && edges[i].target == s;
      TerminalEdgesAre(f, nodes, edges, edges[i]);
      LinkEdgeOf(f, edges[i]);
    }
  }

  // ---------------------------------------------------------------- form-only edits

  /** The next form is well-formed, and what the canvas shows of it is unchanged. */
  ghost predicate Unseen(f: Form, g: Form) {
    FormOk(g) && GraphSignature(g) == GraphSignature(f) && (Renderable(f) ==> Renderable(g))
  }

  function WithActions(f: Form, state: Name, actions: seq<NodeAction>): Form {
    f.(nodeActions := f.nodeActions[state := actions])
  }

  function ActionsOf(f: Form, state: Name): seq<NodeAction> {
    if state in f.nodeActions then f.nodeActions[state] else []
  }

  lemma ActionsUnseen(f: Form, state: Name, actions: seq<NodeAction>)
    requires FormOk(f) && state in f.states && ActionsLive(actions, ToSet(f.states))
    ensures Unseen(f, WithActions(f, state, actions))
  {
    hide ActionsLive, NamesOk, TransitionsOk, Distinct;
  }

  lemma ActionsOfLive(f: Form, state: Name)
    requires FormOk(f)
    ensures ActionsLive(ActionsOf(f, state), ToSet(f.states))
  {
    hide NamesOk, TransitionsOk, Distinct;
  }

  /** The first other state, or the state itself when it is the only one. */
  function DefaultActionValue(states: seq<Name>, state: Name): (v: Name)
    ensures state in states ==> v in states
    ensures v == state ==> forall s :: s in states ==> s == state
  {
    Find(Except(state), states).Or(if states == [] then state else states[0])
  }

  datatype ActionPatch = ActionPatch(execution: Option<Execution>, value: Option<Name>)

  function PatchAction(p: ActionPatch, a: NodeAction): NodeAction {
    a.(execution := p.execution.Or(a.execution), value := p.value.Or(a.value))
  }

  /** The actions with the one at `index` patched; an index past the end touches none. */
  function PatchAt(actions: seq<NodeAction>, index: nat, p: ActionPatch): seq<NodeAction> {
    if index < |actions| then actions[index := PatchAction(p, actions[index])] else actions
  }

  /** The actions but the one at `index`; an index past the end touches none. */
  function DropAt(actions: seq<NodeAction>, index: nat): seq<NodeAction> {
    if index < |actions| then Without(actions, index) else actions
  }

  /** The first of the states other than `state`, or `state` when it is the only one. */
  ghost predicate FirstOther(states: seq<Name>, state: Name, v: Name) {
    (exists i :: 0 <= i < |states| && states[i] == v && v != state && forall j :: 0 <= j < i ==> states[j] == state)
    || (v == state && forall s :: s in states ==> s == state)
  }

  lemma DefaultIsFirstOther(states: seq<Name>, state: Name)
    ensures state in states ==> FirstOther(states, state, DefaultActionValue(states, state))
  {}

  /** The node actions of one state replaced, and nothing else changed. */
  lemma WithActionsIs(f: Form, state: Name, actions: seq<NodeAction>)
    ensures WithActions(f, state, actions) == f.(nodeActions := f.nodeActions[state := actions])
    ensures ActionsOf(f, state) == if state in f.nodeActions then f.nodeActions[state] else []
  {}

  lemma DropAtIs(actions: seq<NodeAction>, index: nat)
    ensures DropAt(actions, index) == if index < |actions| then actions[..index] + actions[index + 1..] else actions
  {}

  lemma PatchAtIs(actions: seq<NodeAction>, index: nat, p: ActionPatch)
    ensures index >= |actions| ==> PatchAt(actions, index, p) == actions
    ensures index < |actions| ==>
      var was := actions[index];
      PatchAt(actions, index, p) ==
        actions[index := NodeAction(p.execution.Or(was.execution), was.kind, p.value.Or(was.value))]
  {}

  /** A description with a text to read is set as typed; any other is removed. */
  lemma WithDescriptionIs(f: Form, state: Name, text: string)
    ensures HasInk(text) ==> WithDescription(f, state, text) == f.(descriptions := f.descriptions[state := text])
    ensures !HasInk(text) ==> WithDescription(f, state, text) == f.(descriptions := f.descriptions - {state})
  {}

  lemma PatchedLive(actions: seq<NodeAction>, index: nat, p: ActionPatch, live: set<Name>)
    requires ActionsLive(actions, live) && (index < |actions| && p.value.Some? ==> p.value.value in live)
    ensures ActionsLive(PatchAt(actions, index, p), live)
  {}

  lemma DroppedLive(actions: seq<NodeAction>, index: nat, live: set<Name>)
    requires ActionsLive(actions, live)
    ensures ActionsLive(DropAt(actions, index), live)
  {}

  function WithDescription(f: Form, state: Name, text: string): Form {
    f.(descriptions := if IsBlank(text) then f.descriptions - {state} else f.descriptions[state := text])
  }

  lemma DescriptionUnseen(f: Form, state: Name, text: string)
    requires FormOk(f) && state in f.states
    ensures Unseen(f, WithDescription(f, state, text))
  {
    hide ActionsLive, NamesOk, TransitionsOk, Distinct, IsBlank;
  }

  // ---------------------------------------------------------------- a save and a reload

  lemma SavedPairs(f: Form)
    requires f.mode == CustomMode && TransitionsOk(f.transitions, ToSet(f.states))
    ensures TransitionsOk(Load(Save(f)).transitions, ToSet(f.states))
  {
    var ts, us := f.transitions, Load(Save(f)).transitions;
    assert |us| == |ts| && forall i :: 0 <= i < |ts| ==> us[i].from == ts[i].from && us[i].to == ts[i].to;
    hide Load, Save;
    forall i, j | 0 <= i < j < |us| ensures !SamePair(us[i], us[j]) {
      assert !SamePair(ts[i], ts[j]);
    }
  }

  lemma SavedFields(f: Form)
    requires f.mode == CustomMode
    ensures
      var g := Load(Save(f));
      && g.states == f.states && g.terminalNodes == f.terminalNodes
      && RefsOf(g) == RefsOf(f).(descriptions := StripEmpty(f.descriptions))
  {
    hide EdgeRouting, StripEmpty, IsDefaultGraph;
  }

  lemma FewerDescriptions(refs: Refs, live: set<Name>)
    requires RefsLive(refs, live)
    ensures RefsLive(refs.(descriptions := StripEmpty(refs.descriptions)), live)
  {
    hide ActionsLive, Distinct;
  }

  /** A well-formed custom form comes back from a save and a load well-formed, and can be drawn when it could before. */
  lemma ReloadedOk(f: Form)
    requires FormOk(f) && f.mode == CustomMode
    ensures FormOk(Load(Save(f))) && (Renderable(Load(Save(f))) <==> Renderable(f))
  {
    SavedPairs(f);
    SavedFields(f);
    hide Load, Save, NamesOk, TransitionsOk, RefsLive, StripEmpty;
    FewerDescriptions(RefsOf(f), ToSet(f.states));
  }

  // ---------------------------------------------------------------- edits that redraw

  /** Redrawing with the same states and stored places leaves every state where it stands. */
  lemma RedrawStays(f: Form, nodes: seq<FlowNode>, edges: seq<FlowEdge>, last: Signature, next: nat, g: Form,
    auto: map<Name, Point>, at: map<Name, Point>)
    requires SettledEditor(f, nodes, edges, last, next) && g.states == f.states && g.positions == f.positions
    requires at.Keys == ToSet(g.states)
    requires forall s :: s in g.states ==> StandsWhere(g, PositionByName(StateNodes(nodes)), auto, s, at[s])
    ensures at == PositionByName(StateNodes(nodes))
  {
    hide SettledEditor, Shows, PositionByName, StateNodes;
    SettledPlaces(f, nodes, edges, last, next);
  }

  lemma SettledPlaces(f: Form, nodes: seq<FlowNode>, edges: seq<FlowEdge>, last: Signature, next: nat)
    requires SettledEditor(f, nodes, edges, last, next)
    ensures
      var at := PositionByName(StateNodes(nodes));
      at.Keys == ToSet(f.states) && forall s :: s in f.states && s in f.positions ==> at[s] == f.positions[s]
  {
    hide FormOk, Renderable, Shows, NodesOk, EdgesOk, GraphSignature, PositionByName, StateNodes;
    StoredPlaces(f, nodes, edges);
  }

  lemma StoredPlaces(f: Form, nodes: seq<FlowNode>, edges: seq<FlowEdge>)
    requires Shows(f, nodes, edges)
    ensures
      var at := PositionByName(StateNodes(nodes));
      at.Keys == ToSet(f.states) && forall s :: s in f.states && s in f.positions ==> at[s] == f.positions[s]
  {
    hide Filter, PositionByName, MarkerNodes, MarkerEdges, DrawsAll, Map;
  }

  lemma LongerListDiffers(f: Form, s: Name)
    ensures GraphSignature(f.(endSources := f.endSources + [s])) != GraphSignature(f)
    ensures GraphSignature(f.(startSources := f.startSources + [s])) != GraphSignature(f)
  {
    assert multiset(f.endSources + [s]) == multiset(f.endSources) + multiset{s};
    assert multiset(f.startSources + [s]) == multiset(f.startSources) + multiset{s};
    assert |multiset(f.endSources + [s])| == |multiset(f.endSources)| + 1;
    assert |multiset(f.startSources + [s])| == |multiset(f.startSources)| + 1;
  }

  lemma EndLinkOk(f: Form, s: Name)
    requires FormOk(f) && s in f.states && s !in f.endSources
    ensures FormOk(f.(endSources := f.endSources + [s])) && Renderable(f.(endSources := f.endSources + [s]))
  {
    hide ActionsLive, NamesOk, TransitionsOk, Distinct;
    DistinctAppend(f.endSources, s);
  }

  lemma StartLinkOk(f: Form, s: Name)
    requires FormOk(f) && s in f.states && s !in f.startSources
    ensures FormOk(f.(startSources := f.startSources + [s])) && Renderable(f.(startSources := f.startSources + [s]))
  {
    hide ActionsLive, NamesOk, TransitionsOk, Distinct;
    DistinctAppend(f.startSources, s);
  }

  lemma UnlinkOk(f: Form, s: Name)
    requires FormOk(f) && Renderable(f)
    ensures
      var g := f.(endSources := Filter(Except(s), f.endSources));
      var h := f.(startSources := Filter(Except(s), f.startSources));
      FormOk(g) && Renderable(g) && FormOk(h) && Renderable(h)
  {
    FilterKeepsDistinct(Except(s), f.endSources);
    FilterKeepsDistinct(Except(s), f.startSources);
    hide ActionsLive, NamesOk, TransitionsOk, Distinct;
  }

  lemma TerminalsOk(f: Form, t: Terminals, mode: Mode)
    requires FormOk(f)
    ensures FormOk(f.(terminalNodes := t, mode := mode))
  {
    hide ActionsLive, NamesOk, TransitionsOk, Distinct;
  }

  lemma DefaultNamesOk()
    ensures NamesOk(DEFAULT_STATES)
  {
    forall s | s in DEFAULT_STATES ensures !IsBlank(s) && !IsTerminalNodeId(s) {
      assert !IsSpace(s[0]);
    }
  }

  lemma DefaultFormOk()
    ensures FormOk(DefaultForm()) && Renderable(DefaultForm())
  {
    DefaultNamesOk();
    DefaultTransitionsOk();
    hide NamesOk, TransitionsOk;
  }

  lemma DefaultTransitionsOk()
    ensures TransitionsOk(DEFAULT_TRANSITIONS, ToSet(DEFAULT_STATES))
  {
    var ts := DEFAULT_TRANSITIONS;
    assert forall i :: 0 <= i < |ts| ==> ts[i].from in DEFAULT_STATES && ts[i].to in DEFAULT_STATES;
    assert ts[0].from[0] == 'W' && ts[1].from[0] == 'C' && ts[2].from[0] == 'C';
    assert ts[3].from[1] == 'K' && ts[4].from[1] == 'E' && ts[0].from[1] == 'A' && ts[1].from[1] == 'A';
    assert ts[1].to[1] == 'E' && ts[2].to[1] == 'K';
  }

  // ---------------------------------------------------------------- new names

  /** A name the picker or the generator offers is fit for a state that is not there yet. */
  lemma GeneratedNameOk(i: nat)
    ensures !IsBlank(StatusName(i)) && !IsTerminalNodeId(StatusName(i))
  {
    assert StatusName(i)[0] == 'S';
  }

  lemma StandardNameOk(name: Name)
    requires name in DEFAULT_STATES
    ensures !IsBlank(name) && !IsTerminalNodeId(name) && Trim(name) == name
  {
    DefaultNamesOk();
    TrimNothing(name);
  }

  /** What is typed is upper-cased, so it never is the id of a marker. */
  lemma TypedIsNoMarker(typed: string)
    ensures !IsTerminalNodeId(Upper(typed))
  {
    var u := Upper(typed);
    if |u| > 2 {
      assert u[2] != 's' && u[2] != 'e';
    }
    assert START_NODE_ID[2] == 's' && END_NODE_ID[2] == 'e';
  }

  // ---------------------------------------------------------------- patches of an edge

  function SetLabel(text: string): FlowEdge -> FlowEdge { (e: FlowEdge) => e.(actionLabel := text) }

  function SetPolicy(p: Policy): FlowEdge -> FlowEdge { (e: FlowEdge) => e.(requeuePolicy := p) }

  function Reroute(from: Name, to: Name): FlowEdge -> FlowEdge {
    (e: FlowEdge) =>
      var h := HandlesAfterReroute(e, from, to);
      e.(source := from, target := to, sourceHandle := Some(h.source), targetHandle := Some(h.target))
  }

  ghost function Relabelled(d: Form, k: Option<nat>, text: string): Form {
    if k.Some? && k.value < |d.transitions| then
      d.(transitions := d.transitions[k.value := d.transitions[k.value].(actionLabel := text)])
    else d
  }

  ghost function WithPolicy(d: Form, k: Option<nat>, p: Policy): Form {
    if k.Some? && k.value < |d.transitions| then
      d.(transitions := d.transitions[k.value := d.transitions[k.value].(requeuePolicy := p)])
    else d
  }

  lemma SettledEdge(f: Form, nodes: seq<FlowNode>, edges: seq<FlowEdge>, last: Signature, next: nat, k: nat)
    requires SettledEditor(f, nodes, edges, last, next) && k < |TransitionEdges(edges)|
    ensures
      var te := TransitionEdges(edges);
      && te[k].sourceHandle.Some? && te[k].targetHandle.Some? && te[k].source in f.states && te[k].target in f.states
      && (forall i :: 0 <= i < |te| && i != k ==> !SamePair(Plainly(te[i]), Plainly(te[k])))
      && AsDrawn(f, nodes, edges).transitions == Map(Plainly, te)
  {
    var te := TransitionEdges(edges);
    EdgeEndsLive(te, ToSet(f.states), next);
    PairsStayApart(te, k, te[k], ToSet(f.states), next);
    hide Shows, FormOk, NodesOk, Filter, SamePair;
  }

  lemma LabelPatched(f: Form, nodes: seq<FlowNode>, edges: seq<FlowEdge>, last: Signature, next: nat, id: string,
    text: string)
    requires SettledEditor(f, nodes, edges, last, next)
    ensures
      var after := Map(PatchEdge(id, SetLabel(text)), edges);
      && MutationOk(nodes, after, next)
      && CommitForm(f, nodes, after, None) == Relabelled(AsDrawn(f, nodes, edges), EdgeAt(edges, id), text)
      && Renderable(CommitForm(f, nodes, after, None)) && EdgeIds(after) == EdgeIds(edges)
  {
    var k := EdgeAt(edges, id);
    hide SettledEditor, MutationOk, CommitForm, AsDrawn, Renderable, TransitionEdges, PatchEdge, EdgeAt, EdgeIds;
    if k.Some? {
      EdgeAtIs(edges, id);
      SettledEdge(f, nodes, edges, last, next, k.value);
      var e := SetLabel(text)(TransitionEdges(edges)[k.value]);
      Patched(f, nodes, edges, last, next, id, SetLabel(text), Plainly(e));
    } else {
      Patched(f, nodes, edges, last, next, id, SetLabel(text), AnyTransition());
    }
  }

  function AnyTransition(): Transition { DEFAULT_TRANSITIONS[0] }

  lemma EdgeAtIs(edges: seq<FlowEdge>, id: string)
    ensures EdgeAt(edges, id).Some? ==>
      EdgeAt(edges, id).value < |TransitionEdges(edges)| && TransitionEdges(edges)[EdgeAt(edges, id).value].id == id
  {}

  lemma PolicyPatched(f: Form, nodes: seq<FlowNode>, edges: seq<FlowEdge>, last: Signature, next: nat, id: string,
    p: Policy)
    requires SettledEditor(f, nodes, edges, last, next)
    ensures
      var after := Map(PatchEdge(id, SetPolicy(p)), edges);
      && MutationOk(nodes, after, next)
      && CommitForm(f, nodes, after, None) == WithPolicy(AsDrawn(f, nodes, edges), EdgeAt(edges, id), p)
      && Renderable(CommitForm(f, nodes, after, None)) && EdgeIds(after) == EdgeIds(edges)
  {
    var k := EdgeAt(edges, id);
    hide SettledEditor, MutationOk, CommitForm, AsDrawn, Renderable, TransitionEdges, PatchEdge, EdgeAt, EdgeIds;
    if k.Some? {
      EdgeAtIs(edges, id);
      SettledEdge(f, nodes, edges, last, next, k.value);
      var e := SetPolicy(p)(TransitionEdges(edges)[k.value]);
      Patched(f, nodes, edges, last, next, id, SetPolicy(p), Plainly(e));
    } else {
      Patched(f, nodes, edges, last, next, id, SetPolicy(p), AnyTransition());
    }
  }

  /** A transition on new ends: its own sides kept, unless it was on the default sides of its shape. */
  ghost function OnEnds(t: Transition, from: Name, to: Name): Transition {
    var current := DefaultHandlesFor(t.from, t.to);
    var kept := Handles(t.sourceSide.Or(current.source), t.targetSide.Or(current.target));
    var h := if kept == current then DefaultHandlesFor(from, to) else kept;
    t.(from := from, to := to, sourceSide := Some(h.source), targetSide := Some(h.target))
  }

  ghost function Rerouted(d: Form, k: Option<nat>, from: Name, to: Name): Form {
    if k.Some? && k.value < |d.transitions| then
      d.(transitions := d.transitions[k.value := OnEnds(d.transitions[k.value], from, to)])
    else d
  }

  lemma ReroutePatched(f: Form, nodes: seq<FlowNode>, edges: seq<FlowEdge>, last: Signature, next: nat, id: string,
    from: Name, to: Name)
    requires SettledEditor(f, nodes, edges, last, next) && from in f.states && to in f.states
    requires !IsDuplicateTransition(edges, from, to)
    ensures
      var after := Map(PatchEdge(id, Reroute(from, to)), edges);
      && MutationOk(nodes, after, next)
      && CommitForm(f, nodes, after, None) == Rerouted(AsDrawn(f, nodes, edges), EdgeAt(edges, id), from, to)
      && Renderable(CommitForm(f, nodes, after, None)) && EdgeIds(after) == EdgeIds(edges)
  {
    var k := EdgeAt(edges, id);
    PatchShape(from, to);
    hide SettledEditor, MutationOk, CommitForm, AsDrawn, Renderable, PatchEdge, EdgeAt, IsDuplicateTransition, Filter,
      TransitionEdges, Reroute, OnEnds, EdgeIds, HandlesAfterReroute, DefaultHandlesFor;
    if k.Some? {
      EdgeAtIs(edges, id);
      SettledEdge(f, nodes, edges, last, next, k.value);
      var e := TransitionEdges(edges)[k.value];
      RerouteReads(e, from, to);
      RerouteApart(edges, from, to, Reroute(from, to)(e), k.value);
      Patched(f, nodes, edges, last, next, id, Reroute(from, to), Plainly(Reroute(from, to)(e)));
    } else {
      Patched(f, nodes, edges, last, next, id, Reroute(from, to), AnyTransition());
    }
  }

  lemma RerouteApart(edges: seq<FlowEdge>, from: Name, to: Name, e: FlowEdge, k: nat)
    requires !IsDuplicateTransition(edges, from, to) && e.source == from && e.target == to
    ensures
      var te := TransitionEdges(edges);
      forall i :: 0 <= i < |te| && i != k ==> !SamePair(Plainly(te[i]), Plainly(e))
  {
    NoDuplicate(edges, from, to);
    var te := TransitionEdges(edges);
    assert te == Filter(IsTransition, edges);
    forall i | 0 <= i < |te| && i != k ensures !SamePair(Plainly(te[i]), Plainly(e)) {
      assert !(te[i].source == from && te[i].target == to);
    }
  }

  lemma PatchShape(from: Name, to: Name)
    ensures forall e :: Reroute(from, to)(e).kind == e.kind && Reroute(from, to)(e).id == e.id
  {}

  lemma RerouteReads(e: FlowEdge, from: Name, to: Name)
    requires e.sourceHandle.Some? && e.targetHandle.Some?
    ensures var p := Plainly(Reroute(from, to)(e));
      p == OnEnds(Plainly(e), from, to) && p.from == from && p.to == to && p.sourceSide.Some? && p.targetSide.Some?
  {}
}
