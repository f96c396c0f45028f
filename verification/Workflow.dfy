/**
 * The visual editor of a state machine. It holds the parent's form, its own canvas, the signature it emitted last and
 * a counter for edge ids. One call of a handler stands for the whole settled step: the handler, the parent's
 * re-render with the emitted form, and the effect that decides whether to redraw.
 */
module Workflow {
  import opened AutoLayout
  import opened EditorForms
  import opened EditorModel
  import opened EditorSteps
  import opened Sequences
  import opened StateMachine
  import opened StateMachineFlow
  import opened Text

  datatype MarkerKey = StartKey | EndKey

  function WithTerminal(f: Form, key: MarkerKey, t: Terminal): Form {
    f.(terminalNodes := if key == StartKey then f.terminalNodes.(start := t) else f.terminalNodes.(end := t))
  }

  /** What can happen to the editor from outside. A typed name arrives as typed; the panel upper-cases it. */
  datatype Event =
    | Connect(from: Name, to: Name, source: Option<Side>, target: Option<Side>)
    | EndConnect(o: ConnectEnd)
    | AddTransitionFrom(state: Name)
    | EditLabel(id: string, text: string)
    | EditPolicy(id: string, policy: Policy)
    | DeleteTransition(id: string)
    | RerouteTransition(id: string, from: Name, to: Name)
    | AddState(at: Point, name: Option<Name>)
    | RenameState(state: Name, typed: string)
    | DeleteState(state: Name)
    | DragStop(moved: map<Name, Point>)
    | AddAction(state: Name)
    | DeleteAction(state: Name, index: nat)
    | EditAction(state: Name, index: nat, patch: ActionPatch)
    | EditDescription(state: Name, text: string)
    | ChangeTerminal(key: MarkerKey, terminal: Terminal)
    | Unlink(key: MarkerKey, state: Name)
    | UseDefault
    | UseCustom
    | NewValue(form: Form)

  class Editor {
    var value: Form
    var nodes: seq<FlowNode>
    var edges: seq<FlowEdge>
    var lastEmitted: Signature
    var edgeIdSeq: nat

    /** What every settled state of every run satisfies. */
    ghost predicate Valid()
      reads this
    {
      SettledEditor(value, nodes, edges, lastEmitted, edgeIdSeq)
    }

    /** The form as the canvas reads it now. */
    ghost function Drawing(): Form
      reads this
    {
      AsDrawn(value, nodes, edges)
    }

    /** The ids of the drawn transitions, in order. */
    ghost function Ids(): seq<string>
      reads this
    {
      EdgeIds(edges)
    }

    /** Where the states stand on the canvas. */
    function Places(): map<Name, Point>
      reads this
    {
      PositionByName(Filter(IsState, nodes))
    }

    /** The form is emitted and drawn, and the canvas reads as the form. */
    ghost predicate Emitted(form: Form)
      reads this
    {
      Valid() && value == form && Drawing() == form
    }

    /** The form was drawn anew with every state at the given place. */
    ghost predicate InPlace(form: Form, at: map<Name, Point>)
      reads this
    {
      Valid() && value == form && Drawing() == DrawnForm(form, at)
    }

    /** The canvas was drawn from the form: stored places first, then those at hand, then the automatic layout. */
    ghost predicate Anew(form: Form, kept: map<Name, Point>, auto: map<Name, Point>)
      reads this
    {
      && IsLayout(form.states, form.transitions, auto) && Drawing() == DrawnForm(form, Places())
      && Places().Keys == ToSet(form.states)
      && forall s :: s in form.states ==> StandsWhere(form, kept, auto, s, Places()[s])
    }

    ghost predicate DrawnAnew(form: Form, kept: map<Name, Point>)
      reads this
    {
      exists auto :: Anew(form, kept, auto)
    }

    constructor (form: Form)
      requires FormOk(form) && Renderable(form)
      ensures Valid() && value == form && DrawnAnew(form, map[])
      ensures form.positions == map[] ==> IsLayout(form.states, form.transitions, Places())
    {
      hide SettledEditor, FormOk, FormToFlowWithMarkers, GraphSignature, Renderable, IsLayout, DrawnForm, Positions,
        StandsWhere, NodesStand;
      value, lastEmitted, edgeIdSeq := form, GraphSignature(form), 0;
      nodes, edges := [], [];
      new;
      var c, auto := Draw(form, map[]);
      FreshCanvas(form, map[], auto, c, 0);
      nodes, edges := c.value.nodes, c.value.edges;
      StandsAnew(form, map[], auto);
      AllAutomatic(form, auto);
      assert Anew(form, map[], auto);
    }

    // ------------------------------------------------------------ emitting and redrawing

    /**
     * The parent re-renders with a new value and the effect runs: it redraws exactly when the signature of the value
     * is not the one emitted last, keeping the places of surviving states.
     */
    method Rerender(next: Form) returns (redrawn: bool)
      requires FormOk(next) && Renderable(next)
      requires GraphSignature(next) == lastEmitted ==> SettledEditor(next, nodes, edges, lastEmitted, edgeIdSeq)
      modifies this`value, this`nodes, this`edges, this`lastEmitted
      ensures Valid() && value == next
      ensures redrawn <==> GraphSignature(next) != old(lastEmitted)
      ensures !redrawn ==> nodes == old(nodes) && edges == old(edges)
      ensures redrawn ==> DrawnAnew(next, old(Places()))
    {
      hide SettledEditor, FormOk, FormToFlowWithMarkers, GraphSignature, Renderable, Positions, DrawnForm, IsLayout,
        StandsWhere, NodesStand;
      var sig := GraphSignature(next);
      redrawn := sig != lastEmitted;
      value := next;
      if redrawn {
        var kept := Places();
        lastEmitted := sig;
        var c, auto := Draw(next, kept);
        FreshCanvas(next, kept, auto, c, edgeIdSeq);
        nodes, edges := c.value.nodes, c.value.edges;
        StandsAnew(next, kept, auto);
        assert Anew(next, old(Places()), auto);
      }
    }

    /** A value from outside, or one emitted without a stamp. */
    method Settle(next: Form) returns (redrawn: bool)
      requires Valid() && FormOk(next) && Renderable(next)
      modifies this`value, this`nodes, this`edges, this`lastEmitted
      ensures Valid() && value == next
      ensures redrawn <==> GraphSignature(next) != GraphSignature(old(value))
      ensures redrawn <==> !SameGraph(next, old(value))
      ensures !redrawn ==> nodes == old(nodes) && edges == old(edges)
      ensures redrawn ==> DrawnAnew(next, old(Places()))
    {
      SignatureMeans(next, value);
      hide SettledEditor, FormOk, GraphSignature, Renderable, AsDrawn, Positions, DrawnForm, SameGraph;
      Stamped(value, nodes, edges, lastEmitted, edgeIdSeq);
      if GraphSignature(next) == lastEmitted {
        SettleQuietly(value, next, nodes, edges, lastEmitted, edgeIdSeq);
      }
      redrawn := Rerender(next);
    }

    /**
     * The form is saved, loaded again and handed back. The canvas is left alone exactly when transitions that share a
     * routing key are drawn alike, so always after a form that passes validation.
     */
    method SaveAndReload() returns (redrawn: bool)
      requires Valid() && value.mode == CustomMode
      modifies this`value, this`nodes, this`edges, this`lastEmitted
      ensures Valid() && value == Load(Save(old(value)))
      ensures redrawn <==> !SidesAgreeOnKeys(old(value).transitions)
      ensures !redrawn ==> nodes == old(nodes) && edges == old(edges)
      ensures redrawn ==> DrawnAnew(value, old(Places()))
      ensures MeetsRules(old(value)) ==> !redrawn
    {
      Stamped(value, nodes, edges, lastEmitted, edgeIdSeq);
      ReloadKeepsSignature(value);
      hide *;
      ReloadedOk(value);
      redrawn := Settle(Load(Save(value)));
    }

    /** Emit a form-only edit, stamped: the canvas is left alone. */
    method Lift(next: Form)
      requires Valid() && Unseen(value, next)
      modifies this`value, this`nodes, this`edges, this`lastEmitted
      ensures Valid() && value == next && nodes == old(nodes) && edges == old(edges)
      ensures lastEmitted == old(lastEmitted)
    {
      hide SettledEditor, FormOk, GraphSignature, Renderable;
      Stamped(value, nodes, edges, lastEmitted, edgeIdSeq);
      lastEmitted := GraphSignature(next);
      SettleQuietly(value, next, nodes, edges, lastEmitted, edgeIdSeq);
      var redrawn := Rerender(next);
      Stamped(value, nodes, edges, lastEmitted, edgeIdSeq);
    }

    method Lifted(nextNodes: seq<FlowNode>, nextEdges: seq<FlowEdge>, rename: Option<Rename>) returns (form: Form)
      requires KeysStayApart(RefsOf(value), rename)
      ensures form == CommitForm(value, nextNodes, nextEdges, rename)
    {
      hide Reconcile, FlowToGraph, KeysStayApart;
      var g := ReadCanvas(nextNodes, nextEdges, value.terminalNodes);
      var refs := ReconcileStateNameRefs(RefsOf(value), g.states, rename);
      form := Form(value.mode, g.states, g.transitions, g.positions, refs.nodeActions, refs.descriptions,
        g.terminalNodes, refs.endSources, refs.startSources);
    }

    /**
     * Lift a mutated canvas: read it, carry the name references over, rebuild the markers, stamp the signature and
     * emit; the stamp keeps the effect from redrawing, so every state node and every transition edge of the mutated
     * canvas stays as it is. Without states an automatic marker cannot be placed; then the
     * source throws and nothing has changed.
     */
    method Commit(nextNodes: seq<FlowNode>, nextEdges: seq<FlowEdge>, rename: Option<Rename>) returns (ok: bool)
      requires MutationOk(nextNodes, nextEdges, edgeIdSeq)
      requires KeysStayApart(RefsOf(value), rename)
      modifies this`value, this`nodes, this`edges, this`lastEmitted
      ensures ok <==> Renderable(CommitForm(old(value), nextNodes, nextEdges, rename))
      ensures ok ==> Emitted(CommitForm(old(value), nextNodes, nextEdges, rename))
      ensures ok ==> KeptFrom(nodes, edges, nextNodes, nextEdges)
      ensures !ok ==> unchanged(this)
    {
      hide SettledEditor, CommitForm, AsDrawn, Renderable, MutationOk, GraphSignature, KeysStayApart, FormOk, KeptFrom;
      var form := Lifted(nextNodes, nextEdges, rename);
      var canvas := Rebuild(value, form, nextNodes, nextEdges, rename, edgeIdSeq);
      ok := canvas.Some?;
      if ok {
        nodes, edges := canvas.value.nodes, canvas.value.edges;
        lastEmitted := GraphSignature(form);
        Stamped(form, nodes, edges, lastEmitted, edgeIdSeq);
        var redrawn := Rerender(form);
      }
    }

    // ------------------------------------------------------------ connections

    method MintEdgeId() returns (id: string)
      modifies this`edgeIdSeq
      ensures id == MintedId(old(edgeIdSeq)) && edgeIdSeq == old(edgeIdSeq) + 1
    {
      id := MintedId(edgeIdSeq);
      edgeIdSeq := edgeIdSeq + 1;
    }

    /** Add an edge between two states that are not connected yet; the other edges keep their ids. */
    method AddEdge(from: Name, to: Name, source: Side, target: Side)
      requires Valid() && from in value.states && to in value.states && !HasPair(value.transitions, from, to)
      modifies this
      ensures Emitted(WithTransition(old(Drawing()), from, to, source, target)) && edgeIdSeq == old(edgeIdSeq) + 1
      ensures OneMoreEdge(old(edges), NewEdge(MintedId(old(edgeIdSeq)), from, to, source, target), edges)
    {
      hide SettledEditor, CommitForm, AsDrawn, Renderable, MutationOk, MintedId, WithTransition, HasPair, KeptFrom,
        OneMoreEdge;
      ConnectedNew(value, nodes, edges, lastEmitted, edgeIdSeq, from, to, source, target);
      var id := MintEdgeId();
      var ok := Commit(nodes, edges + [NewEdge(id, from, to, source, target)], None);
      EdgeAppended(nodes, edges, old(nodes), old(edges), NewEdge(id, from, to, source, target));
    }

    /**
     * A connection drawn between two nodes of the canvas. Into End it becomes an end source, out of Start a start
     * source; between two states it becomes a transition through the given handles. Repeats, and any other use of a
     * marker, are ignored.
     */
    method OnConnect(from: Name, to: Name, source: Option<Side>, target: Option<Side>)
      requires Valid() && OnCanvas(value, from) && OnCanvas(value, to)
      modifies this
      ensures Valid()
      ensures to == END_NODE_ID ==>
        if IsTerminalNodeId(from) || from in old(value).endSources then unchanged(this)
        else InPlace(old(value).(endSources := old(value).endSources + [from]), old(Places()))
      ensures to != END_NODE_ID && from == START_NODE_ID ==>
        if IsTerminalNodeId(to) || to in old(value).startSources then unchanged(this)
        else InPlace(old(value).(startSources := old(value).startSources + [to]), old(Places()))
      ensures to != END_NODE_ID && from != START_NODE_ID ==>
        if IsTerminalNodeId(from) || IsTerminalNodeId(to) || HasPair(old(value).transitions, from, to)
        then unchanged(this)
        else
          var d := DefaultHandlesFor(from, to);
          && Emitted(WithTransition(old(Drawing()), from, to, source.Or(d.source), target.Or(d.target)))
          && OneMoreEdge(old(edges),
               NewEdge(MintedId(old(edgeIdSeq)), from, to, source.Or(d.source), target.Or(d.target)), edges)
    {
      hide OneMoreEdge, NewEdge, SettledEditor, FormOk, AsDrawn, Renderable, GraphSignature, HasPair, OnCanvas,
        HasEndSource, HasStartSource, IsDuplicateTransition;
      GuardSeesPairs(value, nodes, edges, lastEmitted, edgeIdSeq, from, to);
      Stamped(value, nodes, edges, lastEmitted, edgeIdSeq);
      CanvasMeans(value, from);
      CanvasMeans(value, to);
      if to == END_NODE_ID {
        if IsTerminalNodeId(from) { return; }
        EndLinksShown(value, nodes, edges, lastEmitted, edgeIdSeq, from);
        if HasEndSource(edges, from) { return; }
        LinkEnd(from);
        return;
      }
      if from == START_NODE_ID {
        if IsTerminalNodeId(to) { return; }
        StartLinksShown(value, nodes, edges, lastEmitted, edgeIdSeq, to);
        if HasStartSource(edges, to) { return; }
        LinkStart(to);
        return;
      }
      if IsTerminalNodeId(from) || IsTerminalNodeId(to) { return; }
      if IsDuplicateTransition(edges, from, to) { return; }
      var fallback := DefaultHandlesFor(from, to);
      AddEdge(from, to, source.Or(fallback.source), target.Or(fallback.target));
    }

    method LinkEnd(s: Name)
      requires Valid() && s in value.states && s !in value.endSources
      modifies this`value, this`nodes, this`edges, this`lastEmitted
      ensures InPlace(old(value).(endSources := old(value).endSources + [s]), old(Places()))
    {
      Stamped(value, nodes, edges, lastEmitted, edgeIdSeq);
      EndLinkOk(value, s);
      LongerListDiffers(value, s);
      RedrawInPlace(value.(endSources := value.endSources + [s]));
    }

    method LinkStart(s: Name)
      requires Valid() && s in value.states && s !in value.startSources
      modifies this`value, this`nodes, this`edges, this`lastEmitted
      ensures InPlace(old(value).(startSources := old(value).startSources + [s]), old(Places()))
    {
      Stamped(value, nodes, edges, lastEmitted, edgeIdSeq);
      StartLinkOk(value, s);
      LongerListDiffers(value, s);
      RedrawInPlace(value.(startSources := value.startSources + [s]));
    }

    /** An edit that leaves states and places alone is settled; if it redraws, every state stays where it stands. */
    method RedrawInPlace(next: Form)
      requires Valid() && FormOk(next) && Renderable(next)
      requires next.states == value.states && next.positions == value.positions
      modifies this`value, this`nodes, this`edges, this`lastEmitted
      ensures Valid() && value == next
      ensures if GraphSignature(next) == GraphSignature(old(value)) then nodes == old(nodes) && edges == old(edges)
              else InPlace(next, old(Places()))
    {
      hide SettledEditor, FormOk, GraphSignature, Renderable, AsDrawn, Positions, DrawnForm, StandsWhere, IsLayout;
      ghost var wasForm, wasNodes, wasEdges := value, nodes, edges;
      ghost var wasLast, wasSeq := lastEmitted, edgeIdSeq;
      ghost var kept := Places();
      var redrawn := Settle(next);
      if redrawn {
        ghost var auto :| Anew(next, kept, auto);
        RedrawStays(wasForm, wasNodes, wasEdges, wasLast, wasSeq, next, auto, Places());
      }
    }

    /** The end of a connection drag: draw the self-loop the drop asks for, or say why nothing was drawn. */
    method OnConnectEnd(o: ConnectEnd) returns (message: Option<Refusal>)
      requires Valid() && (o.fromId.Some? ==> OnCanvas(value, o.fromId.value))
      modifies this
      ensures Valid()
      ensures
        match DecideConnectEnd(o, old(edges))
        case Nothing => unchanged(this) && message == None
        case Message(why) => unchanged(this) && message == Some(why)
        case SelfLoop(s, h) =>
          && message == None && Emitted(WithTransition(old(Drawing()), s, s, h.source, h.target))
          && OneMoreEdge(old(edges), NewEdge(MintedId(old(edgeIdSeq)), s, s, h.source, h.target), edges)
    {
      hide OneMoreEdge, NewEdge, SettledEditor, DecideConnectEnd, AsDrawn, HasPair, IsDuplicateTransition, OnCanvas;
      message := None;
      var decision := DecideConnectEnd(o, edges);
      LoopDecided(value, o, edges);
      match decision {
        case Nothing =>
        case Message(why) => message := Some(why);
        case SelfLoop(s, h) =>
          GuardSeesPairs(value, nodes, edges, lastEmitted, edgeIdSeq, s, s);
          AddEdge(s, s, h.source, h.target);
      }
    }

    /** Connect a state to the first state it does not lead to yet, in order; nothing when it leads to all. */
    method OnAddTransitionFrom(source: Name)
      requires Valid() && source in value.states
      modifies this
      ensures Valid()
      ensures (forall s :: s in old(value).states ==> HasPair(old(value).transitions, source, s)) ==> unchanged(this)
      ensures forall to :: FirstUnlinked(old(value), source, to) ==>
        var d := DefaultHandlesFor(source, to);
        && Emitted(WithTransition(old(Drawing()), source, to, d.source, d.target))
        && OneMoreEdge(old(edges), NewEdge(MintedId(old(edgeIdSeq)), source, to, d.source, d.target), edges)
    {
      hide OneMoreEdge, NewEdge, SettledEditor, AsDrawn, HasPair, IsDuplicateTransition, WithTransition,
        DefaultHandlesFor;
      forall s {
        GuardSeesPairs(value, nodes, edges, lastEmitted, edgeIdSeq, source, s);
      }
      var drawn := edges;
      var target := Find((s: Name) => !IsDuplicateTransition(drawn, source, s), value.states);
      if target.None? { return; }
      forall to | FirstUnlinked(value, source, to) ensures to == target.value {}
      var d := DefaultHandlesFor(source, target.value);
      AddEdge(source, target.value, d.source, d.target);
    }

    // ------------------------------------------------------------ transitions

    method OnEditTransitionLabel(id: string, text: string)
      requires Valid()
      modifies this`value, this`nodes, this`edges, this`lastEmitted
      ensures Valid()
      ensures Emitted(Relabelled(old(Drawing()), EdgeAt(old(edges), id), text)) && Ids() == old(Ids())
    {
      hide SettledEditor, KeptFrom, EdgeIds, CommitForm, AsDrawn, Renderable, MutationOk, Relabelled, PatchEdge,
        SetLabel;
      LabelPatched(value, nodes, edges, lastEmitted, edgeIdSeq, id, text);
      var ok := Commit(nodes, Map(PatchEdge(id, SetLabel(text)), edges), None);
      SameIds(nodes, edges, old(nodes), Map(PatchEdge(id, SetLabel(text)), old(edges)));
    }

    method OnEditTransitionRequeuePolicy(id: string, policy: Policy)
      requires Valid()
      modifies this`value, this`nodes, this`edges, this`lastEmitted
      ensures Valid()
      ensures Emitted(WithPolicy(old(Drawing()), EdgeAt(old(edges), id), policy)) && Ids() == old(Ids())
    {
      hide SettledEditor, KeptFrom, EdgeIds, CommitForm, AsDrawn, Renderable, MutationOk, WithPolicy, PatchEdge,
        SetPolicy;
      PolicyPatched(value, nodes, edges, lastEmitted, edgeIdSeq, id, policy);
      var ok := Commit(nodes, Map(PatchEdge(id, SetPolicy(policy)), edges), None);
      SameIds(nodes, edges, old(nodes), Map(PatchEdge(id, SetPolicy(policy)), old(edges)));
    }

    /** The last transition stays. */
    method OnDeleteTransition(id: string)
      requires Valid()
      modifies this`value, this`nodes, this`edges, this`lastEmitted
      ensures Valid()
      ensures if |old(value).transitions| <= 1 then unchanged(this)
              else
                && Emitted(Dropped(old(Drawing()), EdgeAt(old(edges), id)))
                && TransitionEdges(edges) == Filter(OtherThan(id), TransitionEdges(old(edges)))
    {
      FilterSwap(IsTransition, OtherThan(id), edges);
      hide SettledEditor, CommitForm, AsDrawn, Renderable, MutationOk, Dropped, Filter;
      if |value.transitions| <= 1 { return; }
      TransitionDropped(value, nodes, edges, lastEmitted, edgeIdSeq, id);
      var ok := Commit(nodes, Filter(OtherThan(id), edges), None);
    }

    /** Move the ends of a transition, unless one has that pair already. The id of a marker edge moves nothing. */
    method OnRerouteTransition(id: string, from: Name, to: Name)
      requires Valid() && from in value.states && to in value.states
      modifies this`value, this`nodes, this`edges, this`lastEmitted
      ensures Valid()
      ensures if !IsEdge(old(edges), id) || HasPair(old(value).transitions, from, to) then unchanged(this)
              else Emitted(Rerouted(old(Drawing()), EdgeAt(old(edges), id), from, to)) && Ids() == old(Ids())
    {
      hide SettledEditor, KeptFrom, EdgeIds, CommitForm, AsDrawn, Renderable, MutationOk, Rerouted, PatchEdge, Reroute,
        HasPair, EdgeAt, IsDuplicateTransition;
      GuardSeesPairs(value, nodes, edges, lastEmitted, edgeIdSeq, from, to);
      var edge := Find((e: FlowEdge) => e.id == id, edges);
      FoundEdge(edges, id, edge);
      if edge.None? { return; }
      if edge.value.source == from && edge.value.target == to {
        SelfPair(value, nodes, edges, lastEmitted, edgeIdSeq, edge.value);
        return;
      }
      if IsDuplicateTransition(edges, from, to) { return; }
      ReroutePatched(value, nodes, edges, lastEmitted, edgeIdSeq, id, from, to);
      var ok := Commit(nodes, Map(PatchEdge(id, Reroute(from, to)), edges), None);
      SameIds(nodes, edges, old(nodes), Map(PatchEdge(id, Reroute(from, to)), old(edges)));
    }

    // ------------------------------------------------------------ states

    /** Drop or pick a new state: under a standard name unless one like it is there, or under the next free name. */
    method AddStateAt(at: Point, name: Option<Name>) returns (added: Option<Name>)
      requires Valid() && (name.Some? ==> name.value in DEFAULT_STATES)
      modifies this`value, this`nodes, this`edges, this`lastEmitted
      ensures Valid()
      ensures added.None? ==> unchanged(this)
      ensures added.Some? ==> added.value !in old(value).states && Emitted(WithState(old(Drawing()), added.value, at))
      ensures added.Some? ==> TransitionEdges(edges) == TransitionEdges(old(edges))
      ensures name.Some? ==> added == if exists s :: s in old(value).states && Trim(s) == name.value then None else name
      ensures name.None? ==> added.Some? && NextFree(old(value).states, added.value)
    {
      hide SettledEditor, CommitForm, AsDrawn, Renderable, MutationOk, IsBlank, Trim, IsTerminalNodeId, StatusName;
      var newName: Name;
      if name.Some? {
        newName := name.value;
        if exists s :: s in value.states && Trim(s) == name.value { return None; }
        StandardNameOk(newName);
      } else {
        ghost var i;
        newName, i := NextStateName(value.states);
        GeneratedNameOk(i);
      }
      var n := FlowNode(newName, StateNode, at, newName, false);
      StateAdded(value, nodes, edges, lastEmitted, edgeIdSeq, n);
      var ok := Commit(nodes + [n], edges, None);
      added := Some(newName);
    }

    /** Rename a state everywhere; a blank name and the name of a node on the canvas are ignored. */
    method OnRenameState(oldName: Name, newName: Name)
      requires Valid() && oldName in value.states && !IsTerminalNodeId(newName)
      modifies this`value, this`nodes, this`edges, this`lastEmitted
      ensures Valid()
      ensures if IsBlank(newName) || newName in old(value).states then unchanged(this)
              else
                && StateRenamedIn(old(Drawing()), Rename(oldName, newName), value) && Drawing() == value
                && Ids() == old(Ids())
    {
      hide SettledEditor, KeptFrom, EdgeIds, CommitForm, AsDrawn, Renderable, MutationOk, StateRenamedIn,
        KeysStayApart, IsBlank, IsNode;
      if newName == oldName { return; }
      if IsBlank(newName) { return; }
      NodeIds(value, nodes, edges, lastEmitted, edgeIdSeq, newName);
      if IsNode(nodes, newName) { return; }
      var r := Rename(oldName, newName);
      StateRenamed(value, nodes, edges, lastEmitted, edgeIdSeq, r);
      var ok := Commit(Map(RenamesNode(r), nodes), Map(RenamesEdge(r), edges), Some(r));
      SameIds(nodes, edges, Map(RenamesNode(r), old(nodes)), Map(RenamesEdge(r), old(edges)));
    }

    /** Delete a state with everything that names it. It fails on the last state while a marker is automatic. */
    method OnDeleteState(name: Name) returns (ok: bool)
      requires Valid() && name in value.states
      modifies this`value, this`nodes, this`edges, this`lastEmitted
      ensures Valid()
      ensures ok <==> Renderable(WithoutState(old(Drawing()), name))
      ensures if ok then Emitted(WithoutState(old(Drawing()), name)) else unchanged(this)
      ensures ok ==> TransitionEdges(edges) == Filter(EdgeAvoids(name), TransitionEdges(old(edges)))
    {
      FilterSwap(IsTransition, EdgeAvoids(name), edges);
      hide SettledEditor, CommitForm, AsDrawn, Renderable, MutationOk, WithoutState, Filter;
      StateDeleted(value, nodes, edges, lastEmitted, edgeIdSeq, name);
      ok := Commit(Filter(NotNode(name), nodes), Filter(EdgeAvoids(name), edges), None);
    }

    /** A finished drag of nodes: their places reach the form, a dragged marker is pinned. */
    method OnNodeDragStop(moved: map<Name, Point>)
      requires Valid()
      modifies this`value, this`nodes, this`edges, this`lastEmitted
      ensures Valid()
      ensures if moved == map[] then unchanged(this) else Emitted(Dragged(old(Drawing()), moved))
      ensures TransitionEdges(edges) == TransitionEdges(old(edges))
    {
      hide SettledEditor, CommitForm, AsDrawn, Renderable, MutationOk, Dragged, MovesNode;
      if |moved| == 0 { return; }
      NodesDragged(value, nodes, edges, lastEmitted, edgeIdSeq, moved);
      var ok := Commit(Map(MovesNode(moved), nodes), edges, None);
    }

    // ------------------------------------------------------------ form-only edits

    method OnAddNodeAction(state: Name)
      requires Valid() && state in value.states
      modifies this`value, this`nodes, this`edges, this`lastEmitted
      ensures Valid() && nodes == old(nodes) && edges == old(edges)
      ensures exists target ::
        && FirstOther(old(value).states, state, target)
        && ActionsAre(old(value), state,
             ActionList(old(value), state) + [NodeAction(OnEntry, UpdateStatus, target)], value)
    {
      DefaultIsFirstOther(value.states, state);
      WithActionsIs(value, state,
        ActionsOf(value, state) + [NodeAction(OnEntry, UpdateStatus, DefaultActionValue(value.states, state))]);
      hide SettledEditor, FormOk, Unseen, GraphSignature, WithActions, ActionsOf, DefaultActionValue;
      Stamped(value, nodes, edges, lastEmitted, edgeIdSeq);
      ActionsOfLive(value, state);
      var actions :=
        ActionsOf(value, state) + [NodeAction(OnEntry, UpdateStatus, DefaultActionValue(value.states, state))];
      ActionsUnseen(value, state, actions);
      Lift(WithActions(value, state, actions));
    }

    method OnDeleteNodeAction(state: Name, index: nat)
      requires Valid() && state in value.states
      modifies this`value, this`nodes, this`edges, this`lastEmitted
      ensures Valid() && nodes == old(nodes) && edges == old(edges)
      ensures
        var was := ActionList(old(value), state);
        ActionsAre(old(value), state, if index < |was| then was[..index] + was[index + 1..] else was, value)
    {
      WithActionsIs(value, state, DropAt(ActionsOf(value, state), index));
      DropAtIs(ActionsOf(value, state), index);
      hide SettledEditor, FormOk, Unseen, GraphSignature, WithActions, ActionsOf, DropAt;
      Stamped(value, nodes, edges, lastEmitted, edgeIdSeq);
      ActionsOfLive(value, state);
      var actions := DropAt(ActionsOf(value, state), index);
      DroppedLive(ActionsOf(value, state), index, ToSet(value.states));
      ActionsUnseen(value, state, actions);
      Lift(WithActions(value, state, actions));
    }

    method OnEditNodeAction(state: Name, index: nat, patch: ActionPatch)
      requires Valid() && state in value.states
      requires index < |ActionsOf(value, state)| && patch.value.Some? ==> patch.value.value in value.states
      modifies this`value, this`nodes, this`edges, this`lastEmitted
      ensures Valid() && nodes == old(nodes) && edges == old(edges)
      ensures
        var was := ActionList(old(value), state);
        ActionsAre(old(value), state,
          if index >= |was| then was
          else
            var a := was[index];
            was[index := NodeAction(patch.execution.Or(a.execution), a.kind, patch.value.Or(a.value))],
          value)
    {
      WithActionsIs(value, state, PatchAt(ActionsOf(value, state), index, patch));
      PatchAtIs(ActionsOf(value, state), index, patch);
      hide SettledEditor, FormOk, Unseen, GraphSignature, WithActions, ActionsOf, PatchAt;
      Stamped(value, nodes, edges, lastEmitted, edgeIdSeq);
      ActionsOfLive(value, state);
      var actions := PatchAt(ActionsOf(value, state), index, patch);
      PatchedLive(ActionsOf(value, state), index, patch, ToSet(value.states));
      ActionsUnseen(value, state, actions);
      Lift(WithActions(value, state, actions));
    }

    method OnEditStateDescription(state: Name, text: string)
      requires Valid() && state in value.states
      modifies this`value, this`nodes, this`edges, this`lastEmitted
      ensures Valid() && nodes == old(nodes) && edges == old(edges)
      ensures value == old(value).(descriptions :=
        if HasInk(text) then old(value).descriptions[state := text] else old(value).descriptions - {state})
    {
      WithDescriptionIs(value, state, text);
      hide SettledEditor, FormOk, Unseen, GraphSignature, WithDescription;
      Stamped(value, nodes, edges, lastEmitted, edgeIdSeq);
      DescriptionUnseen(value, state, text);
      Lift(WithDescription(value, state, text));
    }

    // ------------------------------------------------------------ markers, links and modes

    /** Show a marker automatically, pin it, or hide it. An automatic one needs a state to stand beside. */
    method SetTerminal(key: MarkerKey, t: Terminal)
      requires Valid() && (t == Auto ==> value.states != [])
      modifies this`value, this`nodes, this`edges, this`lastEmitted
      ensures Valid()
      ensures value == old(value).(terminalNodes :=
        if key == StartKey then Terminals(t, old(value).terminalNodes.end)
        else Terminals(old(value).terminalNodes.start, t))
      ensures if GraphSignature(value) == GraphSignature(old(value)) then nodes == old(nodes) && edges == old(edges)
              else InPlace(value, old(Places()))
    {
      hide SettledEditor, FormOk, GraphSignature;
      Stamped(value, nodes, edges, lastEmitted, edgeIdSeq);
      var next := WithTerminal(value, key, t);
      TerminalsOk(value, next.terminalNodes, value.mode);
      RedrawInPlace(next);
    }

    method OnRemoveEndSource(source: Name)
      requires Valid()
      modifies this`value, this`nodes, this`edges, this`lastEmitted
      ensures Valid() && value == old(value).(endSources := Filter(Except(source), old(value).endSources))
      ensures source in old(value).endSources ==> InPlace(value, old(Places()))
    {
      hide SettledEditor, FormOk, GraphSignature, Renderable, Filter;
      Stamped(value, nodes, edges, lastEmitted, edgeIdSeq);
      UnlinkOk(value, source);
      UnlinkDiffers(value, source);
      RedrawInPlace(value.(endSources := Filter(Except(source), value.endSources)));
    }

    method OnRemoveStartSource(target: Name)
      requires Valid()
      modifies this`value, this`nodes, this`edges, this`lastEmitted
      ensures Valid() && value == old(value).(startSources := Filter(Except(target), old(value).startSources))
      ensures target in old(value).startSources ==> InPlace(value, old(Places()))
    {
      hide SettledEditor, FormOk, GraphSignature, Renderable, Filter;
      Stamped(value, nodes, edges, lastEmitted, edgeIdSeq);
      UnlinkOk(value, target);
      UnlinkDiffers(value, target);
      RedrawInPlace(value.(startSources := Filter(Except(target), value.startSources)));
    }

    method UseDefaultFlow()
      requires Valid()
      modifies this`value, this`nodes, this`edges, this`lastEmitted
      ensures Valid() && value == DefaultForm()
    {
      hide SettledEditor, FormOk, GraphSignature, Renderable;
      DefaultFormOk();
      var redrawn := Settle(DefaultForm());
    }

    method UseCustomFlow()
      requires Valid()
      modifies this`value, this`nodes, this`edges, this`lastEmitted
      ensures Valid() && value == old(value).(mode := CustomMode) && nodes == old(nodes) && edges == old(edges)
    {
      hide SettledEditor, FormOk, Renderable;
      Stamped(value, nodes, edges, lastEmitted, edgeIdSeq);
      TerminalsOk(value, value.terminalNodes, CustomMode);
      RendersInAnyMode(value);
      var redrawn := Settle(value.(mode := CustomMode));
    }

    // ------------------------------------------------------------ runs

    /** What the canvas, the panel and the parent can do in the current state. */
    predicate Enabled(e: Event)
      reads this
    {
      match e
      case Connect(from, to, _, _) => OnCanvas(value, from) && OnCanvas(value, to)
      case EndConnect(o) => o.fromId.Some? ==> OnCanvas(value, o.fromId.value)
      case AddTransitionFrom(s) => s in value.states
      case EditLabel(_, _) => true
      case EditPolicy(_, _) => true
      case DeleteTransition(_) => true
      case RerouteTransition(_, from, to) => from in value.states && to in value.states
      case AddState(_, name) => name.Some? ==> name.value in DEFAULT_STATES
      case RenameState(from, _) => from in value.states
      case DeleteState(s) => s in value.states
      case DragStop(_) => true
      case AddAction(s) => s in value.states
      case DeleteAction(s, _) => s in value.states
      case EditAction(s, i, p) =>
        s in value.states && (i < |ActionsOf(value, s)| && p.value.Some? ==> p.value.value in value.states)
      case EditDescription(s, _) => s in value.states
      case ChangeTerminal(_, t) => t == Auto ==> value.states != []
      case Unlink(_, _) => true
      case UseDefault => true
      case UseCustom => true
      case NewValue(form) => FormOk(form) && Renderable(form)
    }

    /** One event, whatever it is, leaves the editor settled. */
    method Handle(e: Event)
      requires Valid() && Enabled(e)
      modifies this
      ensures Valid()
    {
      hide SettledEditor, FormOk, Renderable, OnCanvas, Emitted, InPlace, Drawing, Places, Ids, DrawnAnew, OneMoreEdge,
        NewEdge, WithTransition, DecideConnectEnd, DefaultHandlesFor, HasPair, FirstUnlinked, Relabelled, WithPolicy,
        Dropped, Rerouted, EdgeAt, IsEdge, TransitionEdges, Filter, WithState, NextFree, StateRenamedIn, WithoutState,
        Dragged, WithActions, ActionsOf, DropAt, PatchAt, WithDescription, WithTerminal, GraphSignature,
        IsTerminalNodeId, IsBlank, Upper, Trim, DefaultForm;
      match e {
        case Connect(from, to, source, target) => OnConnect(from, to, source, target);
        case EndConnect(o) => var message := OnConnectEnd(o);
        case AddTransitionFrom(s) => OnAddTransitionFrom(s);
        case EditLabel(id, text) => OnEditTransitionLabel(id, text);
        case EditPolicy(id, policy) => OnEditTransitionRequeuePolicy(id, policy);
        case DeleteTransition(id) => OnDeleteTransition(id);
        case RerouteTransition(id, from, to) => OnRerouteTransition(id, from, to);
        case AddState(at, name) => var added := AddStateAt(at, name);
        case RenameState(from, typed) =>
          TypedIsNoMarker(typed);
          OnRenameState(from, Upper(typed));
        case DeleteState(s) => var ok := OnDeleteState(s);
        case DragStop(moved) => OnNodeDragStop(moved);
        case AddAction(s) => OnAddNodeAction(s);
        case DeleteAction(s, i) => OnDeleteNodeAction(s, i);
        case EditAction(s, i, p) => OnEditNodeAction(s, i, p);
        case EditDescription(s, text) => OnEditStateDescription(s, text);
        case ChangeTerminal(key, t) => SetTerminal(key, t);
        case Unlink(key, s) => if key == EndKey { OnRemoveEndSource(s); } else { OnRemoveStartSource(s); }
        case UseDefault => UseDefaultFlow();
        case UseCustom => UseCustomFlow();
        case NewValue(form) => var redrawn := Settle(form);
      }
    }

    /** Every run: whatever happens, in whatever order, the editor is settled after each step. */
    method Run(events: seq<Event>)
      requires Valid()
      modifies this
      ensures Valid()
    {
      hide SettledEditor, Enabled;
      for i := 0 to |events|
        invariant Valid()
      {
        if Enabled(events[i]) {
          Handle(events[i]);
        }
      }
    }
  }

  /** What is drawn anew stands where `Positions` says. */
  lemma StandsAnew(form: Form, kept: map<Name, Point>, auto: map<Name, Point>)
    requires auto.Keys == ToSet(form.states)
    ensures var at := Positions(form, kept, auto);
      at.Keys == ToSet(form.states) && forall s :: s in form.states ==> StandsWhere(form, kept, auto, s, at[s])
    ensures DrawnForm(form, Positions(form, kept, auto)).positions == Positions(form, kept, auto)
  {
    forall s | s in form.states {
      PositionStands(form, kept, auto, s);
    }
    hide PositionOf, StandsWhere;
  }

  lemma AllAutomatic(form: Form, auto: map<Name, Point>)
    requires auto.Keys == ToSet(form.states)
    ensures form.positions == map[] ==> Positions(form, map[], auto) == auto
  {}

  /** The actions of a state; none when it has no entry. */
  ghost function ActionList(f: Form, state: Name): seq<NodeAction> {
    if state in f.nodeActions then f.nodeActions[state] else []
  }

  /** The state has these actions now, and nothing else has changed. */
  ghost predicate ActionsAre(before: Form, state: Name, actions: seq<NodeAction>, after: Form) {
    after == before.(nodeActions := before.nodeActions[state := actions])
  }

  /** A new transition at the end, without a label, that keeps the queue order. */
  ghost function WithTransition(d: Form, from: Name, to: Name, source: Side, target: Side): Form {
    d.(transitions := d.transitions + [Transition(from, to, "", DEFAULT_POLICY, Some(source), Some(target))])
  }

  /** A self-loop is only decided on a state of the canvas that has none. */
  lemma LoopDecided(f: Form, o: ConnectEnd, edges: seq<FlowEdge>)
    requires o.fromId.Some? ==> OnCanvas(f, o.fromId.value)
    ensures
      var d := DecideConnectEnd(o, edges);
      d.SelfLoop? ==> d.state in f.states && !IsDuplicateTransition(edges, d.state, d.state)
  {}

  /** Deleting the only state fails while a marker is automatic. */
  lemma LastDeleteFails()
    ensures
      var f := Form(CustomMode, ["A"], [], map[], map[], map[], DEFAULT_TERMINALS, [], []);
      FormOk(f) && Renderable(f) && !Renderable(WithoutState(f, "A"))
  {
    var f := Form(CustomMode, ["A"], [], map[], map[], map[], DEFAULT_TERMINALS, [], []);
    assert "A"[0] == 'A' && f.states == ["A"];
    assert ["A"][..0] == [];
  }

  /** The first state, in order, that `source` does not lead to yet. */
  ghost predicate FirstUnlinked(f: Form, source: Name, to: Name) {
    exists i :: 0 <= i < |f.states| && f.states[i] == to && !HasPair(f.transitions, source, to)
      && forall j :: 0 <= j < i ==> HasPair(f.transitions, source, f.states[j])
  }

  /** The numbered name with the least number among those not taken and not standard. */
  ghost predicate NextFree(taken: seq<Name>, name: Name) {
    && name !in taken && name !in DEFAULT_STATES
    && (exists i: nat :: i >= 1 && name == StatusName(i) && AllTaken(taken, i))
  }

  ghost predicate AllTaken(taken: seq<Name>, i: nat) {
    forall j: nat :: 1 <= j < i ==> StatusName(j) in taken || StatusName(j) in DEFAULT_STATES
  }

  lemma ConnectedNew(f: Form, nodes: seq<FlowNode>, edges: seq<FlowEdge>, last: Signature, next: nat, from: Name,
    to: Name, source: Side, target: Side)
    requires SettledEditor(f, nodes, edges, last, next)
    requires from in f.states && to in f.states && !HasPair(f.transitions, from, to)
    ensures
      var after := edges + [NewEdge(MintedId(next), from, to, source, target)];
      && MutationOk(nodes, after, next + 1)
      && CommitForm(f, nodes, after, None) == WithTransition(AsDrawn(f, nodes, edges), from, to, source, target)
      && Renderable(CommitForm(f, nodes, after, None))
  {
    GuardSeesPairs(f, nodes, edges, last, next, from, to);
    hide SettledEditor, CommitForm, AsDrawn, Renderable, MutationOk, MintedId, HasPair, IsDuplicateTransition;
    Connected(f, nodes, edges, last, next, NewEdge(MintedId(next), from, to, source, target));
  }

  /** The transition edges are those of before, ids included, and one new one. */
  ghost predicate OneMoreEdge(before: seq<FlowEdge>, e: FlowEdge, after: seq<FlowEdge>) {
    TransitionEdges(after) == TransitionEdges(before) + [e]
  }

  lemma EdgeAppended(nodes: seq<FlowNode>, edges: seq<FlowEdge>, kept: seq<FlowNode>, was: seq<FlowEdge>,
    e: FlowEdge)
    requires KeptFrom(nodes, edges, kept, was + [e]) && IsTransition(e)
    ensures OneMoreEdge(was, e, edges)
  {
    hide Filter;
    FilterLast(IsTransition, was, e);
  }

  /** A canvas kept from a mutated one has its edge ids. */
  lemma SameIds(nodes: seq<FlowNode>, edges: seq<FlowEdge>, nextNodes: seq<FlowNode>, nextEdges: seq<FlowEdge>)
    requires KeptFrom(nodes, edges, nextNodes, nextEdges)
    ensures EdgeIds(edges) == EdgeIds(nextEdges)
  {
    hide Filter, Map;
  }

  function NewEdge(id: string, from: Name, to: Name, source: Side, target: Side): FlowEdge {
    FlowEdge(id, from, to, TransitionEdge, "", DEFAULT_POLICY, Some(source), Some(target))
  }

  ghost predicate IsEdge(edges: seq<FlowEdge>, id: string) {
    exists i :: 0 <= i < |edges| && edges[i].id == id
  }

  lemma FoundEdge(edges: seq<FlowEdge>, id: string, found: Option<FlowEdge>)
    requires found == Find((e: FlowEdge) => e.id == id, edges)
    ensures found.Some? <==> IsEdge(edges, id)
    ensures found.Some? ==> found.value in edges
  {}

  lemma LinkTouchesMarker(f: Form, e: FlowEdge)
    requires IsLinkOf(f, e)
    ensures IsTerminalNodeId(e.source) || IsTerminalNodeId(e.target)
  {}

  /** An edge between two states is a transition, so the pair of its own ends is taken. */
  lemma SelfPair(f: Form, nodes: seq<FlowNode>, edges: seq<FlowEdge>, last: Signature, next: nat, e: FlowEdge)
    requires SettledEditor(f, nodes, edges, last, next) && e in edges && e.source in f.states && e.target in f.states
    ensures IsDuplicateTransition(edges, e.source, e.target)
  {
    assert FormOk(f) && Shows(f, nodes, edges);
    NamesArePlain(f);
    hide SettledEditor, Shows, FormOk, MarkerEdges, IsLinkOf;
    if e.kind == TerminalEdge {
      TerminalEdgesAre(f, nodes, edges, e);
      LinkEdgeOf(f, e);
      LinkTouchesMarker(f, e);
    }
  }

  lemma ReloadKeepsSignature(f: Form)
    requires f.mode == CustomMode
    ensures GraphSignature(Load(Save(f))) == GraphSignature(f) <==> SidesAgreeOnKeys(f.transitions)
    ensures MeetsRules(f) ==> SidesAgreeOnKeys(f.transitions)
  {
    SaveThenLoad(f);
    if MeetsRules(f) {
      DistinctKeysAgree(f.transitions);
    }
  }

  lemma RendersInAnyMode(f: Form)
    requires Renderable(f)
    ensures Renderable(f.(mode := CustomMode)) && GraphSignature(f.(mode := CustomMode)) == GraphSignature(f)
  {}

  lemma UnlinkDiffers(f: Form, s: Name)
    ensures s in f.endSources ==> GraphSignature(f.(endSources := Filter(Except(s), f.endSources))) != GraphSignature(f)
    ensures s in f.startSources ==>
      GraphSignature(f.(startSources := Filter(Except(s), f.startSources))) != GraphSignature(f)
  {
    Unlisted(f.endSources, s);
    Unlisted(f.startSources, s);
  }

  lemma Unlisted(names: seq<Name>, s: Name)
    ensures s in names ==> multiset(Filter(Except(s), names)) != multiset(names)
  {
    var kept := Filter(Except(s), names);
    assert s in names <==> s in multiset(names);
    assert s in kept <==> s in multiset(kept);
  }

  lemma Stamped(f: Form, nodes: seq<FlowNode>, edges: seq<FlowEdge>, last: Signature, next: nat)
    requires SettledEditor(f, nodes, edges, last, next)
    ensures FormOk(f) && Renderable(f) && last == GraphSignature(f)
    ensures forall s :: s in f.states ==> !IsTerminalNodeId(s)
  {}

  /** The canvas of a lifted form: the mutated states and transitions, with the markers drawn anew. */
  method Rebuild(f: Form, form: Form, nextNodes: seq<FlowNode>, nextEdges: seq<FlowEdge>,
    ghost rename: Option<Rename>, ghost next: nat) returns (canvas: Option<Canvas>)
    requires MutationOk(nextNodes, nextEdges, next) && form == CommitForm(f, nextNodes, nextEdges, rename)
    ensures canvas.Some? <==> Renderable(form)
    ensures canvas.Some? ==>
      && SettledEditor(form, canvas.value.nodes, canvas.value.edges, GraphSignature(form), next)
      && AsDrawn(form, canvas.value.nodes, canvas.value.edges) == form
      && KeptFrom(canvas.value.nodes, canvas.value.edges, nextNodes, nextEdges)
  {
    hide *;
    var rebuilt, auto := Draw(form, map[]);
    DrawnOrThrown(form, map[], auto);
    if rebuilt.None? {
      return None;
    }
    var keptNodes := Filter(IsState, nextNodes) + Filter(NotState, rebuilt.value.nodes);
    var keptEdges := Filter(IsTransition, nextEdges) + Filter(NotTransition, rebuilt.value.edges);
    CommittedCanvas(f, nextNodes, nextEdges, rename, auto, form, rebuilt.value, keptNodes, keptEdges, next);
    KeptMeans(keptNodes, keptEdges, nextNodes, nextEdges);
    canvas := Some(Canvas(keptNodes, keptEdges));
  }

  /** The canvas holds the state nodes and the transition edges of a mutated one, ids included. */
  ghost predicate KeptFrom(nodes: seq<FlowNode>, edges: seq<FlowEdge>, nextNodes: seq<FlowNode>,
    nextEdges: seq<FlowEdge>)
  {
    && StateNodes(nodes) == StateNodes(nextNodes)
    && TransitionEdges(edges) == TransitionEdges(nextEdges)
  }

  lemma KeptMeans(nodes: seq<FlowNode>, edges: seq<FlowEdge>, nextNodes: seq<FlowNode>, nextEdges: seq<FlowEdge>)
    ensures KeptFrom(nodes, edges, nextNodes, nextEdges) <==>
      Filter(IsState, nodes) == Filter(IsState, nextNodes)
      && Filter(IsTransition, edges) == Filter(IsTransition, nextEdges)
  {}

  lemma DrawnOrThrown(f: Form, fallback: map<Name, Point>, auto: map<Name, Point>)
    ensures FormToFlowWithMarkers(f, fallback, auto).Some? <==> Renderable(f)
  {}
}
