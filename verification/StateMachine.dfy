/** The editable state-machine form: its data, its change signature, its wire mapping and its rules. */
module StateMachine {
  import opened Sequences
  import opened Text

  type Name = string

  datatype Point = Point(x: real, y: real)
  datatype Side = Top | Right | Bottom | Left

  /** A JavaScript number where only finiteness and value matter. */
  datatype Num = Finite(value: real) | NotFinite

  datatype PolicyKind = Keep | ToBack | BackN
  datatype Policy = Policy(kind: PolicyKind, n: Option<Num>)

  datatype Transition = Transition(
    from: Name, to: Name, actionLabel: string, requeuePolicy: Policy,
    sourceSide: Option<Side>, targetSide: Option<Side>)

  datatype Mode = DefaultMode | CustomMode
  datatype Terminal = Auto | Hidden | Pinned(at: Point)
  datatype Terminals = Terminals(start: Terminal, end: Terminal)

  /** Today every action updates a status; the code already treats the value of any other kind as opaque. */
  datatype ActionKind = UpdateStatus | OtherKind
  datatype Execution = OnEntry | OnExit
  datatype NodeAction = NodeAction(execution: Execution, kind: ActionKind, value: string)

  datatype Form = Form(
    mode: Mode, states: seq<Name>, transitions: seq<Transition>, positions: map<Name, Point>,
    nodeActions: map<Name, seq<NodeAction>>, descriptions: map<Name, string>, terminalNodes: Terminals,
    endSources: seq<Name>, startSources: seq<Name>)

  const DEFAULT_POLICY := Policy(Keep, None)
  const DEFAULT_SOURCE_SIDE := Right
  const DEFAULT_TARGET_SIDE := Left
  const DEFAULT_TERMINALS := Terminals(Auto, Auto)
  const WAITING_STATE: Name := "WAITING"
  const DEFAULT_STATES: seq<Name> := ["WAITING", "CALLING", "SERVING", "SKIPPED", "COMPLETED"]
  const DEFAULT_TRANSITIONS: seq<Transition> := [
    Plain("WAITING", "CALLING", "Panggil Berikutnya"),
    Plain("CALLING", "SERVING", "Mulai Melayani"),
    Plain("CALLING", "SKIPPED", "Lewati / Absen"),
    Plain("SKIPPED", "CALLING", "Panggil Ulang"),
    Plain("SERVING", "COMPLETED", "Selesai Layan")]

  function Plain(from: Name, to: Name, action: string): Transition {
    Transition(from, to, action, DEFAULT_POLICY, None, None)
  }

  function DefaultForm(): Form {
    Form(DefaultMode, DEFAULT_STATES, DEFAULT_TRANSITIONS, map[], map[], map[], DEFAULT_TERMINALS, [], [])
  }

  // ---------------------------------------------------------------- signature

  datatype CanonPolicy = CanonKeep | CanonToBack | CanonBackN(n: real)
  datatype CanonTransition = CanonTransition(
    from: Name, to: Name, actionLabel: string, policy: CanonPolicy, source: Side, target: Side)

  /** What change detection compares. Positions and the source lists are order-insensitive. */
  datatype Signature = Signature(
    states: seq<Name>, transitions: seq<CanonTransition>, positions: map<Name, Point>, terminals: Terminals,
    endSources: multiset<Name>, startSources: multiset<Name>)

  function NormalizePolicy(p: Policy): CanonPolicy {
    match p.kind
    case Keep => CanonKeep
    case ToBack => CanonToBack
    case BackN => CanonBackN(if p.n.Some? && p.n.value.Finite? then p.n.value.value else 0.0)
  }

  function SourceOf(t: Transition): Side { t.sourceSide.Or(DEFAULT_SOURCE_SIDE) }

  function TargetOf(t: Transition): Side { t.targetSide.Or(DEFAULT_TARGET_SIDE) }

  predicate IsDefaultSides(t: Transition) {
    SourceOf(t) == DEFAULT_SOURCE_SIDE && TargetOf(t) == DEFAULT_TARGET_SIDE
  }

  function Canon(t: Transition): CanonTransition {
    CanonTransition(t.from, t.to, t.actionLabel, NormalizePolicy(t.requeuePolicy), SourceOf(t), TargetOf(t))
  }

  function GraphSignature(f: Form): Signature {
    Signature(f.states, Map(Canon, f.transitions), f.positions, f.terminalNodes, multiset(f.endSources),
      multiset(f.startSources))
  }

  /** How many places back a policy asks for; what is absent or no number counts as none. */
  ghost function PlacesBack(p: Policy): real {
    match p.n
    case Some(Finite(v)) => v
    case _ => 0.0
  }

  ghost predicate SamePolicy(p: Policy, q: Policy) {
    p.kind == q.kind && (p.kind == BackN ==> PlacesBack(p) == PlacesBack(q))
  }

  /** Two transitions that a manager cannot tell apart on the canvas; a side nobody chose is right or left. */
  ghost predicate LookAlike(t: Transition, u: Transition) {
    && t.from == u.from && t.to == u.to && t.actionLabel == u.actionLabel
    && SamePolicy(t.requeuePolicy, u.requeuePolicy)
    && t.sourceSide.Or(Right) == u.sourceSide.Or(Right) && t.targetSide.Or(Left) == u.targetSide.Or(Left)
  }

  /** Everything but the node actions and the descriptions agrees; the order of the source lists does not matter. */
  ghost predicate SameGraph(f: Form, g: Form) {
    && f.states == g.states && f.positions == g.positions && f.terminalNodes == g.terminalNodes
    && multiset(f.endSources) == multiset(g.endSources) && multiset(f.startSources) == multiset(g.startSources)
    && |f.transitions| == |g.transitions|
    && forall i :: 0 <= i < |f.transitions| ==> LookAlike(f.transitions[i], g.transitions[i])
  }

  lemma SameCanon(t: Transition, u: Transition)
    ensures Canon(t) == Canon(u) <==> LookAlike(t, u)
  {}

  /** The signature tells exactly these differences apart. */
  lemma SignatureMeans(f: Form, g: Form)
    ensures GraphSignature(f) == GraphSignature(g) <==> SameGraph(f, g)
  {
    var a, b := Map(Canon, f.transitions), Map(Canon, g.transitions);
    forall t, u {
      SameCanon(t, u);
    }
    hide Canon, LookAlike;
    if a == b {
      forall i | 0 <= i < |f.transitions| ensures LookAlike(f.transitions[i], g.transitions[i]) {
        assert a[i] == b[i];
      }
    }
    if SameGraph(f, g) {
      assert a == b;
    }
  }

  /** The prefill inference: is this the standard graph, untouched? */
  predicate IsDefaultGraph(f: Form) {
    && f.positions == map[]
    && f.terminalNodes.start == Auto && f.terminalNodes.end == Auto
    && |f.endSources| == 0 && |f.startSources| == 0
    && |f.states| == |DEFAULT_STATES| && |f.transitions| == |DEFAULT_TRANSITIONS|
    && (forall i :: 0 <= i < |f.states| ==> f.states[i] == DEFAULT_STATES[i])
    && (forall i :: 0 <= i < |f.transitions| ==>
          var t, d := f.transitions[i], DEFAULT_TRANSITIONS[i];
          && t.from == d.from && t.to == d.to && t.actionLabel == d.actionLabel
          && NormalizePolicy(t.requeuePolicy) == NormalizePolicy(d.requeuePolicy) && IsDefaultSides(t))
  }

  lemma DefaultSidesCanon(i: nat)
    requires i < |DEFAULT_TRANSITIONS|
    ensures DEFAULT_TRANSITIONS[i].sourceSide == None && DEFAULT_TRANSITIONS[i].targetSide == None
  {}

  /** Mode inference and change detection agree on what the standard graph is. */
  lemma DefaultExactlyBySignature(f: Form)
    ensures IsDefaultGraph(f) <==> GraphSignature(f) == GraphSignature(DefaultForm())
    ensures IsDefaultGraph(f) <==> SameGraph(f, DefaultForm())
  {
    SignatureMeans(f, DefaultForm());
    hide SameGraph;
    var s, d := GraphSignature(f), GraphSignature(DefaultForm());
    forall i | 0 <= i < |DEFAULT_TRANSITIONS| {
      DefaultSidesCanon(i);
    }
    if IsDefaultGraph(f) {
      assert s.transitions == d.transitions;
      assert s.states == d.states;
      assert f.endSources == [] && f.startSources == [];
    }
    if s == d {
      assert |multiset(f.endSources)| == 0 && |multiset(f.startSources)| == 0;
      forall i | 0 <= i < |f.transitions| ensures Canon(f.transitions[i]) == Canon(DEFAULT_TRANSITIONS[i]) {
        assert s.transitions[i] == d.transitions[i];
      }
    }
  }

  // ---------------------------------------------------------------- the wire

  datatype WireTransition = WireTransition(from: Name, to: Name, actionLabel: string, requeuePolicy: Option<Policy>)
  datatype Sides = Sides(source: Side, target: Side)

  /** The saved configuration: default routing and default policies are left out, `mode` is not sent. */
  datatype Wire = Wire(
    states: seq<Name>, transitions: seq<WireTransition>, descriptions: map<Name, string>,
    edgeRouting: map<string, Sides>, positions: map<Name, Point>, nodeActions: map<Name, seq<NodeAction>>,
    terminalNodes: Terminals, endSources: seq<Name>, startSources: seq<Name>)

  function EdgeKey(from: Name, to: Name): string { from + "->" + to }

  function KeyOf(t: Transition): string { EdgeKey(t.from, t.to) }

  function ToWireTransition(t: Transition): WireTransition {
    var p := t.requeuePolicy;
    WireTransition(t.from, t.to, t.actionLabel,
      if p.kind == Keep then None
      else if p.kind == BackN && p.n.Some? then Some(p)
      else Some(Policy(p.kind, None)))
  }

  /** The sparse routing map: the last transition of each key that is not on the default sides. */
  function EdgeRouting(ts: seq<Transition>): map<string, Sides> {
    if ts == [] then map[] else
      var t := ts[|ts| - 1];
      var before := EdgeRouting(ts[..|ts| - 1]);
      if IsDefaultSides(t) then before else before[KeyOf(t) := Sides(SourceOf(t), TargetOf(t))]
  }

  method BuildEdgeRouting(ts: seq<Transition>) returns (layout: map<string, Sides>)
    ensures layout == EdgeRouting(ts)
  {
    layout := map[];
    for i := 0 to |ts|
      invariant layout == EdgeRouting(ts[..i])
    {
      assert ts[..i + 1][..i] == ts[..i];
      var t := ts[i];
      if IsDefaultSides(t) {
        continue;
      }
      layout := layout[KeyOf(t) := Sides(SourceOf(t), TargetOf(t))];
    }
    assert ts[..|ts|] == ts;
  }

  function StripEmpty(descriptions: map<Name, string>): map<Name, string> {
    map k | k in descriptions && !IsBlank(descriptions[k]) :: descriptions[k]
  }

  function Save(f: Form): Wire {
    var graph := if f.mode == DefaultMode then DefaultForm() else f;
    Wire(graph.states, Map(ToWireTransition, graph.transitions), StripEmpty(graph.descriptions),
      EdgeRouting(f.transitions), f.positions, f.nodeActions, f.terminalNodes, f.endSources, f.startSources)
  }

  /** A text with something in it to read. */
  ghost predicate HasInk(text: string) { exists i :: 0 <= i < |text| && !IsSpace(text[i]) }

  /** What is sent of the descriptions of a custom machine: those with a text to read, as they are. */
  ghost predicate Inked(before: map<Name, string>, after: map<Name, string>) {
    && (forall k :: k in after <==> k in before && HasInk(before[k]))
    && (forall k :: k in after ==> after[k] == before[k])
  }

  lemma StripKeepsInk(descriptions: map<Name, string>)
    ensures Inked(descriptions, StripEmpty(descriptions))
  {}

  /** A policy on the wire: none for keeping the order, a count only for going back that has one. */
  ghost predicate SentPolicy(p: Policy, w: Option<Policy>) {
    match p.kind
    case Keep => w == None
    case ToBack => w == Some(Policy(ToBack, None))
    case BackN => w == Some(Policy(BackN, p.n))
  }

  /** The routing map is empty exactly when every transition leaves to the right and enters from the left. */
  lemma {:induction false} NothingRouted(ts: seq<Transition>)
    ensures EdgeRouting(ts) == map[] <==>
      forall t :: t in ts ==> t.sourceSide.Or(Right) == Right && t.targetSide.Or(Left) == Left
  {
    if ts != [] {
      var init, last := ts[..|ts| - 1], ts[|ts| - 1];
      NothingRouted(init);
      assert ts == init + [last];
      assert !IsDefaultSides(last) ==> KeyOf(last) in EdgeRouting(ts);
    }
  }

  /** The layout, the actions, the markers and the links are sent as the draft has them, in either mode. */
  ghost predicate SentAsDrafted(f: Form, w: Wire) {
    && w.positions == f.positions && w.nodeActions == f.nodeActions && w.terminalNodes == f.terminalNodes
    && w.endSources == f.endSources && w.startSources == f.startSources
    && (w.edgeRouting == map[] <==>
          forall t :: t in f.transitions ==> t.sourceSide.Or(Right) == Right && t.targetSide.Or(Left) == Left)
  }

  /** What a save sends of a custom machine. */
  lemma SavedCustom(f: Form)
    requires f.mode == CustomMode
    ensures
      var w := Save(f);
      && w.states == f.states && Inked(f.descriptions, w.descriptions) && SentAsDrafted(f, w)
      && |w.transitions| == |f.transitions|
      && forall i :: 0 <= i < |f.transitions| ==>
           var t, u := f.transitions[i], w.transitions[i];
           u.from == t.from && u.to == t.to && u.actionLabel == t.actionLabel
           && SentPolicy(t.requeuePolicy, u.requeuePolicy)
  {
    StripKeepsInk(f.descriptions);
    NothingRouted(f.transitions);
    hide StripEmpty, Inked, EdgeRouting;
  }

  /**
   * What a save sends in the standard mode: the standard flow without policies and descriptions, whatever graph the
   * draft holds. The routing map is still the draft's, so it is empty only when that is routed by default.
   */
  lemma SavedDefault(f: Form)
    requires f.mode == DefaultMode
    ensures
      var w := Save(f);
      && w.states == ["WAITING", "CALLING", "SERVING", "SKIPPED", "COMPLETED"] && w.descriptions == map[]
      && SentAsDrafted(f, w)
      && w.transitions ==
           [WireTransition("WAITING", "CALLING", "Panggil Berikutnya", None),
            WireTransition("CALLING", "SERVING", "Mulai Melayani", None),
            WireTransition("CALLING", "SKIPPED", "Lewati / Absen", None),
            WireTransition("SKIPPED", "CALLING", "Panggil Ulang", None),
            WireTransition("SERVING", "COMPLETED", "Selesai Layan", None)]
  {
    assert forall i :: 0 <= i < 5 ==>
      var t := DEFAULT_TRANSITIONS[i];
      t.requeuePolicy == DEFAULT_POLICY && Save(f).transitions[i] == WireTransition(t.from, t.to, t.actionLabel, None);
    NothingRouted(f.transitions);
    hide EdgeRouting;
    assert StripEmpty(map[]) == map[];
  }

  function MergeSides(t: WireTransition, layout: map<string, Sides>): Transition {
    var key := EdgeKey(t.from, t.to);
    Transition(t.from, t.to, t.actionLabel, t.requeuePolicy.Or(DEFAULT_POLICY),
      if key in layout then Some(layout[key].source) else None,
      if key in layout then Some(layout[key].target) else None)
  }

  function Load(w: Wire): Form {
    var f := Form(CustomMode, w.states, Map((t: WireTransition) => MergeSides(t, w.edgeRouting), w.transitions),
      w.positions, w.nodeActions, w.descriptions, w.terminalNodes, w.endSources, w.startSources);
    f.(mode := if IsDefaultGraph(f) then DefaultMode else CustomMode)
  }

  /** Transitions that share a routing key are drawn on the same sides. */
  ghost predicate SidesAgreeOnKeys(ts: seq<Transition>) {
    forall i, j :: 0 <= i < |ts| && 0 <= j < |ts| && KeyOf(ts[i]) == KeyOf(ts[j]) ==>
      SourceOf(ts[i]) == SourceOf(ts[j]) && TargetOf(ts[i]) == TargetOf(ts[j])
  }

  ghost function RoutedSource(layout: map<string, Sides>, key: string): Side {
    if key in layout then layout[key].source else DEFAULT_SOURCE_SIDE
  }

  ghost function RoutedTarget(layout: map<string, Sides>, key: string): Side {
    if key in layout then layout[key].target else DEFAULT_TARGET_SIDE
  }

  /** When the sides agree, the map gives back the sides of every transition. */
  lemma {:induction false} RoutingFinds(ts: seq<Transition>, t: Transition)
    requires t in ts && SidesAgreeOnKeys(ts)
    ensures RoutedSource(EdgeRouting(ts), KeyOf(t)) == SourceOf(t)
    ensures RoutedTarget(EdgeRouting(ts), KeyOf(t)) == TargetOf(t)
  {
    var init, last := ts[..|ts| - 1], ts[|ts| - 1];
    if t in init {
      RoutingFinds(init, t);
    } else if IsDefaultSides(last) {
      RoutingMisses(init, KeyOf(t));
    }
  }

  /** No entry is made for a key whose transitions are all on the default sides. */
  lemma {:induction false} RoutingMisses(ts: seq<Transition>, key: string)
    requires forall t :: t in ts && KeyOf(t) == key ==> IsDefaultSides(t)
    ensures key !in EdgeRouting(ts)
  {
    if ts != [] {
      RoutingMisses(ts[..|ts| - 1], key);
    }
  }

  lemma ReloadedTransition(t: Transition, layout: map<string, Sides>)
    ensures Canon(MergeSides(ToWireTransition(t), layout)) ==
      CanonTransition(t.from, t.to, t.actionLabel, NormalizePolicy(t.requeuePolicy),
        RoutedSource(layout, KeyOf(t)), RoutedTarget(layout, KeyOf(t)))
  {}

  /** The transitions as a save and a load give them back. */
  function ReloadAll(ts: seq<Transition>): (us: seq<Transition>)
    ensures |us| == |ts|
    ensures forall i :: 0 <= i < |ts| ==> us[i] == MergeSides(ToWireTransition(ts[i]), EdgeRouting(ts))
  {
    Map((t: Transition) => MergeSides(ToWireTransition(t), EdgeRouting(ts)), ts)
  }

  lemma ReloadedParts(f: Form)
    requires f.mode == CustomMode
    ensures
      var g := Load(Save(f));
      && g.states == f.states && g.transitions == ReloadAll(f.transitions) && g.positions == f.positions
      && g.terminalNodes == f.terminalNodes && g.endSources == f.endSources && g.startSources == f.startSources
      && g.nodeActions == f.nodeActions && g.descriptions == StripEmpty(f.descriptions)
      && (g.mode == DefaultMode <==> IsDefaultGraph(g))
  {
    hide MergeSides, ToWireTransition, EdgeRouting, StripEmpty, NormalizePolicy, IsDefaultSides;
  }

  lemma RoutedExactly(ts: seq<Transition>)
    ensures Map(Canon, ReloadAll(ts)) == Map(Canon, ts) <==> SidesAgreeOnKeys(ts)
  {
    var layout := EdgeRouting(ts);
    var a, b := Map(Canon, ts), Map(Canon, ReloadAll(ts));
    forall i | 0 <= i < |ts| {
      ReloadedTransition(ts[i], layout);
    }
    hide MergeSides, ToWireTransition, EdgeRouting, RoutedSource, RoutedTarget, KeyOf, NormalizePolicy;
    if SidesAgreeOnKeys(ts) {
      forall i | 0 <= i < |ts| ensures a[i] == b[i] {
        RoutingFinds(ts, ts[i]);
      }
    }
    if a == b {
      forall i | 0 <= i < |ts|
        ensures SourceOf(ts[i]) == RoutedSource(layout, KeyOf(ts[i]))
        ensures TargetOf(ts[i]) == RoutedTarget(layout, KeyOf(ts[i]))
      {
        assert a[i] == b[i];
      }
    }
  }

  lemma SignatureReloaded(f: Form, g: Form)
    requires g.states == f.states && g.transitions == ReloadAll(f.transitions) && g.positions == f.positions
    requires g.terminalNodes == f.terminalNodes && g.endSources == f.endSources && g.startSources == f.startSources
    ensures GraphSignature(g) == GraphSignature(f) <==>
      Map(Canon, ReloadAll(f.transitions)) == Map(Canon, f.transitions)
  {
    hide Map, ReloadAll;
  }

  /** Saving a custom form and loading it back keeps the signature exactly when transitions that share a key agree. */
  lemma SaveThenLoad(f: Form)
    requires f.mode == CustomMode
    ensures GraphSignature(Load(Save(f))) == GraphSignature(f) <==> SidesAgreeOnKeys(f.transitions)
    ensures Load(Save(f)).nodeActions == f.nodeActions && Inked(f.descriptions, Load(Save(f)).descriptions)
    ensures SameGraph(Load(Save(f)), f) <==> SidesAgreeOnKeys(f.transitions)
    ensures Load(Save(f)).mode == DefaultMode <==> GraphSignature(Load(Save(f))) == GraphSignature(DefaultForm())
  {
    ReloadedParts(f);
    StripKeepsInk(f.descriptions);
    SignatureMeans(Load(Save(f)), f);
    RoutedExactly(f.transitions);
    DefaultExactlyBySignature(Load(Save(f)));
    hide *;
    SignatureReloaded(f, Load(Save(f)));
  }

  // ---------------------------------------------------------------- validation

  datatype Problem =
    | NoStates
    | NoTransitions
    | BlankName
    | DuplicateState(name: Name)
    | BlankLabel
    | UnknownStatus(from: Name, to: Name, missing: Name)
    | DuplicateEdge(from: Name, to: Name)
    | PolicyNeedsWaiting(from: Name, to: Name)
    | PolicyNeedsCount(from: Name, to: Name)

  /** A non-negative integer. */
  predicate IsCount(n: Option<Num>) {
    n.Some? && n.value.Finite? && n.value.value >= 0.0 && n.value.value == n.value.value.Floor as real
  }

  ghost predicate IsNatural(n: Option<Num>, k: nat) { n == Some(Finite(k as real)) }

  /** A count is a natural number, and nothing else. */
  lemma CountIsNatural(n: Option<Num>)
    ensures IsCount(n) <==> exists k: nat :: IsNatural(n, k)
  {
    if IsCount(n) {
      var k: nat := n.value.value.Floor;
      assert IsNatural(n, k);
    }
  }

  ghost predicate StateProblem(states: seq<Name>, i: nat, p: Problem)
    requires i < |states|
  {
    var s := states[i];
    if IsBlank(s) then p == BlankName else s in states[..i] && p == DuplicateState(s)
  }

  /** A fault of one transition, given whether its ends are known and its key was used before. */
  ghost predicate Faulty(t: Transition, fromKnown: bool, toKnown: bool, repeated: bool, p: Problem) {
    || (IsBlank(t.actionLabel) && p == BlankLabel)
    || (!fromKnown && p == UnknownStatus(t.from, t.to, t.from))
    || (!toKnown && p == UnknownStatus(t.from, t.to, t.to))
    || (repeated && p == DuplicateEdge(t.from, t.to))
    || (t.requeuePolicy.kind != Keep && t.to != WAITING_STATE && p == PolicyNeedsWaiting(t.from, t.to))
    || (t.requeuePolicy.kind == BackN && t.to == WAITING_STATE && !IsCount(t.requeuePolicy.n)
        && p == PolicyNeedsCount(t.from, t.to))
  }

  ghost predicate EdgeProblem(states: seq<Name>, ts: seq<Transition>, i: nat, p: Problem)
    requires i < |ts|
  {
    Faulty(ts[i], ts[i].from in states, ts[i].to in states, KeyOf(ts[i]) in Map(KeyOf, ts[..i]), p)
  }

  ghost predicate StateFault(states: seq<Name>, n: nat, p: Problem) {
    exists i: nat :: i < n && i < |states| && StateProblem(states, i, p)
  }

  ghost predicate EdgeFault(states: seq<Name>, ts: seq<Transition>, n: nat, p: Problem) {
    exists i: nat :: i < n && i < |ts| && EdgeProblem(states, ts, i, p)
  }

  /** The faults of a form. */
  ghost predicate HasProblem(states: seq<Name>, ts: seq<Transition>, p: Problem) {
    || (states == [] && p == NoStates)
    || (ts == [] && p == NoTransitions)
    || StateFault(states, |states|, p)
    || EdgeFault(states, ts, |ts|, p)
  }

  function AddOnce<T(==,!new)>(s: seq<T>, x: T): (r: seq<T>)
    ensures forall y :: y in r <==> y in s || y == x
    ensures Distinct(s) ==> Distinct(r)
  {
    if x in s then s else s + [x]
  }

  method CheckEdge(t: Transition, fromKnown: bool, toKnown: bool, repeated: bool, before: seq<Problem>)
    returns (errors: seq<Problem>)
    ensures Distinct(before) ==> Distinct(errors)
    ensures forall p :: p in errors <==> (p in before || Faulty(t, fromKnown, toKnown, repeated, p))
  {
    hide Distinct;
    errors := before;
    if IsBlank(t.actionLabel) { errors := AddOnce(errors, BlankLabel); }
    if !fromKnown { errors := AddOnce(errors, UnknownStatus(t.from, t.to, t.from)); }
    if !toKnown { errors := AddOnce(errors, UnknownStatus(t.from, t.to, t.to)); }
    if repeated { errors := AddOnce(errors, DuplicateEdge(t.from, t.to)); }
    if t.requeuePolicy.kind != Keep {
      if t.to != WAITING_STATE {
        errors := AddOnce(errors, PolicyNeedsWaiting(t.from, t.to));
      } else if t.requeuePolicy.kind == BackN && !IsCount(t.requeuePolicy.n) {
        errors := AddOnce(errors, PolicyNeedsCount(t.from, t.to));
      }
    }
  }

  lemma StateFaultNext(states: seq<Name>, n: nat, p: Problem)
    requires n < |states|
    ensures StateFault(states, n + 1, p) <==> StateFault(states, n, p) || StateProblem(states, n, p)
  {}

  method CheckStates(states: seq<Name>, before: seq<Problem>) returns (errors: seq<Problem>)
    requires Distinct(before)
    ensures Distinct(errors)
    ensures forall p :: p in errors <==> (p in before || StateFault(states, |states|, p))
  {
    hide Distinct;
    errors := before;
    var seenStates: set<Name> := {};
    for i := 0 to |states|
      invariant seenStates == ToSet(states[..i]) && Distinct(errors)
      invariant forall p :: p in errors <==> (p in before || StateFault(states, i, p))
    {
      forall p {
        StateFaultNext(states, i, p);
      }
      assert states[..i + 1] == states[..i] + [states[i]];
      if IsBlank(states[i]) {
        errors := AddOnce(errors, BlankName);
      } else if states[i] in seenStates {
        errors := AddOnce(errors, DuplicateState(states[i]));
      }
      seenStates := seenStates + {states[i]};
    }
  }

  lemma EdgeFaultNext(states: seq<Name>, ts: seq<Transition>, n: nat, p: Problem)
    requires n < |ts|
    ensures EdgeFault(states, ts, n + 1, p) <==> EdgeFault(states, ts, n, p) || EdgeProblem(states, ts, n, p)
  {}

  method CheckEdges(states: seq<Name>, ts: seq<Transition>, before: seq<Problem>) returns (errors: seq<Problem>)
    requires Distinct(before)
    ensures Distinct(errors)
    ensures forall p :: p in errors <==> (p in before || EdgeFault(states, ts, |ts|, p))
  {
    hide Distinct, Faulty;
    errors := before;
    var seenStates, seenEdges: set<string> := ToSet(states), {};
    for i := 0 to |ts|
      invariant seenEdges == ToSet(Map(KeyOf, ts[..i])) && Distinct(errors)
      invariant forall p :: p in errors <==> (p in before || EdgeFault(states, ts, i, p))
    {
      forall p {
        EdgeFaultNext(states, ts, i, p);
      }
      assert Map(KeyOf, ts[..i + 1]) == Map(KeyOf, ts[..i]) + [KeyOf(ts[i])];
      errors := CheckEdge(ts[i], ts[i].from in seenStates, ts[i].to in seenStates, KeyOf(ts[i]) in seenEdges, errors);
      seenEdges := seenEdges + {KeyOf(ts[i])};
    }
  }

  /** Reports exactly the faults of the form, each once. */
  method ValidateCustom(f: Form) returns (errors: seq<Problem>)
    ensures Distinct(errors)
    ensures forall p :: p in errors <==> HasProblem(f.states, f.transitions, p)
  {
    errors := [];
    if |f.states| == 0 { errors := AddOnce(errors, NoStates); }
    if |f.transitions| == 0 { errors := AddOnce(errors, NoTransitions); }
    errors := CheckStates(f.states, errors);
    errors := CheckEdges(f.states, f.transitions, errors);
  }

  /** The rules a custom machine must meet. */
  ghost predicate MeetsRules(f: Form) {
    && f.states != [] && f.transitions != []
    && Distinct(f.states) && (forall s :: s in f.states ==> !IsBlank(s))
    && Distinct(Map(KeyOf, f.transitions))
    && (forall t :: t in f.transitions ==>
          && t.from in f.states && t.to in f.states && !IsBlank(t.actionLabel)
          && (t.requeuePolicy.kind != Keep ==> t.to == WAITING_STATE)
          && (t.requeuePolicy.kind == BackN ==> IsCount(t.requeuePolicy.n)))
  }

  lemma RulesLeaveNoFault(f: Form, p: Problem)
    requires MeetsRules(f)
    ensures !HasProblem(f.states, f.transitions, p)
  {
    var ts := f.transitions;
    forall i: nat | i < |f.states| ensures !StateProblem(f.states, i, p) {
      assert f.states[i] in f.states;
    }
    forall i: nat | i < |ts| ensures !EdgeProblem(f.states, ts, i, p) {
      FirstKey(ts, i);
      assert ts[i] in ts;
      hide KeyOf, IsBlank, IsCount, Distinct;
    }
  }

  lemma FirstKey(ts: seq<Transition>, i: nat)
    requires Distinct(Map(KeyOf, ts)) && i < |ts|
    ensures KeyOf(ts[i]) !in Map(KeyOf, ts[..i])
  {
    var keys, before := Map(KeyOf, ts), Map(KeyOf, ts[..i]);
    hide KeyOf;
    assert forall j :: 0 <= j < i ==> before[j] == keys[j] && keys[j] != keys[i];
  }

  lemma FaultlessNames(states: seq<Name>)
    requires forall p :: !StateFault(states, |states|, p)
    ensures Distinct(states) && forall s :: s in states ==> !IsBlank(s)
  {
    forall i: nat | i < |states| ensures !IsBlank(states[i]) && states[i] !in states[..i] {
      assert !StateFault(states, |states|, BlankName) && !StateFault(states, |states|, DuplicateState(states[i]));
      assert !StateProblem(states, i, BlankName) && !StateProblem(states, i, DuplicateState(states[i]));
    }
    forall i, j | 0 <= i < j < |states| ensures states[i] != states[j] {
      assert states[i] in states[..j];
    }
  }

  lemma FaultlessEdge(states: seq<Name>, ts: seq<Transition>, i: nat)
    requires i < |ts| && forall p :: !EdgeFault(states, ts, |ts|, p)
    ensures ts[i].from in states && ts[i].to in states && !IsBlank(ts[i].actionLabel)
    ensures ts[i].requeuePolicy.kind != Keep ==> ts[i].to == WAITING_STATE
    ensures ts[i].requeuePolicy.kind == BackN ==> IsCount(ts[i].requeuePolicy.n)
    ensures KeyOf(ts[i]) !in Map(KeyOf, ts[..i])
  {
    var t := ts[i];
    forall p ensures !EdgeProblem(states, ts, i, p) {
      assert !EdgeFault(states, ts, |ts|, p);
    }
    assert !EdgeProblem(states, ts, i, BlankLabel);
    assert !EdgeProblem(states, ts, i, UnknownStatus(t.from, t.to, t.from));
    assert !EdgeProblem(states, ts, i, UnknownStatus(t.from, t.to, t.to));
    assert !EdgeProblem(states, ts, i, DuplicateEdge(t.from, t.to));
    assert !EdgeProblem(states, ts, i, PolicyNeedsWaiting(t.from, t.to));
    assert !EdgeProblem(states, ts, i, PolicyNeedsCount(t.from, t.to));
  }

  /** No fault is reported exactly when the form meets the rules. */
  lemma RulesAreFaultless(f: Form)
    ensures MeetsRules(f) <==> forall p :: !HasProblem(f.states, f.transitions, p)
  {
    var states, ts := f.states, f.transitions;
    if MeetsRules(f) {
      forall p {
        RulesLeaveNoFault(f, p);
      }
    }
    if forall p :: !HasProblem(states, ts, p) {
      assert !HasProblem(states, ts, NoStates) && !HasProblem(states, ts, NoTransitions);
      forall p ensures !StateFault(states, |states|, p) && !EdgeFault(states, ts, |ts|, p) {
        assert !HasProblem(states, ts, p);
      }
      FaultlessNames(states);
      forall i: nat | i < |ts| {
        FaultlessEdge(states, ts, i);
      }
      var keys := Map(KeyOf, ts);
      forall i, j | 0 <= i < j < |keys| ensures keys[i] != keys[j] {
        assert Map(KeyOf, ts[..j])[i] == keys[i];
      }
    }
  }

  /** A form that meets the rules always survives a save: its routing keys are distinct. */
  lemma ValidFormSurvivesSave(f: Form)
    requires f.mode == CustomMode && MeetsRules(f)
    ensures GraphSignature(Load(Save(f))) == GraphSignature(f)
  {
    DistinctKeysAgree(f.transitions);
    hide *;
    SaveThenLoad(f);
  }

  lemma DistinctKeysAgree(ts: seq<Transition>)
    requires Distinct(Map(KeyOf, ts))
    ensures SidesAgreeOnKeys(ts)
  {
    var keys := Map(KeyOf, ts);
    hide KeyOf, SourceOf, TargetOf;
    forall i, j | 0 <= i < |ts| && 0 <= j < |ts| && KeyOf(ts[i]) == KeyOf(ts[j]) ensures i == j {
      assert keys[i] == keys[j];
    }
  }

  // ---------------------------------------------------------------- fields that name states

  datatype Rename = Rename(from: Name, to: Name)

  /** The four fields that refer to states by name. */
  datatype Refs = Refs(
    nodeActions: map<Name, seq<NodeAction>>, descriptions: map<Name, string>, endSources: seq<Name>,
    startSources: seq<Name>)

  function RefsOf(f: Form): Refs {
    Refs(f.nodeActions, f.descriptions, f.endSources, f.startSources)
  }

  function MapName(rename: Option<Rename>, name: Name): Name {
    if rename.Some? && name == rename.value.from then rename.value.to else name
  }

  /** Two keys never become one. */
  predicate NoClash(keys: set<Name>, rename: Option<Rename>) {
    rename.Some? && rename.value.from in keys && rename.value.from != rename.value.to ==> rename.value.to !in keys
  }

  function OldKey(keys: set<Name>, rename: Option<Rename>, k: Name): Name {
    if rename.Some? && k == rename.value.to && rename.value.from in keys then rename.value.from else k
  }

  function LiveKeys(keys: set<Name>, live: set<Name>, rename: Option<Rename>): set<Name> {
    set k | k in keys && MapName(rename, k) in live :: MapName(rename, k)
  }

  function MapAction(rename: Option<Rename>, a: NodeAction): NodeAction {
    if a.kind == UpdateStatus then a.(value := MapName(rename, a.value)) else a
  }

  predicate ActionLives(live: set<Name>, a: NodeAction) {
    a.kind == UpdateStatus ==> a.value in live
  }

  function ReconcileActions(actions: seq<NodeAction>, live: set<Name>, rename: Option<Rename>): seq<NodeAction> {
    Filter((a: NodeAction) => ActionLives(live, a), Map((a: NodeAction) => MapAction(rename, a), actions))
  }

  /** Renamed, live, and each name once. */
  function ReconcileList(names: seq<Name>, live: set<Name>, rename: Option<Rename>): (r: seq<Name>)
    ensures Distinct(r) && forall n :: n in r ==> n in live
  {
    if names == [] then [] else
      var before := ReconcileList(names[..|names| - 1], live, rename);
      var next := MapName(rename, names[|names| - 1]);
      if next !in live || next in before then before else before + [next]
  }

  /** The entries under their mapped keys, without those whose key is not live. */
  function Rekey<V>(entries: map<Name, V>, live: set<Name>, rename: Option<Rename>): map<Name, V> {
    map k | k in LiveKeys(entries.Keys, live, rename) :: entries[OldKey(entries.Keys, rename, k)]
  }

  function ActionsIn(entries: map<Name, seq<NodeAction>>, live: set<Name>, rename: Option<Rename>)
    : map<Name, seq<NodeAction>>
  {
    map k | k in entries :: ReconcileActions(entries[k], live, rename)
  }

  function Reconcile(refs: Refs, live: set<Name>, rename: Option<Rename>): Refs {
    Refs(
      Rekey(ActionsIn(refs.nodeActions, live, rename), live, rename),
      Rekey(refs.descriptions, live, rename),
      ReconcileList(refs.endSources, live, rename),
      ReconcileList(refs.startSources, live, rename))
  }

  method ReconcileNames(names: seq<Name>, live: set<Name>, rename: Option<Rename>) returns (result: seq<Name>)
    ensures result == ReconcileList(names, live, rename)
  {
    result := [];
    var seen: set<Name> := {};
    for i := 0 to |names|
      invariant result == ReconcileList(names[..i], live, rename) && seen == ToSet(result)
    {
      assert names[..i + 1][..i] == names[..i];
      var next := MapName(rename, names[i]);
      if next !in live || next in seen {
        continue;
      }
      seen := seen + {next};
      result := result + [next];
    }
    assert names[..|names|] == names;
  }

  /** Under each mapped live key stands the entry of a key mapped there; of two merged keys, either one's. */
  ghost predicate Rekeyed<V>(entries: map<Name, V>, live: set<Name>, rename: Option<Rename>, result: map<Name, V>) {
    && result.Keys == LiveKeys(entries.Keys, live, rename)
    && forall k :: k in result ==>
         exists was :: was in entries && MapName(rename, was) == k && result[k] == entries[was]
  }

  lemma RekeyedPlainly<V>(entries: map<Name, V>, live: set<Name>, rename: Option<Rename>, result: map<Name, V>)
    requires NoClash(entries.Keys, rename) && Rekeyed(entries, live, rename, result)
    ensures result == Rekey(entries, live, rename)
  {}

  /** The order of the entries is the order of the record, which only matters when the rename merges two keys. */
  method RekeyEntries<V>(entries: map<Name, V>, live: set<Name>, rename: Option<Rename>) returns (result: map<Name, V>)
    ensures Rekeyed(entries, live, rename, result)
    ensures NoClash(entries.Keys, rename) ==> result == Rekey(entries, live, rename)
  {
    result := map[];
    var todo := entries.Keys;
    while todo != {}
      invariant todo <= entries.Keys && result.Keys == LiveKeys(entries.Keys - todo, live, rename)
      invariant forall k :: k in result ==>
        exists was :: was in entries && MapName(rename, was) == k && result[k] == entries[was]
    {
      var key :| key in todo;
      todo := todo - {key};
      var nextKey := MapName(rename, key);
      if nextKey in live {
        result := result[nextKey := entries[key]];
      }
    }
    if NoClash(entries.Keys, rename) {
      RekeyedPlainly(entries, live, rename, result);
    }
  }

  /** The rename merges no two keys of the two name-keyed records. */
  predicate KeysStayApart(refs: Refs, rename: Option<Rename>) {
    NoClash(refs.nodeActions.Keys, rename) && NoClash(refs.descriptions.Keys, rename)
  }

  method ReconcileStateNameRefs(refs: Refs, liveStates: seq<Name>, rename: Option<Rename>) returns (result: Refs)
    ensures KeysStayApart(refs, rename) ==> result == Reconcile(refs, ToSet(liveStates), rename)
    ensures
      var live := ToSet(liveStates);
      && Rekeyed(ActionsIn(refs.nodeActions, live, rename), live, rename, result.nodeActions)
      && Rekeyed(refs.descriptions, live, rename, result.descriptions)
      && result.endSources == ReconcileList(refs.endSources, live, rename)
      && result.startSources == ReconcileList(refs.startSources, live, rename)
  {
    var live := ToSet(liveStates);
    hide Rekeyed, Rekey, LiveKeys, ReconcileActions, ReconcileList, NoClash;
    var nodeActions := RekeyEntries(ActionsIn(refs.nodeActions, live, rename), live, rename);
    var descriptions := RekeyEntries(refs.descriptions, live, rename);
    var endSources := ReconcileNames(refs.endSources, live, rename);
    var startSources := ReconcileNames(refs.startSources, live, rename);
    result := Refs(nodeActions, descriptions, endSources, startSources);
    assert ActionsIn(refs.nodeActions, live, rename).Keys == refs.nodeActions.Keys;
  }

  /** Every name in the four fields is a live state, and no list repeats one. */
  predicate RefsLive(refs: Refs, live: set<Name>) {
    && refs.nodeActions.Keys <= live && refs.descriptions.Keys <= live
    && (forall k :: k in refs.nodeActions ==> ActionsLive(refs.nodeActions[k], live))
    && Distinct(refs.endSources) && (forall n :: n in refs.endSources ==> n in live)
    && Distinct(refs.startSources) && (forall n :: n in refs.startSources ==> n in live)
  }

  predicate ActionsLive(actions: seq<NodeAction>, live: set<Name>) {
    forall i :: 0 <= i < |actions| ==> ActionLives(live, actions[i])
  }

  lemma ReconciledActionsLive(actions: seq<NodeAction>, live: set<Name>, rename: Option<Rename>)
    ensures ActionsLive(ReconcileActions(actions, live, rename), live)
  {
    var kept := ReconcileActions(actions, live, rename);
    forall i | 0 <= i < |kept| ensures ActionLives(live, kept[i]) {
      assert kept[i] in kept;
    }
  }

  /** Whatever goes in, and whichever of two merged entries stays, what comes out is live. */
  lemma RekeyedIsLive(refs: Refs, live: set<Name>, rename: Option<Rename>, after: Refs)
    requires Rekeyed(ActionsIn(refs.nodeActions, live, rename), live, rename, after.nodeActions)
    requires Rekeyed(refs.descriptions, live, rename, after.descriptions)
    requires after.endSources == ReconcileList(refs.endSources, live, rename)
    requires after.startSources == ReconcileList(refs.startSources, live, rename)
    ensures RefsLive(after, live)
  {
    forall actions {
      ReconciledActionsLive(actions, live, rename);
    }
    hide ReconcileActions, ReconcileList, ActionsLive, Distinct;
  }

  /** Whatever goes in, what comes out is live. */
  lemma ReconciledIsLive(refs: Refs, live: set<Name>, rename: Option<Rename>)
    ensures RefsLive(Reconcile(refs, live, rename), live)
  {
    forall actions {
      ReconciledActionsLive(actions, live, rename);
    }
    hide ReconcileActions, ReconcileList, ActionsLive, Distinct;
  }

  function RenameAll(names: seq<Name>, rename: Option<Rename>): (r: seq<Name>)
    ensures |r| == |names| && forall i :: 0 <= i < |names| ==> r[i] == MapName(rename, names[i])
  {
    Map((n: Name) => MapName(rename, n), names)
  }

  /** The names are distinct, and stay distinct and become live under the rename. */
  ghost predicate Injects(names: seq<Name>, live: set<Name>, rename: Option<Rename>) {
    && (forall n :: n in names ==> MapName(rename, n) in live)
    && Distinct(names)
    && NoClash(ToSet(names), rename)
  }

  lemma InjectsInit(names: seq<Name>, live: set<Name>, rename: Option<Rename>)
    requires Injects(names, live, rename) && names != []
    ensures
      var init, last := names[..|names| - 1], names[|names| - 1];
      && Injects(init, live, rename) && MapName(rename, last) in live
      && MapName(rename, last) !in RenameAll(init, rename)
  {
    var init, last := names[..|names| - 1], names[|names| - 1];
    assert forall i :: 0 <= i < |init| ==> init[i] in names && init[i] != last;
    forall i | 0 <= i < |init| ensures MapName(rename, init[i]) != MapName(rename, last) {
      assert init[i] in ToSet(names) && last in ToSet(names);
    }
  }

  lemma ReconcileLast(init: seq<Name>, last: Name, live: set<Name>, rename: Option<Rename>)
    ensures
      var before, next := ReconcileList(init, live, rename), MapName(rename, last);
      ReconcileList(init + [last], live, rename) == if next !in live || next in before then before else before + [next]
  {
    assert (init + [last])[..|init|] == init;
  }

  lemma {:induction false} ReconcileListRenames(names: seq<Name>, live: set<Name>, rename: Option<Rename>)
    requires Injects(names, live, rename)
    ensures ReconcileList(names, live, rename) == RenameAll(names, rename)
  {
    if names != [] {
      var init, last := names[..|names| - 1], names[|names| - 1];
      assert names == init + [last];
      assert RenameAll(names, rename) == RenameAll(init, rename) + [MapName(rename, last)];
      hide Injects, ReconcileList, RenameAll, MapName;
      InjectsInit(names, live, rename);
      ReconcileListRenames(init, live, rename);
      ReconcileLast(init, last, live, rename);
    }
  }

  lemma RekeyNothing<V>(entries: map<Name, V>, live: set<Name>)
    requires entries.Keys <= live
    ensures Rekey(entries, live, None) == entries
  {
    assert LiveKeys(entries.Keys, live, None) == entries.Keys;
  }

  lemma ReconcileNoActions(actions: seq<NodeAction>, live: set<Name>)
    requires ActionsLive(actions, live)
    ensures ReconcileActions(actions, live, None) == actions
  {
    assert Map((a: NodeAction) => MapAction(None, a), actions) == actions;
    FilterAll((a: NodeAction) => ActionLives(live, a), actions);
  }

  /** With every name live and no rename there is nothing to do. */
  lemma ReconcileNothing(refs: Refs, live: set<Name>)
    requires RefsLive(refs, live)
    ensures Reconcile(refs, live, None) == refs
  {
    forall k | k in refs.nodeActions {
      ReconcileNoActions(refs.nodeActions[k], live);
    }
    ReconcileListRenames(refs.endSources, live, None);
    ReconcileListRenames(refs.startSources, live, None);
    hide ReconcileActions, ReconcileList, ActionsLive, Distinct, Injects;
    assert ActionsIn(refs.nodeActions, live, None) == refs.nodeActions;
    RekeyNothing(refs.nodeActions, live);
    RekeyNothing(refs.descriptions, live);
    assert RenameAll(refs.endSources, None) == refs.endSources;
    assert RenameAll(refs.startSources, None) == refs.startSources;
  }

  // ---------------------------------------------------------------- renaming and deleting

  function RenameAction(r: Rename, actions: seq<NodeAction>): (result: seq<NodeAction>)
    ensures |result| == |actions| && forall i :: 0 <= i < |actions| ==> result[i] == MapAction(Some(r), actions[i])
  {
    Map((a: NodeAction) => MapAction(Some(r), a), actions)
  }

  /** `m` is `entries` with the entry of `r.from`, if any, under `r.to`. */
  ghost predicate KeyMoved<V>(entries: map<Name, V>, r: Rename, m: map<Name, V>) {
    && (forall k :: k in m <==> (k != r.from && k in entries) || (k == r.to && r.from in entries))
    && (forall k :: k in entries && k != r.from ==> k in m && m[k] == entries[k])
    && (r.from in entries ==> r.to in m && m[r.to] == entries[r.from])
  }

  ghost predicate Fresh(r: Rename, live: set<Name>) {
    r.from in live && r.to !in live
  }

  ghost function Renamed(live: set<Name>, r: Rename): set<Name> {
    live - {r.from} + {r.to}
  }

  lemma RekeyMoves<V>(entries: map<Name, V>, live: set<Name>, r: Rename)
    requires entries.Keys <= live && Fresh(r, live)
    ensures KeyMoved(entries, r, Rekey(entries, Renamed(live, r), Some(r)))
  {
    forall k | k in entries ensures MapName(Some(r), k) in LiveKeys(entries.Keys, Renamed(live, r), Some(r)) {}
  }

  lemma ReconcileRenamesActions(actions: seq<NodeAction>, live: set<Name>, r: Rename)
    requires ActionsLive(actions, live) && Fresh(r, live)
    ensures ReconcileActions(actions, Renamed(live, r), Some(r)) == RenameAction(r, actions)
  {
    FilterAll((a: NodeAction) => ActionLives(Renamed(live, r), a), RenameAction(r, actions));
  }

  /** `after` is `refs` with one name replaced wherever it occurs, and nothing else changed. */
  ghost predicate NameReplaced(refs: Refs, r: Rename, after: Refs) {
    && KeyMoved(map k | k in refs.nodeActions :: RenameAction(r, refs.nodeActions[k]), r, after.nodeActions)
    && KeyMoved(refs.descriptions, r, after.descriptions)
    && after.endSources == RenameAll(refs.endSources, Some(r))
    && after.startSources == RenameAll(refs.startSources, Some(r))
  }

  /** A rename to a fresh name carries every entry of the four fields over and changes no other. */
  lemma RenameLosesNothing(refs: Refs, live: set<Name>, r: Rename)
    requires RefsLive(refs, live) && Fresh(r, live)
    ensures NameReplaced(refs, r, Reconcile(refs, Renamed(live, r), Some(r)))
  {
    forall k | k in refs.nodeActions {
      ReconcileRenamesActions(refs.nodeActions[k], live, r);
    }
    ReconcileListRenames(refs.endSources, Renamed(live, r), Some(r));
    ReconcileListRenames(refs.startSources, Renamed(live, r), Some(r));
    hide ReconcileActions, ReconcileList, ActionsLive, Distinct, Injects;
    var renamed := map k | k in refs.nodeActions :: RenameAction(r, refs.nodeActions[k]);
    assert ActionsIn(refs.nodeActions, Renamed(live, r), Some(r)) == renamed;
    RekeyMoves(renamed, live, r);
    RekeyMoves(refs.descriptions, live, r);
  }

  lemma MoveBack<V>(entries: map<Name, V>, r: Rename, moved: map<Name, V>, back: map<Name, V>)
    requires r.to !in entries && KeyMoved(entries, r, moved) && KeyMoved(moved, Rename(r.to, r.from), back)
    requires r.from != r.to
    ensures back == entries
  {
    assert back.Keys == entries.Keys;
  }

  lemma RenameActionBack(actions: seq<NodeAction>, live: set<Name>, r: Rename)
    requires ActionsLive(actions, live) && Fresh(r, live)
    ensures RenameAction(Rename(r.to, r.from), RenameAction(r, actions)) == actions
  {}

  lemma RenameListBack(names: seq<Name>, live: set<Name>, r: Rename)
    requires Fresh(r, live) && forall n :: n in names ==> n in live
    ensures RenameAll(RenameAll(names, Some(r)), Some(Rename(r.to, r.from))) == names
  {}

  lemma ActionsBack(actions: map<Name, seq<NodeAction>>, live: set<Name>, r: Rename,
    moved: map<Name, seq<NodeAction>>, back: map<Name, seq<NodeAction>>)
    requires Fresh(r, live) && actions.Keys <= live && forall k :: k in actions ==> ActionsLive(actions[k], live)
    requires KeyMoved(map k | k in actions :: RenameAction(r, actions[k]), r, moved)
    requires KeyMoved(map k | k in moved :: RenameAction(Rename(r.to, r.from), moved[k]), Rename(r.to, r.from), back)
    ensures back == actions
  {
    forall k | k in actions {
      RenameActionBack(actions[k], live, r);
    }
    hide RenameAction, ActionsLive;
    assert back.Keys == actions.Keys;
  }

  lemma ReplacedBack(refs: Refs, live: set<Name>, r: Rename, after: Refs, back: Refs)
    requires RefsLive(refs, live) && Fresh(r, live)
    requires NameReplaced(refs, r, after) && NameReplaced(after, Rename(r.to, r.from), back)
    ensures back == refs
  {
    RenameListBack(refs.endSources, live, r);
    RenameListBack(refs.startSources, live, r);
    hide RenameAction, RenameAll, ActionsLive, Distinct, KeyMoved;
    assert back.descriptions == refs.descriptions by {
      MoveBack(refs.descriptions, r, after.descriptions, back.descriptions);
    }
    assert back.nodeActions == refs.nodeActions by {
      ActionsBack(refs.nodeActions, live, r, after.nodeActions, back.nodeActions);
    }
  }

  lemma FreshBack(live: set<Name>, r: Rename)
    requires Fresh(r, live)
    ensures Fresh(Rename(r.to, r.from), Renamed(live, r))
    ensures Renamed(Renamed(live, r), Rename(r.to, r.from)) == live
  {}

  /** The reverse rename restores the four fields. */
  lemma RenameIsUndone(refs: Refs, live: set<Name>, r: Rename)
    requires RefsLive(refs, live) && Fresh(r, live)
    ensures Reconcile(Reconcile(refs, Renamed(live, r), Some(r)), live, Some(Rename(r.to, r.from))) == refs
  {
    hide *;
    var there := Renamed(live, r);
    var reverse := Rename(r.to, r.from);
    var after := Reconcile(refs, there, Some(r));
    FreshBack(live, r);
    ReconciledIsLive(refs, there, Some(r));
    RenameLosesNothing(refs, live, r);
    RenameLosesNothing(after, there, reverse);
    ReplacedBack(refs, live, r, after, Reconcile(after, live, Some(reverse)));
  }

  /** The references without the entries that name `gone`: keys, list entries and actions that lead to it. */
  function RefsBut(refs: Refs, gone: Name): Refs {
    Refs(ActionsWithout(refs.nodeActions, gone), refs.descriptions - {gone},
      Filter(Except(gone), refs.endSources), Filter(Except(gone), refs.startSources))
  }

  /** A delete drops exactly the entries that name the deleted state. */
  lemma DeleteDropsExactly(refs: Refs, live: set<Name>, gone: Name)
    requires RefsLive(refs, live)
    ensures Reconcile(refs, live - {gone}, None) == RefsBut(refs, gone)
  {
    hide *;
    DeleteFromLists(refs, live, gone);
    RekeyDrops(refs.descriptions, live, gone);
    ActionsDrop(refs, live, gone);
    RefsDrop(refs, live, gone);
  }

  lemma DeleteFromLists(refs: Refs, live: set<Name>, gone: Name)
    requires RefsLive(refs, live)
    ensures refs.descriptions.Keys <= live
    ensures ReconcileList(refs.endSources, live - {gone}, None) == Filter(Except(gone), refs.endSources)
    ensures ReconcileList(refs.startSources, live - {gone}, None) == Filter(Except(gone), refs.startSources)
  {
    DeleteFromList(refs.endSources, live, gone);
    DeleteFromList(refs.startSources, live, gone);
  }

  lemma ActionsDrop(refs: Refs, live: set<Name>, gone: Name)
    requires RefsLive(refs, live)
    ensures Rekey(ActionsIn(refs.nodeActions, live - {gone}, None), live - {gone}, None)
         == RefsBut(refs, gone).nodeActions
  {
    forall k | k in refs.nodeActions
      ensures ReconcileActions(refs.nodeActions[k], live - {gone}, None) == ActionsBut(refs.nodeActions[k], gone)
    {
      DeleteFromActions(refs.nodeActions[k], live, gone);
    }
    assert refs.nodeActions.Keys <= live;
    hide *;
    RekeyDrops(ActionsIn(refs.nodeActions, live - {gone}, None), live, gone);
    ActionsInBut(refs.nodeActions, live, gone);
    RefsButActions(refs, gone);
  }

  function ActionsWithout(entries: map<Name, seq<NodeAction>>, gone: Name): map<Name, seq<NodeAction>> {
    map k | k in entries && k != gone :: ActionsBut(entries[k], gone)
  }

  lemma RefsButActions(refs: Refs, gone: Name)
    ensures RefsBut(refs, gone).nodeActions == ActionsWithout(refs.nodeActions, gone)
  {}

  lemma ActionsInBut(entries: map<Name, seq<NodeAction>>, live: set<Name>, gone: Name)
    requires forall k :: k in entries ==>
      ReconcileActions(entries[k], live - {gone}, None) == ActionsBut(entries[k], gone)
    ensures ActionsIn(entries, live - {gone}, None).Keys == entries.Keys
    ensures ActionsIn(entries, live - {gone}, None) - {gone} == ActionsWithout(entries, gone)
  {
    hide ReconcileActions, ActionsBut;
  }

  lemma RefsDrop(refs: Refs, live: set<Name>, gone: Name)
    requires ReconcileList(refs.endSources, live - {gone}, None) == Filter(Except(gone), refs.endSources)
    requires ReconcileList(refs.startSources, live - {gone}, None) == Filter(Except(gone), refs.startSources)
    requires Rekey(refs.descriptions, live - {gone}, None) == refs.descriptions - {gone}
    requires Rekey(ActionsIn(refs.nodeActions, live - {gone}, None), live - {gone}, None)
          == RefsBut(refs, gone).nodeActions
    ensures Reconcile(refs, live - {gone}, None) == RefsBut(refs, gone)
  {
    hide ReconcileList, Filter, Rekey, ActionsIn, Except;
  }

  lemma RekeyDrops<V>(entries: map<Name, V>, live: set<Name>, gone: Name)
    requires entries.Keys <= live
    ensures Rekey(entries, live - {gone}, None) == entries - {gone}
  {
    assert LiveKeys(entries.Keys, live - {gone}, None) == entries.Keys - {gone};
  }

  function LeadsElsewhere(gone: Name): NodeAction -> bool {
    (a: NodeAction) => a.kind == UpdateStatus ==> a.value != gone
  }

  /** The actions that do not lead to `gone`. */
  function ActionsBut(actions: seq<NodeAction>, gone: Name): seq<NodeAction> { Filter(LeadsElsewhere(gone), actions) }

  lemma {:induction false} DeleteFromList(names: seq<Name>, live: set<Name>, gone: Name)
    requires Distinct(names) && forall n :: n in names ==> n in live
    ensures ReconcileList(names, live - {gone}, None) == Filter(Except(gone), names)
  {
    if names != [] {
      var init := names[..|names| - 1];
      DeleteFromList(init, live, gone);
      assert names[|names| - 1] !in init;
    }
  }

  lemma {:induction false} FilterAgrees<A(!new)>(p: A -> bool, q: A -> bool, s: seq<A>)
    requires forall i :: 0 <= i < |s| ==> p(s[i]) == q(s[i])
    ensures Filter(p, s) == Filter(q, s)
  {
    if s != [] {
      FilterAgrees(p, q, s[..|s| - 1]);
    }
  }

  lemma DeleteFromActions(actions: seq<NodeAction>, live: set<Name>, gone: Name)
    requires ActionsLive(actions, live)
    ensures ReconcileActions(actions, live - {gone}, None) == ActionsBut(actions, gone)
  {
    assert Map((a: NodeAction) => MapAction(None, a), actions) == actions;
    FilterAgrees((a: NodeAction) => ActionLives(live - {gone}, a), LeadsElsewhere(gone), actions);
  }

  // ---------------------------------------------------------------- the form editor's own rename and remove

  function MoveKey<V>(m: map<Name, V>, from: Name, to: Name): map<Name, V> {
    if from != to && from in m then (m - {from})[to := m[from]] else m
  }

  function RenameEnds(r: Rename, t: Transition): Transition {
    t.(from := MapName(Some(r), t.from), to := MapName(Some(r), t.to))
  }

  function RenamesEnds(r: Rename): Transition -> Transition { (t: Transition) => RenameEnds(r, t) }

  /** Rename state `i` from the form: every list and key follows, the values of the node actions do not. */
  function UpdateState(f: Form, i: nat, value: Name): Form
    requires i < |f.states|
  {
    var r := Rename(f.states[i], value);
    f.(states := f.states[i := value],
       transitions := Map(RenamesEnds(r), f.transitions),
       positions := MoveKey(f.positions, r.from, value),
       nodeActions := MoveKey(f.nodeActions, r.from, value),
       descriptions := MoveKey(f.descriptions, r.from, value),
       endSources := RenameAll(f.endSources, Some(r)),
       startSources := RenameAll(f.startSources, Some(r)))
  }

  /** Remove state `i` from the form. Its transitions, and the actions that lead to it, stay. */
  function RemoveState(f: Form, i: nat): Form
    requires i < |f.states|
  {
    var gone := f.states[i];
    f.(states := f.states[..i] + f.states[i + 1..],
       positions := f.positions - {gone},
       nodeActions := f.nodeActions - {gone},
       descriptions := f.descriptions - {gone},
       endSources := Filter(Except(gone), f.endSources),
       startSources := Filter(Except(gone), f.startSources))
  }

  ghost predicate LeadsTo(actions: seq<NodeAction>, s: Name) {
    exists i :: 0 <= i < |actions| && actions[i].kind == UpdateStatus && actions[i].value == s
  }

  lemma RenamedStates(states: seq<Name>, i: nat, value: Name)
    requires i < |states| && Distinct(states) && value !in states
    ensures ToSet(states[i := value]) == Renamed(ToSet(states), Rename(states[i], value))
  {
    var after := states[i := value];
    forall s | s in Renamed(ToSet(states), Rename(states[i], value)) ensures s in after {
      if s == value {
        assert after[i] == value;
      } else {
        var j :| 0 <= j < |states| && states[j] == s;
        assert after[j] == s;
      }
    }
    forall s | s in after ensures s in Renamed(ToSet(states), Rename(states[i], value)) {
      var j :| 0 <= j < |after| && after[j] == s;
      if j != i {
        assert states[j] in states;
      }
    }
  }

  lemma MovedKeyIs<V>(m: map<Name, V>, r: Rename)
    requires r.from != r.to
    ensures r.to !in m ==> KeyMoved(m, r, MoveKey(m, r.from, r.to))
  {}

  lemma MoveKeyMoves<V>(m: map<Name, V>, r: Rename, moved: map<Name, V>)
    requires r.from != r.to && r.to !in m && KeyMoved(m, r, moved)
    ensures moved == MoveKey(m, r.from, r.to)
  {
    assert moved.Keys == MoveKey(m, r.from, r.to).Keys;
  }

  lemma RenameActionChanges(r: Rename, actions: seq<NodeAction>)
    requires r.from != r.to
    ensures RenameAction(r, actions) == actions <==> !LeadsTo(actions, r.from)
  {
    if i :| 0 <= i < |actions| && actions[i].kind == UpdateStatus && actions[i].value == r.from {
      assert RenameAction(r, actions)[i] != actions[i];
    } else {
      assert RenameAction(r, actions) == actions;
    }
  }

  lemma MovedActions(actions: map<Name, seq<NodeAction>>, r: Rename, moved: map<Name, seq<NodeAction>>)
    requires r.from != r.to && r.to !in actions
    requires KeyMoved(map k | k in actions :: RenameAction(r, actions[k]), r, moved)
    ensures moved.Keys == MoveKey(actions, r.from, r.to).Keys
    ensures moved == MoveKey(actions, r.from, r.to) <==> forall k :: k in actions ==> !LeadsTo(actions[k], r.from)
  {
    var plain := MoveKey(actions, r.from, r.to);
    forall k | k in actions {
      RenameActionChanges(r, actions[k]);
    }
    hide LeadsTo, RenameAction;
    if moved == plain {
      forall k | k in actions ensures RenameAction(r, actions[k]) == actions[k] {
        var there := if k == r.from then r.to else k;
        assert moved[there] == RenameAction(r, actions[k]) && plain[there] == actions[k];
      }
    }
  }

  lemma UpdatedParts(f: Form, i: nat, value: Name)
    requires i < |f.states| && Distinct(f.states) && value !in f.states
    ensures
      var g, r := UpdateState(f, i, value), Rename(f.states[i], value);
      && g.states == f.states[i := value] == RenameAll(f.states, Some(r))
      && g.transitions == Map(RenamesEnds(r), f.transitions) && g.positions == MoveKey(f.positions, r.from, r.to)
      && g.nodeActions == MoveKey(f.nodeActions, r.from, r.to)
      && g.descriptions == MoveKey(f.descriptions, r.from, r.to)
      && g.endSources == RenameAll(f.endSources, Some(r)) && g.startSources == RenameAll(f.startSources, Some(r))
  {
    hide MoveKey, RenamesEnds;
    assert f.states[i := value] == RenameAll(f.states, Some(Rename(f.states[i], value)));
  }

  lemma ReplacedParts(refs: Refs, r: Rename, after: Refs)
    requires NameReplaced(refs, r, after)
    ensures KeyMoved(map k | k in refs.nodeActions :: RenameAction(r, refs.nodeActions[k]), r, after.nodeActions)
    ensures KeyMoved(refs.descriptions, r, after.descriptions)
    ensures after.endSources == RenameAll(refs.endSources, Some(r))
    ensures after.startSources == RenameAll(refs.startSources, Some(r))
  {
    hide KeyMoved, RenameAction, RenameAll;
  }

  lemma NotKeys(refs: Refs, live: set<Name>, s: Name)
    requires RefsLive(refs, live) && s !in live
    ensures s !in refs.nodeActions && s !in refs.descriptions
  {}

  /**
   * The two rename paths. They agree on the descriptions and on both source lists; they agree on the node actions
   * exactly when no action leads to the renamed state, because the form editor leaves the values behind.
   */
  lemma TwoRenamePaths(f: Form, i: nat, value: Name)
    requires i < |f.states| && Distinct(f.states) && value !in f.states && RefsLive(RefsOf(f), ToSet(f.states))
    ensures
      var g := UpdateState(f, i, value);
      var after := Reconcile(RefsOf(f), ToSet(g.states), Some(Rename(f.states[i], value)));
      && g.states == RenameAll(f.states, Some(Rename(f.states[i], value)))
      && g.transitions == Map(RenamesEnds(Rename(f.states[i], value)), f.transitions)
      && (value !in f.positions ==> KeyMoved(f.positions, Rename(f.states[i], value), g.positions))
      && g.descriptions == after.descriptions && g.endSources == after.endSources
      && g.startSources == after.startSources && g.nodeActions.Keys == after.nodeActions.Keys
      && (g.nodeActions == after.nodeActions <==>
            forall k :: k in f.nodeActions ==> !LeadsTo(f.nodeActions[k], f.states[i]))
  {
    var r := Rename(f.states[i], value);
    var live := ToSet(f.states);
    assert r.from in live && r.to !in live && r.from != r.to;
    hide *;
    UpdatedParts(f, i, value);
    RenamedStates(f.states, i, value);
    MovedKeyIs(f.positions, r);
    NotKeys(RefsOf(f), live, value);
    FreshName(f.states, r);
    var after := Reconcile(RefsOf(f), Renamed(live, r), Some(r));
    RenameLosesNothing(RefsOf(f), live, r);
    ReplacedParts(RefsOf(f), r, after);
    RefsAre(f);
    MoveKeyMoves(f.descriptions, r, after.descriptions);
    MovedActions(f.nodeActions, r, after.nodeActions);
  }

  lemma FreshName(states: seq<Name>, r: Rename)
    requires r.from in states && r.to !in states
    ensures Fresh(r, ToSet(states))
  {}

  lemma RefsAre(f: Form)
    ensures RefsOf(f) == Refs(f.nodeActions, f.descriptions, f.endSources, f.startSources)
  {}

  lemma {:induction false} ActionsButChanges(actions: seq<NodeAction>, gone: Name)
    ensures |ActionsBut(actions, gone)| <= |actions|
    ensures ActionsBut(actions, gone) == actions <==> !LeadsTo(actions, gone)
  {
    hide Filter, LeadsTo;
    if actions == [] {
      FilterEmpty(LeadsElsewhere(gone));
      NoneLeads(gone);
    } else {
      var init, last := actions[..|actions| - 1], actions[|actions| - 1];
      assert actions == init + [last];
      ActionsButChanges(init, gone);
      FilterLast(LeadsElsewhere(gone), init, last);
      LeadsLast(init, last, gone);
    }
  }

  lemma NoneLeads(gone: Name)
    ensures !LeadsTo([], gone)
  {}

  lemma LeadsLast(init: seq<NodeAction>, last: NodeAction, gone: Name)
    ensures LeadsTo(init + [last], gone) <==> LeadsTo(init, gone) || !LeadsElsewhere(gone)(last)
  {
    var all := init + [last];
    if i :| 0 <= i < |init| && init[i].kind == UpdateStatus && init[i].value == gone {
      assert all[i] == init[i];
    }
    if i :| 0 <= i < |all| && all[i].kind == UpdateStatus && all[i].value == gone {
      assert i < |init| ==> init[i] == all[i];
    }
    assert all[|init|] == last;
  }

  lemma ActionsStay(entries: map<Name, seq<NodeAction>>, gone: Name)
    ensures ActionsWithout(entries, gone) == entries - {gone} <==>
      forall k :: k in entries && k != gone ==> !LeadsTo(entries[k], gone)
  {
    hide ActionsBut, LeadsTo;
    forall k | k in entries {
      ActionsButChanges(entries[k], gone);
    }
    SameExactlyWhen(entries, gone);
  }

  lemma SameExactlyWhen(entries: map<Name, seq<NodeAction>>, gone: Name)
    ensures ActionsWithout(entries, gone) == entries - {gone} <==>
      forall k :: k in entries && k != gone ==> ActionsBut(entries[k], gone) == entries[k]
  {
    hide ActionsBut;
    var kept, plain := ActionsWithout(entries, gone), entries - {gone};
    assert kept.Keys == plain.Keys;
    if kept == plain {
      forall k | k in entries && k != gone ensures ActionsBut(entries[k], gone) == entries[k] {
        assert kept[k] == plain[k];
      }
    }
  }

  /** The two delete paths agree exactly when no remaining action leads to the removed state. */
  lemma TwoDeletePaths(f: Form, i: nat)
    requires i < |f.states| && RefsLive(RefsOf(f), ToSet(f.states))
    ensures
      var g := RemoveState(f, i);
      var after := Reconcile(RefsOf(f), ToSet(f.states) - {f.states[i]}, None);
      && g.states == Without(f.states, i) && g.transitions == f.transitions && f.states[i] !in g.positions
      && (forall k :: k in f.positions && k != f.states[i] ==> k in g.positions && g.positions[k] == f.positions[k])
      && g.descriptions == after.descriptions && g.endSources == after.endSources
      && g.startSources == after.startSources
      && (g.nodeActions == after.nodeActions <==>
            forall k :: k in f.nodeActions && k != f.states[i] ==> !LeadsTo(f.nodeActions[k], f.states[i]))
  {
    var gone := f.states[i];
    DeleteDropsExactly(RefsOf(f), ToSet(f.states), gone);
    ActionsStay(f.nodeActions, gone);
    hide RefsLive, Reconcile, LeadsTo, Filter, Except, ActionsWithout, ToSet;
  }

  /** A form of these states in which one has an action that leads to `target`. */
  function ActionForm(states: seq<Name>, owner: Name, target: Name): Form {
    Form(CustomMode, states, [], map[], map[owner := [NodeAction(OnEntry, UpdateStatus, target)]], map[],
      DEFAULT_TERMINALS, [], [])
  }

  lemma ActionFormLeads(states: seq<Name>, owner: Name, target: Name)
    requires owner in states && target in states
    ensures RefsLive(RefsOf(ActionForm(states, owner, target)), ToSet(states))
    ensures LeadsTo(ActionForm(states, owner, target).nodeActions[owner], target)
  {
    assert ActionForm(states, owner, target).nodeActions[owner][0].value == target;
  }

  /** Renaming a state with an action that leads to it: the two paths differ. */
  lemma RenamePathsDiffer()
    ensures
      var f := ActionForm(["A"], "A", "A");
      UpdateState(f, 0, "B").nodeActions != Reconcile(RefsOf(f), ToSet(["B"]), Some(Rename("A", "B"))).nodeActions
  {
    var f := ActionForm(["A"], "A", "A");
    ActionFormLeads(["A"], "A", "A");
    assert f.states[0 := "B"] == ["B"];
    TwoRenamePaths(f, 0, "B");
  }

  /** Removing a state while an action of another leads to it: the two paths differ. */
  lemma DeletePathsDiffer()
    ensures
      var f := ActionForm(["A", "B"], "B", "A");
      RemoveState(f, 0).nodeActions != Reconcile(RefsOf(f), ToSet(["A", "B"]) - {"A"}, None).nodeActions
  {
    var f := ActionForm(["A", "B"], "B", "A");
    ActionFormLeads(["A", "B"], "B", "A");
    assert "A"[0] != "B"[0];
    TwoDeletePaths(f, 0);
  }
}
