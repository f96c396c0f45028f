/**
 * Where the layout departs from its documentation: a state behind an unsettled one keeps rank 0 although a source
 * leads to it.
 */
module LayoutGap {
  import opened StateMachine
  import opened AutoLayout

  ghost function Four(v: Name, p: Name, s: Name, q: Name, ofV: seq<Name>, ofP: seq<Name>, ofS: seq<Name>): Graph {
    map[v := ofV, p := ofP, s := ofS, q := []]
  }

  ghost function GapTransitions(v: Name, p: Name, s: Name, q: Name): seq<Transition> {
    [Plain(v, p, "a"), Plain(p, v, "b"), Plain(s, p, "c"), Plain(p, q, "d")]
  }

  ghost predicate Apart(v: Name, p: Name, s: Name, q: Name) {
    v != p && v != s && v != q && p != s && p != q && s != q
  }

  ghost function Hit(states: seq<Name>, t: Transition, u: Name): seq<Name> {
    if Usable(states, t) && t.from == u then [t.to] else []
  }

  lemma TargetsOfFour(states: seq<Name>, a: Transition, b: Transition, c: Transition, d: Transition, u: Name)
    ensures Targets(states, [a, b, c, d], u)
         == Hit(states, a, u) + Hit(states, b, u) + Hit(states, c, u) + Hit(states, d, u)
  {
    assert [a, b, c, d][..3] == [a, b, c] && [a, b, c][..2] == [a, b] && [a, b][..1] == [a] && [a][..0] == [];
    assert Targets(states, [a], u) == Hit(states, a, u);
    assert Targets(states, [a, b], u) == Hit(states, a, u) + Hit(states, b, u);
    assert Targets(states, [a, b, c], u) == Hit(states, a, u) + Hit(states, b, u) + Hit(states, c, u);
  }

  lemma GapUsable(v: Name, p: Name, s: Name, q: Name)
    requires Apart(v, p, s, q)
    ensures UsableGraph([v, p, s, q], GapTransitions(v, p, s, q)) == Four(v, p, s, q, [p], [v, q], [p])
  {
    var states, ts := [v, p, s, q], GapTransitions(v, p, s, q);
    assert states[0] == v && states[1] == p && states[2] == s && states[3] == q;
    forall u | u in states ensures Targets(states, ts, u) == Four(v, p, s, q, [p], [v, q], [p])[u] {
      TargetsOfFour(states, ts[0], ts[1], ts[2], ts[3], u);
    }
  }

  ghost predicate TopIs(adj: Graph, s: Search, below: seq<Frame>, u: Name, k: nat) {
    Fits(adj, s) && s.stack == below + [Frame(u, k)] && u in adj
  }

  lemma TopIsLast(adj: Graph, s: Search, below: seq<Frame>, u: Name, k: nat)
    requires TopIs(adj, s, below, u, k)
    ensures s.stack != [] && s.stack[|s.stack| - 1] == Frame(u, k) && s.stack[..|s.stack| - 1] == below
    ensures Explore(adj, s) == Explore(adj, Step(adj, s)) && Fits(adj, Step(adj, s))
  {
    hide Explore, Fits, Step;
    ExploreTurn(adj, s);
    assert (below + [Frame(u, k)])[..|below|] == below;
  }

  lemma TreeTurn(adj: Graph, s: Search, below: seq<Frame>, u: Name, k: nat, w: Name)
    requires TopIs(adj, s, below, u, k) && k < |adj[u]| && adj[u][k] == w && w !in s.visited && u in s.dag
    ensures
      var r := s.(stack := below + [Frame(u, k + 1)] + [Frame(w, 0)], visited := s.visited + {w},
        onStack := s.onStack + {w}, dag := s.dag[u := s.dag[u] + [w]]);
      Fits(adj, r) && Explore(adj, s) == Explore(adj, r)
  {
    hide Explore, Fits;
    TopIsLast(adj, s, below, u, k);
  }

  lemma SeenTurn(adj: Graph, s: Search, below: seq<Frame>, u: Name, k: nat, w: Name)
    requires TopIs(adj, s, below, u, k) && k < |adj[u]| && adj[u][k] == w && w in s.visited && u in s.dag
    ensures
      var t := s.(stack := below + [Frame(u, k + 1)]);
      var r := if w in s.onStack then t.(dropped := s.dropped + {(u, w)}) else t.(dag := s.dag[u := s.dag[u] + [w]]);
      Fits(adj, r) && Explore(adj, s) == Explore(adj, r)
  {
    hide Explore, Fits;
    TopIsLast(adj, s, below, u, k);
  }

  lemma PopTurn(adj: Graph, s: Search, below: seq<Frame>, u: Name, k: nat)
    requires TopIs(adj, s, below, u, k) && k >= |adj[u]|
    ensures
      var r := s.(stack := below, onStack := s.onStack - {u}, done := s.done + [u]);
      Fits(adj, r) && Explore(adj, s) == Explore(adj, r)
  {
    hide Explore, Fits;
    TopIsLast(adj, s, below, u, k);
  }

  /** `s` runs on to `r`. */
  ghost predicate RunsTo(adj: Graph, s: Search, r: Search) {
    Fits(adj, s) && Fits(adj, r) && Explore(adj, s) == Explore(adj, r)
  }

  lemma GapDescend(v: Name, p: Name, s: Name, q: Name, adj: Graph, at: Search)
    requires Apart(v, p, s, q) && adj == Four(v, p, s, q, [p], [v, q], [p])
    requires at == Search([Frame(v, 0)], {v}, {v}, Four(v, p, s, q, [], [], []), [], {})
    ensures RunsTo(adj, at, Search([Frame(v, 1), Frame(p, 0)], {v, p}, {v, p}, Four(v, p, s, q, [p], [], []), [], {}))
  {
    hide Explore;
    assert [] + [Frame(v, 0)] == [Frame(v, 0)] && [] + [p] == [p];
    assert [] + [Frame(v, 1)] + [Frame(p, 0)] == [Frame(v, 1), Frame(p, 0)];
    assert {v} + {p} == {v, p} && Four(v, p, s, q, [], [], [])[v := [p]] == Four(v, p, s, q, [p], [], []);
    TreeTurn(adj, at, [], v, 0, p);
  }

  lemma GapBack(v: Name, p: Name, s: Name, q: Name, adj: Graph, at: Search)
    requires Apart(v, p, s, q) && adj == Four(v, p, s, q, [p], [v, q], [p])
    requires at == Search([Frame(v, 1), Frame(p, 0)], {v, p}, {v, p}, Four(v, p, s, q, [p], [], []), [], {})
    ensures RunsTo(adj, at, at.(stack := [Frame(v, 1), Frame(p, 1)], dropped := {(p, v)}))
  {
    hide Explore;
    assert [Frame(v, 1)] + [Frame(p, 0)] == at.stack && [Frame(v, 1)] + [Frame(p, 1)] == [Frame(v, 1), Frame(p, 1)];
    assert at.dropped + {(p, v)} == {(p, v)};
    SeenTurn(adj, at, [Frame(v, 1)], p, 0, v);
  }

  lemma GapDeeper(v: Name, p: Name, s: Name, q: Name, adj: Graph, at: Search)
    requires Apart(v, p, s, q) && adj == Four(v, p, s, q, [p], [v, q], [p])
    requires at == Search([Frame(v, 1), Frame(p, 1)], {v, p}, {v, p}, Four(v, p, s, q, [p], [], []), [], {(p, v)})
    ensures RunsTo(adj, at, Search([Frame(v, 1), Frame(p, 2), Frame(q, 0)], {v, p, q}, {v, p, q},
                              Four(v, p, s, q, [p], [q], []), [], {(p, v)}))
  {
    hide Explore;
    assert [Frame(v, 1)] + [Frame(p, 1)] == at.stack && [] + [q] == [q];
    assert [Frame(v, 1)] + [Frame(p, 2)] + [Frame(q, 0)] == [Frame(v, 1), Frame(p, 2), Frame(q, 0)];
    assert {v, p} + {q} == {v, p, q} && Four(v, p, s, q, [p], [], [])[p := [q]] == Four(v, p, s, q, [p], [q], []);
    TreeTurn(adj, at, [Frame(v, 1)], p, 1, q);
  }

  lemma GapReturn(v: Name, p: Name, s: Name, q: Name, adj: Graph, at: Search)
    requires Apart(v, p, s, q) && adj == Four(v, p, s, q, [p], [v, q], [p])
    requires at == Search([Frame(v, 1), Frame(p, 2), Frame(q, 0)], {v, p, q}, {v, p, q},
                     Four(v, p, s, q, [p], [q], []), [], {(p, v)})
    requires Fits(adj, at)
    ensures Explore(adj, at) == Search([], {v, p, q}, {}, at.dag, [q, p, v], at.dropped)
  {
    hide Explore;
    assert [Frame(v, 1), Frame(p, 2)] + [Frame(q, 0)] == at.stack;
    PopTurn(adj, at, [Frame(v, 1), Frame(p, 2)], q, 0);
    var b := at.(stack := [Frame(v, 1), Frame(p, 2)], onStack := at.onStack - {q}, done := [q]);
    assert at.done + [q] == [q] && [Frame(v, 1)] + [Frame(p, 2)] == b.stack;
    PopTurn(adj, b, [Frame(v, 1)], p, 2);
    var c := b.(stack := [Frame(v, 1)], onStack := b.onStack - {p}, done := [q, p]);
    assert b.done + [p] == [q, p] && [] + [Frame(v, 1)] == c.stack;
    PopTurn(adj, c, [], v, 1);
    assert c.done + [v] == [q, p, v] && c.onStack - {v} == {};
    ExploreIdle(adj, c.(stack := [], onStack := {}, done := [q, p, v]));
  }

  /** From the second root, `s`, only the cross edge to `p` is left. */
  lemma GapSecondRoot(v: Name, p: Name, s: Name, q: Name, adj: Graph, at: Search)
    requires Apart(v, p, s, q) && adj == Four(v, p, s, q, [p], [v, q], [p])
    requires at == Search([Frame(s, 0)], {v, p, q, s}, {s}, Four(v, p, s, q, [p], [q], []), [q, p, v], {(p, v)})
    ensures Fits(adj, at) && Explore(adj, at).dag == Four(v, p, s, q, [p], [q], [p])
    ensures Explore(adj, at).visited == {v, p, q, s}
  {
    hide Explore;
    assert [] + [Frame(s, 0)] == at.stack && [] + [p] == [p] && [] + [Frame(s, 1)] == [Frame(s, 1)];
    assert Four(v, p, s, q, [p], [q], [])[s := [p]] == Four(v, p, s, q, [p], [q], [p]);
    SeenTurn(adj, at, [], s, 0, p);
    var b := at.(stack := [Frame(s, 1)], dag := Four(v, p, s, q, [p], [q], [p]));
    PopTurn(adj, b, [], s, 1);
    ExploreIdle(adj, b.(stack := [], onStack := b.onStack - {s}, done := b.done + [s]));
  }

  lemma GapFirstRoot(v: Name, p: Name, s: Name, q: Name, adj: Graph)
    requires Apart(v, p, s, q) && adj == Four(v, p, s, q, [p], [v, q], [p])
    ensures Fits(adj, Start(Unsearched(adj), v))
    ensures Explore(adj, Start(Unsearched(adj), v))
         == Search([], {v, p, q}, {}, Four(v, p, s, q, [p], [q], []), [q, p, v], {(p, v)})
  {
    hide Explore;
    var a := Start(Unsearched(adj), v);
    assert a == Search([Frame(v, 0)], {v}, {v}, Four(v, p, s, q, [], [], []), [], {});
    GapDescend(v, p, s, q, adj, a);
    var b := Search([Frame(v, 1), Frame(p, 0)], {v, p}, {v, p}, Four(v, p, s, q, [p], [], []), [], {});
    GapBack(v, p, s, q, adj, b);
    var c := b.(stack := [Frame(v, 1), Frame(p, 1)], dropped := {(p, v)});
    GapDeeper(v, p, s, q, adj, c);
    var d := Search([Frame(v, 1), Frame(p, 2), Frame(q, 0)], {v, p, q}, {v, p, q},
      Four(v, p, s, q, [p], [q], []), [], {(p, v)});
    GapReturn(v, p, s, q, adj, d);
  }

  /** The search roots at `v`, so the edge from `v` to `p` stays and the one back goes. */
  lemma GapRetained(v: Name, p: Name, s: Name, q: Name)
    requires Apart(v, p, s, q)
    ensures RetainedGraph([v, p, s, q], GapTransitions(v, p, s, q)) == Four(v, p, s, q, [p], [q], [p])
  {
    var adj := Four(v, p, s, q, [p], [v, q], [p]);
    GapUsable(v, p, s, q);
    GapFirstRoot(v, p, s, q, adj);
    var mid := Search([], {v, p, q}, {}, Four(v, p, s, q, [p], [q], []), [q, p, v], {(p, v)});
    var second := Start(mid, s);
    assert second == Search([Frame(s, 0)], {v, p, q, s}, {s}, Four(v, p, s, q, [p], [q], []), [q, p, v], {(p, v)});
    GapSecondRoot(v, p, s, q, adj, second);
    var end := Explore(adj, second);
    hide Explore;
    GapOrder(v, p, s, q, adj, mid, end);
  }

  /** The outer loop starts a search at the first state and at the third. */
  lemma GapOrder(v: Name, p: Name, s: Name, q: Name, adj: Graph, mid: Search, end: Search)
    requires Apart(v, p, s, q) && adj.Keys == {v, p, s, q} && Fits(adj, Unsearched(adj))
    requires Fits(adj, Start(Unsearched(adj), v)) && mid == Explore(adj, Start(Unsearched(adj), v))
    requires Fits(adj, mid) && mid.stack == [] && mid.visited == {v, p, q}
    requires Fits(adj, Start(mid, s)) && end == Explore(adj, Start(mid, s))
    requires Fits(adj, end) && end.stack == [] && end.visited == {v, p, q, s}
    ensures SearchAll(adj, [v, p, s, q], Unsearched(adj)) == end
  {
    hide Explore, Fits, Start;
    assert [v, p, s, q][1..] == [p, s, q] && [p, s, q][1..] == [s, q] && [s, q][1..] == [q] && [q][1..] == [];
    assert SearchAll(adj, [], end) == end;
    assert SearchAll(adj, [q], end) == end;
    assert SearchAll(adj, [s, q], mid) == end;
    assert SearchAll(adj, [p, s, q], mid) == end;
  }

  lemma GapSources(v: Name, p: Name, s: Name, q: Name)
    requires Apart(v, p, s, q)
    ensures BareStates([v, p, s, q], GapTransitions(v, p, s, q)) == {s}
  {
    GapUsable(v, p, s, q);
    var adj := Four(v, p, s, q, [p], [v, q], [p]);
    assert [v, p, s, q][0] == v && [v, p, s, q][1] == p && [v, p, s, q][2] == s && [v, p, s, q][3] == q;
    assert [v, q][0] == v && [v, q][1] == q && v in adj[p] && p in adj[s] && q in adj[p];
  }

  lemma GapSettled(v: Name, p: Name, s: Name, q: Name, g: Graph)
    requires Apart(v, p, s, q) && g == Four(v, p, s, q, [p], [q], [p])
    ensures !Settled(g, {s}, v) && !Settled(g, {s}, p) && Settled(g, {s}, s)
    ensures forall path :: PathTo(g, path, s) || PathTo(g, path, v) ==> |path| == 1
    ensures PathTo(g, [s, p, q], q) && PathTo(g, [s, p], p) && PathTo(g, [q], q)
  {
    assert HasNoIncoming(g, v) && HasNoIncoming(g, s);
    assert PathTo(g, [v], v) && PathTo(g, [v, p], p);
    forall path, b | PathTo(g, path, b) && HasNoIncoming(g, b) ensures |path| == 1 {
      if |path| > 1 {
        LastEdge(g, path, b);
      }
    }
  }

  lemma GapRankOfQ(v: Name, p: Name, s: Name, q: Name, g: Graph)
    requires Apart(v, p, s, q) && g == Four(v, p, s, q, [p], [q], [p])
    ensures RankIs(g, {s}, q, 0)
  {
    GapSettled(v, p, s, q, g);
    hide Settled, IsPath;
    assert SettledPath(g, {s}, [q], q);
    forall path | SettledPath(g, {s}, path, q) ensures |path| <= 1 {
      if |path| > 1 {
        LastEdge(g, path, q);
      }
    }
  }

  lemma GapRankOfP(v: Name, p: Name, s: Name, q: Name, g: Graph)
    requires Apart(v, p, s, q) && g == Four(v, p, s, q, [p], [q], [p])
    ensures RankIs(g, {s}, p, 1)
  {
    GapSettled(v, p, s, q, g);
    hide Settled, IsPath;
    assert SettledPath(g, {s}, [s, p], p);
    forall path | SettledPath(g, {s}, path, p) ensures |path| <= 2 {
      if |path| > 1 {
        LastEdge(g, path, p);
      }
    }
  }

  /**
   * The documented rank, a longest path from a source, is not what a state gets behind an unsettled one. With edges
   * `v -> p`, `p -> v`, `s -> p` and `p -> q`, the source `s` leads to `q` along two retained edges, yet `q` ranks 0.
   */
  lemma RankGap(v: Name, p: Name, s: Name, q: Name)
    requires Apart(v, p, s, q)
    ensures
      var g := RetainedGraph([v, p, s, q], GapTransitions(v, p, s, q));
      BareStates([v, p, s, q], GapTransitions(v, p, s, q)) == {s} && PathTo(g, [s, p, q], q)
      && RankIs(g, {s}, p, 1) && RankIs(g, {s}, q, 0)
  {
    hide *;
    var g := Four(v, p, s, q, [p], [q], [p]);
    GapRetained(v, p, s, q);
    GapSources(v, p, s, q);
    GapSettled(v, p, s, q, g);
    GapRankOfP(v, p, s, q, g);
    GapRankOfQ(v, p, s, q, g);
  }
}
