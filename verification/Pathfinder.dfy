/** The multi-hop pathfinder's graph and its bounded depth-first search. Every chain it
    reports is a simple path of the pruned graph, none is missed unless the cap is
    reached, and the cap is overshot by at most one chain per open frame. */
module Pathfinder {
  type Token = string
  type Path = seq<Token>

  datatype Venue = Aqua | Sushi | Curve

  /** A pool's edge; `liquidity` is only ever compared. */
  datatype Edge = Edge(a: Token, b: Token, venue: Venue, pool: string, liquidity: int)

  type Graph = map<Token, seq<Edge>>

  function Other(e: Edge, node: Token): Token {
    if e.a == node then e.b else e.a
  }

  function Edges(adj: Graph, node: Token): seq<Edge> {
    if node in adj then adj[node] else []
  }

  // ─── Adjacency ──────────────────────────────────────

  /** An edge is listed once at each of its ends. */
  function Ends(e: Edge, t: Token): seq<Edge> {
    (if e.a == t then [e] else []) + (if e.b == t then [e] else [])
  }

  function Incident(edges: seq<Edge>, t: Token): seq<Edge> {
    if edges == [] then [] else Incident(edges[..|edges| - 1], t) + Ends(edges[|edges| - 1], t)
  }

  function Of(list: seq<Edge>, v: Venue): seq<Edge> {
    if list == [] then [] else (if list[0].venue == v then [list[0]] else []) + Of(list[1..], v)
  }

  function InsertDeep(e: Edge, list: seq<Edge>): seq<Edge> {
    if list == [] || list[0].liquidity <= e.liquidity then [e] + list else [list[0]] + InsertDeep(e, list[1..])
  }

  /** The stable sort by liquidity, deepest first. */
  function Deepest(list: seq<Edge>): seq<Edge> {
    if list == [] then [] else InsertDeep(list[0], Deepest(list[1..]))
  }

  function Top(list: seq<Edge>, branchCap: nat): seq<Edge> {
    if branchCap < |list| then list[..branchCap] else list
  }

  /** The Aqua edges kept. */
  function KeptAqua(list: seq<Edge>, branchCap: nat): seq<Edge> {
    Top(Deepest(Of(list, Aqua)), branchCap)
  }

  /** The deepest Aqua edges, and every Sushi and Curve edge. */
  function Pruned(list: seq<Edge>, branchCap: nat): seq<Edge> {
    KeptAqua(list, branchCap) + Of(list, Sushi) + Of(list, Curve)
  }

  method AddEnd(adj: Graph, t: Token, e: Edge) returns (adj': Graph)
    ensures adj' == Added(adj, t, e)
  {
    adj' := if t in adj then adj else adj[t := []];
    adj' := adj'[t := adj'[t] + [e]];
  }

  ghost predicate Lists(adj: Graph, edges: seq<Edge>) {
    forall t :: Edges(adj, t) == Incident(edges, t)
  }

  function Added(adj: Graph, t: Token, e: Edge): Graph {
    adj[t := Edges(adj, t) + [e]]
  }

  lemma EdgesAdded(adj: Graph, t: Token, e: Edge, u: Token)
    ensures Edges(Added(adj, t, e), u) == Edges(adj, u) + if u == t then [e] else []
  {
  }

  lemma IncidentNext(edges: seq<Edge>, e: Edge, t: Token)
    ensures Incident(edges + [e], t) == Incident(edges, t) + Ends(e, t)
  {
    assert (edges + [e])[..|edges|] == edges;
  }

  lemma ListsNext(adj: Graph, edges: seq<Edge>, e: Edge)
    requires Lists(adj, edges)
    ensures Lists(Added(Added(adj, e.a, e), e.b, e), edges + [e])
  {
    hide Edges, Added, Incident;
    forall t ensures Edges(Added(Added(adj, e.a, e), e.b, e), t) == Incident(edges + [e], t) {
      EdgesAdded(adj, e.a, e, t);
      EdgesAdded(Added(adj, e.a, e), e.b, e, t);
      IncidentNext(edges, e, t);
      var mine := Edges(adj, t);
      assert mine + (if t == e.a then [e] else []) + (if t == e.b then [e] else []) == mine + Ends(e, t);
    }
  }

  method ListEdges(edges: seq<Edge>) returns (adj: Graph)
    ensures Lists(adj, edges)
  {
    adj := map[];
    assert Lists(map[], []);
    hide Lists, Edges, Incident, Added;
    assert edges[..0] == [];
    for i := 0 to |edges|
      invariant Lists(adj, edges[..i])
    {
      var e := edges[i];
      ListsNext(adj, edges[..i], e);
      assert edges[..i] + [e] == edges[..i + 1];
      adj := AddEnd(adj, e.a, e);
      adj := AddEnd(adj, e.b, e);
    }
    assert edges[..|edges|] == edges;
  }

  /** adjacency. */
  method Adjacency(edges: seq<Edge>, branchCap: nat) returns (adj: Graph)
    ensures forall t :: Edges(adj, t) == Pruned(Incident(edges, t), branchCap)
  {
    var listed := ListEdges(edges);
    adj := listed;
    var todo := listed.Keys;
    hide Incident, Pruned;
    while todo != {}
      invariant todo <= listed.Keys == adj.Keys
      invariant forall t :: t in listed ==> adj[t] == if t in todo then listed[t] else Pruned(listed[t], branchCap)
    {
      var t :| t in todo;
      adj := adj[t := Pruned(adj[t], branchCap)];
      todo := todo - {t};
    }
    NothingPruned(branchCap);
    forall t ensures Edges(adj, t) == Pruned(Incident(edges, t), branchCap) {
      assert Edges(listed, t) == Incident(edges, t);
    }
  }

  lemma NothingPruned(branchCap: nat)
    ensures Pruned([], branchCap) == []
  {
  }

  lemma {:induction false} OfKeeps(list: seq<Edge>, v: Venue)
    ensures forall e :: e in Of(list, v) <==> e in list && e.venue == v
  {
    if list != [] {
      OfKeeps(list[1..], v);
      assert list == [list[0]] + list[1..];
    }
  }

  predicate Descending(list: seq<Edge>) {
    |list| < 2 || (list[1].liquidity <= list[0].liquidity && Descending(list[1..]))
  }

  lemma {:induction false} DescendingAt(list: seq<Edge>, i: nat, j: nat)
    requires Descending(list) && i < j < |list|
    ensures list[j].liquidity <= list[i].liquidity
  {
    if 0 < i {
      DescendingAt(list[1..], i - 1, j - 1);
    } else if 1 < j {
      DescendingAt(list[1..], 0, j - 1);
    }
  }

  lemma {:induction false} InsertDeepSorts(e: Edge, list: seq<Edge>)
    requires Descending(list)
    ensures Descending(InsertDeep(e, list))
  {
    if list == [] || list[0].liquidity <= e.liquidity {
      assert ([e] + list)[1..] == list;
    } else {
      var rest := InsertDeep(e, list[1..]);
      InsertDeepSorts(e, list[1..]);
      assert ([list[0]] + rest)[1..] == rest;
    }
  }

  lemma {:induction false} InsertDeepKeeps(e: Edge, list: seq<Edge>)
    ensures multiset(InsertDeep(e, list)) == multiset([e]) + multiset(list)
  {
    if !(list == [] || list[0].liquidity <= e.liquidity) {
      InsertDeepKeeps(e, list[1..]);
      assert list == [list[0]] + list[1..];
    }
  }

  lemma {:induction false} DeepestSorts(list: seq<Edge>)
    ensures Descending(Deepest(list)) && multiset(Deepest(list)) == multiset(list)
  {
    if list != [] {
      hide InsertDeep, Descending;
      DeepestSorts(list[1..]);
      InsertDeepSorts(list[0], Deepest(list[1..]));
      InsertDeepKeeps(list[0], Deepest(list[1..]));
      assert list == [list[0]] + list[1..];
    }
  }

  lemma DeepestMembers(list: seq<Edge>)
    ensures |Deepest(list)| == |list| && forall e :: e in Deepest(list) <==> e in list
  {
    DeepestSorts(list);
    var deep := Deepest(list);
    assert |deep| == |multiset(deep)| == |list|;
    hide Deepest, Descending;
    forall e ensures e in deep <==> e in list {
      assert e in multiset(deep) <==> e in multiset(list);
    }
  }

  lemma TopIsDeepest(aqua: seq<Edge>, branchCap: nat, e: Edge, k: Edge)
    requires var kept := Top(Deepest(aqua), branchCap);
             e in aqua && e !in kept && k in kept
    ensures e.liquidity <= k.liquidity
  {
    var deep := Deepest(aqua);
    DeepestMembers(aqua);
    DeepestSorts(aqua);
    hide Deepest, Descending;
    var i: nat :| i < |deep| && deep[i] == e;
    var j: nat :| j < |Top(deep, branchCap)| && Top(deep, branchCap)[j] == k;
    assert deep[j] == k;
    var kept := Top(deep, branchCap);
    assert forall x :: 0 <= x < |kept| ==> kept[x] == deep[x] && kept[x] in kept;
    DescendingAt(deep, j, i);
  }

  /** Pruning drops only Aqua edges, keeps the cap's worth of them if there are that
      many, and never drops a deeper one for a shallower one. */
  lemma PruningKeepsBest(list: seq<Edge>, branchCap: nat)
    ensures var kept := Pruned(list, branchCap);
            && (forall e <- kept :: e in list)
            && (forall e <- list :: e.venue != Aqua ==> e in kept)
            && |KeptAqua(list, branchCap)| == (if branchCap < |Of(list, Aqua)| then branchCap else |Of(list, Aqua)|)
            && (forall e <- list, k <- KeptAqua(list, branchCap) ::
                  e.venue == Aqua && e !in kept ==> e.liquidity <= k.liquidity)
  {
    OfKeeps(list, Aqua);
    OfKeeps(list, Sushi);
    OfKeeps(list, Curve);
    DeepestMembers(Of(list, Aqua));
    hide Of, Deepest;
    assert forall e <- KeptAqua(list, branchCap) :: e in Deepest(Of(list, Aqua));
    forall e, k | e in list && e.venue == Aqua && e !in Pruned(list, branchCap) && k in KeptAqua(list, branchCap)
      ensures e.liquidity <= k.liquidity
    {
      TopIsDeepest(Of(list, Aqua), branchCap, e, k);
    }
  }
}
